/**
  The unit a parsed configuration value is made of (`ValuePart` with its
  `ValuePartKind`). The parser that produces these sequences is not part of
  this model: the renderer takes the sequence as its input.

  `Atom` is what a rendered value stands for once a shell reads it back:
  literal characters one at a time, and the three kinds of live reference.
  Spelling literal text character by character makes "`a` then `b`" and
  "`ab`" the same meaning, as they are to a shell.
 */
module Parts {

  datatype ValuePartKind = Literal | ShellVariable | ShellCommand | Home

  datatype ValuePart = ValuePart(value: string, kind: ValuePartKind)

  datatype Atom = Char(c: char) | VarRef(name: string) | CmdSubst(command: string) | HomeOf(user: string)

  /** Literal text as atoms, one per character. */
  function Chars(s: string): (a: seq<Atom>)
    ensures |a| == |s|
    ensures forall i :: 0 <= i < |s| ==> a[i] == Char(s[i])
  {
    seq(|s|, i requires 0 <= i < |s| => Char(s[i]))
  }

  lemma CharsAppend(a: string, b: string)
    ensures Chars(a + b) == Chars(a) + Chars(b)
  {
  }

  /** The meaning of one part. */
  function PartAtoms(p: ValuePart): seq<Atom>
  {
    match p.kind
    case Literal => Chars(p.value)
    case ShellVariable => [VarRef(p.value)]
    case ShellCommand => [CmdSubst(p.value)]
    case Home => [HomeOf(p.value)]
  }

  /** The meaning of a sequence of parts: the meanings of the parts, in order. */
  function Atoms(parts: seq<ValuePart>): seq<Atom>
  {
    if |parts| == 0 then [] else PartAtoms(parts[0]) + Atoms(parts[1..])
  }

  /**
    Variable names and user names are emitted between double quotes by the
    POSIX-family and fish renderers, so reading them back needs them free of `"`.
   */
  predicate Readable(parts: seq<ValuePart>)
  {
    forall i :: 0 <= i < |parts| && parts[i].kind != Literal && parts[i].kind != ShellCommand ==>
      '"' !in parts[i].value
  }
}
