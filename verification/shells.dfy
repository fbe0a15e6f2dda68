/**
  The shells the renderer targets and the behaviour each one renders with
  (src/shells.rs). The trait with default method bodies becomes a closed
  datatype of the shell structs: every operation matches on it, sends fish,
  xonsh and elvish to their overrides, and renders bash and zsh with the
  POSIX-family defaults written out here.
 */
module Shells {
  import opened Wrappers
  import opened Parts
  import Text
  import FishDialect
  import XonshDialect
  import ElvishDialect

  datatype Shells = Bash | Dash | Elvish | Fish | Nu | Xonsh | Zsh

  /** The `Display` name: the lower-case shell name the command line also accepts. */
  function Name(s: Shells): (r: string)
    ensures |r| > 0
    ensures forall i :: 0 <= i < |r| ==> 'a' <= r[i] <= 'z'
  {
    match s
    case Bash => "bash"
    case Dash => "dash"
    case Elvish => "elvish"
    case Fish => "fish"
    case Nu => "nu"
    case Xonsh => "xonsh"
    case Zsh => "zsh"
  }

  /** The command-line lookup from a name back to the shell. */
  function FromName(name: string): Option<Shells>
  {
    if name == "bash" then Some(Bash)
    else if name == "dash" then Some(Dash)
    else if name == "elvish" then Some(Elvish)
    else if name == "fish" then Some(Fish)
    else if name == "nu" then Some(Nu)
    else if name == "xonsh" then Some(Xonsh)
    else if name == "zsh" then Some(Zsh)
    else None
  }

  /** Every shell's name reads back as that shell, so no two shells share a name. */
  lemma NameRoundTrip(s: Shells)
    ensures FromName(Name(s)) == Some(s)
  {
  }

  lemma NamesDistinct(s: Shells, s': Shells)
    requires Name(s) == Name(s')
    ensures s == s'
  {
    NameRoundTrip(s);
    NameRoundTrip(s');
  }

  /** The behaviours this model defines, one per shell struct. */
  datatype Behavior = BashShell | ZshShell | FishShell | XonshShell | ElvishShell

  /** The shell a behaviour belongs to. */
  function ShellOf(b: Behavior): Shells
  {
    match b
    case BashShell => Bash
    case ZshShell => Zsh
    case FishShell => Fish
    case XonshShell => Xonsh
    case ElvishShell => Elvish
  }

  /** The behaviour for a shell; dash and nu have behaviours whose bodies are not part of this model. */
  function CreateBehavior(s: Shells): (r: Option<Behavior>)
    ensures r.None? <==> s == Dash || s == Nu
    ensures r.Some? ==> ShellOf(r.value) == s
  {
    match s
    case Bash => Some(BashShell)
    case Zsh => Some(ZshShell)
    case Fish => Some(FishShell)
    case Xonsh => Some(XonshShell)
    case Elvish => Some(ElvishShell)
    case Dash => None
    case Nu => None
  }

  /** Bash and zsh override nothing. */
  predicate UsesDefaults(b: Behavior)
  {
    b == BashShell || b == ZshShell
  }

  // ---------------------------------------------------------------------------
  // The POSIX-family defaults
  // ---------------------------------------------------------------------------

  /** The splice that stands for one `'`: close the quote, `"'"`, reopen. */
  const Splice: string := "\"'\""

  function QuoteRun(v: string): string
  {
    if |v| == 0 then [] else "'" + v + "'"
  }

  function QuoteRuns(ps: seq<string>): (qs: seq<string>)
    ensures |qs| == |ps|
    ensures forall i :: 0 <= i < |ps| ==> qs[i] == QuoteRun(ps[i])
  {
    if |ps| == 0 then [] else [QuoteRun(ps[0])] + QuoteRuns(ps[1..])
  }

  /**
    Split at every `'`, wrap each non-empty run in `'…'`, and join the runs
    with the splice. Text without `'` is simply wrapped; the empty string
    gives the empty string.
   */
  function DefaultSingleQuote(s: string): (r: string)
    ensures s == [] ==> r == []
    ensures '\'' !in s && s != [] ==> r == "'" + s + "'"
  {
    var ps := Text.Split(s, '\'');
    Text.JoinSplit(s, '\'');
    Text.Join(QuoteRuns(ps), Splice)
  }

  // ---------------------------------------------------------------------------
  // Dispatch
  // ---------------------------------------------------------------------------

  function SingleQuote(b: Behavior, s: string): string
  {
    match b
    case FishShell => FishDialect.SingleQuote(s)
    case XonshShell => XonshDialect.SingleQuote(s)
    case ElvishShell => ElvishDialect.SingleQuote(s)
    case _ => DefaultSingleQuote(s)
  }

  /** How one part renders; the default body quotes through the behaviour's own `SingleQuote`. */
  function ShellFormat(b: Behavior, kind: ValuePartKind, value: string): string
  {
    match b
    case FishShell => FishDialect.ShellFormat(kind, value)
    case XonshShell => XonshDialect.ShellFormat(kind, value)
    case ElvishShell => ElvishDialect.ShellFormat(kind, value)
    case _ =>
      match kind
      case Literal => SingleQuote(b, value)
      case ShellVariable => "\"$" + value + "\""
      case ShellCommand => "$(eval " + SingleQuote(b, value) + ")"
      case Home => "$(eval echo \"~" + value + "\")"
  }

  /** The assignment statement; the default ignores the path flag. */
  function SetVariable(b: Behavior, name: string, value: string, isPath: bool): string
  {
    match b
    case FishShell => FishDialect.SetVariable(name, value, isPath)
    case XonshShell => XonshDialect.SetVariable(name, value, isPath)
    case ElvishShell => ElvishDialect.SetVariable(name, value, isPath)
    case _ => "export " + name + "=" + value
  }

  function UnsetVariable(b: Behavior, name: string): string
  {
    match b
    case FishShell => FishDialect.UnsetVariable(name)
    case XonshShell => XonshDialect.UnsetVariable(name)
    case ElvishShell => ElvishDialect.UnsetVariable(name)
    case _ => "unset " + name
  }

  /** The rendered parts, in order, with nothing between them. */
  function ExpandValue(b: Behavior, parts: seq<ValuePart>): string
  {
    if |parts| == 0 then [] else ShellFormat(b, parts[0].kind, parts[0].value) + ExpandValue(b, parts[1..])
  }

  // ---------------------------------------------------------------------------
  // Properties
  // ---------------------------------------------------------------------------

  /** One-part rendering, spelled out. */
  lemma ExpandOne(b: Behavior, p: ValuePart)
    ensures ExpandValue(b, [p]) == ShellFormat(b, p.kind, p.value)
    ensures Atoms([p]) == PartAtoms(p)
  {
    assert [p][1..] == [];
    assert ExpandValue(b, [p]) == ShellFormat(b, p.kind, p.value) + [];
    assert Atoms([p]) == PartAtoms(p) + [];
  }

  /** Two-part rendering, spelled out. */
  lemma ExpandTwo(b: Behavior, p: ValuePart, q: ValuePart)
    ensures ExpandValue(b, [p, q]) == ShellFormat(b, p.kind, p.value) + ShellFormat(b, q.kind, q.value)
    ensures Atoms([p, q]) == PartAtoms(p) + PartAtoms(q)
  {
    assert [p, q][1..] == [q];
    assert [q][1..] == [];
    assert ExpandValue(b, [q]) == ShellFormat(b, q.kind, q.value) + [];
    assert Atoms([q]) == PartAtoms(q) + [];
  }


  /** Rendering is a homomorphism from part sequences to strings: no separators, nothing reordered. */
  lemma {:induction false} ExpandValueAppend(b: Behavior, p: seq<ValuePart>, q: seq<ValuePart>)
    ensures ExpandValue(b, []) == []
    ensures ExpandValue(b, p + q) == ExpandValue(b, p) + ExpandValue(b, q)
  {
    if |p| > 0 {
      assert (p + q)[0] == p[0];
      assert (p + q)[1..] == p[1..] + q;
      ExpandValueAppend(b, p[1..], q);
      Text.Associative(ShellFormat(b, p[0].kind, p[0].value), ExpandValue(b, p[1..]), ExpandValue(b, q));
    } else {
      assert p + q == q;
    }
  }

  /** Zsh renders every part, value and statement exactly as bash does. */
  lemma ZshRendersAsBash(kind: ValuePartKind, value: string, name: string, isPath: bool, parts: seq<ValuePart>)
    ensures ShellFormat(ZshShell, kind, value) == ShellFormat(BashShell, kind, value)
    ensures SetVariable(ZshShell, name, value, isPath) == SetVariable(BashShell, name, value, isPath)
    ensures UnsetVariable(ZshShell, name) == UnsetVariable(BashShell, name)
    ensures ExpandValue(ZshShell, parts) == ExpandValue(BashShell, parts)
    decreases |parts|
  {
    if |parts| > 0 {
      ZshRendersAsBash(parts[0].kind, parts[0].value, name, isPath, parts[1..]);
    }
  }

  /** Sum of the occurrences of `c` over a sequence of strings. */
  function CountAll(ps: seq<string>, c: char): nat
  {
    if |ps| == 0 then 0 else Text.Count(ps[0], c) + CountAll(ps[1..], c)
  }

  /** A join adds the occurrences of its separators to those of its pieces. */
  lemma MulStep(n: int, k: int)
    ensures n * k == (n - 1) * k + k
  {
  }

  lemma {:induction false} CountJoin(ps: seq<string>, sep: string, c: char)
    requires |ps| > 0
    ensures Text.Count(Text.Join(ps, sep), c) == CountAll(ps, c) + (|ps| - 1) * Text.Count(sep, c)
  {
    if |ps| > 1 {
      var k := Text.Count(sep, c);
      CountJoin(ps[1..], sep, c);
      Text.CountAppend(ps[0], sep, c);
      Text.CountAppend(ps[0] + sep, Text.Join(ps[1..], sep), c);
      assert Text.Join(ps, sep) == ps[0] + sep + Text.Join(ps[1..], sep);
      assert CountAll(ps, c) == Text.Count(ps[0], c) + CountAll(ps[1..], c);
      MulStep(|ps| - 1, k);
    }
  }

  lemma {:induction false} CountQuoteRuns(ps: seq<string>)
    ensures CountAll(QuoteRuns(ps), '"') == CountAll(ps, '"')
  {
    if |ps| > 0 {
      CountQuoteRuns(ps[1..]);
      assert QuoteRuns(ps)[1..] == QuoteRuns(ps[1..]);
      if |ps[0]| > 0 {
        Text.CountAppend("'", ps[0], '"');
        Text.CountAppend("'" + ps[0], "'", '"');
      }
    }
  }

  /**
    The default quoting adds exactly one splice, that is two `"`, per `'` of
    the input, and no other double quote.
   */
  lemma DefaultSpliceCount(s: string)
    ensures Text.Count(DefaultSingleQuote(s), '"') == Text.Count(s, '"') + 2 * Text.Count(s, '\'')
  {
    var ps := Text.Split(s, '\'');
    var qs := QuoteRuns(ps);
    assert Text.Count(Splice, '"') == 2;
    assert Text.Count(['\''], '"') == 0;
    CountJoin(qs, Splice, '"');
    assert Text.Count(Text.Join(qs, Splice), '"') == CountAll(qs, '"') + (|qs| - 1) * 2;
    CountQuoteRuns(ps);
    Text.JoinSplit(s, '\'');
    CountJoin(ps, ['\''], '"');
    assert Text.Count(s, '"') == CountAll(ps, '"') + (|ps| - 1) * 0;
    assert |qs| - 1 == Text.Count(s, '\'');
  }
}
