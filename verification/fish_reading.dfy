/**
  Reading a value rendered by the fish dialect back into the atoms of its
  parts. Inside fish's `'…'`, `\\` stands for a backslash and `\'` for a
  quote; any other backslash is itself. The reader splits the text at the
  delimiters the renderer writes: `'…'` runs, `"$NAME"`, `(eval '…')` and
  `(eval echo "~USER")`, taking everything up to a closing `"` as one name.
  Like the POSIX reader it inverts the renderer rather than reading the way
  fish does.
 */
module FishReading {
  import opened Wrappers
  import opened Parts
  import Text
  import Backslash
  import FishDialect
  import opened Shells
  import opened Readers

  const CmdOpen: string := "(eval '"
  const HomeOpen: string := "(eval echo \"~"

  /**
    Reads the inside of a fish `'…'` string up to its closing quote: the
    text it stands for and the rest after the quote. An unterminated string
    is an error.
   */
  function ReadQuoted(t: string): (r: Option<(string, string)>)
    ensures r.Some? ==> |r.value.1| < |t|
  {
    if |t| == 0 then None
    else if t[0] == '\'' then Some(([], t[1..]))
    else if t[0] == '\\' && |t| >= 2 && (t[1] == '\\' || t[1] == '\'') then PrependWord([t[1]], ReadQuoted(t[2..]))
    else PrependWord([t[0]], ReadQuoted(t[1..]))
  }

  /** A whole string read as one fish `'…'` string. */
  function Unquote(t: string): Option<string>
  {
    if |t| > 0 && t[0] == '\'' then
      match ReadQuoted(t[1..])
      case Some((w, rest)) => if rest == [] then Some(w) else None
      case None => None
    else None
  }

  function ReadToken(t: string): (r: Option<(seq<Atom>, string)>)
    requires |t| > 0
    ensures r.Some? ==> |r.value.1| < |t|
  {
    if t[0] == '\'' then
      match ReadQuoted(t[1..])
      case None => None
      case Some((text, rest)) => Some((Chars(text), rest))
    else if t[0] == '"' && |t| >= 2 && t[1] == '$' then
      match Text.ReadUntil(t[2..], '"')
      case None => None
      case Some((name, rest)) => Some(([VarRef(name)], rest))
    else if Text.HasPrefix(t, HomeOpen) then
      match Text.ReadUntil(t[|HomeOpen|..], '"')
      case None => None
      case Some((user, rest)) => Close([HomeOf(user)], rest)
    else if Text.HasPrefix(t, CmdOpen) then
      match ReadQuoted(t[|CmdOpen|..])
      case None => None
      case Some((cmd, rest)) => Close([CmdSubst(cmd)], rest)
    else None
  }

  /** Reads a rendered fish value token by token into atoms. */
  function Read(t: string): Option<seq<Atom>>
    decreases |t|
  {
    if |t| == 0 then Some([])
    else
      match ReadToken(t)
      case None => None
      case Some((a, rest)) => Cons(a, Read(rest))
  }

  lemma ReadAfterToken(u: string, a: seq<Atom>, t: string)
    requires |u| > 0 && ReadToken(u) == Some((a, t))
    ensures Read(u) == Cons(a, Read(t))
  {
  }

  /** One escaped character, read back. */
  lemma ReadEscapedChar(c: char, tail: string)
    ensures ReadQuoted(Backslash.EscapeChar(c) + tail) == PrependWord([c], ReadQuoted(tail))
  {
    var u := Backslash.EscapeChar(c) + tail;
    if c == '\\' || c == '\'' {
      assert u[0] == '\\' && u[1] == c;
      assert u[2..] == tail;
    } else {
      assert u[0] == c;
      assert u[1..] == tail;
    }
  }

  lemma Regroup4(a: string, b: string, c: string, d: string)
    ensures ((a + b) + c) + d == a + ((b + c) + d)
  {
  }

  /** A quoted run with text after it, as the reader meets it. */
  lemma OpenQuote(e: string, t: string)
    ensures var u := "'" + e + "'" + t; |u| > 0 && u[0] == '\'' && u[1..] == e + "'" + t
  {
    var u := "'" + e + "'" + t;
    assert u == "'" + (e + "'" + t);
  }

  /** Reading escaped text stops at the first unescaped quote and recovers the text. */
  lemma {:induction false} ReadEscaped(s: string, t: string)
    ensures ReadQuoted(Backslash.Escape(s) + "'" + t) == Some((s, t))
  {
    var u := Backslash.Escape(s) + "'" + t;
    if |s| == 0 {
      assert u == "'" + t;
      assert u[1..] == t;
    } else {
      var tail := Backslash.Escape(s[1..]) + "'" + t;
      assert Backslash.Escape(s) == Backslash.EscapeChar(s[0]) + Backslash.Escape(s[1..]);
      Regroup4(Backslash.EscapeChar(s[0]), Backslash.Escape(s[1..]), "'", t);
      ReadEscapedChar(s[0], tail);
      ReadEscaped(s[1..], t);
      assert [s[0]] + s[1..] == s;
    }
  }

  /** fish's quoting round-trips: read as a fish `'…'` string, its output is exactly the input. */
  lemma SingleQuoteRoundTrip(s: string)
    ensures Unquote(FishDialect.SingleQuote(s)) == Some(s)
  {
    var e := Backslash.Escape(s);
    OpenQuote(e, []);
    assert "'" + e + "'" + [] == "'" + e + "'";
    ReadEscaped(s, []);
  }

  lemma ReadLiteral(v: string, t: string)
    ensures Read(FishDialect.SingleQuote(v) + t) == Cons(Chars(v), Read(t))
  {
    var u := FishDialect.SingleQuote(v) + t;
    OpenQuote(Backslash.Escape(v), t);
    ReadEscaped(v, t);
    assert ReadToken(u) == Some((Chars(v), t));
    ReadAfterToken(u, Chars(v), t);
  }

  lemma ReadVariable(v: string, t: string)
    requires '"' !in v
    ensures Read("\"$" + v + "\"" + t) == Cons([VarRef(v)], Read(t))
  {
    var u := "\"$" + v + "\"" + t;
    assert u[0] == '"' && u[1] == '$';
    assert u[2..] == v + ['"'] + t;
    Text.ReadUntilPrefix(v, '"', t);
    assert ReadToken(u) == Some(([VarRef(v)], t));
    ReadAfterToken(u, [VarRef(v)], t);
  }

  lemma ReadHome(v: string, t: string)
    requires '"' !in v
    ensures Read(HomeOpen + v + "\")" + t) == Cons([HomeOf(v)], Read(t))
  {
    var u := HomeOpen + (v + ['"'] + (")" + t));
    assert HomeOpen + v + "\")" + t == u;
    assert u[0] == '(';
    Text.PrefixOfAppend(HomeOpen, v + ['"'] + (")" + t));
    Text.ReadUntilPrefix(v, '"', ")" + t);
    assert Close([HomeOf(v)], ")" + t) == Some(([HomeOf(v)], t)) by {
      assert (")" + t)[1..] == t;
    }
    assert ReadToken(u) == Some(([HomeOf(v)], t));
    ReadAfterToken(u, [HomeOf(v)], t);
  }

  /** A command substitution, laid out as the reader meets it. */
  lemma CommandShape(v: string, t: string)
    ensures "(eval " + FishDialect.SingleQuote(v) + ")" + t == CmdOpen + (Backslash.Escape(v) + "'" + (")" + t))
  {
    var e := Backslash.Escape(v);
    Regroup("(eval ", "'", e, "'", ")", t);
    assert "(eval " + "'" == CmdOpen;
  }

  lemma Regroup(a: string, x: string, e: string, y: string, z: string, t: string)
    ensures a + (x + e + y) + z + t == (a + x) + (e + y + (z + t))
  {
  }

  lemma CommandToken(v: string, t: string)
    ensures ReadToken(CmdOpen + (Backslash.Escape(v) + "'" + (")" + t))) == Some(([CmdSubst(v)], t))
  {
    var u := CmdOpen + (Backslash.Escape(v) + "'" + (")" + t));
    assert u[0] == '(';
    Text.PrefixOfAppend(CmdOpen, Backslash.Escape(v) + "'" + (")" + t));
    assert u[6] == '\'' && HomeOpen[6] == 'e';
    assert !Text.HasPrefix(u, HomeOpen);
    ReadEscaped(v, ")" + t);
    assert (")" + t)[1..] == t;
  }

  lemma ReadCommand(v: string, t: string)
    ensures Read("(eval " + FishDialect.SingleQuote(v) + ")" + t) == Cons([CmdSubst(v)], Read(t))
  {
    var u := CmdOpen + (Backslash.Escape(v) + "'" + (")" + t));
    CommandShape(v, t);
    CommandToken(v, t);
    ReadAfterToken(u, [CmdSubst(v)], t);
  }

  lemma ReadPart(p: ValuePart, t: string)
    requires p.kind == ShellVariable || p.kind == Home ==> '"' !in p.value
    ensures Read(ShellFormat(FishShell, p.kind, p.value) + t) == Cons(PartAtoms(p), Read(t))
  {
    match p.kind
    case Literal => ReadLiteral(p.value, t);
    case ShellVariable => ReadVariable(p.value, t);
    case Home => ReadHome(p.value, t);
    case ShellCommand => ReadCommand(p.value, t);
  }

  /** The fish renderer loses nothing: reading what it renders gives back the atoms of the parts, in order. */
  lemma {:induction false} ReadExpandValue(parts: seq<ValuePart>)
    requires Readable(parts)
    ensures Read(ExpandValue(FishShell, parts)) == Some(Atoms(parts))
  {
    if |parts| > 0 {
      assert Readable(parts[1..]) by {
        forall i | 0 <= i < |parts[1..]| && parts[1..][i].kind != Literal && parts[1..][i].kind != ShellCommand
          ensures '"' !in parts[1..][i].value
        {
          assert parts[1..][i] == parts[i + 1];
        }
      }
      ReadExpandValue(parts[1..]);
      ReadPart(parts[0], ExpandValue(FishShell, parts[1..]));
    }
  }

  lemma FishRenderingDistinguishes(p: seq<ValuePart>, q: seq<ValuePart>)
    requires Readable(p) && Readable(q)
    requires Atoms(p) != Atoms(q)
    ensures ExpandValue(FishShell, p) != ExpandValue(FishShell, q)
  {
    ReadExpandValue(p);
    ReadExpandValue(q);
  }
}
