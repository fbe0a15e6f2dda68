/**
  Reading a value rendered by the POSIX-family defaults back into the atoms
  of its parts. The reader splits the text at the delimiters the renderer
  writes: `'…'` runs, the `"'"` splice, `"$NAME"`, `$(eval WORD)` and
  `$(eval echo "~USER")`, taking everything up to a closing `"` as one name.
  It is the independent partner of the default renderer: reading a rendering
  gives back the atoms of the parts that were rendered. It inverts the
  renderer rather than reading the way a shell does: a shell ends a variable
  name at the first character that cannot belong to one.
 */
module PosixReading {
  import opened Wrappers
  import opened Parts
  import Text
  import opened Shells
  import opened Readers

  const CmdOpen: string := "$(eval "
  const HomeOpen: string := "$(eval echo \"~"

  /** `t` begins with the splice `"'"`. */
  predicate AtSplice(t: string)
  {
    |t| >= 3 && t[0] == '"' && t[1] == '\'' && t[2] == '"'
  }

  /**
    Reads one shell word made of `'…'` runs and `"'"` splices, stopping at
    the first character that starts neither: the word's text and the unread
    rest. An unterminated run is an error.
   */
  function ReadWord(t: string): (r: Option<(string, string)>)
    ensures r.Some? ==> |r.value.1| <= |t|
    decreases |t|
  {
    if |t| > 0 && t[0] == '\'' then
      match Text.ReadUntil(t[1..], '\'')
      case None => None
      case Some((run, rest)) => PrependWord(run, ReadWord(rest))
    else if AtSplice(t) then
      PrependWord("'", ReadWord(t[3..]))
    else
      Some(([], t))
  }

  /** A whole string read as one quoted word. */
  function Unquote(t: string): Option<string>
  {
    match ReadWord(t)
    case Some((w, rest)) => if rest == [] then Some(w) else None
    case None => None
  }

  /**
    Reads the token at the head of a non-empty text: the atoms it stands for
    and the unread rest; None when no rendered token starts there.
   */
  function ReadToken(t: string): (r: Option<(seq<Atom>, string)>)
    requires |t| > 0
    ensures r.Some? ==> |r.value.1| < |t|
  {
    if t[0] == '\'' then
      match Text.ReadUntil(t[1..], '\'')
      case None => None
      case Some((run, rest)) => Some((Chars(run), rest))
    else if t[0] == '"' then
      if AtSplice(t) then Some(([Char('\'')], t[3..]))
      else if |t| >= 2 && t[1] == '$' then
        match Text.ReadUntil(t[2..], '"')
        case None => None
        case Some((name, rest)) => Some(([VarRef(name)], rest))
      else None
    else if Text.HasPrefix(t, HomeOpen) then
      match Text.ReadUntil(t[|HomeOpen|..], '"')
      case None => None
      case Some((user, rest)) => Close([HomeOf(user)], rest)
    else if Text.HasPrefix(t, CmdOpen) then
      match ReadWord(t[|CmdOpen|..])
      case None => None
      case Some((cmd, rest)) => Close([CmdSubst(cmd)], rest)
    else None
  }

  /** Reads a rendered value token by token into atoms; None when some token is not one the default renderer writes. */
  function Read(t: string): Option<seq<Atom>>
    decreases |t|
  {
    if |t| == 0 then Some([])
    else
      match ReadToken(t)
      case None => None
      case Some((a, rest)) => Cons(a, Read(rest))
  }

  lemma ReadAfterToken(u: string, a: seq<Atom>, t: string)
    requires |u| > 0 && ReadToken(u) == Some((a, t))
    ensures Read(u) == Cons(a, Read(t))
  {
  }

  // ---------------------------------------------------------------------------
  // Quoted literal text
  // ---------------------------------------------------------------------------

  lemma ReadQuoteRun(p: string, t: string)
    requires p != [] && '\'' !in p
    ensures Read(QuoteRun(p) + t) == Cons(Chars(p), Read(t))
  {
    var u := QuoteRun(p) + t;
    assert u == "'" + (p + "'" + t);
    assert u[1..] == p + ['\''] + t;
    Text.ReadUntilPrefix(p, '\'', t);
    assert ReadToken(u) == Some((Chars(p), t));
    ReadAfterToken(u, Chars(p), t);
  }

  lemma WordQuoteRun(p: string, t: string)
    requires p != [] && '\'' !in p
    ensures ReadWord(QuoteRun(p) + t) == PrependWord(p, ReadWord(t))
  {
    var u := QuoteRun(p) + t;
    assert u == "'" + (p + "'" + t);
    assert u[1..] == p + ['\''] + t;
    Text.ReadUntilPrefix(p, '\'', t);
  }

  lemma ReadSplice(t: string)
    ensures Read(Splice + t) == Cons([Char('\'')], Read(t))
  {
    var u := Splice + t;
    assert AtSplice(u) && u[3..] == t;
    assert ReadToken(u) == Some(([Char('\'')], t));
    ReadAfterToken(u, [Char('\'')], t);
  }

  lemma WordSplice(t: string)
    ensures ReadWord(Splice + t) == PrependWord("'", ReadWord(t))
  {
    var u := Splice + t;
    assert AtSplice(u) && u[3..] == t;
  }

  /** The joined runs of one split, as the default quoting lays them out. */
  lemma RunsLayout(ps: seq<string>, t: string) returns (rest: string, w: string)
    requires |ps| > 1
    ensures rest == Text.Join(QuoteRuns(ps[1..]), Splice)
    ensures w == Text.Join(ps[1..], "'")
    ensures Text.Join(QuoteRuns(ps), Splice) + t == QuoteRun(ps[0]) + (Splice + (rest + t))
    ensures Text.Join(ps, "'") == ps[0] + ("'" + w)
  {
    var qs := QuoteRuns(ps);
    assert qs[1..] == QuoteRuns(ps[1..]);
    rest := Text.Join(qs[1..], Splice);
    w := Text.Join(ps[1..], "'");
  }

  /** One run and one splice in front of text that reads as `w` and then `R`. */
  lemma ReadRunStep(p: string, rest: string, w: string, t: string)
    requires '\'' !in p
    requires Read(rest + t) == Cons(Chars(w), Read(t))
    ensures Read(QuoteRun(p) + (Splice + (rest + t))) == Cons(Chars(p + ("'" + w)), Read(t))
  {
    ReadSplice(rest + t);
    ConsCons([Char('\'')], Chars(w), Read(t));
    CharsAppend("'", w);
    assert Chars("'") == [Char('\'')];
    assert Read(Splice + (rest + t)) == Cons(Chars("'" + w), Read(t));
    if p == [] {
      assert QuoteRun(p) + (Splice + (rest + t)) == Splice + (rest + t);
      assert p + ("'" + w) == "'" + w;
    } else {
      ReadQuoteRun(p, Splice + (rest + t));
      ConsCons(Chars(p), Chars("'" + w), Read(t));
      CharsAppend(p, "'" + w);
    }
  }

  lemma {:induction false} ReadRuns(ps: seq<string>, t: string)
    requires |ps| > 0
    requires forall i :: 0 <= i < |ps| ==> '\'' !in ps[i]
    ensures Read(Text.Join(QuoteRuns(ps), Splice) + t) == Cons(Chars(Text.Join(ps, "'")), Read(t))
  {
    if |ps| == 1 {
      if ps[0] == [] {
        assert QuoteRun(ps[0]) + t == t;
        assert Chars([]) == [];
        assert Read(t).Some? ==> [] + Read(t).value == Read(t).value;
      } else {
        ReadQuoteRun(ps[0], t);
      }
    } else {
      var rest, w := RunsLayout(ps, t);
      ReadRuns(ps[1..], t);
      ReadRunStep(ps[0], rest, w, t);
    }
  }

  lemma {:induction false} WordRuns(ps: seq<string>, t: string)
    requires |ps| > 0
    requires forall i :: 0 <= i < |ps| ==> '\'' !in ps[i]
    ensures ReadWord(Text.Join(QuoteRuns(ps), Splice) + t) == PrependWord(Text.Join(ps, "'"), ReadWord(t))
  {
    if |ps| == 1 {
      if ps[0] == [] {
        assert QuoteRun(ps[0]) + t == t;
        assert ReadWord(t).Some? ==> [] + ReadWord(t).value.0 == ReadWord(t).value.0;
      } else {
        WordQuoteRun(ps[0], t);
      }
    } else {
      var rest, w := RunsLayout(ps, t);
      WordRuns(ps[1..], t);
      WordSplice(rest + t);
      PrependWordAssoc("'", w, ReadWord(t));
      if ps[0] == [] {
        assert QuoteRun(ps[0]) + (Splice + (rest + t)) == Splice + (rest + t);
        assert ps[0] + ("'" + w) == "'" + w;
      } else {
        WordQuoteRun(ps[0], Splice + (rest + t));
        PrependWordAssoc(ps[0], "'" + w, ReadWord(t));
      }
    }
  }

  /** Reading a default-quoted string followed by anything gives the string's characters first. */
  lemma ReadDefaultQuote(s: string, t: string)
    ensures Read(DefaultSingleQuote(s) + t) == Cons(Chars(s), Read(t))
    ensures ReadWord(DefaultSingleQuote(s) + t) == PrependWord(s, ReadWord(t))
  {
    Text.JoinSplit(s, '\'');
    ReadRuns(Text.Split(s, '\''), t);
    WordRuns(Text.Split(s, '\''), t);
  }

  /** The default quoting round-trips: read as POSIX quoting, its output is exactly the input. */
  lemma DefaultSingleQuoteRoundTrip(s: string)
    ensures Unquote(DefaultSingleQuote(s)) == Some(s)
  {
    ReadDefaultQuote(s, []);
    assert DefaultSingleQuote(s) + [] == DefaultSingleQuote(s);
    assert s + [] == s;
  }

  /** A default-quoted string is empty or starts with a quote character. */
  lemma DefaultQuoteStart(s: string)
    ensures var q := DefaultSingleQuote(s); q == [] || q[0] == '\'' || q[0] == '"'
  {
    var ps := Text.Split(s, '\'');
    var qs := QuoteRuns(ps);
    if |qs| > 1 {
      assert Text.Join(qs, Splice) == qs[0] + Splice + Text.Join(qs[1..], Splice);
      if qs[0] == [] {
        assert Text.Join(qs, Splice)[0] == Splice[0];
      } else {
        assert Text.Join(qs, Splice)[0] == qs[0][0];
      }
    }
  }

  // ---------------------------------------------------------------------------
  // Whole values
  // ---------------------------------------------------------------------------

  lemma ReadVariable(v: string, t: string)
    requires '"' !in v
    ensures Read("\"$" + v + "\"" + t) == Cons([VarRef(v)], Read(t))
  {
    var u := "\"$" + v + "\"" + t;
    assert u == "\"$" + (v + ['"'] + t);
    assert u[0] == '"' && u[1] == '$' && !AtSplice(u);
    assert u[2..] == v + ['"'] + t;
    Text.ReadUntilPrefix(v, '"', t);
    assert ReadToken(u) == Some(([VarRef(v)], t));
    ReadAfterToken(u, [VarRef(v)], t);
  }

  lemma ReadHome(v: string, t: string)
    requires '"' !in v
    ensures Read(HomeOpen + v + "\")" + t) == Cons([HomeOf(v)], Read(t))
  {
    var u := HomeOpen + (v + ['"'] + (")" + t));
    assert HomeOpen + v + "\")" + t == u;
    assert u[0] == '$';
    Text.PrefixOfAppend(HomeOpen, v + ['"'] + (")" + t));
    Text.ReadUntilPrefix(v, '"', ")" + t);
    assert Close([HomeOf(v)], ")" + t) == Some(([HomeOf(v)], t)) by {
      assert (")" + t)[1..] == t;
    }
    assert ReadToken(u) == Some(([HomeOf(v)], t));
    ReadAfterToken(u, [HomeOf(v)], t);
  }

  /** The quoted command is one word, ended by the `)` after it. */
  lemma CommandWord(v: string, t: string)
    ensures ReadWord(DefaultSingleQuote(v) + (")" + t)) == Some((v, ")" + t))
  {
    ReadDefaultQuote(v, ")" + t);
    assert ReadWord(")" + t) == Some(([], ")" + t));
    assert v + [] == v;
  }

  /** A command substitution starts with the command opener and not the home opener. */
  lemma CommandOpens(q: string, rest: string)
    requires q == [] || q[0] == '\'' || q[0] == '"'
    requires |rest| > 0 && rest[0] == ')'
    ensures var u := CmdOpen + (q + rest);
      u[0] == '$' && !Text.HasPrefix(u, HomeOpen) && Text.HasPrefix(u, CmdOpen) && u[|CmdOpen|..] == q + rest
  {
    var u := CmdOpen + (q + rest);
    Text.PrefixOfAppend(CmdOpen, q + rest);
    assert u[7] == (q + rest)[0];
  }

  lemma CommandToken(v: string, t: string)
    ensures ReadToken(CmdOpen + (DefaultSingleQuote(v) + (")" + t))) == Some(([CmdSubst(v)], t))
  {
    DefaultQuoteStart(v);
    CommandOpens(DefaultSingleQuote(v), ")" + t);
    CommandWord(v, t);
    assert (")" + t)[1..] == t;
  }

  lemma ReadCommand(v: string, t: string)
    ensures Read(CmdOpen + DefaultSingleQuote(v) + ")" + t) == Cons([CmdSubst(v)], Read(t))
  {
    var q := DefaultSingleQuote(v);
    var u := CmdOpen + (q + (")" + t));
    assert CmdOpen + q + ")" + t == u;
    CommandToken(v, t);
    ReadAfterToken(u, [CmdSubst(v)], t);
  }

  lemma ReadPart(b: Behavior, p: ValuePart, t: string)
    requires UsesDefaults(b)
    requires p.kind == ShellVariable || p.kind == Home ==> '"' !in p.value
    ensures Read(ShellFormat(b, p.kind, p.value) + t) == Cons(PartAtoms(p), Read(t))
  {
    match p.kind
    case Literal => ReadDefaultQuote(p.value, t);
    case ShellVariable => ReadVariable(p.value, t);
    case Home => ReadHome(p.value, t);
    case ShellCommand => ReadCommand(p.value, t);
  }

  /**
    The default renderer loses nothing: reading what it renders gives back
    exactly the atoms of the parts, in order.
   */
  lemma {:induction false} ReadExpandValue(b: Behavior, parts: seq<ValuePart>)
    requires UsesDefaults(b)
    requires Readable(parts)
    ensures Read(ExpandValue(b, parts)) == Some(Atoms(parts))
  {
    if |parts| > 0 {
      var p := parts[0];
      assert Readable(parts[1..]) by {
        forall i | 0 <= i < |parts[1..]| && parts[1..][i].kind != Literal && parts[1..][i].kind != ShellCommand
          ensures '"' !in parts[1..][i].value
        {
          assert parts[1..][i] == parts[i + 1];
        }
      }
      ReadExpandValue(b, parts[1..]);
      ReadPart(b, p, ExpandValue(b, parts[1..]));
    }
  }

  /** Part sequences with different meanings never render to the same text. */
  lemma DefaultRenderingDistinguishes(b: Behavior, p: seq<ValuePart>, q: seq<ValuePart>)
    requires UsesDefaults(b)
    requires Readable(p) && Readable(q)
    requires Atoms(p) != Atoms(q)
    ensures ExpandValue(b, p) != ExpandValue(b, q)
  {
    ReadExpandValue(b, p);
    ReadExpandValue(b, q);
  }
}
