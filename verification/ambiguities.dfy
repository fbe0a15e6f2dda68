/**
  Renderings that lose information. The POSIX-family and fish renderers
  keep every part apart (see `PosixReading.DefaultRenderingDistinguishes`);
  the xonsh and elvish overrides do not, because they write references bare
  and quote nothing inside a command or a single-quoted run. Each lemma
  below names two part sequences with different meanings that render to the
  same text, so no reader of that shell can tell them apart.

  The last lemmas show how their set statements change a rendered value:
  xonsh puts it inside `f"…"` without escaping `"` or braces, and elvish
  wraps it in `'…'` once more.
 */
module Ambiguities {
  import opened Parts
  import Backslash
  import Text
  import opened Shells

  /** Xonsh's literal quoting leaves text without `\` and `'` as it is. */
  lemma XonshPlainLiteral(t: string)
    requires '\\' !in t && '\'' !in t
    ensures ShellFormat(XonshShell, Literal, t) == t
  {
    Backslash.ChainIsSinglePass(t);
    Backslash.EscapeIdentity(t);
  }

  lemma XonshVariableJoin(n: string, t: string)
    ensures ShellFormat(XonshShell, ShellVariable, n) + t == ShellFormat(XonshShell, ShellVariable, n + t)
  {
    assert "$" + n + t == "$" + (n + t);
  }

  lemma XonshCommandSplit(c: string, y: string)
    ensures ShellFormat(XonshShell, ShellCommand, c) + (y + ")") == ShellFormat(XonshShell, ShellCommand, c + ")" + y)
  {
    assert "$(" + c + ")" + (y + ")") == "$(" + (c + ")" + y) + ")";
  }

  /**
    In xonsh a variable reference followed by plain text renders exactly like
    a reference to the longer name: `$` and the name are written with nothing
    after them to end the name.
   */
  lemma XonshVariableAbsorbsText(n: string, t: string)
    requires |t| > 0 && '\\' !in t && '\'' !in t
    ensures ExpandValue(XonshShell, [ValuePart(n, ShellVariable), ValuePart(t, Literal)])
         == ExpandValue(XonshShell, [ValuePart(n + t, ShellVariable)])
    ensures Atoms([ValuePart(n, ShellVariable), ValuePart(t, Literal)]) != Atoms([ValuePart(n + t, ShellVariable)])
  {
    var p, q, r := ValuePart(n, ShellVariable), ValuePart(t, Literal), ValuePart(n + t, ShellVariable);
    ExpandTwo(XonshShell, p, q);
    ExpandOne(XonshShell, r);
    XonshPlainLiteral(t);
    XonshVariableJoin(n, t);
    assert |Atoms([p, q])| == 1 + |t|;
  }

  /**
    In xonsh a command containing `)` renders exactly like a shorter command
    followed by literal text: the command is written verbatim, so its first
    `)` closes the substitution.
   */
  lemma XonshCommandClosesEarly(c: string, y: string)
    requires '\\' !in y && '\'' !in y
    ensures ExpandValue(XonshShell, [ValuePart(c + ")" + y, ShellCommand)])
         == ExpandValue(XonshShell, [ValuePart(c, ShellCommand), ValuePart(y + ")", Literal)])
    ensures Atoms([ValuePart(c + ")" + y, ShellCommand)])
         != Atoms([ValuePart(c, ShellCommand), ValuePart(y + ")", Literal)])
  {
    var p, q, r := ValuePart(c, ShellCommand), ValuePart(y + ")", Literal), ValuePart(c + ")" + y, ShellCommand);
    ExpandTwo(XonshShell, p, q);
    ExpandOne(XonshShell, r);
    XonshPlainLiteral(y + ")");
    XonshCommandSplit(c, y);
    assert |Atoms([p, q])| == 2 + |y|;
  }

  /**
    In elvish two literal runs render exactly like one run holding `''`
    between them: the runs are quoted with nothing escaped, and elvish reads
    `''` inside single quotes as one quote character.
   */
  lemma ElvishLiteralsCollide(a: string, b: string)
    ensures ExpandValue(ElvishShell, [ValuePart(a, Literal), ValuePart(b, Literal)])
         == ExpandValue(ElvishShell, [ValuePart(a + "''" + b, Literal)])
    ensures Atoms([ValuePart(a, Literal), ValuePart(b, Literal)]) != Atoms([ValuePart(a + "''" + b, Literal)])
  {
    var p, q, r := ValuePart(a, Literal), ValuePart(b, Literal), ValuePart(a + "''" + b, Literal);
    ExpandTwo(ElvishShell, p, q);
    ExpandOne(ElvishShell, r);
    ElvishQuotesJoin(a, b);
    assert |Atoms([p, q])| == |a| + |b|;
    assert |Atoms([r])| == |a| + |b| + 2;
  }

  /** Two quoted runs side by side are one quoted run with `''` inside. */
  lemma ElvishQuotesJoin(a: string, b: string)
    ensures ShellFormat(ElvishShell, Literal, a) + ShellFormat(ElvishShell, Literal, b)
         == ShellFormat(ElvishShell, Literal, a + "''" + b)
  {
    assert "'" + a + "'" + ("'" + b + "'") == "'" + (a + "''" + b) + "'";
  }

  /** In elvish every home lookup renders as the current user's `$home`, whichever user it names. */
  lemma ElvishHomeIgnoresUser(u: string, v: string, rest: seq<ValuePart>)
    ensures ExpandValue(ElvishShell, [ValuePart(u, Home)] + rest) == ExpandValue(ElvishShell, [ValuePart(v, Home)] + rest)
    ensures Atoms([ValuePart(u, Home)] + rest) == Atoms([ValuePart(v, Home)] + rest) <==> u == v
  {
    var p, q := [ValuePart(u, Home)], [ValuePart(v, Home)];
    assert (p + rest)[0] == ValuePart(u, Home) && (p + rest)[1..] == rest;
    assert (q + rest)[0] == ValuePart(v, Home) && (q + rest)[1..] == rest;
    if Atoms(p + rest) == Atoms(q + rest) {
      assert Atoms(p + rest)[0] == HomeOf(u);
      assert Atoms(q + rest)[0] == HomeOf(v);
    }
  }

  // ---------------------------------------------------------------------------
  // Set statements that change what the rendered value means
  // ---------------------------------------------------------------------------

  /** Xonsh's assignment of any value other than "1" is an f-string. */
  lemma XonshFString(n: string, v: string, isPath: bool)
    requires v != "1"
    ensures SetVariable(XonshShell, n, v, isPath) == "$" + n + " = f\"" + v + "\""
  {
  }

  /** A plain literal set in xonsh lands verbatim between `f"` and `"`. */
  lemma XonshPlainSet(n: string, t: string, isPath: bool)
    requires '\\' !in t && '\'' !in t && t != "1"
    ensures SetVariable(XonshShell, n, ExpandValue(XonshShell, [ValuePart(t, Literal)]), isPath) == "$" + n + " = f\"" + t + "\""
  {
    ExpandOne(XonshShell, ValuePart(t, Literal));
    XonshPlainLiteral(t);
    XonshFString(n, t, isPath);
  }

  /**
    Xonsh writes the rendered value inside `f"…"`, yet its literal quoting
    escapes only `\` and `'`: a `"` of the literal is written bare and ends
    the f-string after the text before it.
   */
  lemma XonshQuoteEndsFString(n: string, a: string, c: string, isPath: bool)
    requires '\\' !in a && '\'' !in a && '\\' !in c && '\'' !in c
    ensures SetVariable(XonshShell, n, ExpandValue(XonshShell, [ValuePart(a + "\"" + c, Literal)]), isPath)
         == "$" + n + " = f\"" + a + "\"" + (c + "\"")
  {
    var q := "\"";
    var t := a + q + c;
    assert '\\' !in t && '\'' !in t;
    assert t != "1" by { assert '"' in t && '"' !in "1"; }
    XonshPlainSet(n, t, isPath);
    var p := "$" + n + " = f\"";
    Text.Associative(p, a + q, c);
    Text.Associative(p, a, q);
    Text.Associative(p + a + q, c, q);
  }

  /**
    Xonsh writes `{` and `}` of a literal bare inside `f"…"`, where braces
    enclose an expression that xonsh evaluates.
   */
  lemma XonshBracesReachFString(n: string, t: string, isPath: bool)
    requires '\\' !in t && '\'' !in t
    ensures SetVariable(XonshShell, n, ExpandValue(XonshShell, [ValuePart("{" + t + "}", Literal)]), isPath)
         == "$" + n + " = f\"" + "{" + t + "}" + "\""
  {
    var u := "{" + t + "}";
    assert '\\' !in u && '\'' !in u;
    assert u != "1" by { assert '{' in u && '{' !in "1"; }
    XonshPlainSet(n, u, isPath);
    var p := "$" + n + " = f\"";
    Text.Associative(p, "{" + t, "}");
    Text.Associative(p, "{", t);
  }

  /**
    Elvish wraps the rendered value in `'…'` a second time: a variable
    reference ends up inside single quotes, where elvish reads `$` and the
    name as plain text.
   */
  lemma ElvishSetQuotesVariable(n: string, v: string, isPath: bool)
    ensures SetVariable(ElvishShell, n, ExpandValue(ElvishShell, [ValuePart(v, ShellVariable)]), isPath)
         == "set-env " + n + " " + "'" + "$" + v + "'"
  {
    ExpandOne(ElvishShell, ValuePart(v, ShellVariable));
    ElvishRequotes(n, "$" + v, isPath);
    Text.Associative("set-env " + n + " " + "'", "$", v);
  }

  /** ... and a quoted literal ends up between doubled quotes. */
  lemma ElvishSetQuotesLiteral(n: string, t: string, isPath: bool)
    ensures SetVariable(ElvishShell, n, ExpandValue(ElvishShell, [ValuePart(t, Literal)]), isPath)
         == "set-env " + n + " " + "'" + "'" + t + "'" + "'"
  {
    ExpandOne(ElvishShell, ValuePart(t, Literal));
    ElvishRequotes(n, "'" + t + "'", isPath);
    var p := "set-env " + n + " " + "'";
    Text.Associative(p, "'" + t, "'");
    Text.Associative(p, "'", t);
  }

  /** Elvish's set statement quotes whatever value it is given. */
  lemma ElvishRequotes(n: string, w: string, isPath: bool)
    ensures SetVariable(ElvishShell, n, w, isPath) == "set-env " + n + " " + "'" + w + "'"
  {
    var p := "set-env " + n + " ";
    Text.Associative(p, "'" + w, "'");
    Text.Associative(p, "'", w);
  }
}
