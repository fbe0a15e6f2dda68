/**
  The renderer's expected outputs from the shells' test cases
  (src/shells/bash.rs, src/shells/zsh.rs, src/shells/fish.rs), proved
  against the model at the renderer level: each value is given as the part
  sequence it parses to, rendered, and wrapped in its statement.

  Each expected line is first proved for text given through parameters
  pinned to the test's values (the `…At` lemmas), from the general shape
  lemmas of this module; the lemmas named after the shells then state the
  same lines with the literal values.
 */
module Vectors {
  import Text
  import Backslash
  import opened Parts
  import opened Shells
  import FishDialect

  function Lit(s: string): ValuePart { ValuePart(s, Literal) }
  function Var(s: string): ValuePart { ValuePart(s, ShellVariable) }
  function Cmd(s: string): ValuePart { ValuePart(s, ShellCommand) }
  function Tilde(s: string): ValuePart { ValuePart(s, Home) }

  /** The rendered value of `parts` set as `name`. */
  function Line(b: Behavior, name: string, parts: seq<ValuePart>): string
  {
    SetVariable(b, name, ExpandValue(b, parts), false)
  }

  // ---------------------------------------------------------------------------
  // Shape lemmas
  // ---------------------------------------------------------------------------

  lemma ExpandThree(b: Behavior, p: ValuePart, q: ValuePart, u: ValuePart)
    ensures ExpandValue(b, [p, q, u]) == ShellFormat(b, p.kind, p.value) + ShellFormat(b, q.kind, q.value) + ShellFormat(b, u.kind, u.value)
  {
    assert [p, q, u][1..] == [q, u];
    ExpandTwo(b, q, u);
  }

  lemma JoinTwo(x: string, y: string, sep: string)
    ensures Text.Join([x, y], sep) == x + sep + y
  {
    assert [x, y][1..] == [y];
  }

  lemma JoinThree(x: string, y: string, z: string, sep: string)
    ensures Text.Join([x, y, z], sep) == x + sep + y + sep + z
  {
    assert [x, y, z][1..] == [y, z];
    JoinTwo(y, z, sep);
  }

  /**
    Under the default behaviour, text made of `'`-free runs renders as the
    runs, each non-empty one in `'…'`, joined by the splice.
   */
  lemma DefaultRuns(b: Behavior, ps: seq<string>)
    requires UsesDefaults(b) && |ps| > 0
    requires forall i :: 0 <= i < |ps| ==> '\'' !in ps[i]
    ensures ShellFormat(b, Literal, Text.Join(ps, "'")) == Text.Join(QuoteRuns(ps), Splice)
    ensures ShellFormat(b, ShellCommand, Text.Join(ps, "'")) == "$(eval " + Text.Join(QuoteRuns(ps), Splice) + ")"
  {
    Text.SplitJoin(ps, '\'');
  }

  /** The three runs, each non-empty one in `'…'`, joined by the splice. */
  function SpliceRuns(x: string, y: string, z: string): string
  {
    QuoteRun(x) + Splice + QuoteRun(y) + Splice + QuoteRun(z)
  }

  /** Quote-free text under the default behaviour is wrapped once. */
  lemma DefaultPlain(b: Behavior, v: string)
    requires UsesDefaults(b) && '\'' !in v && v != []
    ensures ShellFormat(b, Literal, v) == "'" + v + "'"
    ensures ShellFormat(b, ShellCommand, v) == "$(eval '" + v + "')"
  {
  }

  /** fish puts a backslash before every `'` between plain runs and wraps the whole text once. */
  lemma FishRuns(ps: seq<string>)
    requires |ps| > 0
    requires forall i :: 0 <= i < |ps| ==> '\\' !in ps[i] && '\'' !in ps[i]
    ensures FishDialect.SingleQuote(Text.Join(ps, "'")) == "'" + Text.Join(ps, "\\'") + "'"
  {
    Backslash.EscapeRuns(ps);
  }

  lemma FishPlain(v: string)
    requires '\\' !in v && '\'' !in v
    ensures ShellFormat(FishShell, Literal, v) == "'" + v + "'"
    ensures ShellFormat(FishShell, ShellCommand, v) == "(eval '" + v + "')"
  {
    Backslash.EscapeIdentity(v);
  }

  lemma BashRunsThree(x: string, y: string, z: string)
    requires '\'' !in x && '\'' !in y && '\'' !in z
    ensures ShellFormat(BashShell, Literal, x + "'" + y + "'" + z) == SpliceRuns(x, y, z)
    ensures ShellFormat(BashShell, ShellCommand, x + "'" + y + "'" + z) == "$(eval " + SpliceRuns(x, y, z) + ")"
  {
    var ps := [x, y, z];
    JoinThree(x, y, z, "'");
    DefaultRuns(BashShell, ps);
    var qs := QuoteRuns(ps);
    assert qs == [QuoteRun(x), QuoteRun(y), QuoteRun(z)];
    JoinThree(QuoteRun(x), QuoteRun(y), QuoteRun(z), Splice);
  }

  lemma FishRunsTwo(x: string, y: string)
    requires '\\' !in x && '\'' !in x && '\\' !in y && '\'' !in y
    ensures ShellFormat(FishShell, Literal, x + "'" + y) == "'" + (x + "\\'" + y) + "'"
  {
    var s := x + "'" + y;
    JoinTwo(x, y, "'");
    FishRuns([x, y]);
    JoinTwo(x, y, "\\'");
    assert ShellFormat(FishShell, Literal, s) == FishDialect.SingleQuote(s);
  }

  lemma FishRunsThree(x: string, y: string, z: string)
    requires '\\' !in x && '\'' !in x && '\\' !in y && '\'' !in y && '\\' !in z && '\'' !in z
    ensures ShellFormat(FishShell, Literal, x + "'" + y + "'" + z) == "'" + (x + "\\'" + y + "\\'" + z) + "'"
    ensures ShellFormat(FishShell, ShellCommand, x + "'" + y + "'" + z) == "(eval " + ("'" + (x + "\\'" + y + "\\'" + z) + "'") + ")"
  {
    var s := x + "'" + y + "'" + z;
    JoinThree(x, y, z, "'");
    FishRuns([x, y, z]);
    JoinThree(x, y, z, "\\'");
    assert ShellFormat(FishShell, Literal, s) == FishDialect.SingleQuote(s);
  }

  /** A lone backslash is doubled by fish. */
  lemma FishDoubledBackslash(v: string)
    requires v == "\\"
    ensures ShellFormat(FishShell, Literal, v) == "'" + "\\\\" + "'"
  {
    Backslash.EscapeOne('\\');
  }

  // ---------------------------------------------------------------------------
  // Pinned vectors. The `…Value`, `…At`, `…Prefix`, `…Joined` and `…Text`
  // lemmas below only split the cost of the proofs into small steps; the
  // test-case lemmas at the end of the module state the vectors.
  // The text of a vector is given through parameters pinned to
  // the test's values; `…Value` compares the rendered value with the expected
  // characters, `…At` gives the line in terms of that value, and `…Text`
  // compares the whole statement.
  // ---------------------------------------------------------------------------

  /** A default statement is `export`, the name, `=` and the value. */
  lemma BashStatement(n: string, v: string)
    ensures SetVariable(BashShell, n, v, false) == "export " + n + "=" + v
  {
  }

  /**
    Quote-free text set under the default behaviour gives `export N='V'`,
    stated for any spelling of the prefix, the quoted value and the line.
   */
  lemma DefaultLiteralLine(b: Behavior, n: string, v: string, prefix: string, quoted: string, line: string)
    requires UsesDefaults(b) && '\'' !in v && v != []
    requires "export " + n + "=" == prefix && "'" + v + "'" == quoted && prefix + quoted == line
    ensures Line(b, n, [Lit(v)]) == line
  {
    DefaultPlain(b, v);
    ExpandOne(b, Lit(v));
  }

  /** A fish statement without `--path` is `set -gx`, the name and the value. */
  lemma FishStatement(n: string, v: string)
    ensures SetVariable(FishShell, n, v, false) == "set -gx " + n + " " + v
  {
  }

  /** `I 'love' books` as its three quote-free runs. */
  lemma LoveRuns(m: string, x: string, y: string, z: string)
    requires m == "I 'love' books" && x == "I " && y == "love" && z == " books"
    ensures m == x + "'" + y + "'" + z
  {
  }

  /** `you're pretty` as its two quote-free runs. */
  lemma PrettyRuns(m: string, x: string, y: string)
    requires m == "you're pretty" && x == "you" && y == "re pretty"
    ensures m == x + "'" + y
  {
  }

  /** `echo ')'` as its three quote-free runs, the last one empty. */
  lemma EchoRuns(c: string, x: string, y: string, z: string)
    requires c == "echo ')'" && x == "echo " && y == ")" && z == ""
    ensures c == x + "'" + y + "'" + z
  {
  }

  lemma BashStringValue(v: string)
    requires v == "Bar"
    ensures "'" + v + "'" == "'Bar'"
  {
  }

  lemma BashStringAt(v: string)
    requires v == "Bar"
    ensures Line(BashShell, "FOO", [Lit(v)]) == SetVariable(BashShell, "FOO", "'Bar'", false)
  {
    DefaultPlain(BashShell, v);
    ExpandOne(BashShell, Lit(v));
    BashStringValue(v);
  }

  lemma BashStringPrefix()
    ensures "export " + "FOO" + "=" == "export FOO="
  {
  }

  lemma BashStringJoined()
    ensures "export FOO=" + "'Bar'" == "export FOO='Bar'"
  {
  }

  lemma BashStringText()
    ensures SetVariable(BashShell, "FOO", "'Bar'", false) == "export FOO='Bar'"
  {
    BashStatement("FOO", "'Bar'");
    BashStringPrefix();
    BashStringJoined();
  }

  lemma FishStringValue(v: string)
    requires v == "Bar"
    ensures "'" + v + "'" == "'Bar'"
  {
  }

  lemma FishStringAt(v: string)
    requires v == "Bar"
    ensures Line(FishShell, "FOO", [Lit(v)]) == SetVariable(FishShell, "FOO", "'Bar'", false)
  {
    FishPlain(v);
    ExpandOne(FishShell, Lit(v));
    FishStringValue(v);
  }

  lemma FishStringPrefix()
    ensures "set -gx " + "FOO" + " " == "set -gx FOO "
  {
  }

  lemma FishStringJoined()
    ensures "set -gx FOO " + "'Bar'" == "set -gx FOO 'Bar'"
  {
  }

  lemma FishStringText()
    ensures SetVariable(FishShell, "FOO", "'Bar'", false) == "set -gx FOO 'Bar'"
  {
    FishStatement("FOO", "'Bar'");
    FishStringPrefix();
    FishStringJoined();
  }

  lemma BashInlineValue(h: string)
    requires h == "HOME"
    ensures "\"$" + h + "\"" == "\"$HOME\""
  {
  }

  lemma BashInlineAt(h: string)
    requires h == "HOME"
    ensures Line(BashShell, "WHERE_THE_HEART_IS", [Var(h)]) == SetVariable(BashShell, "WHERE_THE_HEART_IS", "\"$HOME\"", false)
  {
    ExpandOne(BashShell, Var(h));
    BashInlineValue(h);
  }

  lemma BashInlinePrefix()
    ensures "export " + "WHERE_THE_HEART_IS" + "=" == "export WHERE_THE_HEART_IS="
  {
  }

  lemma BashInlineJoined()
    ensures "export WHERE_THE_HEART_IS=" + "\"$HOME\"" == "export WHERE_THE_HEART_IS=\"$HOME\""
  {
  }

  lemma BashInlineText()
    ensures SetVariable(BashShell, "WHERE_THE_HEART_IS", "\"$HOME\"", false) == "export WHERE_THE_HEART_IS=\"$HOME\""
  {
    BashStatement("WHERE_THE_HEART_IS", "\"$HOME\"");
    BashInlinePrefix();
    BashInlineJoined();
  }

  lemma FishInlineValue(h: string)
    requires h == "HOME"
    ensures "\"$" + h + "\"" == "\"$HOME\""
  {
  }

  lemma FishInlineAt(h: string)
    requires h == "HOME"
    ensures Line(FishShell, "WHERE_THE_HEART_IS", [Var(h)]) == SetVariable(FishShell, "WHERE_THE_HEART_IS", "\"$HOME\"", false)
  {
    ExpandOne(FishShell, Var(h));
    FishInlineValue(h);
  }

  lemma FishInlinePrefix()
    ensures "set -gx " + "WHERE_THE_HEART_IS" + " " == "set -gx WHERE_THE_HEART_IS "
  {
  }

  lemma FishInlineJoined()
    ensures "set -gx WHERE_THE_HEART_IS " + "\"$HOME\"" == "set -gx WHERE_THE_HEART_IS \"$HOME\""
  {
  }

  lemma FishInlineText()
    ensures SetVariable(FishShell, "WHERE_THE_HEART_IS", "\"$HOME\"", false) == "set -gx WHERE_THE_HEART_IS \"$HOME\""
  {
    FishStatement("WHERE_THE_HEART_IS", "\"$HOME\"");
    FishInlinePrefix();
    FishInlineJoined();
  }

  lemma BashBlockValue(h: string, l: string)
    requires h == "HOME" && l == "less"
    ensures "\"$" + h + "\"" + ("'" + l + "'") == "\"$HOME\"'less'"
  {
  }

  lemma BashBlockAt(h: string, l: string)
    requires h == "HOME" && l == "less"
    ensures Line(BashShell, "AN_EXAMPLE", [Var(h), Lit(l)]) == SetVariable(BashShell, "AN_EXAMPLE", "\"$HOME\"'less'", false)
  {
    DefaultPlain(BashShell, l);
    ExpandTwo(BashShell, Var(h), Lit(l));
    BashBlockValue(h, l);
  }

  lemma BashBlockPrefix()
    ensures "export " + "AN_EXAMPLE" + "=" == "export AN_EXAMPLE="
  {
  }

  lemma BashBlockJoined()
    ensures "export AN_EXAMPLE=" + "\"$HOME\"'less'" == "export AN_EXAMPLE=\"$HOME\"'less'"
  {
  }

  lemma BashBlockText()
    ensures SetVariable(BashShell, "AN_EXAMPLE", "\"$HOME\"'less'", false) == "export AN_EXAMPLE=\"$HOME\"'less'"
  {
    BashStatement("AN_EXAMPLE", "\"$HOME\"'less'");
    BashBlockPrefix();
    BashBlockJoined();
  }

  lemma FishBlockValue(h: string, l: string)
    requires h == "HOME" && l == "less"
    ensures "\"$" + h + "\"" + ("'" + l + "'") == "\"$HOME\"'less'"
  {
  }

  lemma FishBlockAt(h: string, l: string)
    requires h == "HOME" && l == "less"
    ensures Line(FishShell, "AN_EXAMPLE", [Var(h), Lit(l)]) == SetVariable(FishShell, "AN_EXAMPLE", "\"$HOME\"'less'", false)
  {
    FishPlain(l);
    ExpandTwo(FishShell, Var(h), Lit(l));
    FishBlockValue(h, l);
  }

  lemma FishBlockPrefix()
    ensures "set -gx " + "AN_EXAMPLE" + " " == "set -gx AN_EXAMPLE "
  {
  }

  lemma FishBlockJoined()
    ensures "set -gx AN_EXAMPLE " + "\"$HOME\"'less'" == "set -gx AN_EXAMPLE \"$HOME\"'less'"
  {
  }

  lemma FishBlockText()
    ensures SetVariable(FishShell, "AN_EXAMPLE", "\"$HOME\"'less'", false) == "set -gx AN_EXAMPLE \"$HOME\"'less'"
  {
    FishStatement("AN_EXAMPLE", "\"$HOME\"'less'");
    FishBlockPrefix();
    FishBlockJoined();
  }

  lemma BashCommandValue(v: string)
    requires v == "which micro"
    ensures "$(eval '" + v + "')" == "$(eval 'which micro')"
  {
  }

  lemma BashCommandAt(v: string)
    requires v == "which micro"
    ensures Line(BashShell, "EDITOR", [Cmd(v)]) == SetVariable(BashShell, "EDITOR", "$(eval 'which micro')", false)
  {
    DefaultPlain(BashShell, v);
    ExpandOne(BashShell, Cmd(v));
    BashCommandValue(v);
  }

  lemma BashCommandPrefix()
    ensures "export " + "EDITOR" + "=" == "export EDITOR="
  {
  }

  lemma BashCommandJoined()
    ensures "export EDITOR=" + "$(eval 'which micro')" == "export EDITOR=$(eval 'which micro')"
  {
  }

  lemma BashCommandText()
    ensures SetVariable(BashShell, "EDITOR", "$(eval 'which micro')", false) == "export EDITOR=$(eval 'which micro')"
  {
    BashStatement("EDITOR", "$(eval 'which micro')");
    BashCommandPrefix();
    BashCommandJoined();
  }

  lemma FishCommandValue(v: string)
    requires v == "which micro"
    ensures "(eval '" + v + "')" == "(eval 'which micro')"
  {
  }

  lemma FishCommandAt(v: string)
    requires v == "which micro"
    ensures Line(FishShell, "EDITOR", [Cmd(v)]) == SetVariable(FishShell, "EDITOR", "(eval 'which micro')", false)
  {
    FishPlain(v);
    ExpandOne(FishShell, Cmd(v));
    FishCommandValue(v);
  }

  lemma FishCommandPrefix()
    ensures "set -gx " + "EDITOR" + " " == "set -gx EDITOR "
  {
  }

  lemma FishCommandJoined()
    ensures "set -gx EDITOR " + "(eval 'which micro')" == "set -gx EDITOR (eval 'which micro')"
  {
  }

  lemma FishCommandText()
    ensures SetVariable(FishShell, "EDITOR", "(eval 'which micro')", false) == "set -gx EDITOR (eval 'which micro')"
  {
    FishStatement("EDITOR", "(eval 'which micro')");
    FishCommandPrefix();
    FishCommandJoined();
  }

  lemma BashHomeValue(u: string)
    requires u == "superatomic"
    ensures "$(eval echo \"~" + u + "\")" == "$(eval echo \"~superatomic\")"
  {
  }

  lemma BashHomeAt(u: string)
    requires u == "superatomic"
    ensures Line(BashShell, "HOME", [Tilde(u)]) == SetVariable(BashShell, "HOME", "$(eval echo \"~superatomic\")", false)
  {
    ExpandOne(BashShell, Tilde(u));
    BashHomeValue(u);
  }

  lemma BashHomePrefix()
    ensures "export " + "HOME" + "=" == "export HOME="
  {
  }

  lemma BashHomeJoined()
    ensures "export HOME=" + "$(eval echo \"~superatomic\")" == "export HOME=$(eval echo \"~superatomic\")"
  {
  }

  lemma BashHomeText()
    ensures SetVariable(BashShell, "HOME", "$(eval echo \"~superatomic\")", false) == "export HOME=$(eval echo \"~superatomic\")"
  {
    BashStatement("HOME", "$(eval echo \"~superatomic\")");
    BashHomePrefix();
    BashHomeJoined();
  }

  lemma FishHomeValue(u: string)
    requires u == "superatomic"
    ensures "(eval echo \"~" + u + "\")" == "(eval echo \"~superatomic\")"
  {
  }

  lemma FishHomeAt(u: string)
    requires u == "superatomic"
    ensures Line(FishShell, "HOME", [Tilde(u)]) == SetVariable(FishShell, "HOME", "(eval echo \"~superatomic\")", false)
  {
    ExpandOne(FishShell, Tilde(u));
    FishHomeValue(u);
  }

  lemma FishHomePrefix()
    ensures "set -gx " + "HOME" + " " == "set -gx HOME "
  {
  }

  lemma FishHomeJoined()
    ensures "set -gx HOME " + "(eval echo \"~superatomic\")" == "set -gx HOME (eval echo \"~superatomic\")"
  {
  }

  lemma FishHomeText()
    ensures SetVariable(FishShell, "HOME", "(eval echo \"~superatomic\")", false) == "set -gx HOME (eval echo \"~superatomic\")"
  {
    FishStatement("HOME", "(eval echo \"~superatomic\")");
    FishHomePrefix();
    FishHomeJoined();
  }

  lemma BashQuotesValue(x: string, y: string, z: string)
    requires x == "I " && y == "love" && z == " books"
    ensures SpliceRuns(x, y, z) == "'I '\"'\"'love'\"'\"' books'"
  {
  }

  lemma BashQuotesAt(m: string, x: string, y: string, z: string)
    requires m == "I 'love' books" && x == "I " && y == "love" && z == " books"
    ensures Line(BashShell, "MESSAGE", [Lit(m)]) == SetVariable(BashShell, "MESSAGE", "'I '\"'\"'love'\"'\"' books'", false)
  {
    LoveRuns(m, x, y, z);
    BashRunsThree(x, y, z);
    ExpandOne(BashShell, Lit(m));
    BashQuotesValue(x, y, z);
  }

  lemma BashQuotesPrefix()
    ensures "export " + "MESSAGE" + "=" == "export MESSAGE="
  {
  }

  lemma BashQuotesJoined()
    ensures "export MESSAGE=" + "'I '\"'\"'love'\"'\"' books'" == "export MESSAGE='I '\"'\"'love'\"'\"' books'"
  {
  }

  lemma BashQuotesText()
    ensures SetVariable(BashShell, "MESSAGE", "'I '\"'\"'love'\"'\"' books'", false) == "export MESSAGE='I '\"'\"'love'\"'\"' books'"
  {
    BashStatement("MESSAGE", "'I '\"'\"'love'\"'\"' books'");
    BashQuotesPrefix();
    BashQuotesJoined();
  }

  lemma FishQuotesValue(x: string, y: string, z: string)
    requires x == "I " && y == "love" && z == " books"
    ensures "'" + (x + "\\'" + y + "\\'" + z) + "'" == "'I \\'love\\' books'"
  {
  }

  lemma FishQuotesAt(m: string, x: string, y: string, z: string)
    requires m == "I 'love' books" && x == "I " && y == "love" && z == " books"
    ensures Line(FishShell, "MESSAGE", [Lit(m)]) == SetVariable(FishShell, "MESSAGE", "'I \\'love\\' books'", false)
  {
    LoveRuns(m, x, y, z);
    FishRunsThree(x, y, z);
    ExpandOne(FishShell, Lit(m));
    FishQuotesValue(x, y, z);
  }

  lemma FishQuotesPrefix()
    ensures "set -gx " + "MESSAGE" + " " == "set -gx MESSAGE "
  {
  }

  lemma FishQuotesJoined()
    ensures "set -gx MESSAGE " + "'I \\'love\\' books'" == "set -gx MESSAGE 'I \\'love\\' books'"
  {
  }

  lemma FishQuotesText()
    ensures SetVariable(FishShell, "MESSAGE", "'I \\'love\\' books'", false) == "set -gx MESSAGE 'I \\'love\\' books'"
  {
    FishStatement("MESSAGE", "'I \\'love\\' books'");
    FishQuotesPrefix();
    FishQuotesJoined();
  }

  lemma FishPrettyValue(x: string, y: string)
    requires x == "you" && y == "re pretty"
    ensures "'" + (x + "\\'" + y) + "'" == "'you\\'re pretty'"
  {
  }

  lemma FishPrettyAt(m: string, x: string, y: string)
    requires m == "you're pretty" && x == "you" && y == "re pretty"
    ensures Line(FishShell, "SOME_VARIABLE", [Lit(m)]) == SetVariable(FishShell, "SOME_VARIABLE", "'you\\'re pretty'", false)
  {
    PrettyRuns(m, x, y);
    FishRunsTwo(x, y);
    ExpandOne(FishShell, Lit(m));
    FishPrettyValue(x, y);
  }

  lemma FishPrettyPrefix()
    ensures "set -gx " + "SOME_VARIABLE" + " " == "set -gx SOME_VARIABLE "
  {
  }

  lemma FishPrettyJoined()
    ensures "set -gx SOME_VARIABLE " + "'you\\'re pretty'" == "set -gx SOME_VARIABLE 'you\\'re pretty'"
  {
  }

  lemma FishPrettyText()
    ensures SetVariable(FishShell, "SOME_VARIABLE", "'you\\'re pretty'", false) == "set -gx SOME_VARIABLE 'you\\'re pretty'"
  {
    FishStatement("SOME_VARIABLE", "'you\\'re pretty'");
    FishPrettyPrefix();
    FishPrettyJoined();
  }

  lemma BashBackslashValue(v: string)
    requires v == "\\"
    ensures "'" + v + "'" == "'\\'"
  {
  }

  lemma BashBackslashAt(v: string)
    requires v == "\\"
    ensures Line(BashShell, "FAVORITE_CHARACTER", [Lit(v)]) == SetVariable(BashShell, "FAVORITE_CHARACTER", "'\\'", false)
  {
    DefaultPlain(BashShell, v);
    ExpandOne(BashShell, Lit(v));
    BashBackslashValue(v);
  }

  lemma BashBackslashPrefix()
    ensures "export " + "FAVORITE_CHARACTER" + "=" == "export FAVORITE_CHARACTER="
  {
  }

  lemma BashBackslashJoined()
    ensures "export FAVORITE_CHARACTER=" + "'\\'" == "export FAVORITE_CHARACTER='\\'"
  {
  }

  lemma BashBackslashText()
    ensures SetVariable(BashShell, "FAVORITE_CHARACTER", "'\\'", false) == "export FAVORITE_CHARACTER='\\'"
  {
    BashStatement("FAVORITE_CHARACTER", "'\\'");
    BashBackslashPrefix();
    BashBackslashJoined();
  }

  lemma FishBackslashValue()
    ensures "'" + "\\\\" + "'" == "'\\\\'"
  {
  }

  lemma FishBackslashAt(v: string)
    requires v == "\\"
    ensures Line(FishShell, "FAVORITE_CHARACTER", [Lit(v)]) == SetVariable(FishShell, "FAVORITE_CHARACTER", "'\\\\'", false)
  {
    FishDoubledBackslash(v);
    ExpandOne(FishShell, Lit(v));
    FishBackslashValue();
  }

  lemma FishBackslashPrefix()
    ensures "set -gx " + "FAVORITE_CHARACTER" + " " == "set -gx FAVORITE_CHARACTER "
  {
  }

  lemma FishBackslashJoined()
    ensures "set -gx FAVORITE_CHARACTER " + "'\\\\'" == "set -gx FAVORITE_CHARACTER '\\\\'"
  {
  }

  lemma FishBackslashText()
    ensures SetVariable(FishShell, "FAVORITE_CHARACTER", "'\\\\'", false) == "set -gx FAVORITE_CHARACTER '\\\\'"
  {
    FishStatement("FAVORITE_CHARACTER", "'\\\\'");
    FishBackslashPrefix();
    FishBackslashJoined();
  }

  lemma BashEchoText(x: string, y: string, z: string)
    requires x == "echo " && y == ")" && z == ""
    ensures SpliceRuns(x, y, z) == "'echo '\"'\"')'\"'\""
  {
    assert QuoteRun(z) == [];
  }

  /** The message's first literal, quoted, written out. */
  lemma EscapesFirstText(a: string)
    requires a == "$() is literal, and "
    ensures "'" + a + "'" == "'$() is literal, and '"
  {
  }

  /** The message's last literal, quoted, written out. */
  lemma EscapesLastText(d: string)
    requires d == " is escaped."
    ensures "'" + d + "'" == "' is escaped.'"
  {
  }

  lemma BashMessagePrefix()
    ensures "export " + "MESSAGE" + "=" == "export MESSAGE="
  {
  }

  lemma BashEscapesCommandText(e: string)
    requires e == "'echo '\"'\"')'\"'\""
    ensures "$(eval " + e + ")" == "$(eval 'echo '\"'\"')'\"'\")"
  {
  }

  lemma BashEscapesValue(a: string, c: string, x: string, y: string, z: string, d: string)
    requires a == "$() is literal, and " && c == "echo ')'" && x == "echo " && y == ")" && z == "" && d == " is escaped."
    ensures ExpandValue(BashShell, [Lit(a), Cmd(c), Lit(d)]) == "'" + a + "'" + ("$(eval " + SpliceRuns(x, y, z) + ")") + ("'" + d + "'")
  {
    EchoRuns(c, x, y, z);
    DefaultPlain(BashShell, a);
    DefaultPlain(BashShell, d);
    BashRunsThree(x, y, z);
    ExpandThree(BashShell, Lit(a), Cmd(c), Lit(d));
  }

  /** The expected line is written as the statement's prefix and the three rendered parts. */
  lemma BashEscapesAt(a: string, c: string, x: string, y: string, z: string, d: string)
    requires a == "$() is literal, and " && c == "echo ')'" && x == "echo " && y == ")" && z == "" && d == " is escaped."
    ensures Line(BashShell, "MESSAGE", [Lit(a), Cmd(c), Lit(d)])
         == "export MESSAGE=" + ("'$() is literal, and '" + "$(eval 'echo '\"'\"')'\"'\")" + "' is escaped.'")
  {
    BashEscapesValue(a, c, x, y, z, d);
    BashEchoText(x, y, z);
    BashMessagePrefix();
    EscapesFirstText(a);
    BashEscapesCommandText(SpliceRuns(x, y, z));
    EscapesLastText(d);
  }

  lemma FishEchoText(x: string, y: string, z: string)
    requires x == "echo " && y == ")" && z == ""
    ensures "'" + (x + "\\'" + y + "\\'" + z) + "'" == "'echo \\')\\''"
  {
  }

  lemma FishMessagePrefix()
    ensures "set -gx" + "" + " " + "MESSAGE" + " " == "set -gx MESSAGE "
  {
  }

  lemma FishEscapesCommandText(e: string)
    requires e == "'echo \\')\\''"
    ensures "(eval " + e + ")" == "(eval 'echo \\')\\'')"
  {
  }

  lemma FishEscapesFirst(a: string)
    requires a == "$() is literal, and "
    ensures ShellFormat(FishShell, Literal, a) == "'" + a + "'"
  {
    FishPlain(a);
  }

  lemma FishEscapesLast(d: string)
    requires d == " is escaped."
    ensures ShellFormat(FishShell, Literal, d) == "'" + d + "'"
  {
    FishPlain(d);
  }

  lemma FishEscapesCommand(c: string, x: string, y: string, z: string)
    requires c == "echo ')'" && x == "echo " && y == ")" && z == ""
    ensures ShellFormat(FishShell, ShellCommand, c) == "(eval " + ("'" + (x + "\\'" + y + "\\'" + z) + "'") + ")"
  {
    EchoRuns(c, x, y, z);
    FishRunsThree(x, y, z);
  }

  lemma FishEscapesValue(a: string, c: string, x: string, y: string, z: string, d: string)
    requires a == "$() is literal, and " && c == "echo ')'" && x == "echo " && y == ")" && z == "" && d == " is escaped."
    ensures ExpandValue(FishShell, [Lit(a), Cmd(c), Lit(d)]) == "'" + a + "'" + ("(eval " + ("'" + (x + "\\'" + y + "\\'" + z) + "'") + ")") + ("'" + d + "'")
  {
    FishEscapesFirst(a);
    FishEscapesLast(d);
    FishEscapesCommand(c, x, y, z);
    ExpandThree(FishShell, Lit(a), Cmd(c), Lit(d));
  }

  /** The expected line is written as the statement's prefix and the three rendered parts. */
  lemma FishEscapesAt(a: string, c: string, x: string, y: string, z: string, d: string)
    requires a == "$() is literal, and " && c == "echo ')'" && x == "echo " && y == ")" && z == "" && d == " is escaped."
    ensures Line(FishShell, "MESSAGE", [Lit(a), Cmd(c), Lit(d)])
         == "set -gx MESSAGE " + ("'$() is literal, and '" + "(eval 'echo \\')\\'')" + "' is escaped.'")
  {
    FishEscapesValue(a, c, x, y, z, d);
    FishEchoText(x, y, z);
    FishMessagePrefix();
    EscapesFirstText(a);
    FishEscapesCommandText("'" + (x + "\\'" + y + "\\'" + z) + "'");
    EscapesLastText(d);
  }

  lemma OnlyForBashPlain(v: string)
    requires v == "Do people read test cases?"
    ensures '\'' !in v && v != []
  {
  }

  lemma OnlyForBashQuoted(v: string)
    requires v == "Do people read test cases?"
    ensures "'" + v + "'" == "'Do people read test cases?'"
  {
  }

  lemma OnlyForBashPrefix(n: string)
    requires n == "ONLY_FOR_BASH"
    ensures "export " + n + "=" == "export ONLY_FOR_BASH="
  {
  }

  lemma OnlyForBashJoined(p: string, q: string)
    requires p == "export ONLY_FOR_BASH=" && q == "'Do people read test cases?'"
    ensures p + q == "export ONLY_FOR_BASH='Do people read test cases?'"
  {
  }

  lemma DeniedQuoted(v: string)
    requires v == "[ACCESS DENIED]"
    ensures '\'' !in v && v != []
    ensures "'" + v + "'" == "'[ACCESS DENIED]'"
  {
  }

  lemma DeniedPrefix(n: string)
    requires n == "SOME_VARIABLE"
    ensures "export " + n + "=" == "export SOME_VARIABLE="
  {
  }

  lemma DeniedJoined(p: string, q: string)
    requires p == "export SOME_VARIABLE=" && q == "'[ACCESS DENIED]'"
    ensures p + q == "export SOME_VARIABLE='[ACCESS DENIED]'"
  {
  }

  /** `[ACCESS DENIED]` set as SOME_VARIABLE under the defaults. */
  lemma DeniedLine(b: Behavior)
    requires UsesDefaults(b)
    ensures Line(b, "SOME_VARIABLE", [Lit("[ACCESS DENIED]")]) == "export SOME_VARIABLE='[ACCESS DENIED]'"
  {
    var n, v := "SOME_VARIABLE", "[ACCESS DENIED]";
    DeniedQuoted(v);
    DeniedPrefix(n);
    DeniedJoined("export SOME_VARIABLE=", "'[ACCESS DENIED]'");
    DefaultLiteralLine(b, n, v, "export SOME_VARIABLE=", "'[ACCESS DENIED]'", "export SOME_VARIABLE='[ACCESS DENIED]'");
  }

  lemma SleepyPrefix(n: string)
    requires n == "ANOTHER_VARIABLE"
    ensures "export " + n + "=" == "export ANOTHER_VARIABLE="
  {
  }

  lemma SleepyQuoted(v: string)
    requires v == "Zzz"
    ensures '\'' !in v && v != []
    ensures "'" + v + "'" == "'Zzz'"
  {
  }

  lemma SleepyJoined(p: string, q: string)
    requires p == "export ANOTHER_VARIABLE=" && q == "'Zzz'"
    ensures p + q == "export ANOTHER_VARIABLE='Zzz'"
  {
  }

  /** `Zzz` set as ANOTHER_VARIABLE under the defaults. */
  lemma SleepyLine(b: Behavior)
    requires UsesDefaults(b)
    ensures Line(b, "ANOTHER_VARIABLE", [Lit("Zzz")]) == "export ANOTHER_VARIABLE='Zzz'"
  {
    var n, v := "ANOTHER_VARIABLE", "Zzz";
    SleepyQuoted(v);
    SleepyPrefix(n);
    SleepyJoined("export ANOTHER_VARIABLE=", "'Zzz'");
    DefaultLiteralLine(b, n, v, "export ANOTHER_VARIABLE=", "'Zzz'", "export ANOTHER_VARIABLE='Zzz'");
  }

  // ---------------------------------------------------------------------------
  // The shells' test cases, with the values written out
  // ---------------------------------------------------------------------------

  /** zsh keeps every default, so its expected lines are bash's. */
  lemma ZshLine(n: string, parts: seq<ValuePart>)
    ensures Line(ZshShell, n, parts) == Line(BashShell, n, parts)
  {
    ZshRendersAsBash(Literal, [], n, false, parts);
  }

  lemma BashConvertString()
    ensures Line(BashShell, "FOO", [Lit("Bar")]) == "export FOO='Bar'"
  {
    BashStringAt("Bar");
    BashStringText();
  }

  lemma BashConvertSpecific()
    ensures Line(BashShell, "ONLY_FOR_BASH", [Lit("Do people read test cases?")]) == "export ONLY_FOR_BASH='Do people read test cases?'"
  {
    var n, v := "ONLY_FOR_BASH", "Do people read test cases?";
    OnlyForBashPlain(v);
    OnlyForBashPrefix(n);
    OnlyForBashQuoted(v);
    OnlyForBashJoined("export ONLY_FOR_BASH=", "'Do people read test cases?'");
    DefaultLiteralLine(BashShell, n, v, "export ONLY_FOR_BASH=", "'Do people read test cases?'", "export ONLY_FOR_BASH='Do people read test cases?'");
  }

  /** Bash expects this one line for both configurations with a `_` entry. */
  lemma BashConvertSpecificOther()
    ensures Line(BashShell, "SOME_VARIABLE", [Lit("[ACCESS DENIED]")]) == "export SOME_VARIABLE='[ACCESS DENIED]'"
  {
    DeniedLine(BashShell);
  }

  lemma BashShellVariablesInline()
    ensures Line(BashShell, "WHERE_THE_HEART_IS", [Var("HOME")]) == "export WHERE_THE_HEART_IS=\"$HOME\""
  {
    BashInlineAt("HOME");
    BashInlineText();
  }

  lemma BashShellVariablesBlock()
    ensures Line(BashShell, "AN_EXAMPLE", [Var("HOME"), Lit("less")]) == "export AN_EXAMPLE=\"$HOME\"'less'"
  {
    BashBlockAt("HOME", "less");
    BashBlockText();
  }

  lemma BashShellCommands()
    ensures Line(BashShell, "EDITOR", [Cmd("which micro")]) == "export EDITOR=$(eval 'which micro')"
  {
    BashCommandAt("which micro");
    BashCommandText();
  }

  lemma BashShellHomeTilde()
    ensures Line(BashShell, "HOME", [Tilde("superatomic")]) == "export HOME=$(eval echo \"~superatomic\")"
  {
    BashHomeAt("superatomic");
    BashHomeText();
  }

  lemma BashEscapingQuotes()
    ensures Line(BashShell, "MESSAGE", [Lit("I 'love' books")]) == "export MESSAGE='I '\"'\"'love'\"'\"' books'"
  {
    BashQuotesAt("I 'love' books", "I ", "love", " books");
    BashQuotesText();
  }

  /** The first expected line is written as the statement's prefix followed by the three rendered parts. */
  lemma BashCharacterEscapes()
    ensures Line(BashShell, "MESSAGE", [Lit("$() is literal, and "), Cmd("echo ')'"), Lit(" is escaped.")])
         == "export MESSAGE=" + ("'$() is literal, and '" + "$(eval 'echo '\"'\"')'\"'\")" + "' is escaped.'")
    ensures Line(BashShell, "FAVORITE_CHARACTER", [Lit("\\")]) == "export FAVORITE_CHARACTER='\\'"
  {
    BashEscapesAt("$() is literal, and ", "echo ')'", "echo ", ")", "", " is escaped.");
    BashBackslashAt("\\");
    BashBackslashText();
  }

  lemma BashConvertSet()
    ensures SetVariable(BashShell, "HOMEBREW_NO_ANALYTICS", "1", false) == "export HOMEBREW_NO_ANALYTICS=1"
  {
  }

  lemma BashConvertUnset()
    ensures UnsetVariable(BashShell, "HOMEBREW_NO_ANALYTICS") == "unset HOMEBREW_NO_ANALYTICS"
  {
  }

  lemma ZshConvertString()
    ensures Line(ZshShell, "FOO", [Lit("Bar")]) == "export FOO='Bar'"
  {
    BashConvertString();
    ZshLine("FOO", [Lit("Bar")]);
  }

  lemma ZshConvertSpecificOther()
    ensures Line(ZshShell, "SOME_VARIABLE", [Lit("[ACCESS DENIED]")]) == "export SOME_VARIABLE='[ACCESS DENIED]'"
  {
    DeniedLine(ZshShell);
  }

  /** The two expected lines, one for each of the configuration's variables. */
  lemma ZshConvertSpecificOtherAlt()
    ensures Line(ZshShell, "SOME_VARIABLE", [Lit("[ACCESS DENIED]")]) == "export SOME_VARIABLE='[ACCESS DENIED]'"
    ensures Line(ZshShell, "ANOTHER_VARIABLE", [Lit("Zzz")]) == "export ANOTHER_VARIABLE='Zzz'"
  {
    DeniedLine(ZshShell);
    SleepyLine(ZshShell);
  }

  lemma ZshShellVariablesInline()
    ensures Line(ZshShell, "WHERE_THE_HEART_IS", [Var("HOME")]) == "export WHERE_THE_HEART_IS=\"$HOME\""
  {
    BashShellVariablesInline();
    ZshLine("WHERE_THE_HEART_IS", [Var("HOME")]);
  }

  lemma ZshShellVariablesBlock()
    ensures Line(ZshShell, "AN_EXAMPLE", [Var("HOME"), Lit("less")]) == "export AN_EXAMPLE=\"$HOME\"'less'"
  {
    BashShellVariablesBlock();
    ZshLine("AN_EXAMPLE", [Var("HOME"), Lit("less")]);
  }

  lemma ZshShellCommands()
    ensures Line(ZshShell, "EDITOR", [Cmd("which micro")]) == "export EDITOR=$(eval 'which micro')"
  {
    BashShellCommands();
    ZshLine("EDITOR", [Cmd("which micro")]);
  }

  lemma ZshShellHomeTilde()
    ensures Line(ZshShell, "HOME", [Tilde("superatomic")]) == "export HOME=$(eval echo \"~superatomic\")"
  {
    BashShellHomeTilde();
    ZshLine("HOME", [Tilde("superatomic")]);
  }

  lemma ZshEscapingQuotes()
    ensures Line(ZshShell, "MESSAGE", [Lit("I 'love' books")]) == "export MESSAGE='I '\"'\"'love'\"'\"' books'"
  {
    BashEscapingQuotes();
    ZshLine("MESSAGE", [Lit("I 'love' books")]);
  }

  /** The first expected line is written as the statement's prefix followed by the three rendered parts. */
  lemma ZshCharacterEscapes()
    ensures Line(ZshShell, "MESSAGE", [Lit("$() is literal, and "), Cmd("echo ')'"), Lit(" is escaped.")])
         == "export MESSAGE=" + ("'$() is literal, and '" + "$(eval 'echo '\"'\"')'\"'\")" + "' is escaped.'")
    ensures Line(ZshShell, "FAVORITE_CHARACTER", [Lit("\\")]) == "export FAVORITE_CHARACTER='\\'"
  {
    BashCharacterEscapes();
    ZshLine("MESSAGE", [Lit("$() is literal, and "), Cmd("echo ')'"), Lit(" is escaped.")]);
    ZshLine("FAVORITE_CHARACTER", [Lit("\\")]);
  }

  lemma ZshConvertSet()
    ensures SetVariable(ZshShell, "HOMEBREW_NO_ANALYTICS", "1", false) == "export HOMEBREW_NO_ANALYTICS=1"
  {
  }

  lemma ZshConvertUnset()
    ensures UnsetVariable(ZshShell, "HOMEBREW_NO_ANALYTICS") == "unset HOMEBREW_NO_ANALYTICS"
  {
  }

  lemma FishConvertString()
    ensures Line(FishShell, "FOO", [Lit("Bar")]) == "set -gx FOO 'Bar'"
  {
    FishStringAt("Bar");
    FishStringText();
  }

  lemma FishShellVariablesInline()
    ensures Line(FishShell, "WHERE_THE_HEART_IS", [Var("HOME")]) == "set -gx WHERE_THE_HEART_IS \"$HOME\""
  {
    FishInlineAt("HOME");
    FishInlineText();
  }

  lemma FishShellVariablesBlock()
    ensures Line(FishShell, "AN_EXAMPLE", [Var("HOME"), Lit("less")]) == "set -gx AN_EXAMPLE \"$HOME\"'less'"
  {
    FishBlockAt("HOME", "less");
    FishBlockText();
  }

  lemma FishShellCommands()
    ensures Line(FishShell, "EDITOR", [Cmd("which micro")]) == "set -gx EDITOR (eval 'which micro')"
  {
    FishCommandAt("which micro");
    FishCommandText();
  }

  lemma FishShellHomeTilde()
    ensures Line(FishShell, "HOME", [Tilde("superatomic")]) == "set -gx HOME (eval echo \"~superatomic\")"
  {
    FishHomeAt("superatomic");
    FishHomeText();
  }

  lemma FishEscapingQuotes()
    ensures Line(FishShell, "MESSAGE", [Lit("I 'love' books")]) == "set -gx MESSAGE 'I \\'love\\' books'"
  {
    FishQuotesAt("I 'love' books", "I ", "love", " books");
    FishQuotesText();
  }

  /** The first expected line is written as the statement's prefix followed by the three rendered parts. */
  lemma FishCharacterEscapes()
    ensures Line(FishShell, "MESSAGE", [Lit("$() is literal, and "), Cmd("echo ')'"), Lit(" is escaped.")])
         == "set -gx MESSAGE " + ("'$() is literal, and '" + "(eval 'echo \\')\\'')" + "' is escaped.'")
    ensures Line(FishShell, "FAVORITE_CHARACTER", [Lit("\\")]) == "set -gx FAVORITE_CHARACTER '\\\\'"
  {
    FishEscapesAt("$() is literal, and ", "echo ')'", "echo ", ")", "", " is escaped.");
    FishBackslashAt("\\");
    FishBackslashText();
  }

  lemma FishConvertSet()
    ensures SetVariable(FishShell, "HOMEBREW_NO_ANALYTICS", "1", false) == "set -gx HOMEBREW_NO_ANALYTICS 1"
  {
  }

  lemma FishConvertUnset()
    ensures UnsetVariable(FishShell, "HOMEBREW_NO_ANALYTICS") == "set -ge HOMEBREW_NO_ANALYTICS"
  {
  }

  lemma FishSpecificOther()
    ensures Line(FishShell, "SOME_VARIABLE", [Lit("you're pretty")]) == "set -gx SOME_VARIABLE 'you\\'re pretty'"
  {
    FishPrettyAt("you're pretty", "you", "re pretty");
    FishPrettyText();
  }
}
