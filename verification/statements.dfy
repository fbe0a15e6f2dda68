/**
  Reading the set and unset statements each dialect writes. The parsers are
  the partners of `SetVariable` and `UnsetVariable`: for an identifier name
  they recover the name, the value text exactly as it was passed, and the
  path flag where the dialect writes one.
 */
module Statements {
  import opened Wrappers
  import Text
  import opened Shells
  import FishDialect

  /** What a statement line does to the environment. */
  datatype Statement = Assign(name: string, value: string, pathFlag: bool) | Remove(name: string)

  predicate IsNameChar(c: char)
  {
    ('A' <= c <= 'Z') || ('a' <= c <= 'z') || ('0' <= c <= '9') || c == '_'
  }

  /** A shell identifier, the kind of variable name the configuration is assumed to use. */
  predicate IsName(n: string)
  {
    |n| > 0 && forall i :: 0 <= i < |n| ==> IsNameChar(n[i])
  }

  lemma NameHasNo(n: string, c: char)
    requires IsName(n) && !IsNameChar(c)
    ensures c !in n
  {
  }

  /** `export NAME=VALUE` or `unset NAME`. */
  function ParseDefault(line: string): Option<Statement>
  {
    if Text.HasPrefix(line, "export ") then
      match Text.ReadUntil(line[7..], '=')
      case Some((n, v)) => Some(Assign(n, v, false))
      case None => None
    else if Text.HasPrefix(line, "unset ") then Some(Remove(line[6..]))
    else None
  }

  /** `set -gx [--path] NAME VALUE` or `set -ge NAME`. */
  function ParseFish(line: string): Option<Statement>
  {
    if Text.HasPrefix(line, "set -ge ") then Some(Remove(line[8..]))
    else if Text.HasPrefix(line, "set -gx --path ") then
      match Text.ReadUntil(line[15..], ' ')
      case Some((n, v)) => Some(Assign(n, v, true))
      case None => None
    else if Text.HasPrefix(line, "set -gx ") then
      match Text.ReadUntil(line[8..], ' ')
      case Some((n, v)) => Some(Assign(n, v, false))
      case None => None
    else None
  }

  /** `$NAME = True`, `$NAME = f"VALUE"` or `del $NAME`; `True` reads as the value text "1". */
  function ParseXonsh(line: string): Option<Statement>
  {
    if Text.HasPrefix(line, "del $") then Some(Remove(line[5..]))
    else if Text.HasPrefix(line, "$") then
      match Text.ReadUntil(line[1..], ' ')
      case Some((n, rest)) =>
        (match XonshValueText(rest)
         case Some(v) => Some(Assign(n, v, false))
         case None => None)
      case None => None
    else None
  }

  /** `set-env NAME 'VALUE'` or `del-env NAME`. */
  function ParseElvish(line: string): Option<Statement>
  {
    if Text.HasPrefix(line, "del-env ") then Some(Remove(line[8..]))
    else if Text.HasPrefix(line, "set-env ") then
      match Text.ReadUntil(line[8..], ' ')
      case Some((n, rest)) =>
        if |rest| >= 2 && rest[0] == '\'' && rest[|rest| - 1] == '\'' then Some(Assign(n, rest[1..|rest| - 1], false))
        else None
      case None => None
    else None
  }

  function ParseStatement(b: Behavior, line: string): Option<Statement>
  {
    match b
    case FishShell => ParseFish(line)
    case XonshShell => ParseXonsh(line)
    case ElvishShell => ParseElvish(line)
    case _ => ParseDefault(line)
  }

  /** Only fish writes the path flag down; the other dialects drop it. */
  predicate KeepsPathFlag(b: Behavior)
  {
    b == FishShell
  }

  lemma DefaultSetRoundTrip(b: Behavior, n: string, v: string, p: bool)
    requires UsesDefaults(b) && IsName(n)
    ensures ParseStatement(b, SetVariable(b, n, v, p)) == Some(Assign(n, v, false))
  {
    var line := "export " + (n + ['='] + v);
    assert SetVariable(b, n, v, p) == line;
    Text.PrefixOfAppend("export ", n + ['='] + v);
    NameHasNo(n, '=');
    Text.ReadUntilPrefix(n, '=', v);
  }

  lemma FishPathSetRoundTrip(n: string, v: string)
    requires IsName(n)
    ensures ParseFish(FishDialect.SetVariable(n, v, true)) == Some(Assign(n, v, true))
  {
    var line := "set -gx --path " + (n + [' '] + v);
    assert FishDialect.SetVariable(n, v, true) == line;
    Text.PrefixOfAppend("set -gx --path ", n + [' '] + v);
    Text.NotPrefixAt(line, "set -ge ", 6);
    NameHasNo(n, ' ');
    Text.ReadUntilPrefix(n, ' ', v);
  }

  lemma FishPlainSetRoundTrip(n: string, v: string)
    requires IsName(n)
    ensures ParseFish(FishDialect.SetVariable(n, v, false)) == Some(Assign(n, v, false))
  {
    var line := "set -gx " + (n + [' '] + v);
    assert FishDialect.SetVariable(n, v, false) == line;
    Text.PrefixOfAppend("set -gx ", n + [' '] + v);
    Text.NotPrefixAt(line, "set -ge ", 6);
    assert line[8] == n[0];
    if |line| > 8 {
      Text.NotPrefixAt(line, "set -gx --path ", 8);
    }
    NameHasNo(n, ' ');
    Text.ReadUntilPrefix(n, ' ', v);
  }

  lemma FishSetRoundTrip(n: string, v: string, p: bool)
    requires IsName(n)
    ensures ParseStatement(FishShell, SetVariable(FishShell, n, v, p)) == Some(Assign(n, v, p))
  {
    if p {
      FishPathSetRoundTrip(n, v);
    } else {
      FishPlainSetRoundTrip(n, v);
    }
  }

  /** The part of a xonsh assignment after the name reads back as the value. */
  function XonshValueText(rest: string): Option<string>
  {
    if rest == "= True" then Some("1")
    else if Text.HasPrefix(rest, "= f\"") && |rest| >= 5 && rest[|rest| - 1] == '"' then Some(rest[4..|rest| - 1])
    else None
  }

  lemma XonshValueTextRoundTrip(v: string)
    ensures XonshValueText(if v == "1" then "= True" else "= f\"" + v + "\"") == Some(v)
  {
    if v != "1" {
      var rest := "= f\"" + (v + "\"");
      assert rest == "= f\"" + v + "\"";
      Text.PrefixOfAppend("= f\"", v + "\"");
      assert rest != "= True" by { assert rest[2] == 'f'; }
      assert rest[4..|rest| - 1] == v;
    }
  }

  lemma XonshSetRoundTrip(n: string, v: string, p: bool)
    requires IsName(n)
    ensures ParseStatement(XonshShell, SetVariable(XonshShell, n, v, p)) == Some(Assign(n, v, false))
  {
    NameHasNo(n, ' ');
    var rest := if v == "1" then "= True" else "= f\"" + v + "\"";
    var line := "$" + (n + [' '] + rest);
    assert SetVariable(XonshShell, n, v, p) == line;
    Text.PrefixOfAppend("$", n + [' '] + rest);
    Text.ReadUntilPrefix(n, ' ', rest);
    Text.NotPrefixAt(line, "del $", 0);
    XonshValueTextRoundTrip(v);
  }

  lemma ElvishSetRoundTrip(n: string, v: string, p: bool)
    requires IsName(n)
    ensures ParseStatement(ElvishShell, SetVariable(ElvishShell, n, v, p)) == Some(Assign(n, v, false))
  {
    var rest := "'" + v + "'";
    ElvishSetShape(n, v, p);
    ElvishSetParses(n, v, rest);
  }

  lemma ElvishSetShape(n: string, v: string, p: bool)
    ensures SetVariable(ElvishShell, n, v, p) == "set-env " + (n + [' '] + ("'" + v + "'"))
  {
    assert "set-env " + n + " " + ("'" + v + "'") == "set-env " + (n + [' '] + ("'" + v + "'"));
  }

  lemma SingleQuoted(v: string, rest: string)
    requires rest == "'" + v + "'"
    ensures |rest| >= 2 && rest[0] == '\'' && rest[|rest| - 1] == '\'' && rest[1..|rest| - 1] == v
  {
  }

  lemma ElvishSetParses(n: string, v: string, rest: string)
    requires IsName(n) && rest == "'" + v + "'"
    ensures ParseElvish("set-env " + (n + [' '] + rest)) == Some(Assign(n, v, false))
  {
    NameHasNo(n, ' ');
    var line := "set-env " + (n + [' '] + rest);
    Text.PrefixOfAppend("set-env ", n + [' '] + rest);
    Text.NotPrefixAt(line, "del-env ", 0);
    Text.ReadUntilPrefix(n, ' ', rest);
    SingleQuoted(v, rest);
  }

  /**
    Every dialect's assignment reads back as the name and the value text
    passed in, unchanged; the path flag survives exactly where the dialect
    keeps it.
   */
  lemma SetVariableRoundTrip(b: Behavior, n: string, v: string, p: bool)
    requires IsName(n)
    ensures ParseStatement(b, SetVariable(b, n, v, p)) == Some(Assign(n, v, p && KeepsPathFlag(b)))
  {
    match b
    case FishShell => FishSetRoundTrip(n, v, p);
    case XonshShell => XonshSetRoundTrip(n, v, p);
    case ElvishShell => ElvishSetRoundTrip(n, v, p);
    case _ => DefaultSetRoundTrip(b, n, v, p);
  }

  /** Every dialect's removal reads back as a removal of that name, never as an assignment. */
  lemma UnsetVariableRoundTrip(b: Behavior, n: string)
    requires IsName(n)
    ensures ParseStatement(b, UnsetVariable(b, n)) == Some(Remove(n))
  {
    var line := UnsetVariable(b, n);
    match b
    case FishShell =>
      Text.PrefixOfAppend("set -ge ", n);
    case XonshShell =>
      Text.PrefixOfAppend("del $", n);
    case ElvishShell =>
      Text.PrefixOfAppend("del-env ", n);
    case _ =>
      Text.PrefixOfAppend("unset ", n);
      assert line[0] == 'u';
  }

  /** Xonsh writes `True` exactly when the value text is "1": a literal "1" and a set flag look the same. */
  lemma XonshTrueExactlyForOne(n: string, v: string, p: bool)
    ensures SetVariable(XonshShell, n, v, p) == "$" + n + " = True" <==> v == "1"
  {
    if v != "1" {
      var line := SetVariable(XonshShell, n, v, p);
      assert line[|n| + 4] == 'f';
      assert ("$" + n + " = True")[|n| + 4] == 'T';
    }
  }

  /** The path flag changes nothing outside fish. */
  lemma PathFlagOnlyForFish(b: Behavior, n: string, v: string)
    requires b != FishShell
    ensures SetVariable(b, n, v, true) == SetVariable(b, n, v, false)
  {
  }
}
