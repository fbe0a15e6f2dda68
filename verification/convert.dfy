/**
  The conversion driver: it walks the configured variables in order, picks
  each one's value for the chosen shell, escapes it and appends one
  `;`-terminated statement line per variable that applies to the shell.

  Its partners are `Plan`, the sequence of statements the configuration asks
  for, and `ReadScript`, which reads the produced script back into
  statements; `ScriptReads` ties the three together.
 */
module Convert {
  import opened Wrappers
  import Text
  import IndexMaps
  import opened Cli
  import TomlEscape
  import Statements

  /** A configured value. */
  datatype EnvVariableValue = Set(flag: bool) | String(text: string) | Array(items: seq<string>)

  /** One value for every shell, or a table of per-shell values keyed by shell name or `_`. */
  datatype EnvVariableOption =
    | General(value: EnvVariableValue)
    | Specific(choices: IndexMaps.Entries<EnvVariableValue>)

  type EnvironmentVariables = IndexMaps.Entries<EnvVariableOption>

  /** The key of the per-shell entry that applies to every shell without one of its own. */
  const Fallback: string := "_"

  /** The shell's own entry, else the fallback entry, else nothing. */
  function ValueForSpecific(shell: Shell, m: IndexMaps.Entries<EnvVariableValue>): (r: Option<EnvVariableValue>)
    ensures r.None? <==> !IndexMaps.HasKey(m, Name(shell)) && !IndexMaps.HasKey(m, Fallback)
    ensures r.Some? ==> (Name(shell), r.value) in m || (Fallback, r.value) in m
  {
    match IndexMaps.Get(m, Name(shell))
    case Some(v) => Some(v)
    case None => IndexMaps.Get(m, Fallback)
  }

  /** An entry for the shell itself wins, whatever else the table holds. */
  lemma ValueForSpecificOwn(shell: Shell, m: IndexMaps.Entries<EnvVariableValue>, i: nat)
    requires IndexMaps.DistinctKeys(m) && i < |m| && m[i].0 == Name(shell)
    ensures ValueForSpecific(shell, m) == Some(m[i].1)
  {
    IndexMaps.GetEntry(m, i);
  }

  /** Without an entry for the shell, the `_` entry applies. */
  lemma ValueForSpecificFallback(shell: Shell, m: IndexMaps.Entries<EnvVariableValue>, i: nat)
    requires IndexMaps.DistinctKeys(m) && i < |m| && m[i].0 == Fallback
    requires !IndexMaps.HasKey(m, Name(shell))
    ensures ValueForSpecific(shell, m) == Some(m[i].1)
  {
    IndexMaps.GetEntry(m, i);
  }

  /** The value a variable takes for the shell, if the shell gets one. */
  function Resolve(shell: Shell, option: EnvVariableOption): Option<EnvVariableValue>
  {
    match option
    case General(v) => Some(v)
    case Specific(m) => ValueForSpecific(shell, m)
  }

  /**
    Tilde expansion of a whole value, with the home directory as a parameter
    (None when it cannot be determined): a leading `~` that stands alone or
    before a `/` becomes the home directory; `~user` and everything else is
    kept as it is.
   */
  function TildeExpand(s: string, home: Option<string>): (r: string)
    ensures (|s| == 0 || s[0] != '~') ==> r == s
    ensures home.None? ==> r == s
    ensures r != s ==> home.Some? && r == home.value + s[1..] && s[0] == '~'
    ensures Text.HasPrefix(s, "~/") && home.Some? ==> r == home.value + s[1..]
    ensures s == "~" && home.Some? ==> r == home.value
    ensures |s| > 1 && s[0] == '~' && s[1] != '/' ==> r == s
  {
    if |s| > 0 && s[0] == '~' && (|s| == 1 || s[1] == '/') && home.Some? then home.value + s[1..]
    else s
  }

  /**
    Tilde expansion read from the other side: for a known home directory,
    `~` followed by `t` expands exactly when `t` is empty or starts with `/`,
    and then to the home directory followed by `t`.
   */
  lemma TildeExpandHome(t: string, h: string)
    ensures (t == [] || t[0] == '/') ==> TildeExpand("~" + t, Some(h)) == h + t
    ensures (t != [] && t[0] != '/') ==> TildeExpand("~" + t, Some(h)) == "~" + t
  {
    assert ("~" + t)[1..] == t;
  }

  /** The escape chain, then tilde expansion. */
  function ExpandValue(value: string, home: Option<string>): string
  {
    TildeExpand(TomlEscape.EscapeChain(value), home)
  }

  /** A home directory that fits on one line. */
  predicate LineFree(home: Option<string>)
  {
    home.None? || '\n' !in home.value
  }

  /** A value that does not start with `~` is only escaped. */
  lemma ExpandValueIsEscape(value: string, home: Option<string>)
    requires |value| == 0 || value[0] != '~'
    ensures ExpandValue(value, home) == TomlEscape.Escape(value)
  {
    TomlEscape.ChainIsSinglePass(value);
    var e := TomlEscape.Escape(value);
    if |value| > 0 {
      assert e == TomlEscape.EscapeChar(value[0]) + TomlEscape.Escape(value[1..]);
      assert e[0] != '~';
    }
  }

  /** ... so unescaping the expanded value gives the configured value back. */
  lemma ExpandValueUnescapes(value: string, home: Option<string>)
    requires |value| == 0 || value[0] != '~'
    ensures TomlEscape.Unescape(ExpandValue(value, home)) == Some(value)
  {
    ExpandValueIsEscape(value, home);
    TomlEscape.UnescapeEscape(value);
  }

  /** The escape chain removes raw newlines, so an expanded value stays on one line. */
  lemma ExpandValueLineFree(value: string, home: Option<string>)
    requires LineFree(home)
    ensures '\n' !in ExpandValue(value, home)
  {
    TomlEscape.ChainIsSinglePass(value);
    var e := TomlEscape.Escape(value);
    assert '\n' !in e by {
      assert forall i :: 0 <= i < |e| ==> !TomlEscape.IsControl(e[i]);
    }
  }

  /** Every item expanded on its own. */
  function ExpandAll(items: seq<string>, home: Option<string>): (r: seq<string>)
    ensures |r| == |items|
    ensures forall i :: 0 <= i < |items| ==> r[i] == ExpandValue(items[i], home)
  {
    if |items| == 0 then [] else [ExpandValue(items[0], home)] + ExpandAll(items[1..], home)
  }

  /** `export N="V";` for bash and zsh, `set -gx[ --path] N "V";` for fish, each ending the line. */
  function SetLine(shell: Shell, name: string, value: string, isPath: bool): string
  {
    match shell
    case Fish =>
      var path := if isPath then " --path" else "";
      "set -gx" + path + " " + name + " \"" + value + "\";\n"
    case _ => "export " + name + "=\"" + value + "\";\n"
  }

  /** `unset N;` for bash and zsh, `set -e N;` for fish, each ending the line. */
  function UnsetLine(shell: Shell, name: string): string
  {
    match shell
    case Fish => "set -e " + name + ";\n"
    case _ => "unset " + name + ";\n"
  }

  /** The text the driver appends for one variable: nothing, an unset line or a set line. */
  function EntryOutput(shell: Shell, name: string, option: EnvVariableOption, home: Option<string>): (out: string)
    ensures out == [] <==> Resolve(shell, option).None?
  {
    match Resolve(shell, option)
    case None => []
    case Some(Set(false)) => UnsetLine(shell, name)
    case Some(raw) =>
      var (value, isPath) :=
        match raw
        case String(s) => (ExpandValue(s, home), false)
        case Set(_) => ("1", false)
        case Array(a) => (Text.Join(ExpandAll(a, home), ":"), true);
      SetLine(shell, name, value, isPath)
  }

  /** A statement terminated by `;` and the newline. */
  predicate EndsStatement(out: string)
  {
    |out| >= 2 && out[|out| - 2..] == ";\n"
  }

  lemma Terminator(x: string, y: string)
    requires y == "\";\n" || y == ";\n"
    ensures EndsStatement(x + y)
  {
    var r := x + y;
    assert r[|r| - 2..] == y[|y| - 2..];
  }

  lemma SetLineEnds(shell: Shell, name: string, value: string, isPath: bool)
    ensures EndsStatement(SetLine(shell, name, value, isPath))
  {
    match shell
    case Fish =>
      var path := if isPath then " --path" else "";
      Terminator("set -gx" + path + " " + name + " \"" + value, "\";\n");
    case _ =>
      Terminator("export " + name + "=\"" + value, "\";\n");
  }

  lemma UnsetLineEnds(shell: Shell, name: string)
    ensures EndsStatement(UnsetLine(shell, name))
  {
    match shell
    case Fish => Terminator("set -e " + name, ";\n");
    case _ => Terminator("unset " + name, ";\n");
  }

  /** Whatever the driver writes for a variable ends its statement with `;` and a newline. */
  lemma EntryOutputEndsLine(shell: Shell, name: string, option: EnvVariableOption, home: Option<string>)
    ensures EntryOutput(shell, name, option, home) != [] ==> EndsStatement(EntryOutput(shell, name, option, home))
  {
    UnsetLineEnds(shell, name);
    forall v, p | true
      ensures EndsStatement(SetLine(shell, name, v, p))
    {
      SetLineEnds(shell, name, v, p);
    }
  }

  /** The whole script: the variables' outputs in their configured order. */
  function Script(vars: EnvironmentVariables, shell: Shell, home: Option<string>): string
  {
    if |vars| == 0 then [] else EntryOutput(shell, vars[0].0, vars[0].1, home) + Script(vars[1..], shell, home)
  }

  /** `to_shell_source`: the script, built by appending to a buffer in one pass. */
  method ToShellSource(vars: EnvironmentVariables, shell: Shell, home: Option<string>) returns (output: string)
    ensures output == Script(vars, shell, home)
    ensures (forall i :: 0 <= i < |vars| ==> Statements.IsName(vars[i].0)) && LineFree(home) ==>
      ReadScript(shell, output) == Some(Plan(vars, shell, home))
  {
    output := [];
    var i := 0;
    while i < |vars|
      invariant 0 <= i <= |vars|
      invariant output == Script(vars[..i], shell, home)
    {
      output := output + EntryOutput(shell, vars[i].0, vars[i].1, home);
      ScriptTake(vars, i, shell, home);
      i := i + 1;
    }
    assert vars[..i] == vars;
    ScriptReadsWhenWritable(vars, shell, home);
  }

  /** The script of one more variable of the list. */
  lemma ScriptTake(vars: EnvironmentVariables, i: nat, shell: Shell, home: Option<string>)
    requires i < |vars|
    ensures Script(vars[..i + 1], shell, home) == Script(vars[..i], shell, home) + EntryOutput(shell, vars[i].0, vars[i].1, home)
  {
    assert vars[..i + 1] == vars[..i] + [vars[i]];
    ScriptSnoc(vars[..i], vars[i], shell, home);
  }

  lemma ScriptSnoc(vars: EnvironmentVariables, last: (string, EnvVariableOption), shell: Shell, home: Option<string>)
    ensures Script(vars + [last], shell, home) == Script(vars, shell, home) + EntryOutput(shell, last.0, last.1, home)
  {
    ScriptAppend(vars, [last], shell, home);
    assert [last][1..] == [];
    assert Script([last], shell, home) == EntryOutput(shell, last.0, last.1, home) + [];
  }

  /** Scripts of consecutive runs of variables concatenate. */
  lemma {:induction false} ScriptAppend(a: EnvironmentVariables, b: EnvironmentVariables, shell: Shell, home: Option<string>)
    ensures Script(a + b, shell, home) == Script(a, shell, home) + Script(b, shell, home)
  {
    if |a| == 0 {
      assert a + b == b;
      assert Script(a, shell, home) == [];
    } else {
      assert (a + b)[0] == a[0];
      assert (a + b)[1..] == a[1..] + b;
      ScriptAppend(a[1..], b, shell, home);
      Text.Associative(EntryOutput(shell, a[0].0, a[0].1, home), Script(a[1..], shell, home), Script(b, shell, home));
    }
  }

  // ---------------------------------------------------------------------------
  // What the script means
  // ---------------------------------------------------------------------------

  /**
    What one variable asks of the shell: removal for `false`, the value "1"
    for `true`, the expanded string, or the expanded items joined with `:`
    (marked as a path in fish, the one shell whose statement says so);
    nothing when the shell has no value.
   */
  function EntryStatement(shell: Shell, name: string, option: EnvVariableOption, home: Option<string>): Option<Statements.Statement>
  {
    match Resolve(shell, option)
    case None => None
    case Some(Set(false)) => Some(Statements.Remove(name))
    case Some(Set(true)) => Some(Statements.Assign(name, "1", false))
    case Some(String(s)) => Some(Statements.Assign(name, ExpandValue(s, home), false))
    case Some(Array(a)) => Some(Statements.Assign(name, Text.Join(ExpandAll(a, home), ":"), shell == Fish))
  }

  /** The statements of the whole configuration, in order, skipping variables the shell has no value for. */
  function Plan(vars: EnvironmentVariables, shell: Shell, home: Option<string>): (r: seq<Statements.Statement>)
    ensures |r| <= |vars|
  {
    if |vars| == 0 then []
    else
      match EntryStatement(shell, vars[0].0, vars[0].1, home)
      case None => Plan(vars[1..], shell, home)
      case Some(st) => [st] + Plan(vars[1..], shell, home)
  }

  /** The statements' names appear in the configured order: the plan is drawn from the variables in order. */
  lemma {:induction false} PlanNames(vars: EnvironmentVariables, shell: Shell, home: Option<string>, k: nat)
    requires k < |Plan(vars, shell, home)|
    ensures exists i :: 0 <= i < |vars| && Plan(vars, shell, home)[k].name == vars[i].0
  {
    var st := EntryStatement(shell, vars[0].0, vars[0].1, home);
    if st.Some? && k == 0 {
      assert Plan(vars, shell, home)[0].name == vars[0].0;
    } else {
      var k' := if st.Some? then k - 1 else k;
      assert Plan(vars, shell, home)[k] == Plan(vars[1..], shell, home)[k'];
      PlanNames(vars[1..], shell, home, k');
      var i :| 0 <= i < |vars[1..]| && Plan(vars[1..], shell, home)[k'].name == vars[1..][i].0;
      assert vars[1..][i] == vars[i + 1];
    }
  }

  // ---------------------------------------------------------------------------
  // Reading a script back
  // ---------------------------------------------------------------------------

  /** A double-quoted value followed by `;`. */
  function Quoted(rest: string): Option<string>
  {
    if |rest| >= 3 && rest[0] == '"' && rest[|rest| - 2] == '"' && rest[|rest| - 1] == ';' then Some(rest[1..|rest| - 2])
    else None
  }

  /** The name before a terminating `;`. */
  function Terminated(rest: string): Option<string>
  {
    if |rest| >= 1 && rest[|rest| - 1] == ';' then Some(rest[..|rest| - 1]) else None
  }

  /** A name, a delimiter and a quoted value. */
  function Binding(rest: string, delimiter: char, isPath: bool): Option<Statements.Statement>
  {
    match Text.ReadUntil(rest, delimiter)
    case None => None
    case Some((n, tail)) =>
      match Quoted(tail)
      case None => None
      case Some(v) => Some(Statements.Assign(n, v, isPath))
  }

  /** One line of a script, without its newline. */
  function ParseLine(shell: Shell, line: string): Option<Statements.Statement>
  {
    match shell
    case Fish =>
      if Text.HasPrefix(line, "set -e ") then
        match Terminated(line[7..])
        case None => None
        case Some(n) => Some(Statements.Remove(n))
      else if Text.HasPrefix(line, "set -gx --path ") then Binding(line[15..], ' ', true)
      else if Text.HasPrefix(line, "set -gx ") then Binding(line[8..], ' ', false)
      else None
    case _ =>
      if Text.HasPrefix(line, "unset ") then
        match Terminated(line[6..])
        case None => None
        case Some(n) => Some(Statements.Remove(n))
      else if Text.HasPrefix(line, "export ") then Binding(line[7..], '=', false)
      else None
  }

  /** The statements of a script, one per newline-terminated line, or None if a line does not read. */
  function ReadScript(shell: Shell, out: string): Option<seq<Statements.Statement>>
    decreases |out|
  {
    if |out| == 0 then Some([])
    else
      match Text.ReadUntil(out, '\n')
      case None => None
      case Some((line, rest)) =>
        match ParseLine(shell, line)
        case None => None
        case Some(st) =>
          match ReadScript(shell, rest)
          case None => None
          case Some(sts) => Some([st] + sts)
  }

  /**
    A statement the driver can write on one line and read back: an identifier
    name, a one-line value, and a path flag only where the shell writes one.
   */
  predicate Writable(shell: Shell, st: Statements.Statement)
  {
    Statements.IsName(st.name) && (st.Assign? ==> '\n' !in st.value && (st.pathFlag ==> shell == Fish))
  }

  /** The line the driver writes for a statement. */
  function StatementLine(shell: Shell, st: Statements.Statement): string
  {
    match st
    case Assign(n, v, p) => SetLine(shell, n, v, p)
    case Remove(n) => UnsetLine(shell, n)
  }

  lemma QuotedValue(v: string)
    ensures Quoted("\"" + v + "\";") == Some(v)
  {
    var t := "\"" + v + "\";";
    assert t[1..|t| - 2] == v;
  }

  lemma {:induction false} BindingReads(n: string, delimiter: char, v: string, isPath: bool)
    requires Statements.IsName(n) && !Statements.IsNameChar(delimiter)
    ensures Binding(n + [delimiter] + ("\"" + v + "\";"), delimiter, isPath) == Some(Statements.Assign(n, v, isPath))
  {
    Statements.NameHasNo(n, delimiter);
    Text.ReadUntilPrefix(n, delimiter, "\"" + v + "\";");
    QuotedValue(v);
  }

  lemma TerminatedReads(n: string)
    ensures Terminated(n + ";") == Some(n)
  {
    assert (n + ";")[..|n|] == n;
  }

  lemma UnsetLineReads(shell: Shell, n: string)
    requires Statements.IsName(n)
    ensures var line := (if shell == Fish then "set -e " else "unset ") + (n + ";");
      UnsetLine(shell, n) == line + "\n" && '\n' !in line && ParseLine(shell, line) == Some(Statements.Remove(n))
  {
    Statements.NameHasNo(n, '\n');
    var prefix := if shell == Fish then "set -e " else "unset ";
    var line := prefix + (n + ";");
    Text.PrefixOfAppend(prefix, n + ";");
    TerminatedReads(n);
  }

  /** A name, a delimiter and a quoted one-line value make one line. */
  lemma BindingLineFree(prefix: string, n: string, d: char, v: string)
    requires '\n' !in prefix && Statements.IsName(n) && d != '\n' && '\n' !in v
    ensures '\n' !in prefix + (n + [d] + ("\"" + v + "\";"))
  {
    Statements.NameHasNo(n, '\n');
  }

  lemma DefaultSetShape(shell: Shell, n: string, v: string, p: bool)
    requires shell != Fish
    ensures SetLine(shell, n, v, p) == "export " + (n + ['='] + ("\"" + v + "\";")) + "\n"
  {
    assert "=\"" == ['='] + "\"";
  }

  lemma DefaultSetParses(shell: Shell, n: string, v: string, q: string)
    requires shell != Fish && Statements.IsName(n) && q == "\"" + v + "\";"
    ensures ParseLine(shell, "export " + (n + ['='] + q)) == Some(Statements.Assign(n, v, false))
  {
    var line := "export " + (n + ['='] + q);
    Text.PrefixOfAppend("export ", n + ['='] + q);
    Text.NotPrefixAt(line, "unset ", 0);
    BindingReads(n, '=', v, false);
  }

  lemma FishSetShape(n: string, v: string, p: bool)
    ensures SetLine(Fish, n, v, p) == (if p then "set -gx --path " else "set -gx ") + (n + [' '] + ("\"" + v + "\";")) + "\n"
  {
    assert " \"" == [' '] + "\"";
  }

  lemma FishPathParses(n: string, v: string, q: string)
    requires Statements.IsName(n) && q == "\"" + v + "\";"
    ensures ParseLine(Fish, "set -gx --path " + (n + [' '] + q)) == Some(Statements.Assign(n, v, true))
  {
    var line := "set -gx --path " + (n + [' '] + q);
    Text.PrefixOfAppend("set -gx --path ", n + [' '] + q);
    Text.NotPrefixAt(line, "set -e ", 5);
    BindingReads(n, ' ', v, true);
  }

  lemma FishPlainParses(n: string, v: string, q: string)
    requires Statements.IsName(n) && q == "\"" + v + "\";"
    ensures ParseLine(Fish, "set -gx " + (n + [' '] + q)) == Some(Statements.Assign(n, v, false))
  {
    var line := "set -gx " + (n + [' '] + q);
    Text.PrefixOfAppend("set -gx ", n + [' '] + q);
    Text.NotPrefixAt(line, "set -e ", 5);
    assert line[8] == n[0];
    Text.NotPrefixAt(line, "set -gx --path ", 8);
    BindingReads(n, ' ', v, false);
  }

  /** A written line is one line, and it reads back as its statement. */
  lemma LineReads(shell: Shell, st: Statements.Statement)
    requires Writable(shell, st)
    ensures exists line :: StatementLine(shell, st) == line + "\n" && '\n' !in line && ParseLine(shell, line) == Some(st)
  {
    match st
    case Remove(n) =>
      UnsetLineReads(shell, n);
    case Assign(n, v, p) =>
      if shell != Fish {
        DefaultAssignReads(shell, n, v, p);
      } else {
        FishAssignReads(n, v, p);
      }
  }

  /** A line and its newline, packaged as the existential the readers state. */
  lemma LineWitness(shell: Shell, out: string, line: string, st: Statements.Statement)
    requires out == line + "\n" && '\n' !in line && ParseLine(shell, line) == Some(st)
    ensures exists l :: out == l + "\n" && '\n' !in l && ParseLine(shell, l) == Some(st)
  {
  }

  lemma DefaultAssignReads(shell: Shell, n: string, v: string, p: bool)
    requires shell != Fish && Statements.IsName(n) && '\n' !in v && !p
    ensures exists line :: SetLine(shell, n, v, p) == line + "\n" && '\n' !in line && ParseLine(shell, line) == Some(Statements.Assign(n, v, p))
  {
    var q := "\"" + v + "\";";
    var line := "export " + (n + ['='] + q);
    DefaultSetShape(shell, n, v, p);
    DefaultSetParses(shell, n, v, q);
    BindingLineFree("export ", n, '=', v);
    LineWitness(shell, SetLine(shell, n, v, p), line, Statements.Assign(n, v, p));
  }

  lemma FishAssignReads(n: string, v: string, p: bool)
    requires Statements.IsName(n) && '\n' !in v
    ensures exists line :: SetLine(Fish, n, v, p) == line + "\n" && '\n' !in line && ParseLine(Fish, line) == Some(Statements.Assign(n, v, p))
  {
    var q := "\"" + v + "\";";
    FishSetShape(n, v, p);
    if p {
      var line := "set -gx --path " + (n + [' '] + q);
      FishPathParses(n, v, q);
      BindingLineFree("set -gx --path ", n, ' ', v);
      LineWitness(Fish, SetLine(Fish, n, v, p), line, Statements.Assign(n, v, p));
    } else {
      var line := "set -gx " + (n + [' '] + q);
      FishPlainParses(n, v, q);
      BindingLineFree("set -gx ", n, ' ', v);
      LineWitness(Fish, SetLine(Fish, n, v, p), line, Statements.Assign(n, v, p));
    }
  }

  /** The driver's output for a variable is the line of the statement the variable asks for. */
  lemma EntryOutputStatement(shell: Shell, name: string, option: EnvVariableOption, home: Option<string>)
    ensures EntryStatement(shell, name, option, home).None? ==> EntryOutput(shell, name, option, home) == []
    ensures EntryStatement(shell, name, option, home).Some? ==>
      EntryOutput(shell, name, option, home) == StatementLine(shell, EntryStatement(shell, name, option, home).value)
  {
  }

  /** Under an identifier name and a one-line home directory, every planned statement is writable. */
  lemma EntryWritable(shell: Shell, name: string, option: EnvVariableOption, home: Option<string>)
    requires Statements.IsName(name) && LineFree(home)
    requires EntryStatement(shell, name, option, home).Some?
    ensures Writable(shell, EntryStatement(shell, name, option, home).value)
  {
    match Resolve(shell, option).value
    case Set(_) =>
    case String(s) =>
      ExpandValueLineFree(s, home);
    case Array(a) =>
      var items := ExpandAll(a, home);
      forall i | 0 <= i < |items|
        ensures '\n' !in items[i]
      {
        ExpandValueLineFree(a[i], home);
      }
      JoinLineFree(items, ":");
  }

  lemma {:induction false} JoinLineFree(ps: seq<string>, sep: string)
    requires '\n' !in sep
    requires forall i :: 0 <= i < |ps| ==> '\n' !in ps[i]
    ensures '\n' !in Text.Join(ps, sep)
  {
    if |ps| > 1 {
      JoinLineFree(ps[1..], sep);
    }
  }

  /**
    Reading the script back gives exactly the planned statements, in order:
    one line per variable the shell has a value for, each the statement that
    variable asks for.
   */
  lemma {:induction false} ScriptReads(vars: EnvironmentVariables, shell: Shell, home: Option<string>)
    requires forall i :: 0 <= i < |vars| ==> Statements.IsName(vars[i].0)
    requires LineFree(home)
    ensures ReadScript(shell, Script(vars, shell, home)) == Some(Plan(vars, shell, home))
  {
    if |vars| > 0 {
      var (name, option) := vars[0];
      var rest := Script(vars[1..], shell, home);
      assert forall i :: 0 <= i < |vars[1..]| ==> vars[1..][i] == vars[i + 1];
      ScriptReads(vars[1..], shell, home);
      EntryOutputStatement(shell, name, option, home);
      var st := EntryStatement(shell, name, option, home);
      if st.Some? {
        EntryWritable(shell, name, option, home);
        LineReads(shell, st.value);
        var line :| StatementLine(shell, st.value) == line + "\n" && '\n' !in line && ParseLine(shell, line) == Some(st.value);
        assert Script(vars, shell, home) == line + ['\n'] + rest;
        Text.ReadUntilPrefix(line, '\n', rest);
      } else {
        assert Script(vars, shell, home) == rest;
      }
    }
  }

  lemma ScriptReadsWhenWritable(vars: EnvironmentVariables, shell: Shell, home: Option<string>)
    ensures (forall i :: 0 <= i < |vars| ==> Statements.IsName(vars[i].0)) && LineFree(home) ==>
      ReadScript(shell, Script(vars, shell, home)) == Some(Plan(vars, shell, home))
  {
    if (forall i :: 0 <= i < |vars| ==> Statements.IsName(vars[i].0)) && LineFree(home) {
      ScriptReads(vars, shell, home);
    }
  }

  /** The script has one line per planned statement. */
  lemma {:induction false} ScriptLineCount(vars: EnvironmentVariables, shell: Shell, home: Option<string>)
    requires forall i :: 0 <= i < |vars| ==> Statements.IsName(vars[i].0)
    requires LineFree(home)
    ensures Text.Count(Script(vars, shell, home), '\n') == |Plan(vars, shell, home)|
  {
    if |vars| > 0 {
      var (name, option) := vars[0];
      var rest := Script(vars[1..], shell, home);
      assert forall i :: 0 <= i < |vars[1..]| ==> vars[1..][i] == vars[i + 1];
      ScriptLineCount(vars[1..], shell, home);
      EntryOutputStatement(shell, name, option, home);
      var st := EntryStatement(shell, name, option, home);
      if st.Some? {
        EntryWritable(shell, name, option, home);
        LineReads(shell, st.value);
        var line :| StatementLine(shell, st.value) == line + "\n" && '\n' !in line && ParseLine(shell, line) == Some(st.value);
        Text.CountAppend(line + "\n", rest, '\n');
        Text.CountAppend(line, "\n", '\n');
      } else {
        assert Script(vars, shell, home) == rest;
      }
    }
  }

  /** `--path` is written for fish alone; bash and zsh write a path like any other value. */
  lemma PathFlagOnlyForFish(shell: Shell, name: string, value: string)
    ensures shell != Fish ==> SetLine(shell, name, value, true) == SetLine(shell, name, value, false)
    ensures shell == Fish ==> SetLine(shell, name, value, true) != SetLine(shell, name, value, false)
  {
    if shell == Fish {
      assert |SetLine(shell, name, value, true)| == |SetLine(shell, name, value, false)| + 7;
    }
  }

  /**
    The items of an array value can be told apart in the written path: split
    at `:`, each piece unescapes to its item, provided no item contains `:`
    or starts with `~`.
   */
  lemma ArrayItemsRecoverable(shell: Shell, name: string, items: seq<string>, home: Option<string>)
    requires |items| > 0
    requires forall i :: 0 <= i < |items| ==> ':' !in items[i] && (|items[i]| == 0 || items[i][0] != '~')
    ensures EntryStatement(shell, name, General(Array(items)), home).value.pathFlag <==> shell == Fish
    ensures var pieces := Text.Split(EntryStatement(shell, name, General(Array(items)), home).value.value, ':');
      |pieces| == |items| && forall i :: 0 <= i < |items| ==> TomlEscape.Unescape(pieces[i]) == Some(items[i])
  {
    var expanded := ExpandAll(items, home);
    forall i | 0 <= i < |items|
      ensures ':' !in expanded[i] && TomlEscape.Unescape(expanded[i]) == Some(items[i])
    {
      ExpandValueUnescapes(items[i], home);
      ExpandValueIsEscape(items[i], home);
      EscapeKeepsColonOut(items[i]);
    }
    Text.SplitJoin(expanded, ':');
  }

  /**
    Without the restriction on `:` the items cannot be told apart: an item
    holding `:` is written exactly like the two items on either side of it.
   */
  lemma ArrayColonCollides(shell: Shell, name: string, a: string, b: string, home: Option<string>)
    requires |a| == 0 || a[0] != '~'
    requires |b| == 0 || b[0] != '~'
    ensures EntryStatement(shell, name, General(Array([a + ":" + b])), home)
         == EntryStatement(shell, name, General(Array([a, b])), home)
  {
    var ab := a + ":" + b;
    assert |ab| == 0 || ab[0] != '~' by {
      if |a| == 0 { assert ab[0] == ':'; } else { assert ab[0] == a[0]; }
    }
    ExpandValueIsEscape(ab, home);
    ExpandValueIsEscape(a, home);
    ExpandValueIsEscape(b, home);
    EscapeAroundColon(a, b);
    var joined := TomlEscape.Escape(a) + ":" + TomlEscape.Escape(b);
    assert ExpandAll([ab], home) == [joined];
    assert ExpandAll([a, b], home) == [TomlEscape.Escape(a), TomlEscape.Escape(b)];
    JoinOne(joined, ":");
    JoinPair(TomlEscape.Escape(a), TomlEscape.Escape(b), ":");
  }

  /** The escape leaves a `:` between two texts in place. */
  lemma EscapeAroundColon(a: string, b: string)
    ensures TomlEscape.Escape(a + ":" + b) == TomlEscape.Escape(a) + ":" + TomlEscape.Escape(b)
  {
    TomlEscape.EscapeAppend(a, ":");
    TomlEscape.EscapeAppend(a + ":", b);
    assert TomlEscape.Escape(":") == ":" by {
      assert TomlEscape.Escape(":") == TomlEscape.EscapeChar(':') + TomlEscape.Escape([]);
    }
  }

  /** Without the restriction to non-empty arrays: the empty array is written like one empty item. */
  lemma ArrayEmptyCollides(shell: Shell, name: string, home: Option<string>)
    ensures EntryStatement(shell, name, General(Array([])), home)
         == EntryStatement(shell, name, General(Array([""])), home)
  {
    ExpandValueIsEscape("", home);
    assert ExpandAll([""], home) == [""];
    JoinOne("", ":");
  }

  lemma JoinOne(x: string, sep: string)
    ensures Text.Join([x], sep) == x
  {
  }

  lemma JoinPair(x: string, y: string, sep: string)
    ensures Text.Join([x, y], sep) == x + sep + y
  {
    assert [x, y][1..] == [y];
  }

  lemma {:induction false} EscapeKeepsColonOut(s: string)
    requires ':' !in s
    ensures ':' !in TomlEscape.Escape(s)
  {
    if |s| > 0 {
      assert ':' !in s[1..];
      EscapeKeepsColonOut(s[1..]);
    }
  }
}
