/**
  The driver's test cases: each configuration and shell with the script the
  driver writes for it, whatever the home directory (no configured value
  starts with `~`).

  As with the renderer's test cases, characters are compared only in small
  lemmas about written-out strings; the driver's own functions are applied
  to parameters pinned to the test's values.
 */
module ConvertVectors {
  import opened Wrappers
  import Text
  import IndexMaps
  import opened Cli
  import TomlEscape
  import opened Convert

  /** A value the driver writes exactly as configured: nothing to escape and no leading `~`. */
  predicate Plain(s: string)
  {
    (forall i :: 0 <= i < |s| ==> !TomlEscape.IsSpecial(s[i])) && (|s| == 0 || s[0] != '~')
  }

  lemma PlainExpands(s: string, home: Option<string>)
    requires Plain(s)
    ensures ExpandValue(s, home) == s
  {
    ExpandValueIsEscape(s, home);
    TomlEscape.EscapeIdentity(s);
  }

  lemma {:induction false} PlainItemsExpand(items: seq<string>, home: Option<string>)
    requires forall i :: 0 <= i < |items| ==> Plain(items[i])
    ensures ExpandAll(items, home) == items
  {
    forall i | 0 <= i < |items|
      ensures ExpandAll(items, home)[i] == items[i]
    {
      PlainExpands(items[i], home);
    }
  }

  lemma ScriptOne(e: (string, EnvVariableOption), shell: Shell, home: Option<string>)
    ensures Script([e], shell, home) == EntryOutput(shell, e.0, e.1, home)
  {
    assert Script([e], shell, home) == EntryOutput(shell, e.0, e.1, home) + Script([], shell, home);
  }

  lemma ScriptTwo(e: (string, EnvVariableOption), f: (string, EnvVariableOption), shell: Shell, home: Option<string>)
    ensures Script([e, f], shell, home) == EntryOutput(shell, e.0, e.1, home) + EntryOutput(shell, f.0, f.1, home)
  {
    assert [e, f][1..] == [f];
    ScriptOne(f, shell, home);
  }

  /** A plain string for every shell is written as configured. */
  lemma GeneralString(shell: Shell, n: string, s: string, home: Option<string>)
    requires Plain(s)
    ensures EntryOutput(shell, n, General(String(s)), home) == SetLine(shell, n, s, false)
  {
    PlainExpands(s, home);
  }

  // ---------------------------------------------------------------------------
  // FOO = "Bar"
  // ---------------------------------------------------------------------------

  lemma PlainBar(s: string)
    requires s == "Bar"
    ensures Plain(s)
  {
  }

  lemma StringEntry(shell: Shell, home: Option<string>)
    ensures Script([("FOO", General(String("Bar")))], shell, home) == SetLine(shell, "FOO", "Bar", false)
  {
    PlainBar("Bar");
    GeneralString(shell, "FOO", "Bar", home);
    ScriptOne(("FOO", General(String("Bar"))), shell, home);
  }

  lemma BashStringLine()
    ensures SetLine(Bash, "FOO", "Bar", false) == "export FOO=\"Bar\";\n"
  {
  }

  lemma ZshStringLine()
    ensures SetLine(Zsh, "FOO", "Bar", false) == "export FOO=\"Bar\";\n"
  {
  }

  lemma FishStringLine()
    ensures SetLine(Fish, "FOO", "Bar", false) == "set -gx FOO \"Bar\";\n"
  {
  }

  lemma ConvertString(home: Option<string>)
    ensures Script([("FOO", General(String("Bar")))], Bash, home) == "export FOO=\"Bar\";\n"
    ensures Script([("FOO", General(String("Bar")))], Zsh, home) == "export FOO=\"Bar\";\n"
    ensures Script([("FOO", General(String("Bar")))], Fish, home) == "set -gx FOO \"Bar\";\n"
  {
    StringEntry(Bash, home);
    StringEntry(Zsh, home);
    StringEntry(Fish, home);
    BashStringLine();
    ZshStringLine();
    FishStringLine();
  }

  /** A bash or zsh set line: its written-out start, the value, and `";` with the newline. */
  lemma DefaultLine(shell: Shell, n: string, v: string, p: bool, start: string)
    requires shell != Fish && start == "export " + n + "=\""
    ensures SetLine(shell, n, v, p) == start + v + "\";\n"
  {
  }

  /** A fish set line: its written-out start, the value, and `";` with the newline. */
  lemma FishLine(n: string, v: string, p: bool, start: string)
    requires start == (if p then "set -gx --path " else "set -gx ") + n + " \""
    ensures SetLine(Fish, n, v, p) == start + v + "\";\n"
  {
    if p {
      assert "set -gx" + " --path" + " " == "set -gx --path ";
    } else {
      assert "set -gx" + "" + " " == "set -gx ";
    }
  }

  // ---------------------------------------------------------------------------
  // PATH = ["/usr/local/bin", "/usr/bin", "/bin", "/usr/sbin", "/sbin"]
  // ---------------------------------------------------------------------------

  lemma JoinFive(a: string, b: string, c: string, d: string, e: string, sep: string)
    ensures Text.Join([a, b, c, d, e], sep) == a + sep + (b + sep + (c + sep + (d + sep + e)))
  {
    assert [a, b, c, d, e][1..] == [b, c, d, e];
    assert [b, c, d, e][1..] == [c, d, e];
    assert [c, d, e][1..] == [d, e];
    assert [d, e][1..] == [e];
    assert Text.Join([d, e], sep) == d + sep + e;
    assert Text.Join([c, d, e], sep) == c + sep + (d + sep + e);
    assert Text.Join([b, c, d, e], sep) == b + sep + (c + sep + (d + sep + e));
  }

  lemma PathPlain(items: seq<string>, a: string, b: string, c: string, d: string, e: string)
    requires items == [a, b, c, d, e]
    requires a == "/usr/local/bin" && b == "/usr/bin" && c == "/bin" && d == "/usr/sbin" && e == "/sbin"
    ensures forall i :: 0 <= i < |items| ==> Plain(items[i])
  {
  }

  lemma PathTail(c: string, d: string, e: string)
    requires c == "/bin" && d == "/usr/sbin" && e == "/sbin"
    ensures c + ":" + (d + ":" + e) == "/bin:/usr/sbin:/sbin"
  {
  }

  lemma PathMiddle(b: string, t: string)
    requires b == "/usr/bin" && t == "/bin:/usr/sbin:/sbin"
    ensures b + ":" + t == "/usr/bin:/bin:/usr/sbin:/sbin"
  {
  }

  lemma PathJoined(a: string, b: string, t: string)
    requires a == "/usr/local/bin" && b == "/usr/bin" && t == "/bin:/usr/sbin:/sbin"
    ensures a + ":" + (b + ":" + t) == "/usr/local/bin:/usr/bin:/bin:/usr/sbin:/sbin"
  {
    PathMiddle(b, t);
    PathStart(a, b + ":" + t);
  }

  lemma PathStart(a: string, m: string)
    requires a == "/usr/local/bin" && m == "/usr/bin:/bin:/usr/sbin:/sbin"
    ensures a + ":" + m == "/usr/local/bin:/usr/bin:/bin:/usr/sbin:/sbin"
  {
  }

  lemma PathEntry(shell: Shell, home: Option<string>, items: seq<string>, a: string, b: string, c: string, d: string, e: string, v: string)
    requires items == [a, b, c, d, e]
    requires a == "/usr/local/bin" && b == "/usr/bin" && c == "/bin" && d == "/usr/sbin" && e == "/sbin"
    requires v == "/usr/local/bin:/usr/bin:/bin:/usr/sbin:/sbin"
    ensures Script([("PATH", General(Array(items)))], shell, home) == SetLine(shell, "PATH", v, true)
  {
    PathPlain(items, a, b, c, d, e);
    PlainItemsExpand(items, home);
    JoinFive(a, b, c, d, e, ":");
    PathTail(c, d, e);
    PathJoined(a, b, c + ":" + (d + ":" + e));
    ScriptOne(("PATH", General(Array(items))), shell, home);
  }

  lemma BashPathEntry(home: Option<string>)
    ensures Script([("PATH", General(Array(["/usr/local/bin", "/usr/bin", "/bin", "/usr/sbin", "/sbin"])))], Bash, home) == SetLine(Bash, "PATH", "/usr/local/bin:/usr/bin:/bin:/usr/sbin:/sbin", true)
  {
    var items := ["/usr/local/bin", "/usr/bin", "/bin", "/usr/sbin", "/sbin"];
    PathEntry(Bash, home, items, items[0], items[1], items[2], items[3], items[4], "/usr/local/bin:/usr/bin:/bin:/usr/sbin:/sbin");
  }

  lemma BashPathLine()
    ensures SetLine(Bash, "PATH", "/usr/local/bin:/usr/bin:/bin:/usr/sbin:/sbin", true) == "export PATH=\"" + "/usr/local/bin:/usr/bin:/bin:/usr/sbin:/sbin" + "\";\n"
  {
    var v := "/usr/local/bin:/usr/bin:/bin:/usr/sbin:/sbin";
    DefaultLine(Bash, "PATH", v, true, "export PATH=\"");
  }

  lemma BashConvertPath(home: Option<string>)
    ensures Script([("PATH", General(Array(["/usr/local/bin", "/usr/bin", "/bin", "/usr/sbin", "/sbin"])))], Bash, home)
         == "export PATH=\"" + "/usr/local/bin:/usr/bin:/bin:/usr/sbin:/sbin" + "\";\n"
  {
    BashPathEntry(home);
    BashPathLine();
  }

  lemma ZshPathEntry(home: Option<string>)
    ensures Script([("PATH", General(Array(["/usr/local/bin", "/usr/bin", "/bin", "/usr/sbin", "/sbin"])))], Zsh, home) == SetLine(Zsh, "PATH", "/usr/local/bin:/usr/bin:/bin:/usr/sbin:/sbin", true)
  {
    var items := ["/usr/local/bin", "/usr/bin", "/bin", "/usr/sbin", "/sbin"];
    PathEntry(Zsh, home, items, items[0], items[1], items[2], items[3], items[4], "/usr/local/bin:/usr/bin:/bin:/usr/sbin:/sbin");
  }

  lemma ZshPathLine()
    ensures SetLine(Zsh, "PATH", "/usr/local/bin:/usr/bin:/bin:/usr/sbin:/sbin", true) == "export PATH=\"" + "/usr/local/bin:/usr/bin:/bin:/usr/sbin:/sbin" + "\";\n"
  {
    var v := "/usr/local/bin:/usr/bin:/bin:/usr/sbin:/sbin";
    DefaultLine(Zsh, "PATH", v, true, "export PATH=\"");
  }

  lemma ZshConvertPath(home: Option<string>)
    ensures Script([("PATH", General(Array(["/usr/local/bin", "/usr/bin", "/bin", "/usr/sbin", "/sbin"])))], Zsh, home)
         == "export PATH=\"" + "/usr/local/bin:/usr/bin:/bin:/usr/sbin:/sbin" + "\";\n"
  {
    ZshPathEntry(home);
    ZshPathLine();
  }

  lemma FishPathEntry(home: Option<string>)
    ensures Script([("PATH", General(Array(["/usr/local/bin", "/usr/bin", "/bin", "/usr/sbin", "/sbin"])))], Fish, home) == SetLine(Fish, "PATH", "/usr/local/bin:/usr/bin:/bin:/usr/sbin:/sbin", true)
  {
    var items := ["/usr/local/bin", "/usr/bin", "/bin", "/usr/sbin", "/sbin"];
    PathEntry(Fish, home, items, items[0], items[1], items[2], items[3], items[4], "/usr/local/bin:/usr/bin:/bin:/usr/sbin:/sbin");
  }

  lemma FishPathLine()
    ensures SetLine(Fish, "PATH", "/usr/local/bin:/usr/bin:/bin:/usr/sbin:/sbin", true) == "set -gx --path PATH \"" + "/usr/local/bin:/usr/bin:/bin:/usr/sbin:/sbin" + "\";\n"
  {
    var v := "/usr/local/bin:/usr/bin:/bin:/usr/sbin:/sbin";
    FishLine("PATH", v, true, "set -gx --path PATH \"");
  }

  lemma FishConvertPath(home: Option<string>)
    ensures Script([("PATH", General(Array(["/usr/local/bin", "/usr/bin", "/bin", "/usr/sbin", "/sbin"])))], Fish, home)
         == "set -gx --path PATH \"" + "/usr/local/bin:/usr/bin:/bin:/usr/sbin:/sbin" + "\";\n"
  {
    FishPathEntry(home);
    FishPathLine();
  }

  // ---------------------------------------------------------------------------
  // Per-shell tables
  // ---------------------------------------------------------------------------

  /** A table entry that resolves to a plain string is written as configured. */
  lemma SpecificString(shell: Shell, n: string, m: IndexMaps.Entries<EnvVariableValue>, s: string, home: Option<string>)
    requires ValueForSpecific(shell, m) == Some(String(s)) && Plain(s)
    ensures EntryOutput(shell, n, Specific(m), home) == SetLine(shell, n, s, false)
  {
    PlainExpands(s, home);
  }

  /** A table with neither the shell's entry nor `_` writes nothing. */
  lemma SpecificNothing(shell: Shell, n: string, m: IndexMaps.Entries<EnvVariableValue>, home: Option<string>)
    requires ValueForSpecific(shell, m).None?
    ensures EntryOutput(shell, n, Specific(m), home) == []
  {
  }

  // ONLY_FOR_BASH.bash = "Do people read test cases?"

  lemma OnlyForBashResolves(m: IndexMaps.Entries<EnvVariableValue>, s: string)
    requires m == [("bash", String(s))]
    ensures ValueForSpecific(Bash, m) == Some(String(s))
    ensures ValueForSpecific(Zsh, m).None?
    ensures ValueForSpecific(Fish, m).None?
  {
    assert !IndexMaps.HasKey(m, "zsh") && !IndexMaps.HasKey(m, "fish") && !IndexMaps.HasKey(m, "_");
  }

  lemma PlainQuestion(s: string)
    requires s == "Do people read test cases?"
    ensures Plain(s)
  {
  }

  lemma SpecificEntry(shell: Shell, home: Option<string>, m: IndexMaps.Entries<EnvVariableValue>, s: string)
    requires m == [("bash", String(s))] && s == "Do people read test cases?"
    ensures shell == Bash ==> Script([("ONLY_FOR_BASH", Specific(m))], shell, home) == SetLine(Bash, "ONLY_FOR_BASH", s, false)
    ensures shell != Bash ==> Script([("ONLY_FOR_BASH", Specific(m))], shell, home) == []
  {
    OnlyForBashResolves(m, s);
    PlainQuestion(s);
    ScriptOne(("ONLY_FOR_BASH", Specific(m)), shell, home);
    if shell == Bash {
      SpecificString(shell, "ONLY_FOR_BASH", m, s, home);
    } else {
      SpecificNothing(shell, "ONLY_FOR_BASH", m, home);
    }
  }

  lemma BashSpecificLine()
    ensures SetLine(Bash, "ONLY_FOR_BASH", "Do people read test cases?", false)
         == "export ONLY_FOR_BASH=\"" + "Do people read test cases?" + "\";\n"
  {
    DefaultLine(Bash, "ONLY_FOR_BASH", "Do people read test cases?", false, "export ONLY_FOR_BASH=\"");
  }

  lemma BashConvertSpecific(home: Option<string>)
    ensures Script([("ONLY_FOR_BASH", Specific([("bash", String("Do people read test cases?"))]))], Bash, home)
         == "export ONLY_FOR_BASH=\"" + "Do people read test cases?" + "\";\n"
  {
    SpecificEntry(Bash, home, [("bash", String("Do people read test cases?"))], "Do people read test cases?");
    BashSpecificLine();
  }

  lemma ZshConvertSpecific(home: Option<string>)
    ensures Script([("ONLY_FOR_BASH", Specific([("bash", String("Do people read test cases?"))]))], Zsh, home) == ""
  {
    SpecificEntry(Zsh, home, [("bash", String("Do people read test cases?"))], "Do people read test cases?");
  }

  lemma FishConvertSpecific(home: Option<string>)
    ensures Script([("ONLY_FOR_BASH", Specific([("bash", String("Do people read test cases?"))]))], Fish, home) == ""
  {
    SpecificEntry(Fish, home, [("bash", String("Do people read test cases?"))], "Do people read test cases?");
  }

  // SOME_VARIABLE.fish = "you're pretty", SOME_VARIABLE._ = '[ACCESS DENIED]'

  lemma SomeVariableResolves(m: IndexMaps.Entries<EnvVariableValue>, f: string, o: string)
    requires m == [("fish", String(f)), ("_", String(o))]
    ensures ValueForSpecific(Fish, m) == Some(String(f))
    ensures ValueForSpecific(Bash, m) == Some(String(o))
    ensures ValueForSpecific(Zsh, m) == Some(String(o))
  {
    IndexMaps.GetFirst(m, 1);
    assert !IndexMaps.HasKey(m, "bash") && !IndexMaps.HasKey(m, "zsh");
  }

  lemma PlainPretty(f: string, o: string)
    requires f == "you're pretty" && o == "[ACCESS DENIED]"
    ensures Plain(f) && Plain(o)
  {
  }

  lemma SomeVariableEntry(shell: Shell, home: Option<string>, m: IndexMaps.Entries<EnvVariableValue>, f: string, o: string)
    requires m == [("fish", String(f)), ("_", String(o))]
    requires f == "you're pretty" && o == "[ACCESS DENIED]"
    ensures EntryOutput(shell, "SOME_VARIABLE", Specific(m), home) == SetLine(shell, "SOME_VARIABLE", if shell == Fish then f else o, false)
  {
    SomeVariableResolves(m, f, o);
    PlainPretty(f, o);
    SpecificString(shell, "SOME_VARIABLE", m, if shell == Fish then f else o, home);
  }

  lemma FishSomeVariableLine()
    ensures SetLine(Fish, "SOME_VARIABLE", "you're pretty", false) == "set -gx SOME_VARIABLE \"" + "you're pretty" + "\";\n"
  {
    FishLine("SOME_VARIABLE", "you're pretty", false, "set -gx SOME_VARIABLE \"");
  }

  lemma DefaultSomeVariableLine(shell: Shell)
    requires shell != Fish
    ensures SetLine(shell, "SOME_VARIABLE", "[ACCESS DENIED]", false) == "export SOME_VARIABLE=\"" + "[ACCESS DENIED]" + "\";\n"
  {
    DefaultLine(shell, "SOME_VARIABLE", "[ACCESS DENIED]", false, "export SOME_VARIABLE=\"");
  }

  lemma SpecificOtherEntry(shell: Shell, home: Option<string>)
    ensures Script([("SOME_VARIABLE", Specific([("fish", String("you're pretty")), ("_", String("[ACCESS DENIED]"))]))], shell, home)
         == SetLine(shell, "SOME_VARIABLE", if shell == Fish then "you're pretty" else "[ACCESS DENIED]", false)
  {
    SomeVariableEntry(shell, home, [("fish", String("you're pretty")), ("_", String("[ACCESS DENIED]"))], "you're pretty", "[ACCESS DENIED]");
    ScriptOne(("SOME_VARIABLE", Specific([("fish", String("you're pretty")), ("_", String("[ACCESS DENIED]"))])), shell, home);
  }

  lemma BashConvertSpecificOther(home: Option<string>)
    ensures Script([("SOME_VARIABLE", Specific([("fish", String("you're pretty")), ("_", String("[ACCESS DENIED]"))]))], Bash, home)
         == "export SOME_VARIABLE=\"" + "[ACCESS DENIED]" + "\";\n"
  {
    SpecificOtherEntry(Bash, home);
    DefaultSomeVariableLine(Bash);
  }

  lemma ZshConvertSpecificOther(home: Option<string>)
    ensures Script([("SOME_VARIABLE", Specific([("fish", String("you're pretty")), ("_", String("[ACCESS DENIED]"))]))], Zsh, home)
         == "export SOME_VARIABLE=\"" + "[ACCESS DENIED]" + "\";\n"
  {
    SpecificOtherEntry(Zsh, home);
    DefaultSomeVariableLine(Zsh);
  }

  lemma FishConvertSpecificOther(home: Option<string>)
    ensures Script([("SOME_VARIABLE", Specific([("fish", String("you're pretty")), ("_", String("[ACCESS DENIED]"))]))], Fish, home)
         == "set -gx SOME_VARIABLE \"" + "you're pretty" + "\";\n"
  {
    SpecificOtherEntry(Fish, home);
    FishSomeVariableLine();
  }

  // The same table, followed by ANOTHER_VARIABLE.zsh = 'Zzz'

  lemma AnotherVariableEntry(shell: Shell, home: Option<string>, m: IndexMaps.Entries<EnvVariableValue>, z: string)
    requires m == [("zsh", String(z))] && z == "Zzz"
    ensures shell == Zsh ==> EntryOutput(shell, "ANOTHER_VARIABLE", Specific(m), home) == SetLine(Zsh, "ANOTHER_VARIABLE", z, false)
    ensures shell != Zsh ==> EntryOutput(shell, "ANOTHER_VARIABLE", Specific(m), home) == []
  {
    assert !IndexMaps.HasKey(m, "bash") && !IndexMaps.HasKey(m, "fish") && !IndexMaps.HasKey(m, "_");
    if shell == Zsh {
      SpecificString(shell, "ANOTHER_VARIABLE", m, z, home);
    } else {
      SpecificNothing(shell, "ANOTHER_VARIABLE", m, home);
    }
  }

  lemma SpecificOtherAltEntry(shell: Shell, home: Option<string>)
    ensures Script([("SOME_VARIABLE", Specific([("fish", String("you're pretty")), ("_", String("[ACCESS DENIED]"))])), ("ANOTHER_VARIABLE", Specific([("zsh", String("Zzz"))]))], shell, home)
         == SetLine(shell, "SOME_VARIABLE", if shell == Fish then "you're pretty" else "[ACCESS DENIED]", false)
          + (if shell == Zsh then SetLine(Zsh, "ANOTHER_VARIABLE", "Zzz", false) else [])
  {
    SomeVariableEntry(shell, home, [("fish", String("you're pretty")), ("_", String("[ACCESS DENIED]"))], "you're pretty", "[ACCESS DENIED]");
    AnotherVariableEntry(shell, home, [("zsh", String("Zzz"))], "Zzz");
    ScriptTwo(("SOME_VARIABLE", Specific([("fish", String("you're pretty")), ("_", String("[ACCESS DENIED]"))])), ("ANOTHER_VARIABLE", Specific([("zsh", String("Zzz"))])), shell, home);
  }

  lemma ZshAnotherVariableLine()
    ensures SetLine(Zsh, "ANOTHER_VARIABLE", "Zzz", false) == "export ANOTHER_VARIABLE=\"Zzz\";\n"
  {
  }

  lemma BashConvertSpecificOtherAlt(home: Option<string>)
    ensures Script([("SOME_VARIABLE", Specific([("fish", String("you're pretty")), ("_", String("[ACCESS DENIED]"))])), ("ANOTHER_VARIABLE", Specific([("zsh", String("Zzz"))]))], Bash, home)
         == "export SOME_VARIABLE=\"" + "[ACCESS DENIED]" + "\";\n"
  {
    SpecificOtherAltEntry(Bash, home);
    DefaultSomeVariableLine(Bash);
  }

  lemma ZshConvertSpecificOtherAlt(home: Option<string>)
    ensures Script([("SOME_VARIABLE", Specific([("fish", String("you're pretty")), ("_", String("[ACCESS DENIED]"))])), ("ANOTHER_VARIABLE", Specific([("zsh", String("Zzz"))]))], Zsh, home)
         == "export SOME_VARIABLE=\"" + "[ACCESS DENIED]" + "\";\n" + "export ANOTHER_VARIABLE=\"Zzz\";\n"
  {
    SpecificOtherAltEntry(Zsh, home);
    DefaultSomeVariableLine(Zsh);
    ZshAnotherVariableLine();
  }

  lemma FishConvertSpecificOtherAlt(home: Option<string>)
    ensures Script([("SOME_VARIABLE", Specific([("fish", String("you're pretty")), ("_", String("[ACCESS DENIED]"))])), ("ANOTHER_VARIABLE", Specific([("zsh", String("Zzz"))]))], Fish, home)
         == "set -gx SOME_VARIABLE \"" + "you're pretty" + "\";\n"
  {
    SpecificOtherAltEntry(Fish, home);
    FishSomeVariableLine();
  }

  // FOO = 'bar', BAZ.zsh = 'zž', BAZ.fish = ['gone', 'fishing'], BAZ._ = 'other'

  /** A table entry that resolves to plain items is written as the joined items, as a path. */
  lemma SpecificArray(shell: Shell, n: string, m: IndexMaps.Entries<EnvVariableValue>, items: seq<string>, home: Option<string>)
    requires ValueForSpecific(shell, m) == Some(Array(items))
    requires forall i :: 0 <= i < |items| ==> Plain(items[i])
    ensures EntryOutput(shell, n, Specific(m), home) == SetLine(shell, n, Text.Join(items, ":"), true)
  {
    PlainItemsExpand(items, home);
  }

  lemma BazResolves(m: IndexMaps.Entries<EnvVariableValue>, z: string, items: seq<string>, o: string)
    requires m == [("zsh", String(z)), ("fish", Array(items)), ("_", String(o))]
    ensures ValueForSpecific(Zsh, m) == Some(String(z))
    ensures ValueForSpecific(Fish, m) == Some(Array(items))
    ensures ValueForSpecific(Bash, m) == Some(String(o))
  {
    IndexMaps.GetFirst(m, 1);
    IndexMaps.GetFirst(m, 2);
    assert !IndexMaps.HasKey(m, "bash");
  }

  lemma BazPlain(z: string, items: seq<string>, o: string)
    requires z == "zž" && items == ["gone", "fishing"] && o == "other"
    ensures Plain(z) && Plain(o) && forall i :: 0 <= i < |items| ==> Plain(items[i])
  {
  }

  lemma GoneFishing(items: seq<string>)
    requires items == ["gone", "fishing"]
    ensures Text.Join(items, ":") == "gone:fishing"
  {
    assert Text.Join(items, ":") == items[0] + ":" + items[1];
  }

  lemma BazEntry(shell: Shell, home: Option<string>, m: IndexMaps.Entries<EnvVariableValue>, z: string, items: seq<string>, o: string)
    requires m == [("zsh", String(z)), ("fish", Array(items)), ("_", String(o))]
    requires z == "zž" && items == ["gone", "fishing"] && o == "other"
    ensures shell == Fish ==> EntryOutput(shell, "BAZ", Specific(m), home) == SetLine(Fish, "BAZ", "gone:fishing", true)
    ensures shell != Fish ==> EntryOutput(shell, "BAZ", Specific(m), home) == SetLine(shell, "BAZ", if shell == Zsh then z else o, false)
  {
    BazResolves(m, z, items, o);
    BazPlain(z, items, o);
    if shell == Fish {
      SpecificArray(shell, "BAZ", m, items, home);
      GoneFishing(items);
    } else {
      SpecificString(shell, "BAZ", m, if shell == Zsh then z else o, home);
    }
  }

  lemma PlainLowerBar(s: string)
    requires s == "bar"
    ensures Plain(s)
  {
  }

  lemma EverythingEntry(shell: Shell, home: Option<string>)
    ensures Script([("FOO", General(String("bar"))), ("BAZ", Specific([("zsh", String("zž")), ("fish", Array(["gone", "fishing"])), ("_", String("other"))]))], shell, home)
         == SetLine(shell, "FOO", "bar", false)
          + (if shell == Fish then SetLine(Fish, "BAZ", "gone:fishing", true) else SetLine(shell, "BAZ", if shell == Zsh then "zž" else "other", false))
  {
    PlainLowerBar("bar");
    GeneralString(shell, "FOO", "bar", home);
    BazEntry(shell, home, [("zsh", String("zž")), ("fish", Array(["gone", "fishing"])), ("_", String("other"))], "zž", ["gone", "fishing"], "other");
    ScriptTwo(("FOO", General(String("bar"))), ("BAZ", Specific([("zsh", String("zž")), ("fish", Array(["gone", "fishing"])), ("_", String("other"))])), shell, home);
  }

  lemma BashEverythingLines()
    ensures SetLine(Bash, "FOO", "bar", false) == "export FOO=\"bar\";\n"
    ensures SetLine(Bash, "BAZ", "other", false) == "export BAZ=\"other\";\n"
  {
  }

  lemma ZshEverythingLines()
    ensures SetLine(Zsh, "FOO", "bar", false) == "export FOO=\"bar\";\n"
    ensures SetLine(Zsh, "BAZ", "zž", false) == "export BAZ=\"zž\";\n"
  {
  }

  lemma FishEverythingLines()
    ensures SetLine(Fish, "FOO", "bar", false) == "set -gx FOO \"bar\";\n"
    ensures SetLine(Fish, "BAZ", "gone:fishing", true) == "set -gx --path BAZ \"" + "gone:fishing" + "\";\n"
  {
    FishLine("BAZ", "gone:fishing", true, "set -gx --path BAZ \"");
  }

  lemma BashConvertEverything(home: Option<string>)
    ensures Script([("FOO", General(String("bar"))), ("BAZ", Specific([("zsh", String("zž")), ("fish", Array(["gone", "fishing"])), ("_", String("other"))]))], Bash, home) == "export FOO=\"bar\";\n" + "export BAZ=\"other\";\n"
  {
    EverythingEntry(Bash, home);
    BashEverythingLines();
  }

  lemma ZshConvertEverything(home: Option<string>)
    ensures Script([("FOO", General(String("bar"))), ("BAZ", Specific([("zsh", String("zž")), ("fish", Array(["gone", "fishing"])), ("_", String("other"))]))], Zsh, home) == "export FOO=\"bar\";\n" + "export BAZ=\"zž\";\n"
  {
    EverythingEntry(Zsh, home);
    ZshEverythingLines();
  }

  lemma FishConvertEverything(home: Option<string>)
    ensures Script([("FOO", General(String("bar"))), ("BAZ", Specific([("zsh", String("zž")), ("fish", Array(["gone", "fishing"])), ("_", String("other"))]))], Fish, home) == "set -gx FOO \"bar\";\n" + ("set -gx --path BAZ \"" + "gone:fishing" + "\";\n")
  {
    EverythingEntry(Fish, home);
    FishEverythingLines();
  }
}
