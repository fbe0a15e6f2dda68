/**
  The backslash escaping that the fish and xonsh renderers share: first every
  `\` becomes `\\`, then every `'` becomes `\'`.
 */
module Backslash {
  import Text

  /** The two `replace` calls in the order the renderers make them. */
  function ReplaceChain(s: string): string
  {
    Text.Replace(Text.Replace(s, '\\', "\\\\"), '\'', "\\'")
  }

  function EscapeChar(c: char): string
  {
    if c == '\\' || c == '\'' then ['\\', c] else [c]
  }

  /** Reference definition: one pass that puts a backslash before every `\` and every `'`. */
  function Escape(s: string): (t: string)
    ensures |t| == |s| + Text.Count(s, '\\') + Text.Count(s, '\'')
  {
    if |s| == 0 then [] else EscapeChar(s[0]) + Escape(s[1..])
  }

  /**
    Because backslashes are doubled before quotes are escaped, the chain never
    re-escapes the backslash it has just inserted: it equals the single pass.
   */
  lemma {:induction false} ChainIsSinglePass(s: string)
    ensures ReplaceChain(s) == Escape(s)
  {
    if |s| > 0 {
      var a := if s[0] == '\\' then "\\\\" else [s[0]];
      var b := Text.Replace(s[1..], '\\', "\\\\");
      assert Text.Replace(s, '\\', "\\\\") == a + b;
      Text.ReplaceAppend(a, b, '\'', "\\'");
      ChainIsSinglePass(s[1..]);
      if s[0] == '\'' {
        assert Text.Replace(a, '\'', "\\'") == "\\'" + Text.Replace([], '\'', "\\'");
      } else if s[0] == '\\' {
        assert '\'' !in a;
      } else {
        assert Text.Replace(a, '\'', "\\'") == [s[0]] + Text.Replace([], '\'', "\\'");
      }
    }
  }

  /** Escaping distributes over concatenation, so a text can be escaped piece by piece. */
  lemma {:induction false} EscapeAppend(a: string, b: string)
    ensures Escape(a + b) == Escape(a) + Escape(b)
  {
    if |a| > 0 {
      assert (a + b)[1..] == a[1..] + b;
      EscapeAppend(a[1..], b);
    } else {
      assert a + b == b;
    }
  }

  /** A text comes through unchanged exactly when it holds neither `\` nor `'`. */
  lemma {:induction false} EscapeIdentity(s: string)
    ensures Escape(s) == s <==> '\\' !in s && '\'' !in s
  {
    if '\\' !in s && '\'' !in s && |s| > 0 {
      assert '\\' !in s[1..] && '\'' !in s[1..];
      EscapeIdentity(s[1..]);
    }
  }

  lemma EscapeOne(c: char)
    ensures Escape([c]) == EscapeChar(c)
  {
    assert [c][1..] == [];
  }

  /** Text made of plain runs separated by `'` comes out with each `'` preceded by a backslash. */
  lemma {:induction false} EscapeRuns(ps: seq<string>)
    requires |ps| > 0
    requires forall i :: 0 <= i < |ps| ==> '\\' !in ps[i] && '\'' !in ps[i]
    ensures Escape(Text.Join(ps, "'")) == Text.Join(ps, "\\'")
  {
    EscapeIdentity(ps[0]);
    if |ps| > 1 {
      var tail := Text.Join(ps[1..], "'");
      var tail' := Text.Join(ps[1..], "\\'");
      EscapeRuns(ps[1..]);
      assert Escape(tail) == tail';
      assert Text.Join(ps, "'") == ps[0] + "'" + tail;
      assert Text.Join(ps, "\\'") == ps[0] + "\\'" + tail';
      EscapeOne('\'');
      EscapeAppend(ps[0], "'");
      EscapeAppend(ps[0] + "'", tail);
    }
  }

  /** Reading backslash escapes as xonsh's Python strings do: a backslash takes the next character literally. */
  function Unescape(t: string): string
  {
    if |t| == 0 then []
    else if t[0] == '\\' && |t| >= 2 then [t[1]] + Unescape(t[2..])
    else [t[0]] + Unescape(t[1..])
  }

  lemma {:induction false} UnescapeEscape(s: string)
    ensures Unescape(Escape(s)) == s
  {
    if |s| > 0 {
      var e := Escape(s);
      assert e == EscapeChar(s[0]) + Escape(s[1..]);
      UnescapeEscape(s[1..]);
      if s[0] == '\\' || s[0] == '\'' {
        assert e[2..] == Escape(s[1..]);
      } else {
        assert e[1..] == Escape(s[1..]);
      }
    }
  }

  /** Escaping loses nothing: different inputs stay different. */
  lemma EscapeInjective(s: string, s': string)
    requires Escape(s) == Escape(s')
    ensures s == s'
  {
    UnescapeEscape(s);
    UnescapeEscape(s');
  }
}
