/**
  The escape chain the conversion driver applies to every configured string
  before writing it between double quotes: seven `str::replace` calls, the
  backslash first, that turn TOML's escapable characters back into their
  escape codes. Next to it is a single-pass definition of the same map and
  the unescaping that inverts it.
 */
module TomlEscape {
  import opened Wrappers
  import Text

  const Backspace: char := '\U{8}'
  const FormFeed: char := '\U{C}'

  /** The replacements, in the order the chain applies them. */
  const Rules: seq<(char, string)> := [
    ('\\', "\\\\"),
    (Backspace, "\\b"),
    ('\t', "\\t"),
    ('\n', "\\n"),
    (FormFeed, "\\f"),
    ('\r', "\\r"),
    ('"', "\\\"")
  ]

  /** Applies each replacement to the whole result of the previous one. */
  function ApplyRules(s: string, rules: seq<(char, string)>): string
    decreases |rules|
  {
    if |rules| == 0 then s
    else ApplyRules(Text.Replace(s, rules[0].0, rules[0].1), rules[1..])
  }

  /** The chain exactly as written: replace after replace. */
  function EscapeChain(s: string): string
  {
    ApplyRules(s, Rules)
  }

  /** The characters the chain rewrites. */
  predicate IsSpecial(c: char)
  {
    c == '\\' || c == Backspace || c == '\t' || c == '\n' || c == FormFeed || c == '\r' || c == '"'
  }

  /** The raw control characters the chain turns into codes. */
  predicate IsControl(c: char)
  {
    c == Backspace || c == '\t' || c == '\n' || c == FormFeed || c == '\r'
  }

  /** The letter after the backslash in the code for `c`. */
  function CodeLetter(c: char): char
    requires IsSpecial(c)
  {
    if c == Backspace then 'b'
    else if c == '\t' then 't'
    else if c == '\n' then 'n'
    else if c == FormFeed then 'f'
    else if c == '\r' then 'r'
    else c
  }

  /** The character a code letter stands for, if it is one. */
  function Decode(l: char): (r: Option<char>)
    ensures r.Some? ==> IsSpecial(r.value) && CodeLetter(r.value) == l
  {
    if l == 'b' then Some(Backspace)
    else if l == 't' then Some('\t')
    else if l == 'n' then Some('\n')
    else if l == 'f' then Some(FormFeed)
    else if l == 'r' then Some('\r')
    else if l == '\\' || l == '"' then Some(l)
    else None
  }

  lemma DecodeCodeLetter(c: char)
    requires IsSpecial(c)
    ensures Decode(CodeLetter(c)) == Some(c)
  {
  }

  /** One character, escaped on its own. */
  function EscapeChar(c: char): (r: string)
    ensures IsSpecial(c) ==> r == ['\\', CodeLetter(c)]
    ensures !IsSpecial(c) ==> r == [c]
  {
    if IsSpecial(c) then ['\\', CodeLetter(c)] else [c]
  }

  /** Number of characters the chain rewrites. */
  function Specials(s: string): (n: nat)
    ensures n == 0 <==> forall i :: 0 <= i < |s| ==> !IsSpecial(s[i])
  {
    if |s| == 0 then 0
    else
      var rest := Specials(s[1..]);
      assert forall i :: 1 <= i < |s| ==> s[i] == s[1..][i - 1];
      (if IsSpecial(s[0]) then 1 else 0) + rest
  }

  /** The single-pass escape: every character mapped on its own. */
  function Escape(s: string): (r: string)
    ensures |r| == |s| + Specials(s)
    ensures forall i :: 0 <= i < |r| ==> !IsControl(r[i])
  {
    if |s| == 0 then []
    else
      var head := EscapeChar(s[0]);
      var rest := Escape(s[1..]);
      assert forall i :: |head| <= i < |head + rest| ==> (head + rest)[i] == rest[i - |head|];
      head + rest
  }

  lemma {:induction false} EscapeAppend(a: string, b: string)
    ensures Escape(a + b) == Escape(a) + Escape(b)
  {
    if |a| == 0 {
      assert a + b == b;
    } else {
      assert (a + b)[1..] == a[1..] + b;
      EscapeAppend(a[1..], b);
    }
  }

  lemma {:induction false} ApplyRulesAppend(a: string, b: string, rules: seq<(char, string)>)
    ensures ApplyRules(a + b, rules) == ApplyRules(a, rules) + ApplyRules(b, rules)
    decreases |rules|
  {
    if |rules| > 0 {
      Text.ReplaceAppend(a, b, rules[0].0, rules[0].1);
      ApplyRulesAppend(Text.Replace(a, rules[0].0, rules[0].1), Text.Replace(b, rules[0].0, rules[0].1), rules[1..]);
    }
  }

  /** A character the chain does not rewrite passes every replacement unchanged. */
  lemma {:induction false} ApplyRulesPlain(c: char, rules: seq<(char, string)>)
    requires forall i :: 0 <= i < |rules| ==> rules[i].0 != c
    ensures ApplyRules([c], rules) == [c]
    decreases |rules|
  {
    if |rules| > 0 {
      assert Text.Replace([c], rules[0].0, rules[0].1) == [c];
      assert forall i :: 0 <= i < |rules[1..]| ==> rules[1..][i] == rules[i + 1];
      ApplyRulesPlain(c, rules[1..]);
    }
  }

  /** A code the chain has already written is left alone by the replacements after it. */
  lemma {:induction false} ApplyRulesCode(l: char, rules: seq<(char, string)>)
    requires forall i :: 0 <= i < |rules| ==> rules[i].0 != '\\' && rules[i].0 != l
    ensures ApplyRules(['\\', l], rules) == ['\\', l]
    decreases |rules|
  {
    if |rules| > 0 {
      assert ['\\', l] == ['\\'] + [l];
      Text.ReplaceAppend(['\\'], [l], rules[0].0, rules[0].1);
      assert Text.Replace(['\\', l], rules[0].0, rules[0].1) == ['\\', l];
      assert forall i :: 0 <= i < |rules[1..]| ==> rules[1..][i] == rules[i + 1];
      ApplyRulesCode(l, rules[1..]);
    }
  }

  /** The chain and the single pass agree on one character. */
  lemma ChainChar(c: char)
    ensures EscapeChain([c]) == EscapeChar(c)
  {
    if !IsSpecial(c) {
      ApplyRulesPlain(c, Rules);
    } else {
      var k := if c == '\\' then 0 else if c == Backspace then 1 else if c == '\t' then 2
        else if c == '\n' then 3 else if c == FormFeed then 4 else if c == '\r' then 5 else 6;
      ApplyRulesOne(c, CodeLetter(c), Rules, k);
    }
  }

  /**
    The replacements before the one for `c` leave `c` alone, its own
    replacement writes the code `\l`, and the ones after leave the code alone.
   */
  lemma ApplyRulesOne(c: char, l: char, rules: seq<(char, string)>, k: nat)
    requires k < |rules| && rules[k] == (c, ['\\', l])
    requires forall i :: 0 <= i < k ==> rules[i].0 != c
    requires forall i :: k < i < |rules| ==> rules[i].0 != '\\' && rules[i].0 != l
    ensures ApplyRules([c], rules) == ['\\', l]
  {
    var before, after := rules[..k], rules[k + 1..];
    assert rules == before + ([rules[k]] + after);
    ApplyRulesSplit([c], before, [rules[k]] + after);
    ApplyRulesPlain(c, before);
    assert ([rules[k]] + after)[1..] == after;
    assert Text.Replace([c], c, ['\\', l]) == ['\\', l];
    assert ApplyRules([c], [rules[k]] + after) == ApplyRules(['\\', l], after);
    ApplyRulesCode(l, after);
  }

  lemma {:induction false} ApplyRulesSplit(s: string, r1: seq<(char, string)>, r2: seq<(char, string)>)
    ensures ApplyRules(s, r1 + r2) == ApplyRules(ApplyRules(s, r1), r2)
    decreases |r1|
  {
    if |r1| > 0 {
      assert (r1 + r2)[0] == r1[0];
      assert (r1 + r2)[1..] == r1[1..] + r2;
      ApplyRulesSplit(Text.Replace(s, r1[0].0, r1[0].1), r1[1..], r2);
    } else {
      assert r1 + r2 == r2;
    }
  }

  /** The seven replacements in a row are the single-pass escape. */
  lemma {:induction false} ChainIsSinglePass(s: string)
    ensures EscapeChain(s) == Escape(s)
  {
    if |s| > 0 {
      assert s == [s[0]] + s[1..];
      ApplyRulesAppend([s[0]], s[1..], Rules);
      assert EscapeChain(s) == EscapeChain([s[0]]) + EscapeChain(s[1..]);
      ChainChar(s[0]);
      ChainIsSinglePass(s[1..]);
      assert Escape(s) == EscapeChar(s[0]) + Escape(s[1..]);
    } else {
      ApplyRulesAppend(s, s, Rules);
      assert s + s == s;
    }
  }

  /**
    Reads escape codes back: a backslash and a code letter give the
    character; a raw special character, a stray backslash or an unknown code
    is not output of the escape.
   */
  function Unescape(t: string): Option<string>
  {
    if |t| == 0 then Some([])
    else if t[0] == '\\' then
      if |t| < 2 then None
      else
        match Decode(t[1])
        case None => None
        case Some(c) =>
          match Unescape(t[2..])
          case None => None
          case Some(rest) => Some([c] + rest)
    else if IsSpecial(t[0]) then None
    else
      match Unescape(t[1..])
      case None => None
      case Some(rest) => Some([t[0]] + rest)
  }

  /** Unescaping undoes the escape. */
  lemma {:induction false} UnescapeEscape(s: string)
    ensures Unescape(Escape(s)) == Some(s)
  {
    if |s| > 0 {
      var head := EscapeChar(s[0]);
      var t := head + Escape(s[1..]);
      assert Escape(s) == t;
      UnescapeEscape(s[1..]);
      if IsSpecial(s[0]) {
        DecodeCodeLetter(s[0]);
        assert t[0] == '\\' && t[1] == CodeLetter(s[0]);
        assert t[2..] == Escape(s[1..]);
      } else {
        assert t[0] == s[0] && !IsSpecial(t[0]);
        assert t[1..] == Escape(s[1..]);
      }
      assert [s[0]] + s[1..] == s;
    }
  }

  /** Whatever unescapes escapes back to the same text. */
  lemma {:induction false} EscapeUnescape(t: string)
    requires Unescape(t).Some?
    ensures Escape(Unescape(t).value) == t
  {
    if |t| > 0 {
      var s := Unescape(t).value;
      if t[0] == '\\' {
        EscapeUnescape(t[2..]);
        assert s[1..] == Unescape(t[2..]).value;
        assert t == [t[0], t[1]] + t[2..];
      } else {
        EscapeUnescape(t[1..]);
        assert s[1..] == Unescape(t[1..]).value;
        assert t == [t[0]] + t[1..];
      }
    }
  }

  /** The escape and the unescape are inverse relations. */
  lemma UnescapeIff(s: string, t: string)
    ensures Unescape(t) == Some(s) <==> Escape(s) == t
  {
    if Escape(s) == t {
      UnescapeEscape(s);
    }
    if Unescape(t) == Some(s) {
      EscapeUnescape(t);
    }
  }

  /** Different strings escape differently. */
  lemma EscapeInjective(a: string, b: string)
    requires Escape(a) == Escape(b)
    ensures a == b
  {
    UnescapeIff(a, Escape(b));
    UnescapeEscape(b);
  }

  /** Text without escapable characters is left unchanged, and only such text is. */
  lemma {:induction false} EscapeIdentity(s: string)
    ensures Escape(s) == s <==> forall i :: 0 <= i < |s| ==> !IsSpecial(s[i])
  {
    if (forall i :: 0 <= i < |s| ==> !IsSpecial(s[i])) && |s| > 0 {
      assert forall i :: 0 <= i < |s[1..]| ==> s[1..][i] == s[i + 1];
      EscapeIdentity(s[1..]);
    }
  }
}
