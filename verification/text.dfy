/**
  The string primitives the Rust sources lean on, as total functions on
  `seq<char>`: `str::replace` with a `char` pattern, `str::split` on a
  `char`, `[String]::join`, and a reader that stops at a delimiter.
 */
module Text {
  import opened Wrappers

  /** Number of occurrences of `c` in `s`. */
  function Count(s: string, c: char): (n: nat)
    ensures n <= |s|
    ensures n == 0 <==> c !in s
  {
    if |s| == 0 then 0
    else (if s[0] == c then 1 else 0) + Count(s[1..], c)
  }

  lemma {:induction false} CountAppend(a: string, b: string, c: char)
    ensures Count(a + b, c) == Count(a, c) + Count(b, c)
  {
    if |a| == 0 {
      assert a + b == b;
    } else {
      assert (a + b)[1..] == a[1..] + b;
      CountAppend(a[1..], b, c);
    }
  }

  /** `s.replace(c, r)`: every occurrence of `c`, left to right, becomes `r`. */
  function Replace(s: string, c: char, r: string): (t: string)
    ensures c !in s ==> t == s
    ensures |r| == 1 ==> |t| == |s|
  {
    if |s| == 0 then []
    else (if s[0] == c then r else [s[0]]) + Replace(s[1..], c, r)
  }

  /** Replacement works character by character, so it distributes over concatenation. */
  lemma {:induction false} ReplaceAppend(a: string, b: string, c: char, r: string)
    ensures Replace(a + b, c, r) == Replace(a, c, r) + Replace(b, c, r)
  {
    if |a| == 0 {
      assert a + b == b;
    } else {
      assert (a + b)[1..] == a[1..] + b;
      ReplaceAppend(a[1..], b, c, r);
    }
  }

  /**
    `s.split(c)`: the runs of `s` between occurrences of `c`, in order. As in
    Rust there is always at least one piece, and the empty string splits into
    one empty piece.
   */
  function Split(s: string, c: char): (ps: seq<string>)
    ensures |ps| == Count(s, c) + 1
    ensures forall i :: 0 <= i < |ps| ==> c !in ps[i]
  {
    if |s| == 0 then [[]]
    else
      var rest := Split(s[1..], c);
      if s[0] == c then [[]] + rest else [[s[0]] + rest[0]] + rest[1..]
  }

  /** `ps.join(sep)`: the pieces in order with `sep` between neighbours. */
  function Join(ps: seq<string>, sep: string): string
  {
    if |ps| == 0 then []
    else if |ps| == 1 then ps[0]
    else ps[0] + sep + Join(ps[1..], sep)
  }

  /** Joining the pieces of a split with the separator gives back the original string. */
  lemma {:induction false} JoinSplit(s: string, c: char)
    ensures Join(Split(s, c), [c]) == s
  {
    if |s| > 0 {
      var rest := Split(s[1..], c);
      JoinSplit(s[1..], c);
      if s[0] == c {
        assert Split(s, c) == [[]] + rest;
        assert ([[]] + rest)[1..] == rest;
      } else {
        var ps := Split(s, c);
        assert ps == [[s[0]] + rest[0]] + rest[1..];
        if |rest| == 1 {
          assert Join(rest, [c]) == rest[0];
        } else {
          assert Join(rest, [c]) == rest[0] + [c] + Join(rest[1..], [c]);
          assert ps[1..] == rest[1..];
        }
      }
    }
  }

  /** Splitting a join of separator-free pieces recovers the pieces: split is the inverse of join. */
  lemma {:induction false} SplitJoin(ps: seq<string>, c: char)
    requires |ps| > 0
    requires forall i :: 0 <= i < |ps| ==> c !in ps[i]
    ensures Split(Join(ps, [c]), c) == ps
  {
    if |ps| == 1 {
      SplitRun(ps[0], [], c);
      assert ps[0] + [] == ps[0];
    } else {
      var tail := Join(ps[1..], [c]);
      SplitJoin(ps[1..], c);
      assert Join(ps, [c]) == ps[0] + ([c] + tail);
      SplitRun(ps[0], [c] + tail, c);
      assert ([c] + tail)[1..] == tail;
      var rest := Split(tail, c);
      assert Split([c] + tail, c) == [[]] + rest;
      assert ([[]] + rest)[0] == [];
      assert ([[]] + rest)[1..] == rest;
      assert ps[0] + [] == ps[0];
      assert ps == [ps[0]] + ps[1..];
    }
  }

  /** A separator-free run in front of `t` extends the first piece of `t`. */
  lemma {:induction false} SplitRun(p: string, t: string, c: char)
    requires c !in p
    ensures Split(p + t, c) == [p + Split(t, c)[0]] + Split(t, c)[1..]
  {
    var st := Split(t, c);
    if |p| > 0 {
      var r1 := Split(p[1..] + t, c);
      SplitRun(p[1..], t, c);
      SplitFront(p[0], p[1..] + t, c);
      ConsAppend(p, t);
      ConsAppend(p, st[0]);
      assert r1[0] == p[1..] + st[0];
      assert r1[1..] == st[1..];
    } else {
      assert p + t == t;
      assert p + st[0] == st[0];
      assert st == [st[0]] + st[1..];
    }
  }

  /** Concatenation regroups freely; stated once so that long proofs need not rediscover it. */
  lemma Associative(x: string, y: string, z: string)
    ensures x + (y + z) == (x + y) + z
  {
  }

  lemma ConsAppend(p: string, u: string)
    requires |p| > 0
    ensures [p[0]] + (p[1..] + u) == p + u
  {
    assert p == [p[0]] + p[1..];
  }

  /** A character other than the separator joins the first piece. */
  lemma SplitFront(x: char, t: string, c: char)
    requires x != c
    ensures Split([x] + t, c) == [[x] + Split(t, c)[0]] + Split(t, c)[1..]
  {
    assert ([x] + t)[0] == x;
    assert ([x] + t)[1..] == t;
  }

  /**
    Reads `t` up to the first `c`: the text before it and the text after it,
    or None when `c` does not occur.
   */
  function ReadUntil(t: string, c: char): (r: Option<(string, string)>)
    ensures r.None? <==> c !in t
    ensures r.Some? ==> t == r.value.0 + [c] + r.value.1 && c !in r.value.0
  {
    if |t| == 0 then None
    else if t[0] == c then Some(([], t[1..]))
    else
      match ReadUntil(t[1..], c)
      case None => None
      case Some((p, rest)) => Some(([t[0]] + p, rest))
  }

  /** Reading up to `c` stops at the first `c`, whatever follows it. */
  lemma {:induction false} ReadUntilPrefix(p: string, c: char, t: string)
    requires c !in p
    ensures ReadUntil(p + [c] + t, c) == Some((p, t))
  {
    if |p| == 0 {
      assert p + [c] + t == [c] + t;
    } else {
      assert (p + [c] + t)[0] == p[0];
      assert (p + [c] + t)[1..] == p[1..] + [c] + t;
      ReadUntilPrefix(p[1..], c, t);
      assert [p[0]] + p[1..] == p;
    }
  }

  /** `t` begins with `p`. */
  predicate HasPrefix(t: string, p: string)
  {
    |p| <= |t| && t[..|p|] == p
  }

  lemma PrefixOfAppend(p: string, t: string)
    ensures HasPrefix(p + t, p)
    ensures (p + t)[|p|..] == t
  {
    assert (p + t)[..|p|] == p;
  }

  /** One differing character rules a prefix out. */
  lemma NotPrefixAt(t: string, p: string, i: nat)
    requires i < |p| && i < |t| && t[i] != p[i]
    ensures !HasPrefix(t, p)
  {
  }
}
