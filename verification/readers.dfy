/** Plumbing shared by the readers that parse rendered text back. */
module Readers {
  import opened Wrappers
  import opened Parts

  /** Prepends atoms to a successful reading. */
  function Cons(a: seq<Atom>, r: Option<seq<Atom>>): Option<seq<Atom>>
  {
    match r
    case None => None
    case Some(x) => Some(a + x)
  }

  lemma ConsCons(a: seq<Atom>, b: seq<Atom>, r: Option<seq<Atom>>)
    ensures Cons(a, Cons(b, r)) == Cons(a + b, r)
  {
    if r.Some? {
      assert a + (b + r.value) == (a + b) + r.value;
    }
  }

  /** Prepends text to the word of a successful word reading. */
  function PrependWord(w: string, r: Option<(string, string)>): Option<(string, string)>
  {
    match r
    case None => None
    case Some((x, rest)) => Some((w + x, rest))
  }

  lemma PrependWordAssoc(a: string, b: string, r: Option<(string, string)>)
    ensures PrependWord(a, PrependWord(b, r)) == PrependWord(a + b, r)
  {
    if r.Some? {
      assert a + (b + r.value.0) == (a + b) + r.value.0;
    }
  }

  /** Expects the `)` that closes a substitution. */
  function Close(a: seq<Atom>, rest: string): (r: Option<(seq<Atom>, string)>)
    ensures r.Some? ==> |r.value.1| < |rest|
  {
    if |rest| > 0 && rest[0] == ')' then Some((a, rest[1..])) else None
  }
}
