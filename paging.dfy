/**
 * The shape of the page walk in `scrape_county`, independent of what a
 * page holds: pages `n`, `n + 1`, … up to `max` are loaded in turn, each
 * page adds what it gains, and the walk ends after the first page that
 * does not let it go on.
 */
module Paging {

  /** Appending is associative; stated once so that loops that append can
      regroup their pieces cheaply. */
  lemma AppendAssoc<T>(a: seq<T>, b: seq<T>, c: seq<T>)
    ensures (a + b) + c == a + (b + c)
  {
  }

  /** What the walk gains from page `n` on. */
  function Walk<P, R>(load: nat -> P, goOn: P -> bool, gain: P -> seq<R>, n: nat, max: nat): seq<R>
    decreases if n > max then 0 else max + 1 - n
  {
    if n > max then []
    else if goOn(load(n)) then gain(load(n)) + Walk(load, goOn, gain, n + 1, max)
    else gain(load(n))
  }

  /** The numbers of the pages the walk loads from page `n` on. */
  function Loads<P>(load: nat -> P, goOn: P -> bool, n: nat, max: nat): seq<nat>
    decreases if n > max then 0 else max + 1 - n
  {
    if n > max then []
    else if goOn(load(n)) then [n] + Loads(load, goOn, n + 1, max)
    else [n]
  }

  /** At most one load per page number from `n` to `max`. */
  lemma {:induction false} LoadsBound<P>(load: nat -> P, goOn: P -> bool, n: nat, max: nat)
    ensures |Loads(load, goOn, n, max)| <= if n > max then 0 else max + 1 - n
    decreases if n > max then 0 else max + 1 - n
  {
    if n <= max && goOn(load(n)) {
      LoadsBound(load, goOn, n + 1, max);
    }
  }

  /** The pages are loaded in order, one page number after the other. */
  lemma {:induction false} LoadsAt<P>(load: nat -> P, goOn: P -> bool, n: nat, max: nat, k: nat)
    requires k < |Loads(load, goOn, n, max)|
    ensures Loads(load, goOn, n, max)[k] == n + k
    decreases if n > max then 0 else max + 1 - n
  {
    if k > 0 {
      LoadsAt(load, goOn, n + 1, max, k - 1);
    }
  }

  /** Every page loaded before the last one let the walk go on. */
  lemma {:induction false} LoadsGoOn<P>(load: nat -> P, goOn: P -> bool, n: nat, max: nat, k: nat)
    requires k + 1 < |Loads(load, goOn, n, max)|
    ensures goOn(load(n + k))
    decreases if n > max then 0 else max + 1 - n
  {
    if k > 0 {
      LoadsGoOn(load, goOn, n + 1, max, k - 1);
    }
  }

  /** The walk ends before page `max` only at a page that does not let it
      go on. */
  lemma {:induction false} LoadsEndEarly<P>(load: nat -> P, goOn: P -> bool, n: nat, max: nat, k: nat)
    requires k + 1 == |Loads(load, goOn, n, max)| && n + k < max
    ensures !goOn(load(n + k))
    decreases if n > max then 0 else max + 1 - n
  {
    if k > 0 {
      LoadsEndEarly(load, goOn, n + 1, max, k - 1);
    }
  }

  /** What the pages with the given numbers gain, in order. */
  function Gather<P, R>(load: nat -> P, gain: P -> seq<R>, pages: seq<nat>): seq<R>
  {
    if pages == [] then []
    else gain(load(pages[0])) + Gather(load, gain, pages[1..])
  }

  /** The walk gains exactly what the pages it loads gain, in order. */
  lemma {:induction false} WalkGathers<P, R>(load: nat -> P, goOn: P -> bool, gain: P -> seq<R>, n: nat, max: nat)
    ensures Walk(load, goOn, gain, n, max) == Gather(load, gain, Loads(load, goOn, n, max))
    decreases if n > max then 0 else max + 1 - n
  {
    if n <= max {
      var ls := Loads(load, goOn, n, max);
      if goOn(load(n)) {
        WalkGathers(load, goOn, gain, n + 1, max);
        assert ls[1..] == Loads(load, goOn, n + 1, max);
      } else {
        assert ls[1..] == [];
      }
    }
  }

  /** Whatever the walk gains, some page from `n` to `max` gained. */
  lemma {:induction false} WalkMember<P, R>(load: nat -> P, goOn: P -> bool, gain: P -> seq<R>, n: nat, max: nat, x: R)
    requires x in Walk(load, goOn, gain, n, max)
    ensures exists m :: n <= m <= max && x in gain(load(m))
    decreases if n > max then 0 else max + 1 - n
  {
    if goOn(load(n)) && x !in gain(load(n)) {
      WalkMember(load, goOn, gain, n + 1, max, x);
    }
  }
}
