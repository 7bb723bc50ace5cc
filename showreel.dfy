/**
 * The hero showreel (initShowreel): slides rotate on a timer and exactly one
 * carries the class `active`. Video play/pause is left out.
 */
module Showreel {

  /** `i = (i+1) % slides.length` */
  function NextIndex(i: nat, n: nat): (r: nat)
    requires i < n
    ensures r < n
    ensures r == if i == n - 1 then 0 else i + 1
  {
    (i + 1) % n
  }

  /** The index after k ticks from i. */
  function RotateBy(i: nat, n: nat, k: nat): (r: nat)
    requires i < n
    ensures r < n
  {
    if k == 0 then i else NextIndex(RotateBy(i, n, k - 1), n)
  }

  /** Before the end of the reel, k ticks move k slides on. */
  lemma {:induction false} RotateWithinRound(i: nat, n: nat, k: nat)
    requires i + k < n
    ensures RotateBy(i, n, k) == i + k
  {
    if k > 0 {
      RotateWithinRound(i, n, k - 1);
    }
  }

  /** Ticks compose: a + b ticks are a ticks followed by b ticks. */
  lemma {:induction false} RotateCompose(i: nat, n: nat, a: nat, b: nat)
    requires i < n
    ensures RotateBy(i, n, a + b) == RotateBy(RotateBy(i, n, a), n, b)
  {
    if b > 0 {
      RotateCompose(i, n, a, b - 1);
    }
  }

  /** From slide i, n - i ticks wrap around to the first slide. */
  lemma RotateWraps(i: nat, n: nat)
    requires i < n
    ensures RotateBy(i, n, n - i) == 0
  {
    RotateWithinRound(i, n, n - i - 1);
  }

  /** Every slide comes up within one round, and a full round returns to the start. */
  lemma RotationCoversAll(n: nat, j: nat)
    requires j < n
    ensures RotateBy(0, n, j) == j
    ensures RotateBy(j, n, n) == j
  {
    RotateWithinRound(0, n, j);
    RotateCompose(j, n, n - j, j);
    RotateWraps(j, n);
  }

  class Reel {
    const slides: array<bool>  // class `active` of each slide
    var index: nat

    ghost predicate Valid()
      reads this
    {
      index < slides.Length
    }

    /** Exactly the slide at `idx` is active. */
    ghost predicate OnlyActive(idx: nat)
      reads this, slides
    {
      forall k :: 0 <= k < slides.Length ==> (slides[k] <==> k == idx)
    }

    /** The reel with its slides; a reel without slides is never set up. */
    constructor (n: nat)
      requires n > 0
      ensures Valid() && slides.Length == n && index == 0 && OnlyActive(0)
    {
      slides := new bool[n];
      index := 0;
      new;
      Activate(0);
    }

    /** `activate(idx)`: toggle `active` on every slide, on exactly at `idx`. */
    method Activate(idx: nat)
      requires idx < slides.Length
      modifies slides
      ensures OnlyActive(idx)
    {
      var n := 0;
      while n < slides.Length
        invariant 0 <= n <= slides.Length
        invariant forall k :: 0 <= k < n ==> (slides[k] <==> k == idx)
      {
        slides[n] := n == idx;
        n := n + 1;
      }
    }

    /** `next()`: advance the index cyclically and activate that slide. */
    method Next()
      requires Valid()
      modifies this, slides
      ensures Valid()
      ensures index == NextIndex(old(index), slides.Length)
      ensures OnlyActive(index)
    {
      index := (index + 1) % slides.Length;
      Activate(index);
    }
  }
}
