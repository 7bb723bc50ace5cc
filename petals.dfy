/**
 * The floating-petal population (createFloatingPetals): a petal is added on
 * each tick unless the page is hidden or the cap is reached, and removed when
 * its animation ends. Random position, size and duration are left out.
 */
module Petals {

  /** The cap: 5 on narrow screens (under 768 px), 12 otherwise. */
  function MaxPetals(innerWidth: int): (r: nat)
    ensures 5 <= r <= 12
  {
    if innerWidth < 768 then 5 else 12
  }

  /** A wider window never gets a smaller cap. */
  lemma MaxPetalsMonotone(narrow: int, wide: int)
    requires narrow <= wide
    ensures MaxPetals(narrow) <= MaxPetals(wide)
    ensures MaxPetals(wide) - MaxPetals(narrow) == if narrow < 768 <= wide then 7 else 0
  {
  }

  /** What can happen to the population: a timer tick (with the page's visibility), or a petal's removal. */
  datatype Event = Tick(hidden: bool) | Expire

  /** The counter after one event; removal only ever fires for a petal that exists. */
  function Step(maxPetals: nat, active: nat, e: Event): nat
  {
    match e
    case Tick(hidden) => if hidden || active >= maxPetals then active else active + 1
    case Expire => if active > 0 then active - 1 else active
  }

  function Run(maxPetals: nat, active: nat, events: seq<Event>): nat
  {
    if events == [] then active
    else Step(maxPetals, Run(maxPetals, active, events[..|events| - 1]), events[|events| - 1])
  }

  /** From any count within the cap, no sequence of ticks and removals exceeds the cap. */
  lemma {:induction false} CapHolds(maxPetals: nat, active: nat, events: seq<Event>)
    requires active <= maxPetals
    ensures Run(maxPetals, active, events) <= maxPetals
  {
    if events != [] {
      CapHolds(maxPetals, active, events[..|events| - 1]);
    }
  }

  /** Without removals, the population grows by one per visible tick until it reaches the cap. */
  lemma {:induction false} TicksFillToCap(maxPetals: nat, k: nat)
    ensures Run(maxPetals, 0, seq(k, i => Tick(false))) == if k <= maxPetals then k else maxPetals
  {
    if k > 0 {
      var ticks := seq(k, i => Tick(false));
      assert ticks[..k - 1] == seq(k - 1, i => Tick(false));
      TicksFillToCap(maxPetals, k - 1);
    }
  }

  class Field {
    const maxPetals: nat
    var activePetals: nat

    ghost predicate Valid()
      reads this
    {
      activePetals <= maxPetals
    }

    constructor (innerWidth: int)
      ensures Valid() && maxPetals == MaxPetals(innerWidth) && activePetals == 0
    {
      maxPetals := MaxPetals(innerWidth);
      activePetals := 0;
    }

    /** `createPetal()` */
    method CreatePetal(hidden: bool) returns (created: bool)
      requires Valid()
      modifies this
      ensures Valid()
      ensures created <==> !hidden && old(activePetals) < maxPetals
      ensures activePetals == Step(maxPetals, old(activePetals), Tick(hidden))
    {
      if hidden || activePetals >= maxPetals {
        return false;
      }
      activePetals := activePetals + 1;
      created := true;
    }

    /** The removal timer of a live petal. */
    method RemovePetal()
      requires Valid() && activePetals > 0
      modifies this
      ensures Valid()
      ensures activePetals == Step(maxPetals, old(activePetals), Expire)
    {
      activePetals := activePetals - 1;
    }
  }
}
