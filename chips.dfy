/**
 * Chip groups of the Atlas filters (`.chips.regions`, `.chips.methods`,
 * `.chips.authors`, `.chips.seasons`): each chip carries its filter key, its
 * label, the class `active` and the attribute `aria-pressed`.
 */
module Chips {
  import opened Wrappers

  /** The key and label of the chip a group reports as active. */
  datatype ActiveChip = ActiveChip(key: string, text: string)

  /** No two chips of a group are active at once. */
  ghost predicate AtMostOne(active: seq<bool>)
  {
    forall i, j :: 0 <= i < |active| && 0 <= j < |active| && active[i] && active[j] ==> i == j
  }

  /** The flags with only chip `k` set. */
  function OnlyAt(n: nat, k: nat): (r: seq<bool>)
    ensures |r| == n
  {
    seq(n, i requires 0 <= i < n => i == k)
  }

  /**
   * The first active chip in document order: the element that
   * `querySelector('.chips.X .chip.active')` returns.
   */
  function FirstActive(active: seq<bool>): (r: Option<nat>)
    ensures r.Some? ==> r.value < |active| && active[r.value]
    ensures r.Some? ==> forall j :: 0 <= j < r.value ==> !active[j]
    ensures r.None? ==> forall j :: 0 <= j < |active| ==> !active[j]
  {
    if active == [] then None
    else if active[0] then Some(0)
    else match FirstActive(active[1..])
      case None => None
      case Some(k) => Some(k + 1)
  }

  /** In a group with at most one active chip, the query finds that chip. */
  lemma FirstActiveUnique(active: seq<bool>, k: nat)
    requires AtMostOne(active) && k < |active| && active[k]
    ensures FirstActive(active) == Some(k)
  {
  }

  /** A selection leaves exactly the clicked chip active, and the query finds it. */
  lemma OnlyAtSelects(n: nat, k: nat)
    requires k < n
    ensures AtMostOne(OnlyAt(n, k)) && OnlyAt(n, k)[k]
    ensures FirstActive(OnlyAt(n, k)) == Some(k)
  {
    FirstActiveUnique(OnlyAt(n, k), k);
  }

  /** Clearing the one active chip leaves the group with none. */
  lemma ClearLeavesNone(active: seq<bool>, k: nat)
    requires AtMostOne(active) && k < |active| && active[k]
    ensures FirstActive(active[k := false]) == None
  {
  }

  class ChipGroup {
    const keys: seq<string>    // data-filter-* of each chip; "" when absent
    const labels: seq<string>  // trimmed text of each chip
    var active: seq<bool>      // class `active`
    var pressed: seq<bool>     // aria-pressed == 'true'

    ghost predicate Valid()
      reads this
    {
      |labels| == |keys| && |active| == |keys| && |pressed| == |keys|
    }

    /** The single-select law, with aria-pressed mirroring the class. */
    ghost predicate Consistent()
      reads this
    {
      Valid() && AtMostOne(active) && pressed == active
    }

    /** The chip the group reports as active, if any. */
    function Active(): (r: Option<ActiveChip>)
      reads this
      requires Valid()
      ensures r.None? <==> forall j :: 0 <= j < |active| ==> !active[j]
    {
      match FirstActive(active)
      case None => None
      case Some(k) => Some(ActiveChip(keys[k], labels[k]))
    }

    constructor (keys: seq<string>, labels: seq<string>, active: seq<bool>, pressed: seq<bool>)
      requires |labels| == |keys| && |active| == |keys| && |pressed| == |keys|
      ensures Valid()
      ensures this.keys == keys && this.labels == labels
      ensures this.active == active && this.pressed == pressed
    {
      this.keys, this.labels := keys, labels;
      this.active, this.pressed := active, pressed;
    }

    /** Every chip loses `active` and gets aria-pressed 'false'. */
    method ClearAll()
      requires Valid()
      modifies this
      ensures Valid()
      ensures active == OnlyAt(|keys|, |keys|) && pressed == active
    {
      var i := 0;
      while i < |active|
        invariant Valid()
        invariant 0 <= i <= |active|
        invariant forall j :: 0 <= j < i ==> !active[j] && !pressed[j]
      {
        active := active[i := false];
        pressed := pressed[i := false];
        i := i + 1;
      }
    }

    /** A region click: the clicked chip becomes the only active one. */
    method Select(k: nat)
      requires Valid() && k < |keys|
      modifies this
      ensures Consistent()
      ensures active == OnlyAt(|keys|, k) && pressed == active
      ensures Active() == Some(ActiveChip(keys[k], labels[k]))
    {
      ClearAll();
      active := active[k := true];
      pressed := pressed[k := true];
      OnlyAtSelects(|keys|, k);
    }

    /**
     * A method, author or season click: clicking the active chip clears it
     * (and only it); clicking any other chip selects only that one.
     */
    method Toggle(k: nat)
      requires Valid() && k < |keys|
      modifies this
      ensures Valid()
      ensures old(active[k]) ==> active == old(active)[k := false] && pressed == old(pressed)[k := false]
      ensures !old(active[k]) ==> active == OnlyAt(|keys|, k) && pressed == active
      ensures old(Consistent()) || !old(active[k]) ==> Consistent()
      ensures old(Consistent()) && old(active[k]) ==> Active() == None
      ensures !old(active[k]) ==> Active() == Some(ActiveChip(keys[k], labels[k]))
    {
      if active[k] {
        active := active[k := false];
        pressed := pressed[k := false];
        if old(Consistent()) {
          ClearLeavesNone(old(active), k);
        }
      } else {
        Select(k);
      }
    }
  }
}
