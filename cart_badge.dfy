/**
 * The cart count badge (initCartBadge): the sum of `qty` over the cart entries
 * persisted under the key "ohana_cart", rendered as text, empty for zero.
 */
module CartBadge {
  import opened Wrappers
  import Decimal

  const CartKey: string := "ohana_cart"

  /**
   * A cart entry as the reducer sees it: `null` (reading `.qty` throws), or
   * any other value whose `qty` is an integer or falsy/absent (None).
   */
  datatype Entry = NullEntry | Entry(qty: Option<int>)

  /**
   * The persisted value as `JSON.parse(localStorage.getItem(KEY)) || []`
   * yields it: absent or falsy (read as an empty array), unparseable, a truthy
   * value that is not an array, or an array of entries.
   */
  datatype Stored = Absent | Malformed | NotArray | Entries(entries: seq<Entry>)

  /** `x.qty || 0` */
  function QtyOf(e: Entry): int
    requires e.Entry?
  {
    if e.qty.Some? then e.qty.value else 0
  }

  /** The reduce, left to right. */
  function SumQty(entries: seq<Entry>): int
    requires NullEntry !in entries
  {
    if entries == [] then 0
    else SumQty(entries[..|entries| - 1]) + QtyOf(entries[|entries| - 1])
  }

  /** `total()`: every exception (malformed JSON, no reduce, a null entry) reads as 0. */
  function Total(data: Stored): int
  {
    match data
    case Entries(es) => if NullEntry in es then 0 else SumQty(es)
    case _ => 0
  }

  /** `render()`: the badge text. */
  function BadgeText(n: int): (s: string)
    ensures s == "" <==> n == 0
  {
    if n == 0 then "" else Decimal.IntToString(n)
  }

  /** The sum splits over concatenation, so every entry counts once. */
  lemma {:induction false} SumQtyAppend(a: seq<Entry>, b: seq<Entry>)
    requires NullEntry !in a && NullEntry !in b
    ensures NullEntry !in a + b
    ensures SumQty(a + b) == SumQty(a) + SumQty(b)
    decreases |b|
  {
    if b == [] {
      assert a + b == a;
    } else {
      var init := b[..|b| - 1];
      assert (a + b)[..|a + b| - 1] == a + init;
      assert (a + b)[|a + b| - 1] == b[|b| - 1];
      assert forall e :: e in init ==> e in b;
      SumQtyAppend(a, init);
    }
  }

  /** With non-negative quantities the total is zero exactly when every quantity is zero or missing. */
  lemma {:induction false} SumQtyZero(entries: seq<Entry>)
    requires NullEntry !in entries
    requires forall i :: 0 <= i < |entries| ==> QtyOf(entries[i]) >= 0
    ensures SumQty(entries) >= 0
    ensures SumQty(entries) == 0 <==> forall i :: 0 <= i < |entries| ==> QtyOf(entries[i]) == 0
  {
    if entries != [] {
      var init := entries[..|entries| - 1];
      assert forall e :: e in init ==> e in entries;
      SumQtyZero(init);
    }
  }

  /** The badge shows a number exactly when the cart holds items, and that number reads back as the total. */
  lemma BadgeShowsTotal(data: Stored)
    ensures BadgeText(Total(data)) == "" <==> Total(data) == 0
    ensures Total(data) != 0 ==> Decimal.ParseInt(BadgeText(Total(data))) == Total(data)
  {
    Decimal.IntRoundTrip(Total(data));
  }

  /** Anything that is not an array of entries, or an array with a null entry, shows an empty badge. */
  lemma FailuresShowNothing(data: Stored)
    requires !data.Entries? || NullEntry in data.entries
    ensures BadgeText(Total(data)) == ""
  {
  }

  /** `[{qty:2},{qty:0},{qty:3}]` shows "5"; an empty cart shows nothing. */
  lemma Example()
    ensures BadgeText(Total(Entries([Entry(Some(2)), Entry(Some(0)), Entry(Some(3))]))) == "5"
    ensures BadgeText(Total(Entries([]))) == ""
  {
    var es := [Entry(Some(2)), Entry(Some(0)), Entry(Some(3))];
    assert es[..2] == [Entry(Some(2)), Entry(Some(0))];
    assert es[..2][..1] == [Entry(Some(2))];
    assert es[..2][..1][..0] == [];
    assert SumQty([Entry(Some(2))]) == 2;
    assert SumQty(es[..2]) == 2;
    assert SumQty(es) == 5;
    assert Decimal.DigitChar(5) == '5';
  }

  /** The #cart-count element. */
  class Badge {
    var text: string

    /** `initCartBadge`: the badge is rendered once with the value in storage at load. */
    constructor (data: Stored)
      ensures text == BadgeText(Total(data))
    {
      text := "";
      new;
      Render(data);
    }

    /** `render()` with the value currently in storage. */
    method Render(data: Stored)
      modifies this
      ensures text == BadgeText(Total(data))
    {
      var n := Total(data);
      text := if n != 0 then Decimal.IntToString(n) else "";
    }

    /** The `storage` listener: re-render only for the cart's key. */
    method OnStorage(key: string, data: Stored)
      modifies this
      ensures key == CartKey ==> text == BadgeText(Total(data))
      ensures key != CartKey ==> text == old(text)
    {
      if key == CartKey {
        Render(data);
      }
    }
  }
}
