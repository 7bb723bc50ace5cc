/**
 * The stagger schedules of the "more" list animations (animateMoreListIn,
 * animateMoreListOut) and the delay of the close button's finalisation, in
 * whole milliseconds.
 */
module MoreListSchedule {

  const StepMs: nat := 60           // between consecutive items
  const EntryDurationMs: nat := 1000
  const ExitDurationMs: nat := 800
  const SettleFloorMs: nat := 1150
  const SettleBufferMs: nat := 100

  /** Entry delay of item i of n: top to bottom. */
  function EntryDelays(n: nat): seq<nat>
  {
    seq(n, i requires 0 <= i < n => i * StepMs)
  }

  /** Exit delay of item i of n: bottom to top. */
  function ExitDelays(n: nat): seq<nat>
  {
    seq(n, i requires 0 <= i < n => (n - 1 - i) * StepMs)
  }

  /** The total animateMoreListOut returns: duration plus step times max(0, n-1). */
  function ExitTotal(n: nat): nat
  {
    ExitDurationMs + StepMs * (if n > 0 then n - 1 else 0)
  }

  /** Items enter one after another, top first. */
  lemma EntryTopToBottom(n: nat, i: nat, j: nat)
    requires i < j < n
    ensures EntryDelays(n)[i] < EntryDelays(n)[j]
    ensures EntryDelays(n)[0] == 0
  {
  }

  /** Items leave in the mirrored order: the last item first, the first item last. */
  lemma ExitMirrorsEntry(n: nat, i: nat)
    requires i < n
    ensures ExitDelays(n)[i] == EntryDelays(n)[n - 1 - i]
    ensures ExitDelays(n)[n - 1] == 0
  {
  }

  /** The exit total is exactly when the last item to leave (the first one) finishes. */
  lemma ExitTotalCoversAll(n: nat)
    ensures forall i :: 0 <= i < n ==> ExitDelays(n)[i] + ExitDurationMs <= ExitTotal(n)
    ensures n > 0 ==> ExitDelays(n)[0] + ExitDurationMs == ExitTotal(n)
  {
  }

  /** The delay the close handler actually gives its finalisation: a literal. */
  function FinalizeDelayAsWritten(n: nat): nat
  {
    SettleFloorMs
  }

  /** With seven items the list is hidden before the exit animation of its first item ends. */
  lemma AsWrittenCutsExitShort()
    ensures FinalizeDelayAsWritten(7) < ExitTotal(7)
  {
  }

  /** From six items on the buffer after the exit animation is not kept either. */
  lemma {:induction false} AsWrittenSkipsBuffer(n: nat)
    requires n >= 6
    ensures FinalizeDelayAsWritten(n) < ExitTotal(n) + SettleBufferMs
  {
  }

  /** The settle delay the handler computes: the floor or the exit total plus the buffer. */
  function SettleDelay(n: nat): nat
  {
    if ExitTotal(n) + SettleBufferMs > SettleFloorMs then ExitTotal(n) + SettleBufferMs else SettleFloorMs
  }

  /** The computed delay never fires before every item has finished, with the buffer, nor before the floor. */
  lemma SettleAfterExit(n: nat)
    ensures SettleDelay(n) >= SettleFloorMs
    ensures forall i :: 0 <= i < n ==> ExitDelays(n)[i] + ExitDurationMs + SettleBufferMs <= SettleDelay(n)
    ensures n <= 5 ==> SettleDelay(n) == FinalizeDelayAsWritten(n)
  {
    ExitTotalCoversAll(n);
  }
}
