/** The sampling cadence of a hold (holdFrom and sampleAt in ectest/internal/runner/runner.go):
  sample k is due at the anchor plus k intervals, a late sample skips the slots it missed, but
  goes on to the last slot in any case. Times are nanoseconds. */
module Cadence {
  import opened StoredTime

  const DUE_TOLERANCE := NS_PER_S / 2

  /** One sample of a hold: its slot, when it was read, when it was finished and the run time
    stored with it. */
  datatype Slot = Slot(k: int, readAt: int, doneAt: int, ts: int)

  function Due(anchor: int, sample: int, k: int): int {
    anchor + k * sample
  }

  /** The number of slots of a hold of length d; there is always one. */
  function Slots(d: int, sample: int): (n: int)
    requires d >= 0 && sample > 0
    ensures n >= 1
  {
    if d / sample < 1 then 1 else d / sample
  }

  /** It is the whole number of intervals that fit into the hold, and 1 for a shorter one. */
  lemma SlotsExact(d: int, sample: int)
    requires d >= 0 && sample > 0
    ensures d >= sample ==> Slots(d, sample) * sample <= d < (Slots(d, sample) + 1) * sample
    ensures d < sample ==> Slots(d, sample) == 1
  {
    assert d == (d / sample) * sample + d % sample;
    if d >= sample {
      assert d / sample >= 1;
    } else {
      assert d / sample == 0;
    }
  }

  /** The run time stored for a sample read at readAt and due at due. */
  function Stamp(start: int, readAt: int, due: int): int {
    if -DUE_TOLERANCE <= readAt - due <= DUE_TOLERANCE then due - start else readAt - start
  }

  predicate InSlot(start: int, anchor: int, sample: int, n: int, s: Slot) {
    && 1 <= s.k <= n
    && Due(anchor, sample, s.k) <= s.readAt <= s.doneAt
    && s.ts == Stamp(start, s.readAt, Due(anchor, sample, s.k))
  }

  /** From sample s the hold goes on to slot k: a later one, still in the future unless it is
    the last, and no slot that was still in the future is left out. */
  predicate GoesOn(anchor: int, sample: int, n: int, s: Slot, k: int) {
    && s.k < k <= n
    && (Due(anchor, sample, k) > s.doneAt || k == n)
    && forall j :: s.k < j < k ==> Due(anchor, sample, j) <= s.doneAt
  }

  ghost predicate Cadence(start: int, anchor: int, sample: int, n: int, slots: seq<Slot>) {
    && (forall i :: 0 <= i < |slots| ==> InSlot(start, anchor, sample, n, slots[i]))
    && (slots != [] ==> slots[0].k == 1)
    && (forall i, j :: 0 <= i < j < |slots| && j == i + 1 ==>
          GoesOn(anchor, sample, n, slots[i], slots[j].k) && slots[i].doneAt <= slots[j].readAt)
  }

  lemma DueMonotone(anchor: int, sample: int, j: int, k: int)
    requires sample > 0 && j <= k
    ensures Due(anchor, sample, j) + (k - j) * sample == Due(anchor, sample, k)
    ensures Due(anchor, sample, j) <= Due(anchor, sample, k)
    ensures j < k ==> Due(anchor, sample, j) + sample <= Due(anchor, sample, k)
  {
    assert k * sample == j * sample + (k - j) * sample;
    assert (k - j) * sample >= 0;
    if j < k {
      assert (k - j) * sample == (k - j - 1) * sample + sample && (k - j - 1) * sample >= 0;
    }
  }

  /** The slot after the last one that is already due. */
  lemma FirstFutureSlot(anchor: int, sample: int, now: int)
    requires sample > 0 && now >= anchor
    ensures var next := (now - anchor) / sample + 1;
            Due(anchor, sample, next) > now && Due(anchor, sample, next - 1) <= now
  {
  }

  /** A sample read at most 0.5 s late is stored exactly at its slot. */
  lemma StoredAtItsSlot(start: int, anchor: int, sample: int, n: int, s: Slot)
    requires InSlot(start, anchor, sample, n, s)
    ensures s.readAt - Due(anchor, sample, s.k) <= DUE_TOLERANCE <==> s.ts == Due(anchor, sample, s.k) - start
  {
  }

  lemma {:induction false} SlotsIncrease(start: int, anchor: int, sample: int, n: int, slots: seq<Slot>, i: nat, j: nat)
    requires Cadence(start, anchor, sample, n, slots) && i < j < |slots|
    ensures slots[i].k < slots[j].k && slots[i].doneAt <= slots[j].readAt
  {
    assert GoesOn(anchor, sample, n, slots[j-1], slots[j].k);
    if i < j - 1 {
      SlotsIncrease(start, anchor, sample, n, slots, i, j - 1);
    }
  }

  /** Without an overrun no slot is skipped: sample i is in slot i + 1. */
  lemma {:induction false} NoSlotSkipped(start: int, anchor: int, sample: int, n: int, slots: seq<Slot>, i: nat)
    requires sample > 0 && Cadence(start, anchor, sample, n, slots) && i < |slots|
    requires forall j :: 0 <= j < |slots| ==> slots[j].doneAt < Due(anchor, sample, slots[j].k + 1)
    ensures slots[i].k == i + 1
  {
    if i > 0 {
      NoSlotSkipped(start, anchor, sample, n, slots, i - 1);
      assert GoesOn(anchor, sample, n, slots[i-1], slots[i].k);
      assert slots[i-1].doneAt < Due(anchor, sample, i + 1);
    }
  }

  /** ... so a hold that reached its last slot took all of them. */
  lemma AllSlotsTaken(start: int, anchor: int, sample: int, n: int, slots: seq<Slot>)
    requires sample > 0 && Cadence(start, anchor, sample, n, slots) && slots != [] && slots[|slots|-1].k == n
    requires forall j :: 0 <= j < |slots| ==> slots[j].doneAt < Due(anchor, sample, slots[j].k + 1)
    ensures |slots| == n
  {
    NoSlotSkipped(start, anchor, sample, n, slots, |slots| - 1);
  }

  /** Sample p was read so late that the slot of q was already past, and q, read right after it,
    still counts as being in time: q is stored at its due time and p at its later read time. */
  predicate Overtaken(anchor: int, sample: int, p: Slot, q: Slot) {
    && p.readAt > Due(anchor, sample, p.k) + DUE_TOLERANCE
    && p.readAt > Due(anchor, sample, q.k)
    && q.readAt <= Due(anchor, sample, q.k) + DUE_TOLERANCE
  }

  /** Two samples in a row are stored in order unless the first one was overtaken, which only the
    forced last slot can do. */
  lemma PairExact(start: int, anchor: int, sample: int, n: int, slots: seq<Slot>, i: nat)
    requires sample > 0 && Cadence(start, anchor, sample, n, slots) && 0 < i < |slots|
    ensures slots[i-1].ts <= slots[i].ts <==> !Overtaken(anchor, sample, slots[i-1], slots[i])
    ensures Overtaken(anchor, sample, slots[i-1], slots[i]) ==> slots[i].k == n
  {
    var p, q := slots[i-1], slots[i];
    assert GoesOn(anchor, sample, n, p, q.k) && p.doneAt <= q.readAt;
    assert InSlot(start, anchor, sample, n, p) && InSlot(start, anchor, sample, n, q);
    DueMonotone(anchor, sample, p.k, q.k);
  }

  /** The stored times of a hold are in order exactly when the sample before the last was not
    overtaken by it: it was read before the last slot was due, or the last one was read more than
    0.5 s late too. */
  lemma OrderExact(start: int, anchor: int, sample: int, n: int, slots: seq<Slot>)
    requires sample > 0 && Cadence(start, anchor, sample, n, slots) && |slots| >= 2
    ensures (forall i :: 0 < i < |slots| ==> slots[i-1].ts <= slots[i].ts)
            <==> !Overtaken(anchor, sample, slots[|slots|-2], slots[|slots|-1])
  {
    forall i | 0 < i < |slots|
      ensures slots[i-1].ts <= slots[i].ts || i == |slots| - 1
    {
      PairExact(start, anchor, sample, n, slots, i);
      SlotsIncrease(start, anchor, sample, n, slots, i - 1, i);
      if i < |slots| - 1 {
        SlotsIncrease(start, anchor, sample, n, slots, i, |slots| - 1);
        assert InSlot(start, anchor, sample, n, slots[|slots|-1]);
      }
    }
    PairExact(start, anchor, sample, n, slots, |slots| - 1);
  }

  /** With an interval above the tolerance the overtaken sample is simply the one read after the
    last slot was due. */
  lemma OvertakenBySlot(start: int, anchor: int, sample: int, n: int, slots: seq<Slot>, i: nat)
    requires sample > DUE_TOLERANCE && Cadence(start, anchor, sample, n, slots) && 0 < i < |slots|
    ensures Overtaken(anchor, sample, slots[i-1], slots[i]) <==>
              && slots[i-1].readAt > Due(anchor, sample, slots[i].k)
              && slots[i].readAt <= Due(anchor, sample, slots[i].k) + DUE_TOLERANCE
  {
    SlotsIncrease(start, anchor, sample, n, slots, i - 1, i);
    DueMonotone(anchor, sample, slots[i-1].k, slots[i].k);
  }

  /** ... and it can: the sample before the last slot is read 5.1 s late and stored at that time,
    the last slot is read 0.2 s late and stored at its due time, 0.1 s earlier. The evaluation
    sorts by time for this reason. */
  lemma LastSlotCanBeStoredFirst()
    ensures exists slots: seq<Slot> ::
      Cadence(0, 0, 5 * NS_PER_S, 2, slots) && |slots| == 2 && slots[1].ts < slots[0].ts
  {
    var ms := NS_PER_MS;
    var a := Slot(1, 10_100 * ms, 10_150 * ms, 10_100 * ms);
    var b := Slot(2, 10_200 * ms, 10_250 * ms, 10_000 * ms);
    var slots := [a, b];
    assert InSlot(0, 0, 5 * NS_PER_S, 2, a) && InSlot(0, 0, 5 * NS_PER_S, 2, b);
    assert GoesOn(0, 5 * NS_PER_S, 2, a, 2);
    assert Cadence(0, 0, 5 * NS_PER_S, 2, slots);
  }
}
