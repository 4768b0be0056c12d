/**
 * The pitch-recall ring of board.c (oscStack and nSelectedStack, written by
 * addnotetostack): ten slots addressed by absolute index, a write position that
 * wraps at C_STACK, and duplicate suppression by a scan of all ten slots.
 */
module Recall {
  import opened Voice

  /** The ring's slots and the index of the slot written next. */
  datatype Ring = Ring(slots: seq<int>, next: nat)

  predicate RingOk(r: Ring) {
    |r.slots| == C_STACK && r.next < C_STACK
  }

  /** The ring as init_oscset leaves it: every slot holds pitch 0. */
  function EmptyRing(): (r: Ring)
    ensures RingOk(r)
    ensures forall k :: 0 <= k < C_STACK ==> r.slots[k] == 0
    ensures r.next == 0
  {
    Ring(seq(C_STACK, _ => 0), 0)
  }

  /**
   * addnotetostack: a pitch found in any slot leaves the ring as it is;
   * otherwise it overwrites the slot at the write position, which then
   * advances circularly.
   */
  function Record(r: Ring, note: int): (r': Ring)
    requires RingOk(r)
    ensures RingOk(r')
    ensures note in r'.slots
    ensures note in r.slots ==> r' == r
    ensures note !in r.slots ==>
      r'.slots[r.next] == note && r'.next == (r.next + 1) % C_STACK &&
      forall k :: 0 <= k < C_STACK && k != r.next ==> r'.slots[k] == r.slots[k]
  {
    if note in r.slots then r
    else
      var next := r.next + 1;
      assert r.slots[r.next := note][r.next] == note;
      Ring(r.slots[r.next := note], if next >= C_STACK then 0 else next)
  }

  /** Records the pitches one after the other, in order. */
  function RecordAll(r: Ring, notes: seq<int>): (r': Ring)
    requires RingOk(r)
    ensures RingOk(r')
    decreases |notes|
  {
    if notes == [] then r else RecordAll(Record(r, notes[0]), notes[1..])
  }

  /** No two slots hold the same pitch. */
  predicate Distinct(s: seq<int>) {
    forall i, j :: 0 <= i < j < |s| ==> s[i] != s[j]
  }

  /**
   * Record never creates a duplicate: two slots that agree afterwards agreed
   * before, and on the same pitch.
   */
  lemma RecordCreatesNoDuplicate(r: Ring, note: int)
    requires RingOk(r)
    ensures forall i, j :: 0 <= i < j < C_STACK && Record(r, note).slots[i] == Record(r, note).slots[j] ==>
      r.slots[i] == r.slots[j] && Record(r, note).slots[i] == r.slots[i]
  {
  }

  /** The same over any sequence of recorded pitches. */
  lemma {:induction false} RecordAllCreatesNoDuplicate(r: Ring, notes: seq<int>)
    requires RingOk(r)
    ensures forall i, j :: 0 <= i < j < C_STACK && RecordAll(r, notes).slots[i] == RecordAll(r, notes).slots[j] ==>
      r.slots[i] == r.slots[j] && RecordAll(r, notes).slots[i] == r.slots[i]
    decreases |notes|
  {
    if notes != [] {
      RecordCreatesNoDuplicate(r, notes[0]);
      RecordAllCreatesNoDuplicate(Record(r, notes[0]), notes[1..]);
    }
  }

  /**
   * From the ring init_oscset leaves, whatever is recorded, the only pitch that
   * can occupy two slots is the reference pitch 0 the slots started with.
   */
  lemma OnlyZeroRepeats(notes: seq<int>)
    ensures var s := RecordAll(EmptyRing(), notes).slots;
      forall i, j :: 0 <= i < j < C_STACK && s[i] == s[j] ==> s[i] == 0
  {
    RecordAllCreatesNoDuplicate(EmptyRing(), notes);
  }

  /** A ring without duplicates stays without duplicates, however many pitches are recorded. */
  lemma {:induction false} RecordAllKeepsDistinct(r: Ring, notes: seq<int>)
    requires RingOk(r) && Distinct(r.slots)
    ensures Distinct(RecordAll(r, notes).slots)
    decreases |notes|
  {
    if notes != [] {
      RecordCreatesNoDuplicate(r, notes[0]);
      RecordAllKeepsDistinct(Record(r, notes[0]), notes[1..]);
    }
  }

  /** The slots that recording the pitches writes, one per pitch not yet in the ring. */
  function WrittenSlots(r: Ring, notes: seq<int>): (w: set<nat>)
    requires RingOk(r)
    ensures forall k :: k in w ==> k < C_STACK
    decreases |notes|
  {
    if notes == [] then {}
    else (if notes[0] in r.slots then {} else {r.next}) + WrittenSlots(Record(r, notes[0]), notes[1..])
  }

  /** A slot that recording never writes keeps its pitch. */
  lemma {:induction false} RecordAllFrame(r: Ring, notes: seq<int>, k: nat)
    requires RingOk(r) && k < C_STACK && k !in WrittenSlots(r, notes)
    ensures RecordAll(r, notes).slots[k] == r.slots[k]
    decreases |notes|
  {
    if notes != [] {
      RecordAllFrame(Record(r, notes[0]), notes[1..], k);
    }
  }

  /** A slot never written since init_oscset still holds the reference pitch 0. */
  lemma UnwrittenSlotIsZero(notes: seq<int>, k: nat)
    requires k < C_STACK && k !in WrittenSlots(EmptyRing(), notes)
    ensures RecordAll(EmptyRing(), notes).slots[k] == 0
  {
    RecordAllFrame(EmptyRing(), notes, k);
  }

  /** After Record the pitch occupies exactly one slot if it occupied none, else as many as before. */
  lemma RecordOccurrences(r: Ring, note: int)
    requires RingOk(r)
    ensures multiset(Record(r, note).slots)[note] ==
      if note in r.slots then multiset(r.slots)[note] else 1
  {
    if note !in r.slots {
      var s := r.slots[r.next := note];
      assert s == r.slots[..r.next] + [note] + r.slots[r.next + 1..];
      assert r.slots == r.slots[..r.next] + [r.slots[r.next]] + r.slots[r.next + 1..];
      assert note !in multiset(r.slots[..r.next]) && note !in multiset(r.slots[r.next + 1..]);
    }
  }

  /** The sequence of k copies of one pitch. */
  function Repeat(note: int, k: nat): (s: seq<int>)
    ensures |s| == k && forall i :: 0 <= i < k ==> s[i] == note
  {
    seq(k, _ => note)
  }

  /**
   * Recording one pitch any positive number of times leaves it in exactly one
   * slot, provided it occupied at most one slot to begin with.
   */
  lemma {:induction false} RecordRepeatedly(r: Ring, note: int, k: nat)
    requires RingOk(r) && multiset(r.slots)[note] <= 1 && k >= 1
    ensures multiset(RecordAll(r, Repeat(note, k)).slots)[note] == 1
    decreases k
  {
    RecordOccurrences(r, note);
    var r1 := Record(r, note);
    assert note in r1.slots;
    assert multiset(r1.slots)[note] == 1;
    assert Repeat(note, k)[1..] == Repeat(note, k - 1);
    if k > 1 {
      RecordRepeatedly(r1, note, k - 1);
    } else {
      assert RecordAll(r1, []) == r1;
    }
  }

  /** On the freshly initialised ring, pitch 0 counts as already present. */
  lemma RecordZeroOnEmptyRing()
    ensures Record(EmptyRing(), 0) == EmptyRing()
  {
    assert EmptyRing().slots[0] == 0;
  }

  /** The first two steps of RecordExample: two new pitches fill slots 0 and 1. */
  lemma RecordExampleFill()
    ensures Record(EmptyRing(), 3) == Ring([3, 0, 0, 0, 0, 0, 0, 0, 0, 0], 1)
    ensures Record(Ring([3, 0, 0, 0, 0, 0, 0, 0, 0, 0], 1), 7) == Ring([3, 7, 0, 0, 0, 0, 0, 0, 0, 0], 2)
  {
    assert EmptyRing().slots == [0, 0, 0, 0, 0, 0, 0, 0, 0, 0];
  }

  /** The last two steps of RecordExample: the repeated 3 is dropped and 9 fills slot 2. */
  lemma RecordExampleRepeat()
    ensures Record(Ring([3, 7, 0, 0, 0, 0, 0, 0, 0, 0], 2), 3) == Ring([3, 7, 0, 0, 0, 0, 0, 0, 0, 0], 2)
    ensures Record(Ring([3, 7, 0, 0, 0, 0, 0, 0, 0, 0], 2), 9) == Ring([3, 7, 9, 0, 0, 0, 0, 0, 0, 0], 3)
  {
  }

  /** Recording 3, 7, 3, 9 on the fresh ring fills slots 0..2 with 3, 7, 9; the repeated 3 is dropped. */
  lemma RecordExample()
    ensures RecordAll(EmptyRing(), [3, 7, 3, 9]) == Ring([3, 7, 9, 0, 0, 0, 0, 0, 0, 0], 3)
  {
    RecordExampleFill();
    RecordExampleRepeat();
    assert [3, 7, 3, 9][1..] == [7, 3, 9];
    assert [7, 3, 9][1..] == [3, 9];
    assert [3, 9][1..] == [9];
    assert [9][1..] == [];
  }
}
