/**
 * The voice part of addnotetoset in board.c (lines 95-114): the scan for an
 * active voice with the same pitch, its re-attack, and the start of a new voice
 * in the first free slot.
 */
module VoicePool {
  import opened Voice

  /** Some active voice has this pitch. */
  predicate Playing(p: Pool, note: int)
    requires PoolOk(p)
  {
    exists k :: 0 <= k < p.count && p.slots[k].note == note
  }

  /** The pitches of the active voices. */
  function NotesOf(p: Pool): set<int>
    requires PoolOk(p)
  {
    set k | 0 <= k < p.count :: p.slots[k].note
  }

  lemma PlayingIffNoteOf(p: Pool, note: int)
    requires PoolOk(p)
    ensures Playing(p, note) <==> note in NotesOf(p)
  {
  }

  /** The lowest index below count whose voice has the pitch, if any. */
  function FirstMatch(slots: seq<Osc>, count: nat, note: int): (r: Option<nat>)
    requires count <= |slots|
    ensures r.Some? ==>
      r.value < count && slots[r.value].note == note &&
      forall k :: 0 <= k < r.value ==> slots[k].note != note
    ensures r.None? ==> forall k :: 0 <= k < count ==> slots[k].note != note
    decreases count
  {
    if count == 0 then None
    else match FirstMatch(slots, count - 1, note)
      case Some(i) => Some(i)
      case None => if slots[count - 1].note == note then Some(count - 1) else None
  }

  /** Re-attack: the target volume rises by 1 and is capped at 1; nothing else changes. */
  function Reattacked(o: Osc): (r: Osc)
    ensures r.targetVolume == if o.targetVolume + 1.0 > 1.0 then 1.0 else o.targetVolume + 1.0
    ensures r.(targetVolume := o.targetVolume) == o
  {
    var raised := o.targetVolume + 1.0;
    o.(targetVolume := if raised > 1.0 then 1.0 else raised)
  }

  /**
   * A new voice written over slot o: silent, aiming at full volume, age 0, the
   * new pitch and its wavelength. The phase is not reset.
   */
  function Started(o: Osc, note: int, wavelengthOf: int -> real): (r: Osc)
    ensures r.volume == 0.0 && r.targetVolume == 1.0 && r.samplesSinceHit == 0
    ensures r.note == note && r.cSampleWavelength == wavelengthOf(note)
    ensures r.nSampleProgress == o.nSampleProgress
  {
    SetNote(o.(volume := 0.0, targetVolume := 1.0, samplesSinceHit := 0), note, wavelengthOf)
  }

  /**
   * Triggering a pitch on the pool: the first active voice with that pitch is
   * re-attacked; when there is none, a voice is started at index count and the
   * count grows by one. Starting one needs a free slot (line 109 writes
   * aOsc[cOscillator]).
   */
  function Attack(p: Pool, note: int, wavelengthOf: int -> real): (r: Pool)
    requires PoolOk(p)
    requires Playing(p, note) || p.count < |p.slots|
    ensures PoolOk(r) && |r.slots| == |p.slots|
    ensures Playing(r, note)
    ensures Playing(p, note) ==>
      var i := FirstMatch(p.slots, p.count, note).value;
      r.count == p.count &&
      (forall k :: 0 <= k < |p.slots| && k != i ==> r.slots[k] == p.slots[k]) &&
      r.slots[i] == Reattacked(p.slots[i])
    ensures !Playing(p, note) ==>
      r.count == p.count + 1 &&
      (forall k :: 0 <= k < |p.slots| && k != p.count ==> r.slots[k] == p.slots[k]) &&
      r.slots[p.count] == Started(p.slots[p.count], note, wavelengthOf)
  {
    match FirstMatch(p.slots, p.count, note)
    case Some(i) =>
      var r := Pool(p.slots[i := Reattacked(p.slots[i])], p.count);
      assert r.slots[i].note == note;
      r
    case None =>
      var r := Pool(p.slots[p.count := Started(p.slots[p.count], note, wavelengthOf)], p.count + 1);
      assert r.slots[p.count].note == note;
      r
  }

  /** After a trigger the active pitches are the old ones plus the triggered one. */
  lemma AttackNotes(p: Pool, note: int, wavelengthOf: int -> real)
    requires PoolOk(p)
    requires Playing(p, note) || p.count < |p.slots|
    ensures NotesOf(Attack(p, note, wavelengthOf)) == NotesOf(p) + {note}
  {
    var r := Attack(p, note, wavelengthOf);
    if Playing(p, note) {
      var i := FirstMatch(p.slots, p.count, note).value;
      forall k | 0 <= k < r.count ensures r.slots[k].note == p.slots[k].note {
      }
      assert NotesOf(r) == NotesOf(p);
    } else {
      forall x | x in NotesOf(r) ensures x in NotesOf(p) + {note} {
        var k :| 0 <= k < r.count && r.slots[k].note == x;
        if k < p.count {
          assert x in NotesOf(p);
        }
      }
      forall x | x in NotesOf(p) + {note} ensures x in NotesOf(r) {
        if x == note {
          assert r.slots[p.count].note == x;
        } else {
          var k :| 0 <= k < p.count && p.slots[k].note == x;
          assert r.slots[k].note == x;
        }
      }
    }
  }

  /**
   * How many voices the pitches would start, one after the other, on a pool whose
   * active pitches are `active`: each pitch not yet active starts one.
   */
  function NewVoiceCount(active: set<int>, notes: seq<int>): nat
    decreases |notes|
  {
    if notes == [] then 0
    else if notes[0] in active then NewVoiceCount(active, notes[1..])
    else 1 + NewVoiceCount(active + {notes[0]}, notes[1..])
  }

  /** Triggers the pitches one after the other, in order. */
  function AttackAll(p: Pool, notes: seq<int>, wavelengthOf: int -> real): (r: Pool)
    requires PoolOk(p)
    requires p.count + NewVoiceCount(NotesOf(p), notes) <= |p.slots|
    ensures PoolOk(r) && |r.slots| == |p.slots|
    ensures r.count == p.count + NewVoiceCount(NotesOf(p), notes)
    ensures NotesOf(r) == NotesOf(p) + set x | x in notes
    decreases |notes|
  {
    if notes == [] then p
    else
      var note := notes[0];
      PlayingIffNoteOf(p, note);
      AttackNotes(p, note, wavelengthOf);
      var p1 := Attack(p, note, wavelengthOf);
      assert NotesOf(p) + {note} == if note in NotesOf(p) then NotesOf(p) else NotesOf(p) + {note};
      var r := AttackAll(p1, notes[1..], wavelengthOf);
      assert notes == [note] + notes[1..];
      assert (set x | x in notes) == {note} + set x | x in notes[1..];
      r
  }

  /**
   * Triggering the first of a run of pitches moves exactly its share of the new
   * voices the run needs into the count: the run's demand is conserved.
   */
  lemma AttackThenCount(p: Pool, note: int, rest: seq<int>, wavelengthOf: int -> real)
    requires PoolOk(p) && (Playing(p, note) || p.count < |p.slots|)
    ensures var r := Attack(p, note, wavelengthOf);
      r.count + NewVoiceCount(NotesOf(r), rest) == p.count + NewVoiceCount(NotesOf(p), [note] + rest)
  {
    PlayingIffNoteOf(p, note);
    AttackNotes(p, note, wavelengthOf);
    assert ([note] + rest)[0] == note && ([note] + rest)[1..] == rest;
    if note in NotesOf(p) {
      assert NotesOf(p) + {note} == NotesOf(p);
    }
  }

  /** Triggering keeps every active voice's envelope in [0, 1]. */
  lemma AttackKeepsEnvelope(p: Pool, note: int, wavelengthOf: int -> real)
    requires PoolOk(p) && ActiveEnvelopesOk(p)
    requires Playing(p, note) || p.count < |p.slots|
    ensures ActiveEnvelopesOk(Attack(p, note, wavelengthOf))
  {
  }

  /** Triggering the same pitch twice in a row starts at most one voice for it. */
  lemma RetriggerStartsNoSecondVoice(p: Pool, note: int, wavelengthOf: int -> real)
    requires PoolOk(p) && (Playing(p, note) || p.count < |p.slots|)
    ensures var p1 := Attack(p, note, wavelengthOf);
      Attack(p1, note, wavelengthOf).count == p1.count
  {
  }
}
