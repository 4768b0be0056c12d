/**
 * The block-boundary envelope step at the end of audio_callback in board.c
 * (lines 250-266): every active voice takes its target volume as its volume and
 * a lower target; a voice whose volume is no longer positive is removed by
 * copying the last active voice into its slot, and that slot is examined again.
 */
module Aging {
  import opened Voice

  /** Envelope units lost over one block of `length` samples at decay rate `rate` per second. */
  function Decrement(rate: real, length: nat): (d: real)
    ensures rate >= 0.0 ==> d >= 0.0
    ensures length == 0 ==> d == 0.0
  {
    rate * (length as real) / (SAMPLE_RATE as real)
  }

  /** Lines 256-257: the volume jumps to the target and the target drops by the decrement. */
  function Aged(o: Osc, decrement: real): (r: Osc)
    ensures r.volume == o.targetVolume && r.targetVolume == o.targetVolume - decrement
    ensures r.(volume := o.volume, targetVolume := o.targetVolume) == o
  {
    o.(volume := o.targetVolume, targetVolume := o.targetVolume - decrement)
  }

  /** Lines 264-265: a negative target volume is raised to 0. */
  function Clamped(o: Osc): (r: Osc)
    ensures r.targetVolume >= 0.0
    ensures o.targetVolume >= 0.0 ==> r == o
    ensures o.targetVolume < 0.0 ==> r == o.(targetVolume := 0.0)
  {
    if o.targetVolume < 0.0 then o.(targetVolume := 0.0) else o
  }

  /** The voice a surviving voice becomes over one block boundary. */
  function Survived(o: Osc, decrement: real): (r: Osc)
    ensures r.volume == o.targetVolume
    ensures r.targetVolume == if o.targetVolume - decrement < 0.0 then 0.0 else o.targetVolume - decrement
  {
    Clamped(Aged(o, decrement))
  }

  /**
   * The aging loop with cursor j over the active voices p.slots[..p.count]; a
   * removal keeps j and shrinks the count. The clamp is applied only to a voice
   * that stays in slot j (see AgeFromAsWritten for the code as written).
   */
  function AgeFrom(p: Pool, j: nat, decrement: real): (r: Pool)
    requires PoolOk(p) && j <= p.count
    ensures PoolOk(r) && |r.slots| == |p.slots| && j <= r.count <= p.count
    decreases p.count - j
  {
    if j == p.count then p
    else
      var aged := Aged(p.slots[j], decrement);
      var s := p.slots[j := aged];
      if aged.volume <= 0.0 then AgeFrom(Pool(s[j := s[p.count - 1]], p.count - 1), j, decrement)
      else AgeFrom(Pool(s[j := Clamped(aged)], p.count), j + 1, decrement)
  }

  /** The aged voices that survive a block boundary, in their original order. */
  function Survivors(s: seq<Osc>, decrement: real): (r: seq<Osc>)
    ensures |r| <= |s|
    decreases |s|
  {
    if s == [] then []
    else (if s[0].targetVolume <= 0.0 then [] else [Survived(s[0], decrement)]) + Survivors(s[1..], decrement)
  }

  lemma {:induction false} SurvivorsAppend(a: seq<Osc>, b: seq<Osc>, decrement: real)
    ensures Survivors(a + b, decrement) == Survivors(a, decrement) + Survivors(b, decrement)
    decreases |a|
  {
    if a == [] {
      assert a + b == b;
    } else {
      var head := if a[0].targetVolume <= 0.0 then [] else [Survived(a[0], decrement)];
      assert (a + b)[0] == a[0];
      assert (a + b)[1..] == a[1..] + b;
      SurvivorsAppend(a[1..], b, decrement);
      calc {
        Survivors(a + b, decrement);
        head + Survivors(a[1..] + b, decrement);
        head + (Survivors(a[1..], decrement) + Survivors(b, decrement));
        (head + Survivors(a[1..], decrement)) + Survivors(b, decrement);
      }
    }
  }

  /** Moving one voice from the back to the front does not change the multiset of survivors. */
  lemma SurvivorsRotate(x: Osc, mid: seq<Osc>, decrement: real)
    ensures multiset(Survivors([x] + mid, decrement)) == multiset(Survivors(mid + [x], decrement))
  {
    SurvivorsAppend([x], mid, decrement);
    SurvivorsAppend(mid, [x], decrement);
  }

  /** Every survivor is the survivor of some voice whose target volume was positive. */
  lemma {:induction false} SurvivorOrigin(s: seq<Osc>, decrement: real, x: Osc)
    requires x in Survivors(s, decrement)
    ensures exists i :: 0 <= i < |s| && s[i].targetVolume > 0.0 && x == Survived(s[i], decrement)
    decreases |s|
  {
    if s[0].targetVolume > 0.0 && x == Survived(s[0], decrement) {
      assert s[0].targetVolume > 0.0 && x == Survived(s[0], decrement);
    } else {
      SurvivorOrigin(s[1..], decrement, x);
      var i :| 0 <= i < |s[1..]| && s[1..][i].targetVolume > 0.0 && x == Survived(s[1..][i], decrement);
      assert s[i + 1] == s[1..][i];
    }
  }

  /** The number of voices a block boundary keeps: those whose target volume is positive. */
  function CountPositive(s: seq<Osc>): (n: nat)
    ensures n <= |s|
    decreases |s|
  {
    if s == [] then 0 else (if s[0].targetVolume > 0.0 then 1 else 0) + CountPositive(s[1..])
  }

  lemma {:induction false} SurvivorsLength(s: seq<Osc>, decrement: real)
    ensures |Survivors(s, decrement)| == CountPositive(s)
    decreases |s|
  {
    if s != [] {
      SurvivorsLength(s[1..], decrement);
    }
  }

  /** The loop from cursor j on leaves the slots below j and at or above the old count untouched. */
  lemma {:induction false} AgeFromFrame(p: Pool, j: nat, decrement: real)
    requires PoolOk(p) && j <= p.count
    ensures var r := AgeFrom(p, j, decrement);
      (forall k :: 0 <= k < j ==> r.slots[k] == p.slots[k]) &&
      (forall k :: p.count <= k < |p.slots| ==> r.slots[k] == p.slots[k])
    decreases p.count - j
  {
    var c := p.count;
    if j < c {
      var aged := Aged(p.slots[j], decrement);
      var s := p.slots[j := aged];
      if aged.volume <= 0.0 {
        AgeFromFrame(Pool(s[j := s[c - 1]], c - 1), j, decrement);
      } else {
        AgeFromFrame(Pool(s[j := Clamped(aged)], c), j + 1, decrement);
      }
    }
  }

  /** A removal step: the multiset of what remains to be aged keeps the same survivors. */
  lemma RemovalKeepsSurvivors(p: Pool, j: nat, decrement: real)
    requires PoolOk(p) && j < p.count && p.slots[j].targetVolume <= 0.0
    ensures var c := p.count;
      var s := p.slots[j := Aged(p.slots[j], decrement)];
      multiset(Survivors(s[j := s[c - 1]][j..c - 1], decrement)) == multiset(Survivors(p.slots[j..c], decrement))
  {
    var c := p.count;
    var s := p.slots[j := Aged(p.slots[j], decrement)];
    var t := s[j := s[c - 1]];
    assert p.slots[j..c] == [p.slots[j]] + p.slots[j + 1..c];
    SurvivorsAppend([p.slots[j]], p.slots[j + 1..c], decrement);
    assert Survivors([p.slots[j]], decrement) == [];
    if j < c - 1 {
      assert p.slots[j + 1..c] == p.slots[j + 1..c - 1] + [p.slots[c - 1]];
      assert t[j..c - 1] == [p.slots[c - 1]] + p.slots[j + 1..c - 1];
      SurvivorsRotate(p.slots[c - 1], p.slots[j + 1..c - 1], decrement);
    } else {
      assert p.slots[j + 1..c] == [];
      assert t[j..c - 1] == [];
    }
  }

  /** A keeping step: slot j holds the survivor of the voice that was there. */
  lemma KeptSurvivor(p: Pool, j: nat, decrement: real)
    requires PoolOk(p) && j < p.count && p.slots[j].targetVolume > 0.0
    ensures Survivors(p.slots[j..p.count], decrement) ==
      [Survived(p.slots[j], decrement)] + Survivors(p.slots[j + 1..p.count], decrement)
  {
    assert p.slots[j..p.count] == [p.slots[j]] + p.slots[j + 1..p.count];
    SurvivorsAppend([p.slots[j]], p.slots[j + 1..p.count], decrement);
    assert Survivors([p.slots[j]], decrement) == [Survived(p.slots[j], decrement)];
  }

  /**
   * The loop from cursor j on: the voices it leaves in [j, count) are, as a
   * multiset, the survivors of the voices that were in [j, count).
   */
  lemma {:induction false} AgeFromKeepsSurvivors(p: Pool, j: nat, decrement: real)
    requires PoolOk(p) && j <= p.count
    ensures var r := AgeFrom(p, j, decrement);
      multiset(r.slots[j..r.count]) == multiset(Survivors(p.slots[j..p.count], decrement))
    decreases p.count - j, 1
  {
    if j < p.count {
      if p.slots[j].targetVolume <= 0.0 {
        RemovalStepKeepsSurvivors(p, j, decrement);
      } else {
        KeptStepKeepsSurvivors(p, j, decrement);
      }
    }
  }

  lemma {:induction false} RemovalStepKeepsSurvivors(p: Pool, j: nat, decrement: real)
    requires PoolOk(p) && j < p.count && p.slots[j].targetVolume <= 0.0
    ensures var r := AgeFrom(p, j, decrement);
      multiset(r.slots[j..r.count]) == multiset(Survivors(p.slots[j..p.count], decrement))
    decreases p.count - j, 0
  {
    var c := p.count;
    var s := p.slots[j := Aged(p.slots[j], decrement)];
    var q := Pool(s[j := s[c - 1]], c - 1);
    assert AgeFrom(p, j, decrement) == AgeFrom(q, j, decrement);
    AgeFromKeepsSurvivors(q, j, decrement);
    RemovalKeepsSurvivors(p, j, decrement);
  }

  lemma {:induction false} KeptStepKeepsSurvivors(p: Pool, j: nat, decrement: real)
    requires PoolOk(p) && j < p.count && p.slots[j].targetVolume > 0.0
    ensures var r := AgeFrom(p, j, decrement);
      multiset(r.slots[j..r.count]) == multiset(Survivors(p.slots[j..p.count], decrement))
    decreases p.count - j, 0
  {
    var c := p.count;
    var s := p.slots[j := Aged(p.slots[j], decrement)];
    var q := Pool(s[j := Survived(p.slots[j], decrement)], c);
    assert AgeFrom(p, j, decrement) == AgeFrom(q, j + 1, decrement);
    AgeFromKeepsSurvivors(q, j + 1, decrement);
    AgeFromFrame(q, j + 1, decrement);
    var r := AgeFrom(q, j + 1, decrement);
    assert r.slots[j] == Survived(p.slots[j], decrement);
    assert r.slots[j..r.count] == [r.slots[j]] + r.slots[j + 1..r.count];
    assert q.slots[j + 1..c] == p.slots[j + 1..c];
    KeptSurvivor(p, j, decrement);
  }

  /**
   * One block boundary over the whole pool. The count never grows; the voices
   * kept are, as a multiset, exactly the survivors of the active voices (those
   * whose target volume was positive, each with volume := old target and the
   * clamped, decremented target), so the count left is the number of active
   * voices whose target volume was positive; slots at or above the old count are
   * untouched.
   */
  lemma AgePoolSurvivors(p: Pool, decrement: real)
    requires PoolOk(p)
    ensures var r := AgeFrom(p, 0, decrement);
      r.count <= p.count &&
      multiset(r.slots[..r.count]) == multiset(Survivors(p.slots[..p.count], decrement)) &&
      r.count == CountPositive(p.slots[..p.count]) &&
      forall k :: p.count <= k < |p.slots| ==> r.slots[k] == p.slots[k]
  {
    var r := AgeFrom(p, 0, decrement);
    AgeFromKeepsSurvivors(p, 0, decrement);
    AgeFromFrame(p, 0, decrement);
    assert r.slots[0..r.count] == r.slots[..r.count];
    assert p.slots[0..p.count] == p.slots[..p.count];
    var surv := Survivors(p.slots[..p.count], decrement);
    assert |multiset(r.slots[..r.count])| == |multiset(surv)|;
    SurvivorsLength(p.slots[..p.count], decrement);
  }

  /**
   * Every voice left active after a block boundary has a positive volume, equal
   * to the target volume of some active voice before it, and the target volume
   * max(0, volume - decrement).
   */
  lemma AgedVoiceShape(p: Pool, decrement: real, k: nat)
    requires PoolOk(p) && k < AgeFrom(p, 0, decrement).count
    ensures var v := AgeFrom(p, 0, decrement).slots[k];
      v.volume > 0.0 &&
      v.targetVolume == (if v.volume - decrement < 0.0 then 0.0 else v.volume - decrement) &&
      exists i :: 0 <= i < p.count && v == Survived(p.slots[i], decrement) && p.slots[i].targetVolume > 0.0
  {
    var r := AgeFrom(p, 0, decrement);
    var active := p.slots[..p.count];
    AgePoolSurvivors(p, decrement);
    assert r.slots[k] in multiset(r.slots[..r.count]) by {
      assert r.slots[..r.count][k] == r.slots[k];
    }
    SurvivorOrigin(active, decrement, r.slots[k]);
    var i :| 0 <= i < |active| && active[i].targetVolume > 0.0 && r.slots[k] == Survived(active[i], decrement);
    assert active[i] == p.slots[i];
  }

  /** With a non-negative decrement, envelopes in [0, 1] stay in [0, 1] across a block boundary. */
  lemma AgePoolKeepsEnvelope(p: Pool, decrement: real)
    requires PoolOk(p) && ActiveEnvelopesOk(p) && decrement >= 0.0
    ensures ActiveEnvelopesOk(AgeFrom(p, 0, decrement))
  {
    var r := AgeFrom(p, 0, decrement);
    forall k | 0 <= k < r.count
      ensures EnvelopeOk(r.slots[k])
    {
      AgedVoiceShape(p, decrement, k);
      var i :| 0 <= i < p.count && r.slots[k] == Survived(p.slots[i], decrement) && p.slots[i].targetVolume > 0.0;
      assert EnvelopeOk(p.slots[i]);
    }
  }

  /**
   * The loop exactly as board.c writes it: after a removal, --j runs before the
   * clamp on line 264, so the clamp touches slot j - 1; when the removed voice sat
   * in slot 0 that is aOsc[-1], outside the array. None stands for that access.
   */
  function AgeFromAsWritten(p: Pool, j: nat, decrement: real): (r: Option<Pool>)
    requires PoolOk(p) && j <= p.count
    decreases p.count - j
  {
    if j == p.count then Some(p)
    else
      var aged := Aged(p.slots[j], decrement);
      var s := p.slots[j := aged];
      if aged.volume <= 0.0 then
        var s2 := s[j := s[p.count - 1]];
        if j == 0 then None
        else AgeFromAsWritten(Pool(s2[j - 1 := Clamped(s2[j - 1])], p.count - 1), j, decrement)
      else AgeFromAsWritten(Pool(s[j := Clamped(aged)], p.count), j + 1, decrement)
  }

  /** As written, a block boundary that removes the voice in slot 0 reaches aOsc[-1]. */
  lemma AsWrittenFaultsAtSlotZero(p: Pool, decrement: real)
    requires PoolOk(p) && p.count > 0 && p.slots[0].targetVolume <= 0.0
    ensures AgeFromAsWritten(p, 0, decrement) == None
  {
  }

  /** For instance, a single voice that has decayed to silence. */
  lemma AsWrittenFaultExample(o: Osc)
    requires o.targetVolume == 0.0
    ensures AgeFromAsWritten(Pool([o], 1), 0, Decrement(3.0, 128)) == None
  {
    AsWrittenFaultsAtSlotZero(Pool([o], 1), Decrement(3.0, 128));
  }

  /**
   * Everywhere else the code as written agrees with AgeFrom: the clamp it applies
   * to slot j - 1 after a removal changes nothing, since that voice was already
   * clamped.
   */
  lemma {:induction false} AsWrittenAgrees(p: Pool, j: nat, decrement: real)
    requires PoolOk(p) && j <= p.count
    requires forall k :: 0 <= k < j ==> p.slots[k].targetVolume >= 0.0
    ensures AgeFromAsWritten(p, j, decrement).Some? ==>
      AgeFromAsWritten(p, j, decrement).value == AgeFrom(p, j, decrement)
    decreases p.count - j
  {
    var c := p.count;
    if j < c {
      var aged := Aged(p.slots[j], decrement);
      var s := p.slots[j := aged];
      if aged.volume <= 0.0 {
        if j > 0 {
          var s2 := s[j := s[c - 1]];
          assert Clamped(s2[j - 1]) == s2[j - 1];
          assert s2[j - 1 := Clamped(s2[j - 1])] == s2;
          AsWrittenAgrees(Pool(s2, c - 1), j, decrement);
        }
      } else {
        AsWrittenAgrees(Pool(s[j := Clamped(aged)], c), j + 1, decrement);
      }
    }
  }

  /** From trigger to first block boundary: a new voice (target 1) loses 3 * 128 / 48000 = 0.008. */
  lemma FirstBlockExample(o: Osc)
    requires o.volume == 0.0 && o.targetVolume == 1.0
    ensures var r := AgeFrom(Pool([o], 1), 0, Decrement(3.0, 128));
      r.count == 1 && r.slots[0].volume == 1.0 && r.slots[0].targetVolume == 0.992
  {
    assert Decrement(3.0, 128) == 0.008;
  }
}
