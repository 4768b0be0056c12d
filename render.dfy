/**
 * The integer bookkeeping of the render loop of audio_callback in board.c
 * (lines 231-249): for every sample of the block, every active voice advances
 * its phase by one sample and its age by one. The samples themselves (waveform,
 * envelope interpolation, tremolo, 16-bit mixing) are not part of this model.
 */
module Render {
  import opened Voice

  /**
   * The phase after n samples. advancePhase(p, w) stands for
   * fmod(p + 1, w), the floating-point step of line 246.
   */
  function PhaseAfter(advancePhase: (real, real) -> real, phase: real, wavelength: real, n: nat): real
    decreases n
  {
    if n == 0 then phase else advancePhase(PhaseAfter(advancePhase, phase, wavelength, n - 1), wavelength)
  }

  /** Advancing a samples and then b samples is advancing a + b samples. */
  lemma {:induction false} PhaseAfterAdd(advancePhase: (real, real) -> real, phase: real, wavelength: real, a: nat, b: nat)
    ensures PhaseAfter(advancePhase, PhaseAfter(advancePhase, phase, wavelength, a), wavelength, b) ==
            PhaseAfter(advancePhase, phase, wavelength, a + b)
    decreases b
  {
    if b > 0 {
      PhaseAfterAdd(advancePhase, phase, wavelength, a, b - 1);
    }
  }

  /** One voice after n samples: age up by n (as an unsigned int), phase advanced n times. */
  function Advanced(o: Osc, n: nat, advancePhase: (real, real) -> real): (r: Osc)
    ensures r.(samplesSinceHit := o.samplesSinceHit, nSampleProgress := o.nSampleProgress) == o
  {
    o.(samplesSinceHit := Wrap32(o.samplesSinceHit + n),
       nSampleProgress := PhaseAfter(advancePhase, o.nSampleProgress, o.cSampleWavelength, n))
  }

  /** One more sample: the phase takes one more step and the age goes up by one, wrapping. */
  lemma AdvancedStep(o: Osc, n: nat, advancePhase: (real, real) -> real)
    ensures var a := Advanced(o, n, advancePhase);
      Advanced(o, n + 1, advancePhase) ==
      a.(nSampleProgress := advancePhase(a.nSampleProgress, a.cSampleWavelength),
         samplesSinceHit := Wrap32(a.samplesSinceHit + 1))
  {
    Wrap32Add(o.samplesSinceHit, n, 1);
  }

  /** The pool after a block of `length` samples: active voices advanced, the others untouched. */
  function Rendered(p: Pool, length: nat, advancePhase: (real, real) -> real): (r: Pool)
    requires PoolOk(p)
    ensures PoolOk(r) && r.count == p.count && |r.slots| == |p.slots|
    ensures forall k :: p.count <= k < |p.slots| ==> r.slots[k] == p.slots[k]
    ensures forall k :: 0 <= k < p.count ==>
      r.slots[k].samplesSinceHit == Wrap32(p.slots[k].samplesSinceHit + length) &&
      r.slots[k].(samplesSinceHit := p.slots[k].samplesSinceHit, nSampleProgress := p.slots[k].nSampleProgress) == p.slots[k]
  {
    Pool(seq(|p.slots|, k requires 0 <= k < |p.slots| =>
      if k < p.count then Advanced(p.slots[k], length, advancePhase) else p.slots[k]), p.count)
  }

  /** A block of no samples changes nothing. */
  lemma RenderedNothing(p: Pool, advancePhase: (real, real) -> real)
    requires PoolOk(p)
    ensures Rendered(p, 0, advancePhase) == p
  {
    assert Rendered(p, 0, advancePhase).slots == p.slots;
  }

  /** Two blocks of a and b samples leave the pool as one block of a + b samples would. */
  lemma RenderedAdd(p: Pool, a: nat, b: nat, advancePhase: (real, real) -> real)
    requires PoolOk(p)
    ensures Rendered(Rendered(p, a, advancePhase), b, advancePhase) == Rendered(p, a + b, advancePhase)
  {
    var r1 := Rendered(p, a, advancePhase);
    var r2 := Rendered(r1, b, advancePhase);
    var r := Rendered(p, a + b, advancePhase);
    forall k | 0 <= k < p.count
      ensures r2.slots[k] == r.slots[k]
    {
      var o := p.slots[k];
      Wrap32Add(o.samplesSinceHit, a, b);
      PhaseAfterAdd(advancePhase, o.nSampleProgress, o.cSampleWavelength, a, b);
    }
    assert r2.slots == r.slots;
  }

  /** A render block leaves every envelope as it is. */
  lemma RenderedKeepsEnvelope(p: Pool, length: nat, advancePhase: (real, real) -> real)
    requires PoolOk(p) && ActiveEnvelopesOk(p)
    ensures ActiveEnvelopesOk(Rendered(p, length, advancePhase))
  {
  }
}
