/**
 * Constants of board.c and the record of one oscillator (struct Osc).
 *
 * The C doubles volume, targetVolume, nSampleProgress and cSampleWavelength are
 * modelled as exact reals. samplesSinceHit is an unsigned int: its wrap-around at
 * 2^32 is written out with Wrap32.
 */
module Voice {

  const SAMPLE_RATE: nat := 48000
  const MAX_OSCILLATORS: nat := 10
  const C_STACK: nat := 10
  const C_NBUFF: nat := 10
  const UINT_MODULUS: nat := 0x1_0000_0000

  /** The values of a 32-bit unsigned int. */
  type UInt = x: int | 0 <= x < 0x1_0000_0000

  /** One oscillator: its envelope, pitch, age in samples, phase and wavelength. */
  datatype Osc = Osc(
    volume: real,
    targetVolume: real,
    note: int,
    samplesSinceHit: UInt,
    nSampleProgress: real,
    cSampleWavelength: real)

  /**
   * The oscillator array together with the count of active oscillators:
   * slots[..count] are the voices that sound, slots[count..] keep whatever was
   * last written there.
   */
  datatype Pool = Pool(slots: seq<Osc>, count: nat)

  /** A value or its absence: the voice scan's miss, the out-of-bounds access of the aging loop. */
  datatype Option<T> = None | Some(value: T)

  predicate PoolOk(p: Pool) {
    p.count <= |p.slots|
  }

  /** Unsigned 32-bit arithmetic: the value an unsigned int holds for x. */
  function Wrap32(x: nat): (r: UInt)
    ensures r < UINT_MODULUS
    ensures x < UINT_MODULUS ==> r == x
    ensures exists q: nat :: x == q * UINT_MODULUS + r
  {
    var q := x / UINT_MODULUS;
    assert x == q * UINT_MODULUS + x % UINT_MODULUS;
    x % UINT_MODULUS
  }

  /** Adding in two steps with wrap-around equals adding once. */
  lemma Wrap32Add(x: nat, a: nat, b: nat)
    ensures Wrap32(Wrap32(x + a) + b) == Wrap32(x + a + b)
  {
    var m := UINT_MODULUS;
    var q := (x + a) / m;
    var r := (x + a) % m;
    assert x + a + b == q * m + (r + b);
    ModAddMultiple(r + b, q);
  }

  lemma {:induction false} ModAddMultiple(y: nat, q: nat)
    ensures (q * UINT_MODULUS + y) % UINT_MODULUS == y % UINT_MODULUS
  {
    if q > 0 {
      ModAddMultiple(y, q - 1);
      assert q * UINT_MODULUS + y == (q - 1) * UINT_MODULUS + y + UINT_MODULUS;
    }
  }

  /**
   * x ^ 1 on an unsigned int: the lowest bit flips and the higher bits stay, so
   * an even value goes up by one and an odd value down by one.
   */
  function FlipLowBit(x: UInt): (r: UInt)
    ensures r / 2 == x / 2 && r % 2 == 1 - x % 2
  {
    if x % 2 == 0 then x + 1 else x - 1
  }

  /** Flipping the lowest bit twice restores the value. */
  lemma FlipLowBitTwice(x: UInt)
    ensures FlipLowBit(FlipLowBit(x)) == x
  {
  }

  /**
   * setnote: the oscillator takes the pitch and the wavelength derived from it;
   * the rest of the oscillator is untouched. wavelengthOf stands for
   * SAMPLE_RATE / (440 * 2^(note/12)).
   */
  function SetNote(o: Osc, note: int, wavelengthOf: int -> real): (r: Osc)
    ensures r.note == note && r.cSampleWavelength == wavelengthOf(note)
    ensures r.(note := o.note, cSampleWavelength := o.cSampleWavelength) == o
  {
    o.(note := note, cSampleWavelength := wavelengthOf(note))
  }

  /** Both envelope values lie in [0, 1]. */
  predicate EnvelopeOk(o: Osc) {
    0.0 <= o.volume <= 1.0 && 0.0 <= o.targetVolume <= 1.0
  }

  /** Every active voice of the pool has its envelope in [0, 1]. */
  predicate ActiveEnvelopesOk(p: Pool)
    requires PoolOk(p)
  {
    forall k :: 0 <= k < p.count ==> EnvelopeOk(p.slots[k])
  }
}
