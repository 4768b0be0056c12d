/**
 * The whole oscillator set of board.c (struct Oscset) as a value, and the
 * specification of its operations as functions on that value: init_oscset,
 * addnotetoset with its latch buffer and recursive drain, playfromstack, the key
 * switch of event_handler, and audio_callback's effect on the voices. The class
 * Board.Oscset implements these on arrays and is proved equal to them.
 */
module Synth {
  import opened Voice
  import Recall
  import VoicePool
  import Aging
  import Render

  /** A snapshot of struct Oscset (the unused unfocusedDecrease is left out). */
  datatype State = State(
    instrument: UInt,
    focusedDecrease: real,
    cOscillator: nat,
    currentNote: int,
    lastPlayedNote: int,
    nSelectedStack: nat,
    oscStack: seq<int>,
    nBufferedNotes: nat,
    bufferingNote: bool,
    oscBuffer: seq<int>,
    aOsc: seq<Osc>)

  /**
   * The fixed array sizes, every index in range, and a decay rate that is never
   * negative (it starts at 3 and key w clamps it at 0).
   */
  predicate WellFormed(s: State) {
    |s.oscStack| == C_STACK && s.nSelectedStack < C_STACK &&
    |s.oscBuffer| == C_NBUFF && s.nBufferedNotes <= C_NBUFF &&
    |s.aOsc| == MAX_OSCILLATORS && s.cOscillator <= MAX_OSCILLATORS &&
    s.focusedDecrease >= 0.0
  }

  function RingOf(s: State): Recall.Ring {
    Recall.Ring(s.oscStack, s.nSelectedStack)
  }

  function PoolOf(s: State): Pool {
    Pool(s.aOsc, s.cOscillator)
  }

  /**
   * init_oscset. The struct lives on main's stack, so the oscillators hold
   * whatever `junk` was there; only their samplesSinceHit is zeroed. Two of them
   * count as active. oscBuffer is not initialised by the source either; it is
   * zero here, and no slot of it is read before it is written.
   */
  function Init(junk: seq<Osc>): (s: State)
    requires |junk| == MAX_OSCILLATORS
    ensures WellFormed(s)
  {
    State(0, 3.0, 2, 0, 0, 0, seq(C_STACK, _ => 0), 0, false, seq(C_NBUFF, _ => 0),
      seq(MAX_OSCILLATORS, k requires 0 <= k < MAX_OSCILLATORS => junk[k].(samplesSinceHit := 0)))
  }

  /**
   * After init_oscset: every ring slot 0, write position 0, buffer empty and not
   * armed, decay rate 3, instrument 0, and two active voices whose pitch and
   * envelope are the indeterminate junk, with age 0.
   */
  lemma InitState(junk: seq<Osc>)
    requires |junk| == MAX_OSCILLATORS
    ensures var s := Init(junk);
      RingOf(s) == Recall.EmptyRing() &&
      s.nBufferedNotes == 0 && !s.bufferingNote && s.cOscillator == 2 &&
      s.focusedDecrease == 3.0 && s.instrument == 0 && s.currentNote == 0 &&
      forall k :: 0 <= k < MAX_OSCILLATORS ==> s.aOsc[k] == junk[k].(samplesSinceHit := 0)
  {
  }

  /** The buffered notes in the order the drain replays them: oscBuffer[n-1] first, oscBuffer[0] last. */
  function Queue(buf: seq<int>, n: nat): (q: seq<int>)
    requires n <= |buf|
    ensures |q| == n && forall k :: 0 <= k < n ==> q[k] == buf[n - 1 - k]
    decreases n
  {
    if n == 0 then [] else [buf[n - 1]] + Queue(buf, n - 1)
  }

  /** The pitches a trigger plays that is not deferred: the current note, then the buffer, newest first. */
  function Pending(s: State): seq<int>
    requires WellFormed(s)
  {
    [s.currentNote] + Queue(s.oscBuffer, s.nBufferedNotes)
  }

  /**
   * What addnotetoset needs to stay inside its arrays: with the latch armed a free
   * buffer slot (line 89); otherwise a free voice slot for every pending pitch that
   * is not already sounding (line 109).
   */
  predicate HitFits(s: State)
    requires WellFormed(s)
  {
    if s.bufferingNote then s.nBufferedNotes < C_NBUFF
    else s.cOscillator + VoicePool.NewVoiceCount(VoicePool.NotesOf(PoolOf(s)), Pending(s)) <= MAX_OSCILLATORS
  }

  /**
   * With the latch clear, a trigger that fits finds either a voice already
   * sounding its pitch or a free slot at index cOscillator.
   */
  lemma RoomForCurrent(s: State)
    requires WellFormed(s) && HitFits(s) && !s.bufferingNote
    ensures VoicePool.Playing(PoolOf(s), s.currentNote) || s.cOscillator < MAX_OSCILLATORS
  {
    assert Pending(s)[0] == s.currentNote;
    VoicePool.PlayingIffNoteOf(PoolOf(s), s.currentNote);
  }

  /** addnotetostack on the state: only the ring and its write position change. */
  function RecordCurrent(s: State): (r: State)
    requires WellFormed(s)
    ensures WellFormed(r) && RingOf(r) == Recall.Record(RingOf(s), s.currentNote)
    ensures r == s.(oscStack := r.oscStack, nSelectedStack := r.nSelectedStack)
  {
    var ring := Recall.Record(RingOf(s), s.currentNote);
    s.(oscStack := ring.slots, nSelectedStack := ring.next)
  }

  /**
   * One pass of addnotetoset with the latch clear: lastPlayedNote takes the
   * current pitch, which is triggered on the pool (lines 95-114) and recorded in
   * the ring (line 115). What follows it still fits.
   */
  function TriggerCurrent(s: State, wavelengthOf: int -> real): (r: State)
    requires WellFormed(s) && HitFits(s) && !s.bufferingNote
    ensures WellFormed(r) && !r.bufferingNote
    ensures PoolOf(r) == VoicePool.Attack(PoolOf(s), s.currentNote, wavelengthOf)
    ensures RingOf(r) == Recall.Record(RingOf(s), s.currentNote)
    ensures r == s.(lastPlayedNote := s.currentNote, aOsc := r.aOsc, cOscillator := r.cOscillator,
                    oscStack := r.oscStack, nSelectedStack := r.nSelectedStack)
    ensures r.nBufferedNotes > 0 ==> HitFits(Popped(r))
  {
    var note := s.currentNote;
    var rest := Queue(s.oscBuffer, s.nBufferedNotes);
    assert Pending(s) == [note] + rest;
    assert Pending(s)[1..] == rest;
    VoicePool.PlayingIffNoteOf(PoolOf(s), note);
    var p := VoicePool.Attack(PoolOf(s), note, wavelengthOf);
    VoicePool.AttackThenCount(PoolOf(s), note, rest, wavelengthOf);
    var r := RecordCurrent(s.(lastPlayedNote := note, aOsc := p.slots, cOscillator := p.count));
    assert r.nBufferedNotes > 0 ==> Pending(Popped(r)) == rest && PoolOf(Popped(r)) == p;
    r
  }

  /** The drain's pop (lines 116-120): the newest buffered pitch becomes the current one. */
  function Popped(s: State): (r: State)
    requires WellFormed(s) && s.nBufferedNotes > 0
    ensures WellFormed(r) && r.nBufferedNotes == s.nBufferedNotes - 1
    ensures r == s.(nBufferedNotes := r.nBufferedNotes, currentNote := s.oscBuffer[s.nBufferedNotes - 1])
  {
    s.(nBufferedNotes := s.nBufferedNotes - 1, currentNote := s.oscBuffer[s.nBufferedNotes - 1])
  }

  /**
   * addnotetoset. Armed: the pitch goes into the buffer and the ring, the arm is
   * cleared, no voice starts. Otherwise the pitch is triggered on the pool and
   * recorded; then, if anything is buffered, the newest buffered pitch is popped
   * and triggered the same way, until the buffer is empty.
   */
  function Hit(s: State, wavelengthOf: int -> real): (r: State)
    requires WellFormed(s) && HitFits(s)
    ensures WellFormed(r)
    decreases s.nBufferedNotes
  {
    if s.bufferingNote then
      var s1 := s.(lastPlayedNote := s.currentNote);
      RecordCurrent(s1.(oscBuffer := s1.oscBuffer[s1.nBufferedNotes := s1.lastPlayedNote]))
        .(bufferingNote := false, nBufferedNotes := s1.nBufferedNotes + 1)
    else
      var s2 := TriggerCurrent(s, wavelengthOf);
      if s2.nBufferedNotes > 0 then Hit(Popped(s2), wavelengthOf) else s2
  }

  /** A trigger with the latch clear is one pass followed by the rest of the drain. */
  lemma DrainStep(s: State, wavelengthOf: int -> real)
    requires WellFormed(s) && HitFits(s) && !s.bufferingNote
    ensures var s2 := TriggerCurrent(s, wavelengthOf);
      Hit(s, wavelengthOf) == if s2.nBufferedNotes > 0 then Hit(Popped(s2), wavelengthOf) else s2
  {
  }

  /**
   * The latch path: the pitch is stored at the old buffer top, the count rises by
   * one, the arm is cleared and the ring records the pitch; voices, decay rate and
   * instrument are untouched.
   */
  lemma HitWhileArmed(s: State, wavelengthOf: int -> real)
    requires WellFormed(s) && HitFits(s) && s.bufferingNote
    ensures var r := Hit(s, wavelengthOf);
      r.oscBuffer == s.oscBuffer[s.nBufferedNotes := s.currentNote] &&
      r.nBufferedNotes == s.nBufferedNotes + 1 && !r.bufferingNote &&
      RingOf(r) == Recall.Record(RingOf(s), s.currentNote) &&
      r.aOsc == s.aOsc && r.cOscillator == s.cOscillator &&
      r.currentNote == s.currentNote && r.lastPlayedNote == s.currentNote &&
      r.focusedDecrease == s.focusedDecrease && r.instrument == s.instrument
  {
  }

  /** The last pitch a trigger plays. */
  function LastPending(s: State): int
    requires WellFormed(s)
  {
    if s.nBufferedNotes == 0 then s.currentNote else s.oscBuffer[0]
  }

  /**
   * A trigger that is not deferred is the same as triggering and recording every
   * pending pitch in turn: the current note, then oscBuffer[n-1] down to
   * oscBuffer[0]. It leaves the buffer empty (its contents untouched), the arm
   * clear, and currentNote and lastPlayedNote at the last pitch played.
   */
  lemma {:induction false} HitReplaysPending(s: State, wavelengthOf: int -> real)
    requires WellFormed(s) && HitFits(s) && !s.bufferingNote
    ensures var r := Hit(s, wavelengthOf);
      r.nBufferedNotes == 0 && !r.bufferingNote && r.oscBuffer == s.oscBuffer &&
      RingOf(r) == Recall.RecordAll(RingOf(s), Pending(s)) &&
      PoolOf(r) == VoicePool.AttackAll(PoolOf(s), Pending(s), wavelengthOf) &&
      r.currentNote == LastPending(s) && r.lastPlayedNote == LastPending(s) &&
      r.focusedDecrease == s.focusedDecrease && r.instrument == s.instrument
    decreases s.nBufferedNotes
  {
    var rest := Queue(s.oscBuffer, s.nBufferedNotes);
    var pending := Pending(s);
    assert pending == [s.currentNote] + rest && pending[0] == s.currentNote && pending[1..] == rest;
    var s2 := TriggerCurrent(s, wavelengthOf);
    VoicePool.PlayingIffNoteOf(PoolOf(s), s.currentNote);
    if s2.nBufferedNotes > 0 {
      var s3 := Popped(s2);
      assert Pending(s3) == rest;
      HitReplaysPending(s3, wavelengthOf);
      assert LastPending(s3) == LastPending(s);
    } else {
      assert rest == [];
      assert Recall.RecordAll(RingOf(s2), []) == RingOf(s2);
      assert VoicePool.AttackAll(PoolOf(s2), [], wavelengthOf) == PoolOf(s2);
    }
  }

  /**
   * The drain: a trigger that is not deferred returns with the buffer empty, the
   * last pitch played being oscBuffer[0] when anything was buffered, and exactly
   * one new voice per pending pitch that was not sounding, within the ten slots.
   */
  lemma HitDrains(s: State, wavelengthOf: int -> real)
    requires WellFormed(s) && HitFits(s) && !s.bufferingNote
    ensures var r := Hit(s, wavelengthOf);
      r.nBufferedNotes == 0 &&
      (s.nBufferedNotes > 0 ==> r.currentNote == s.oscBuffer[0] && r.lastPlayedNote == s.oscBuffer[0]) &&
      r.cOscillator == s.cOscillator + VoicePool.NewVoiceCount(VoicePool.NotesOf(PoolOf(s)), Pending(s)) &&
      r.cOscillator <= MAX_OSCILLATORS
  {
    HitReplaysPending(s, wavelengthOf);
  }

  /** A trigger keeps every active envelope in [0, 1]. */
  lemma {:induction false} HitKeepsEnvelope(s: State, wavelengthOf: int -> real)
    requires WellFormed(s) && HitFits(s) && ActiveEnvelopesOk(PoolOf(s))
    ensures ActiveEnvelopesOk(PoolOf(Hit(s, wavelengthOf)))
    decreases s.nBufferedNotes
  {
    if !s.bufferingNote {
      VoicePool.PlayingIffNoteOf(PoolOf(s), s.currentNote);
      VoicePool.AttackKeepsEnvelope(PoolOf(s), s.currentNote, wavelengthOf);
      var s2 := TriggerCurrent(s, wavelengthOf);
      if s2.nBufferedNotes > 0 {
        HitKeepsEnvelope(Popped(s2), wavelengthOf);
      }
    }
  }

  /** playfromstack: replay whatever pitch occupies ring slot n. */
  function PlayFromStack(s: State, n: nat, wavelengthOf: int -> real): (r: State)
    requires WellFormed(s) && n < C_STACK
    requires HitFits(s.(currentNote := s.oscStack[n]))
    ensures WellFormed(r)
  {
    Hit(s.(currentNote := s.oscStack[n]), wavelengthOf)
  }

  /**
   * Replaying a ring slot that no addnotetostack has written since init_oscset
   * plays the reference pitch 0. Every change to the ring is a Record
   * (HitWhileArmed, HitReplaysPending), so any ring reached from init is
   * RecordAll of the fresh ring over the pitches recorded so far.
   */
  lemma ReplayUnwrittenSlot(s: State, recorded: seq<int>, n: nat, wavelengthOf: int -> real)
    requires WellFormed(s) && n < C_STACK
    requires RingOf(s) == Recall.RecordAll(Recall.EmptyRing(), recorded)
    requires n !in Recall.WrittenSlots(Recall.EmptyRing(), recorded)
    requires HitFits(s.(currentNote := s.oscStack[n]))
    ensures var r := PlayFromStack(s, n, wavelengthOf);
      s.oscStack[n] == 0 &&
      (s.bufferingNote ==> r.oscBuffer[s.nBufferedNotes] == 0) &&
      (!s.bufferingNote ==> 0 in VoicePool.NotesOf(PoolOf(r))) &&
      (!s.bufferingNote && s.nBufferedNotes == 0 ==> r.lastPlayedNote == 0)
  {
    Recall.UnwrittenSlotIsZero(recorded, n);
    var s1 := s.(currentNote := s.oscStack[n]);
    if s1.bufferingNote {
      HitWhileArmed(s1, wavelengthOf);
    } else {
      HitReplaysPending(s1, wavelengthOf);
      assert Pending(s1)[0] == 0;
    }
  }

  /** The keys the switch of event_handler acts on; Other stands for every other key. */
  datatype Key =
    | Z | X | C | V | A | S | D | F
    | Slash | Period | Comma | M | Semicolon | L | K | J | H
    | G | P | Q | Digit(n: Slot) | W | E | U | T
    | Other

  type Slot = n: nat | n < C_STACK

  /**
   * The net change of currentNote that each key's fall-through produces
   * (z: -5 and then seven decrements; slash: +5 and then seven increments; ...).
   */
  function NoteShift(k: Key): (d: int)
    ensures (k.Z? || k.X? || k.C? || k.V? || k.A? || k.S? || k.D? || k.F?) ==> -12 <= d <= -1
    ensures (k.Slash? || k.Period? || k.Comma? || k.M? || k.Semicolon? || k.L? || k.K? || k.J? || k.H?) ==>
      0 <= d <= 12
    ensures !Triggers(k) && !k.P? && !k.Q? ==> d == 0
  {
    match k
    case Z => -12 case X => -7 case C => -6 case V => -5
    case A => -4 case S => -3 case D => -2 case F => -1
    case Slash => 12 case Period => 7 case Comma => 6 case M => 5
    case Semicolon => 4 case L => 3 case K => 2 case J => 1 case H => 0
    case P => 12 case Q => -12
    case _ => 0
  }

  /** Whether the key ends in addnotetoset (directly or through playfromstack). */
  predicate Triggers(k: Key) {
    !(k.P? || k.Q? || k.W? || k.E? || k.U? || k.T? || k.Other?)
  }

  /** The key's effect on the state before any note is triggered. */
  function Shifted(s: State, k: Key): (r: State)
    requires WellFormed(s)
    ensures WellFormed(r)
  {
    match k
    case G => s.(currentNote := 0)
    case Digit(n) => s.(currentNote := s.oscStack[n])
    case W =>
      var lowered := s.focusedDecrease - 0.5;
      s.(focusedDecrease := if lowered < 0.0 then 0.0 else lowered)
    case E => s.(focusedDecrease := s.focusedDecrease + 0.5)
    case U => s.(bufferingNote := true, instrument := FlipLowBit(s.instrument))
    case T => s.(instrument := FlipLowBit(s.instrument))
    case Other => s
    case _ => s.(currentNote := s.currentNote + NoteShift(k))
  }

  /** What a key press needs to stay inside the arrays: the trigger it ends in must fit. */
  predicate KeyFits(s: State, k: Key)
    requires WellFormed(s)
  {
    Triggers(k) ==> HitFits(Shifted(s, k))
  }

  /** The SDL_KEYDOWN branch of event_handler. */
  function KeyDown(s: State, k: Key, wavelengthOf: int -> real): (r: State)
    requires WellFormed(s) && KeyFits(s, k)
    ensures WellFormed(r)
  {
    if Triggers(k) then Hit(Shifted(s, k), wavelengthOf) else Shifted(s, k)
  }

  /**
   * Keys that trigger nothing leave the sound alone: voices, ring and buffer are
   * unchanged. p and q move the pitch by an octave, w and e move the decay rate by
   * 0.5 (w never below 0), u arms the latch and also toggles the instrument, t
   * toggles the instrument.
   */
  lemma KeyDownWithoutTrigger(s: State, k: Key, wavelengthOf: int -> real)
    requires WellFormed(s) && !Triggers(k)
    ensures var r := KeyDown(s, k, wavelengthOf);
      r.aOsc == s.aOsc && r.cOscillator == s.cOscillator &&
      RingOf(r) == RingOf(s) && r.oscBuffer == s.oscBuffer && r.nBufferedNotes == s.nBufferedNotes &&
      r.currentNote == s.currentNote + NoteShift(k) &&
      (k.W? ==> r.focusedDecrease == if s.focusedDecrease < 0.5 then 0.0 else s.focusedDecrease - 0.5) &&
      (k.E? ==> r.focusedDecrease == s.focusedDecrease + 0.5) &&
      (k.U? ==> r.bufferingNote && r.instrument == FlipLowBit(s.instrument)) &&
      (k.T? ==> r.bufferingNote == s.bufferingNote && r.instrument == FlipLowBit(s.instrument))
  {
  }

  /**
   * A note key pressed with the latch clear sounds its pitch: the current pitch
   * moved by the key's net shift (0 for g, the slot's pitch for a digit), which is
   * then among the pitches of the active voices.
   */
  lemma NoteKeySounds(s: State, k: Key, wavelengthOf: int -> real)
    requires WellFormed(s) && KeyFits(s, k) && Triggers(k) && !s.bufferingNote
    ensures var pitch := Shifted(s, k).currentNote;
      (!k.G? && !k.Digit? ==> pitch == s.currentNote + NoteShift(k)) &&
      (k.G? ==> pitch == 0) &&
      (k.Digit? ==> pitch == s.oscStack[k.n]) &&
      pitch in VoicePool.NotesOf(PoolOf(KeyDown(s, k, wavelengthOf)))
  {
    var s1 := Shifted(s, k);
    HitReplaysPending(s1, wavelengthOf);
    assert Pending(s1)[0] == s1.currentNote;
  }

  /**
   * Pressing u and then a note key defers that note into the buffer and starts
   * no voice. DeferredNoteReplays says what the next note key does with it.
   */
  lemma LatchThenNote(s: State, k: Key, wavelengthOf: int -> real)
    requires WellFormed(s) && !s.bufferingNote && s.nBufferedNotes < C_NBUFF
    requires Triggers(k)
    requires KeyFits(KeyDown(s, U, wavelengthOf), k)
    ensures var r := KeyDown(KeyDown(s, U, wavelengthOf), k, wavelengthOf);
      r.aOsc == s.aOsc && r.cOscillator == s.cOscillator &&
      r.nBufferedNotes == s.nBufferedNotes + 1 && !r.bufferingNote &&
      r.oscBuffer[s.nBufferedNotes] == Shifted(s, k).currentNote
  {
    var s1 := KeyDown(s, U, wavelengthOf);
    var s2 := Shifted(s1, k);
    assert s2.bufferingNote && s2.aOsc == s.aOsc && s2.cOscillator == s.cOscillator;
    assert s2.nBufferedNotes == s.nBufferedNotes;
    assert s2.currentNote == Shifted(s, k).currentNote;
    HitWhileArmed(s2, wavelengthOf);
  }

  /** A key that triggers changes nothing but the current pitch before its trigger. */
  lemma ShiftedMovesOnlyPitch(s: State, k: Key)
    requires WellFormed(s) && Triggers(k)
    ensures Shifted(s, k) == s.(currentNote := Shifted(s, k).currentNote)
  {
  }

  /**
   * A note key pressed with the latch clear while pitches are buffered plays
   * its own pitch first and the newest buffered pitch right after it, then the
   * rest of the buffer; all of them sound afterwards and the buffer is empty.
   */
  lemma DeferredNoteReplays(s: State, k: Key, wavelengthOf: int -> real)
    requires WellFormed(s) && !s.bufferingNote && s.nBufferedNotes > 0
    requires Triggers(k) && KeyFits(s, k)
    ensures var s1 := Shifted(s, k); var r := KeyDown(s, k, wavelengthOf);
      Pending(s1)[..2] == [s1.currentNote, s.oscBuffer[s.nBufferedNotes - 1]] &&
      PoolOf(r) == VoicePool.AttackAll(PoolOf(s1), Pending(s1), wavelengthOf) &&
      RingOf(r) == Recall.RecordAll(RingOf(s1), Pending(s1)) &&
      s1.currentNote in VoicePool.NotesOf(PoolOf(r)) &&
      s.oscBuffer[s.nBufferedNotes - 1] in VoicePool.NotesOf(PoolOf(r)) &&
      r.nBufferedNotes == 0
  {
    var s1 := Shifted(s, k);
    ShiftedMovesOnlyPitch(s, k);
    assert KeyDown(s, k, wavelengthOf) == Hit(s1, wavelengthOf);
    HitReplaysPending(s1, wavelengthOf);
    var q := Queue(s.oscBuffer, s.nBufferedNotes);
    assert Pending(s1) == [s1.currentNote] + q && q[0] == s.oscBuffer[s.nBufferedNotes - 1];
    assert Pending(s1)[..2] == [s1.currentNote, q[0]];
    assert Pending(s1)[1] in Pending(s1);
  }

  /** audio_callback's effect on the state: render the block's counters, then age the pool. */
  function AudioCallback(s: State, cbyte: nat, advancePhase: (real, real) -> real): (r: State)
    requires WellFormed(s)
    ensures WellFormed(r)
    ensures r == s.(aOsc := r.aOsc, cOscillator := r.cOscillator)
  {
    var length := cbyte / 2;
    var rendered := Render.Rendered(PoolOf(s), length, advancePhase);
    var aged := Aging.AgeFrom(rendered, 0, Aging.Decrement(s.focusedDecrease, length));
    s.(aOsc := aged.slots, cOscillator := aged.count)
  }

  lemma {:induction false} CountPositiveSameTargets(a: seq<Osc>, b: seq<Osc>)
    requires |a| == |b| && forall k :: 0 <= k < |a| ==> a[k].targetVolume == b[k].targetVolume
    ensures Aging.CountPositive(a) == Aging.CountPositive(b)
    decreases |a|
  {
    if a != [] {
      CountPositiveSameTargets(a[1..], b[1..]);
    }
  }

  /**
   * One callback never adds a voice: the voices left are exactly those whose
   * target volume was positive when it began, and with every envelope in [0, 1]
   * before, every envelope is in [0, 1] after.
   */
  lemma CallbackVoices(s: State, cbyte: nat, advancePhase: (real, real) -> real)
    requires WellFormed(s)
    ensures var r := AudioCallback(s, cbyte, advancePhase);
      r.cOscillator <= s.cOscillator &&
      r.cOscillator == Aging.CountPositive(s.aOsc[..s.cOscillator]) &&
      multiset(r.aOsc[..r.cOscillator]) ==
        multiset(Aging.Survivors(Render.Rendered(PoolOf(s), cbyte / 2, advancePhase).slots[..s.cOscillator],
                                 Aging.Decrement(s.focusedDecrease, cbyte / 2))) &&
      (ActiveEnvelopesOk(PoolOf(s)) ==> ActiveEnvelopesOk(PoolOf(r)))
  {
    var length := cbyte / 2;
    var rendered := Render.Rendered(PoolOf(s), length, advancePhase);
    var decrement := Aging.Decrement(s.focusedDecrease, length);
    Aging.AgePoolSurvivors(rendered, decrement);
    CountPositiveSameTargets(rendered.slots[..s.cOscillator], s.aOsc[..s.cOscillator]);
    if ActiveEnvelopesOk(PoolOf(s)) {
      Render.RenderedKeepsEnvelope(PoolOf(s), length, advancePhase);
      Aging.AgePoolKeepsEnvelope(rendered, decrement);
    }
  }
}
