/**
 * struct Oscset of board.c as a class: the three fixed-size arrays and the
 * scalar fields, with init_oscset, addnotetostack, addnotetoset, playfromstack,
 * the key switch of event_handler and audio_callback as methods that update
 * them in place. Each method is proved to leave the state that the matching
 * function of Synth computes from the old state.
 */
module Board {
  import opened Voice
  import Render
  import VoicePool
  import Aging
  import Synth

  class Oscset {
    var instrument: UInt
    var focusedDecrease: real
    var cOscillator: nat
    var currentNote: int
    var lastPlayedNote: int
    var nSelectedStack: nat
    const oscStack: array<int>
    var nBufferedNotes: nat
    var bufferingNote: bool
    const oscBuffer: array<int>
    const aOsc: array<Osc>

    /** SAMPLE_RATE / (440 * 2^(note/12)), the wavelength setnote computes with pow. */
    const wavelengthOf: int -> real
    /** The phase step fmod(phase + 1, wavelength) of line 246. */
    const advancePhase: (real, real) -> real

    ghost predicate Valid()
      reads this, oscStack, oscBuffer, aOsc
    {
      oscStack != oscBuffer && Synth.WellFormed(Snapshot())
    }

    /** The fields and array contents as one value. */
    ghost function Snapshot(): Synth.State
      reads this, oscStack, oscBuffer, aOsc
    {
      Synth.State(instrument, focusedDecrease, cOscillator, currentNote, lastPlayedNote,
        nSelectedStack, oscStack[..], nBufferedNotes, bufferingNote, oscBuffer[..], aOsc[..])
    }

    /**
     * init_oscset on a struct whose oscillators held `junk`: the scalar fields
     * are set, the ring zeroed, and every oscillator's age reset.
     */
    constructor (junk: seq<Osc>, wavelengthOf: int -> real, advancePhase: (real, real) -> real)
      requires |junk| == MAX_OSCILLATORS
      ensures Valid() && fresh(oscStack) && fresh(oscBuffer) && fresh(aOsc)
      ensures Snapshot() == Synth.Init(junk)
      ensures this.wavelengthOf == wavelengthOf && this.advancePhase == advancePhase
    {
      var stack := new int[C_STACK];
      for i := 0 to C_STACK
        invariant forall k :: 0 <= k < i ==> stack[k] == 0
        modifies stack
      {
        stack[i] := 0;
      }
      var voices := new Osc[MAX_OSCILLATORS](k requires 0 <= k < MAX_OSCILLATORS => junk[k]);
      for i := 0 to MAX_OSCILLATORS
        invariant forall k :: 0 <= k < i ==> voices[k] == junk[k].(samplesSinceHit := 0)
        invariant forall k :: i <= k < MAX_OSCILLATORS ==> voices[k] == junk[k]
        modifies voices
      {
        voices[i] := voices[i].(samplesSinceHit := 0);
      }
      assert stack[..] == seq(C_STACK, _ => 0);
      assert voices[..] == Synth.Init(junk).aOsc;
      this.wavelengthOf := wavelengthOf;
      this.advancePhase := advancePhase;
      oscStack := stack;
      oscBuffer := new int[C_NBUFF](_ => 0);
      aOsc := voices;
      instrument := 0;
      focusedDecrease := 3.0;
      cOscillator := 2;
      currentNote := 0;
      lastPlayedNote := 0;
      nSelectedStack := 0;
      nBufferedNotes := 0;
      bufferingNote := false;
    }

    /** addnotetostack: record currentNote in the ring unless some slot already holds it. */
    method AddNoteToStack()
      requires Valid()
      modifies this, oscStack
      ensures Valid() && Snapshot() == Synth.RecordCurrent(old(Snapshot()))
    {
      for i := 0 to C_STACK
        invariant forall k :: 0 <= k < i ==> oscStack[k] != currentNote
      {
        if oscStack[i] == currentNote {
          return;
        }
      }
      oscStack[nSelectedStack] := currentNote;
      nSelectedStack := nSelectedStack + 1;
      if nSelectedStack >= C_STACK {
        nSelectedStack := 0;
      }
    }

    /**
     * addnotetoset: defer the pitch into the buffer when the latch is armed;
     * otherwise re-attack or start its voice, record it, and replay the newest
     * buffered pitch by calling itself until the buffer is empty.
     */
    method AddNoteToSet()
      requires Valid() && Synth.HitFits(Snapshot())
      modifies this, oscStack, oscBuffer, aOsc
      ensures Valid() && Snapshot() == Synth.Hit(old(Snapshot()), wavelengthOf)
      decreases nBufferedNotes, 1
    {
      if bufferingNote {
        Defer();
        return;
      }
      ghost var s0 := Snapshot();
      Synth.RoomForCurrent(s0);
      Synth.DrainStep(s0, wavelengthOf);
      lastPlayedNote := currentNote;
      Strike();
      AddNoteToStack();
      assert Snapshot() == Synth.TriggerCurrent(s0, wavelengthOf);
      Drain();
    }

    /** Lines 116-121: pop the newest buffered pitch, if any, and play it. */
    method Drain()
      requires Valid() && !bufferingNote
      requires nBufferedNotes > 0 ==> Synth.HitFits(Synth.Popped(Snapshot()))
      modifies this, oscStack, oscBuffer, aOsc
      ensures Valid()
      ensures Snapshot() == if old(nBufferedNotes) > 0 then Synth.Hit(Synth.Popped(old(Snapshot())), wavelengthOf) else old(Snapshot())
      decreases nBufferedNotes, 0
    {
      if nBufferedNotes > 0 {
        nBufferedNotes := nBufferedNotes - 1;
        currentNote := oscBuffer[nBufferedNotes];
        AddNoteToSet();
      }
    }

    /**
     * The latch half of addnotetoset (lines 86-93): store the pitch at the buffer
     * top, record it in the ring, clear the arm and grow the buffer.
     */
    method Defer()
      requires Valid() && bufferingNote && nBufferedNotes < C_NBUFF
      modifies this, oscStack, oscBuffer
      ensures Valid() && Snapshot() == Synth.Hit(old(Snapshot()), wavelengthOf)
    {
      lastPlayedNote := currentNote;
      oscBuffer[nBufferedNotes] := lastPlayedNote;
      AddNoteToStack();
      bufferingNote := false;
      nBufferedNotes := nBufferedNotes + 1;
    }

    /**
     * The voice half of addnotetoset (lines 95-114): scan the active voices for
     * the current pitch and re-attack the first match, or start a new voice in
     * slot cOscillator when none matches.
     */
    method Strike()
      requires Valid()
      requires VoicePool.Playing(Synth.PoolOf(Snapshot()), currentNote) || cOscillator < MAX_OSCILLATORS
      modifies this, aOsc
      ensures Valid()
      ensures Snapshot() == old(Snapshot()).(aOsc := aOsc[..], cOscillator := cOscillator)
      ensures Synth.PoolOf(Snapshot()) == VoicePool.Attack(Synth.PoolOf(old(Snapshot())), old(currentNote), wavelengthOf)
    {
      ghost var p := Synth.PoolOf(Snapshot());
      var makeNew := true;
      var i := 0;
      while i < cOscillator
        invariant i <= cOscillator && makeNew && aOsc[..] == p.slots
        invariant forall k :: 0 <= k < i ==> aOsc[k].note != currentNote
        modifies aOsc
      {
        if aOsc[i].note == currentNote {
          makeNew := false;
          aOsc[i] := aOsc[i].(targetVolume := aOsc[i].targetVolume + 1.0);
          if aOsc[i].targetVolume > 1.0 {
            aOsc[i] := aOsc[i].(targetVolume := 1.0);
          }
          assert VoicePool.FirstMatch(p.slots, p.count, currentNote) == Some(i);
          break;
        }
        i := i + 1;
      }
      if makeNew {
        aOsc[cOscillator] := aOsc[cOscillator].(volume := 0.0);
        aOsc[cOscillator] := aOsc[cOscillator].(targetVolume := 1.0);
        aOsc[cOscillator] := aOsc[cOscillator].(samplesSinceHit := 0);
        aOsc[cOscillator] := SetNote(aOsc[cOscillator], currentNote, wavelengthOf);
        cOscillator := cOscillator + 1;
      }
    }

    /** playfromstack: replay the pitch in ring slot n. */
    method PlayFromStack(n: nat)
      requires Valid() && n < C_STACK
      requires Synth.HitFits(Snapshot().(currentNote := oscStack[n]))
      modifies this, oscStack, oscBuffer, aOsc
      ensures Valid() && Snapshot() == Synth.PlayFromStack(old(Snapshot()), n, wavelengthOf)
    {
      currentNote := oscStack[n];
      AddNoteToSet();
    }

    /**
     * The SDL_KEYDOWN branch of event_handler. The note keys of each row fall
     * through the decrements (or increments) below them, which is written out
     * here with the key's entry position into the ladder.
     */
    method KeyDown(k: Synth.Key)
      requires Valid() && Synth.KeyFits(Snapshot(), k)
      modifies this, oscStack, oscBuffer, aOsc
      ensures Valid() && Snapshot() == Synth.KeyDown(old(Snapshot()), k, wavelengthOf)
    {
      if k.Digit? {
        PlayFromStack(k.n);
      } else {
        Shift(k);
        if Synth.Triggers(k) {
          AddNoteToSet();
        }
      }
    }

    /**
     * The part of each case of the key switch that runs before addnotetoset: the
     * pitch moves for the note keys (through the fall-through ladders), p and q
     * move it an octave, w and e change the decay rate, u arms the latch and falls
     * through to t, which toggles the instrument.
     */
    method Shift(k: Synth.Key)
      requires Valid()
      modifies this
      ensures Valid() && Snapshot() == Synth.Shifted(old(Snapshot()), k)
    {
      match k
      case Z | X | C | V | A | S | D | F =>
        Descend(LadderEntry(k));
      case Slash | Period | Comma | M | Semicolon | L | K | J | H =>
        Ascend(LadderEntry(k));
      case G =>
        currentNote := 0;
      case P =>
        currentNote := currentNote + 12;
      case Q =>
        currentNote := currentNote - 12;
      case Digit(n) =>
        // KeyDown sends digits to PlayFromStack instead; this case keeps Shift
        // total over Key, with the same pitch change that playfromstack makes.
        currentNote := oscStack[n];
      case W =>
        focusedDecrease := focusedDecrease - 0.5;
        if focusedDecrease < 0.0 {
          focusedDecrease := 0.0;
        }
      case E =>
        focusedDecrease := focusedDecrease + 0.5;
      case U =>
        bufferingNote := true;
        instrument := FlipLowBit(instrument);
      case T =>
        instrument := FlipLowBit(instrument);
      case Other =>
    }

    /** Lines 146-153: the lower row's fall-through, entered at position `entry`. */
    method Descend(entry: nat)
      requires Valid()
      modifies this
      ensures Valid() && Snapshot() == old(Snapshot()).(currentNote := old(currentNote) - LadderSpan(entry))
    {
      if entry <= 0 { currentNote := currentNote - 5; }
      if entry <= 1 { currentNote := currentNote - 1; }
      if entry <= 2 { currentNote := currentNote - 1; }
      if entry <= 3 { currentNote := currentNote - 1; }
      if entry <= 4 { currentNote := currentNote - 1; }
      if entry <= 5 { currentNote := currentNote - 1; }
      if entry <= 6 { currentNote := currentNote - 1; }
      if entry <= 7 { currentNote := currentNote - 1; }
    }

    /** Lines 156-163: the upper row's fall-through, entered at position `entry`. */
    method Ascend(entry: nat)
      requires Valid()
      modifies this
      ensures Valid() && Snapshot() == old(Snapshot()).(currentNote := old(currentNote) + LadderSpan(entry))
    {
      if entry <= 0 { currentNote := currentNote + 5; }
      if entry <= 1 { currentNote := currentNote + 1; }
      if entry <= 2 { currentNote := currentNote + 1; }
      if entry <= 3 { currentNote := currentNote + 1; }
      if entry <= 4 { currentNote := currentNote + 1; }
      if entry <= 5 { currentNote := currentNote + 1; }
      if entry <= 6 { currentNote := currentNote + 1; }
      if entry <= 7 { currentNote := currentNote + 1; }
    }

    /**
     * audio_callback on a block of cbyte bytes (cbyte / 2 samples): the render
     * loop (lines 231-249) and then the aging loop (lines 250-266).
     */
    method AudioCallback(cbyte: nat)
      requires Valid()
      modifies this, aOsc
      ensures Valid() && Snapshot() == Synth.AudioCallback(old(Snapshot()), cbyte, advancePhase)
    {
      var length := cbyte / 2;
      RenderBlock(length);
      AgeVoices(length);
    }

    /**
     * Lines 231-249 without the samples they produce: for each of `length`
     * samples, every active voice's phase takes one fmod step and its age goes up
     * by one.
     */
    method RenderBlock(length: nat)
      requires Valid()
      modifies aOsc
      ensures Valid()
      ensures Snapshot() == old(Snapshot()).(aOsc := Render.Rendered(Synth.PoolOf(old(Snapshot())), length, advancePhase).slots)
    {
      ghost var start := Synth.PoolOf(Snapshot());
      Render.RenderedNothing(start, advancePhase);
      for i := 0 to length
        invariant aOsc[..] == Render.Rendered(start, i, advancePhase).slots
      {
        Render.RenderedAdd(start, i, 1, advancePhase);
        Tick();
      }
    }

    /** One sample of the render loop (lines 234-248): each active voice advances by one sample. */
    method Tick()
      requires Valid()
      modifies aOsc
      ensures Valid()
      ensures aOsc[..] == Render.Rendered(Pool(old(aOsc[..]), cOscillator), 1, advancePhase).slots
    {
      ghost var start := aOsc[..];
      for j := 0 to cOscillator
        invariant forall k :: 0 <= k < j ==> aOsc[k] == Render.Advanced(start[k], 1, advancePhase)
        invariant forall k :: j <= k < MAX_OSCILLATORS ==> aOsc[k] == start[k]
      {
        aOsc[j] := aOsc[j].(nSampleProgress := advancePhase(aOsc[j].nSampleProgress, aOsc[j].cSampleWavelength));
        aOsc[j] := aOsc[j].(samplesSinceHit := Wrap32(aOsc[j].samplesSinceHit + 1));
      }
      assert aOsc[..] == Render.Rendered(Pool(start, cOscillator), 1, advancePhase).slots;
    }

    /**
     * Lines 250-266 with the clamp of line 264 applied only to a voice that stays
     * in slot j: each voice's volume takes its target and the target drops by the
     * block's decrement; a voice whose volume is no longer positive is replaced by
     * the last active one, and the slot is examined again.
     */
    method AgeVoices(length: nat)
      requires Valid()
      modifies this, aOsc
      ensures Valid()
      ensures var aged := Aging.AgeFrom(Synth.PoolOf(old(Snapshot())), 0, Aging.Decrement(old(focusedDecrease), length));
        Snapshot() == old(Snapshot()).(aOsc := aged.slots, cOscillator := aged.count)
    {
      ghost var start := Synth.PoolOf(Snapshot());
      ghost var decrement := Aging.Decrement(focusedDecrease, length);
      var j := 0;
      while j < cOscillator
        invariant j <= cOscillator <= MAX_OSCILLATORS
        invariant Aging.AgeFrom(Pool(aOsc[..], cOscillator), j, decrement) == Aging.AgeFrom(start, 0, decrement)
        invariant Snapshot() == old(Snapshot()).(aOsc := aOsc[..], cOscillator := cOscillator)
        decreases cOscillator - j
      {
        ghost var before := Pool(aOsc[..], cOscillator);
        ghost var s := before.slots[j := Aging.Aged(before.slots[j], decrement)];
        var time := focusedDecrease;
        aOsc[j] := aOsc[j].(volume := aOsc[j].targetVolume);
        aOsc[j] := aOsc[j].(targetVolume := aOsc[j].volume - Aging.Decrement(time, length));
        assert aOsc[..] == s;
        if aOsc[j].volume <= 0.0 {
          aOsc[j] := aOsc[cOscillator - 1];
          cOscillator := cOscillator - 1;
          assert Pool(aOsc[..], cOscillator) == Pool(s[j := s[before.count - 1]], before.count - 1);
        } else {
          if aOsc[j].targetVolume < 0.0 {
            aOsc[j] := aOsc[j].(targetVolume := 0.0);
          }
          j := j + 1;
          assert Pool(aOsc[..], cOscillator) == Pool(s[j - 1 := Aging.Clamped(s[j - 1])], before.count);
        }
      }
    }
  }

  /**
   * Where a note key enters its row's fall-through ladder: z and slash at the
   * five-semitone step, x and period at the first single step, and so on down
   * to h, which enters below the last step.
   */
  function LadderEntry(k: Synth.Key): (e: nat)
    ensures e <= 8
  {
    match k
    case Z => 0 case X => 1 case C => 2 case V => 3
    case A => 4 case S => 5 case D => 6 case F => 7
    case Slash => 0 case Period => 1 case Comma => 2 case M => 3
    case Semicolon => 4 case L => 5 case K => 6 case J => 7 case H => 8
    case _ => 8
  }

  /**
   * How far the ladder entered at `entry` moves the pitch: the five-semitone
   * step and all seven single steps from position 0, the single steps from the
   * entry position on otherwise.
   */
  function LadderSpan(entry: nat): (n: nat)
    ensures entry == 0 ==> n == 12
    ensures 0 < entry <= 8 ==> n == 8 - entry
  {
    if entry == 0 then 12 else if entry <= 8 then 8 - entry else 0
  }
}
