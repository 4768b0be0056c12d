# keyboard-of-hospitality: the oscillator set of board.c in Dafny

board.c is a small SDL keyboard synthesizer. Each key press moves a current
pitch and triggers a voice. Ten voices can sound at once. A ten-slot recall
ring remembers distinct pitches. A latch can defer pitches into a ten-entry
buffer. An audio callback renders blocks of samples and decays the voices at
every block boundary. This project models the state behind all of that,
`struct Oscset`, and the functions that change it.

The model has seven modules:

- `Voice`: the constants and `struct Osc`. It also has `setnote`, 32-bit
  unsigned wrap-around (`Wrap32`) and `instrument ^= 1` (`FlipLowBit`).
- `Recall`: the recall ring written by `addnotetostack`.
- `VoicePool`: the voice scan of `addnotetoset`. A sounding pitch is
  re-attacked; any other pitch starts a voice in slot `cOscillator`.
- `Aging`: the block-boundary loop of `audio_callback`. It has a voice-level
  account of what survives, and the loop as written with its out-of-bounds
  access (see Findings).
- `Render`: the integer bookkeeping of the render loop, meaning the phase step
  and the age counter.
- `Synth`: `struct Oscset` as a value, `State`. Each operation is a function
  on it: `Init`, `Hit` (addnotetoset), `PlayFromStack`, `KeyDown` and
  `AudioCallback`. Lemmas state what these promise.
- `Board`: `struct Oscset` as a class. `oscStack`, `oscBuffer` and `aOsc` are
  arrays, and the methods update them in place. Each method is proved to leave
  exactly the state its `Synth` function computes from the old state.

Some parts of one C function are split into separate methods so that each
proof stays small:

- the latch half of `addnotetoset` is `Defer`, the voice half is `Strike`, and
  the recursive tail is `Drain`;
- the pre-trigger part of each switch case is `Shift`, and the fall-through
  ladders are `Descend` and `Ascend`;
- the render loop is `RenderBlock` and `Tick`, and the aging loop is
  `AgeVoices`.

The model follows board.c as written. These behaviours follow from the code
and are easy to miss:

- The drain at the end of `addnotetoset` pops one entry,
  `oscBuffer[nBufferedNotes-1]`, and calls `addnotetoset` again. That call
  pops the next entry for as long as `nBufferedNotes > 0`, so a single call
  replays the whole buffer, newest entry first.
- Within each row of note keys the cases have no `break` between them, and
  each case adds its own step before falling through, so `z` moves the pitch
  by -12 and `x` by -7. The ladder is written out in `Board.Oscset.Descend` and
  `Ascend`, and `Synth.NoteShift` tabulates its net effect.
- `u` has no `break` before `t`, so arming the latch also toggles the instrument.
- Nothing checks capacity before a new voice is written to
  `aOsc[cOscillator]`, or before a pitch is written to
  `oscBuffer[nBufferedNotes]`. Instead, the model requires of its callers that
  these writes stay in bounds (`Synth.HitFits`, `Synth.KeyFits`). The condition
  is exact: one free slot for every pending pitch that is not already sounding.
- `init_oscset` leaves the pitches and envelopes of `aOsc` uninitialised, yet it
  makes two of them active. The model takes them as a parameter `junk`.

## Model

| member | source | states |
|---|---|---|
| Voice.Wrap32 | board.c:19 | An `unsigned int` value: below 2^32, congruent to the input modulo 2^32, and equal to it when it already fits |
| Voice.Wrap32Add | board.c:247 | Incrementing with wrap-around in two steps equals incrementing once: this is how the age counter composes across samples |
| Voice.FlipLowBit | board.c:186 | `x ^ 1` on an unsigned int: the higher bits stay and the lowest bit flips |
| Voice.FlipLowBitTwice | board.c:186 | Toggling the instrument twice restores it |
| Voice.SetNote | board.c:60-66 | setnote sets the pitch and the wavelength derived from it, and leaves every other field of the oscillator as it was |
| Recall.EmptyRing | board.c:50-52 | After init every ring slot holds 0 and the write position is 0 |
| Recall.Record | board.c:68-79 | addnotetostack: a pitch present in any slot leaves the ring unchanged. Otherwise it is written at the write position, which advances modulo 10, and the other slots keep their values. Either way the pitch is in the ring afterwards |
| Recall.RecordCreatesNoDuplicate | board.c:70-75 | Recording never makes two slots equal that were different before; two equal slots afterwards hold the pitch they held before |
| Recall.RecordAllCreatesNoDuplicate | board.c:68-79 | The same over any sequence of recorded pitches |
| Recall.OnlyZeroRepeats | board.c:50-52 | From the ring init leaves, whatever is recorded, only pitch 0 can occupy two slots |
| Recall.RecordAllKeepsDistinct | board.c:68-79 | A ring without duplicates keeps none over any sequence of recorded pitches |
| Recall.WrittenSlots | board.c:75-78 | The slots a sequence of recordings writes all lie in the ring |
| Recall.RecordAllFrame | board.c:72-78 | A slot outside WrittenSlots keeps its pitch over any sequence of recordings |
| Recall.UnwrittenSlotIsZero | board.c:50-52 | A slot not written since init still holds pitch 0 |
| Recall.RecordOccurrences | board.c:72-75 | After recording, the pitch occupies exactly one slot if it occupied none, and otherwise as many slots as before |
| Recall.RecordRepeatedly | board.c:72-75 | Recording a pitch that occupies at most one slot k >= 1 times leaves it in exactly one slot. This excludes pitch 0 on the fresh ring, which stays in all ten slots |
| Recall.RecordZeroOnEmptyRing | board.c:51-52 | On the fresh ring, pitch 0 counts as present, so playing the reference pitch first records nothing |
| Recall.RecordExampleFill | board.c:75-78 | Recording 3 and then 7 on the fresh ring writes slots 0 and 1 and moves the write position to 2 |
| Recall.RecordExampleRepeat | board.c:72-78 | Recording 3 again changes nothing; recording 9 then writes slot 2 and moves the write position to 3 |
| Recall.RecordExample | board.c:68-79 | Recording 3, 7, 3, 9 fills slots 0 to 2 with 3, 7 and 9 and moves the write position to 3; the repeated 3 is dropped |
| VoicePool.FirstMatch | board.c:95-106 | The scan finds the lowest active index with the pitch, or reports that no active voice has it |
| VoicePool.Reattacked | board.c:100-103 | Re-attack raises the target volume by 1, capped at 1, and changes nothing else |
| VoicePool.Started | board.c:109-112 | A new voice: volume 0, target 1, age 0, the new pitch and its wavelength. The phase is not reset |
| VoicePool.Attack | board.c:95-114 | If the pitch is sounding, only its first voice is re-attacked and the count stays. Otherwise only slot `count` is overwritten by a started voice and the count grows by one. Either way the pitch is sounding afterwards |
| VoicePool.AttackNotes | board.c:95-114 | After a trigger, the set of sounding pitches is the old set plus the triggered pitch |
| VoicePool.AttackAll | board.c:116-121 | Triggering a sequence of pitches adds exactly one voice per pitch not yet sounding, and adds all of the sequence's pitches to the sounding set |
| VoicePool.AttackThenCount | board.c:107-113 | Triggering the first pitch of a sequence moves exactly that pitch's share of the needed new voices into the count |
| VoicePool.AttackKeepsEnvelope | board.c:100-110 | A trigger keeps every active envelope in [0, 1] |
| VoicePool.RetriggerStartsNoSecondVoice | board.c:95-106 | Triggering the same pitch twice in a row starts at most one voice for it |
| Aging.Decrement | board.c:255-257 | The per-block loss `rate * length / 48000`: never negative for a non-negative rate, and 0 for an empty block |
| Aging.Aged | board.c:256-257 | The volume takes the target, the target drops by the decrement, and nothing else changes |
| Aging.Clamped | board.c:264-265 | A negative target is raised to 0; any other voice is unchanged |
| Aging.Survived | board.c:256-265 | A surviving voice's volume is its old target, and its target is max(0, old target - decrement) |
| Aging.AgeFrom | board.c:250-266 | The aging loop from cursor j with swap-remove. It never grows the count and never shrinks it below the cursor |
| Aging.SurvivorsLength | board.c:258-262 | As many voices survive as had a positive target |
| Aging.AgeFromFrame | board.c:250-266 | The loop leaves untouched the slots below the cursor and the slots at or above the old count |
| Aging.AgeFromKeepsSurvivors | board.c:250-266 | From cursor j, the voices left in [j, count) are, as a multiset, exactly the survivors of the voices there before |
| Aging.AgePoolSurvivors | board.c:250-266 | A block boundary leaves exactly the voices whose target was positive, each aged and clamped, in some order. Their count is the number of such voices, and the inactive slots are unchanged |
| Aging.AgedVoiceShape | board.c:256-265 | Every voice still active afterwards has a positive volume and target max(0, volume - decrement), and it is the survivor of some voice that was active |
| Aging.AgePoolKeepsEnvelope | board.c:250-266 | With a non-negative decay rate, envelopes in [0, 1] stay in [0, 1] across a block boundary |
| Aging.AgeFromAsWritten | board.c:250-266 | The loop exactly as written: after a removal the clamp of line 264 touches slot j - 1 (None when that is aOsc[-1]) |
| Aging.AsWrittenFaultsAtSlotZero | board.c:258-265 | As written, removing the voice in slot 0 reads and writes aOsc[-1] |
| Aging.AsWrittenFaultExample | board.c:258-265 | Concretely, a single silent voice in a 128-sample block at the initial decay rate reaches aOsc[-1] |
| Aging.AsWrittenAgrees | board.c:258-265 | Apart from that fault, the code as written computes the same pool as the corrected loop |
| Aging.FirstBlockExample | board.c:255-257 | A fresh voice after one 128-sample block at rate 3: volume 1, target 0.992 |
| Render.PhaseAfterAdd | board.c:246 | Advancing the phase a samples and then b samples is advancing it a + b samples |
| Render.Advanced | board.c:246-247 | One voice after n samples: only the age (wrapping) and the phase change |
| Render.AdvancedStep | board.c:246-247 | One more sample takes one fmod step of the phase and adds 1 to the age |
| Render.Rendered | board.c:231-249 | A block advances the age of every active voice by the block length (wrapping), leaves its envelope, pitch and wavelength as they were, and leaves the count and the inactive slots unchanged |
| Render.RenderedNothing | board.c:231 | An empty block changes nothing |
| Render.RenderedAdd | board.c:231-249 | Two blocks of a and b samples advance the counters as one block of a + b samples does |
| Render.RenderedKeepsEnvelope | board.c:231-249 | Rendering does not touch any envelope |
| Synth.Init | board.c:41-58 | init_oscset yields a well-formed state |
| Synth.InitState | board.c:41-58 | After init: the ring is all 0 at position 0, the buffer is empty and not armed, the decay rate is 3, the instrument is 0, two voices are active, and every voice is `junk` with age 0 |
| Synth.Queue | board.c:116-119 | The drain order lists the buffer newest first: entry k is oscBuffer[n-1-k] |
| Synth.RoomForCurrent | board.c:107-109 | A trigger that fits finds either a sounding voice with its pitch or a free slot |
| Synth.RecordCurrent | board.c:115 | addnotetostack on the state: the ring becomes `Record` of the current pitch and nothing else changes |
| Synth.TriggerCurrent | board.c:86-115 | One unlatched pass: lastPlayedNote takes the pitch, the pool is triggered and the ring records it, nothing else changes, and the rest of the drain still fits |
| Synth.Popped | board.c:116-119 | The pop: the buffer shrinks by one and the newest entry becomes the current pitch |
| Synth.Hit | board.c:82-122 | addnotetoset keeps the state well formed; HitWhileArmed and HitReplaysPending state what it does |
| Synth.HitWhileArmed | board.c:86-93 | Armed: the pitch is stored at the buffer top, the buffer grows by one, the arm clears and the ring records the pitch. Voices, decay rate and instrument are unchanged |
| Synth.HitReplaysPending | board.c:86-121 | Unarmed: the same as triggering and recording the current pitch and then every buffered pitch, newest first. The buffer is left empty with its contents intact, and the current and last-played pitch is the last one replayed |
| Synth.HitDrains | board.c:116-121 | The drain empties the buffer, ends on oscBuffer[0], and adds exactly one voice per pending pitch not yet sounding, staying within 10 |
| Synth.HitKeepsEnvelope | board.c:82-122 | A trigger keeps every active envelope in [0, 1] |
| Synth.PlayFromStack | board.c:124-128 | playfromstack triggers the pitch in ring slot n |
| Synth.ReplayUnwrittenSlot | board.c:124-128 | After any history from init, replaying a slot no recording has written plays pitch 0: deferred into the buffer when armed, sounding otherwise, and the last pitch played when nothing was buffered |
| Synth.NoteShift | board.c:146-170 | The net fall-through shift of each note key: the lower row lowers the pitch by 1 to 12, the upper row raises it by 0 to 12, and keys that trigger nothing other than p and q do not move it |
| Synth.HitFits | board.c:89-109 | The exact condition for addnotetoset to stay inside its arrays: armed, a free buffer slot; otherwise a free voice slot for every pending pitch not already sounding |
| Synth.Shifted | board.c:146-186 | The part of each key case before any trigger keeps the state well formed |
| Synth.KeyDown | board.c:142-189 | A key press keeps the state well formed |
| Synth.KeyDownWithoutTrigger | board.c:171-186 | p, q, w, e, u and t never touch the voices, the ring or the buffer. p and q move the pitch an octave. w lowers the decay rate by 0.5 but not below 0, and e raises it by 0.5. u arms the latch and toggles the instrument, and t only toggles it |
| Synth.NoteKeySounds | board.c:146-170 | An unlatched note key moves the pitch by the key's net fall-through shift (to 0 for g) and that pitch is sounding afterwards |
| Synth.LatchThenNote | board.c:185-186 | Pressing u and then a note key defers that note into the buffer and starts no voice |
| Synth.ShiftedMovesOnlyPitch | board.c:146-183 | A key that triggers changes nothing but the current pitch before its trigger |
| Synth.DeferredNoteReplays | board.c:116-121 | With pitches buffered and the latch clear, a note key plays its own pitch and then the newest buffered one, then the rest; all of them sound afterwards and the buffer is empty |
| Synth.AudioCallback | board.c:218-267 | A callback changes only the voices and their count |
| Synth.CallbackVoices | board.c:218-267 | A callback never adds a voice. The voices left are, as a multiset, exactly the rendered voices whose target was positive, each aged and clamped, and their number is the count of positive targets. Envelopes in [0, 1] stay in [0, 1] |
| Board.Oscset.constructor | board.c:41-58 | The fields and arrays equal Synth.Init(junk) |
| Board.Oscset.AddNoteToStack | board.c:68-79 | The scan and write leave exactly Synth.RecordCurrent of the old state |
| Board.Oscset.AddNoteToSet | board.c:82-122 | In place and recursive: leaves exactly Synth.Hit of the old state |
| Board.Oscset.Defer | board.c:86-93 | The latch branch: leaves Synth.Hit of the old state |
| Board.Oscset.Strike | board.c:95-114 | The scan-and-write loop leaves the pool at VoicePool.Attack of the old pool, with the other fields unchanged |
| Board.Oscset.Drain | board.c:116-121 | Pop and replay when the buffer is non-empty; otherwise nothing |
| Board.Oscset.PlayFromStack | board.c:124-128 | Leaves Synth.PlayFromStack of the old state |
| Board.Oscset.KeyDown | board.c:142-189 | Leaves Synth.KeyDown of the old state |
| Board.Oscset.Shift | board.c:146-186 | Each case's statements before addnotetoset leave Synth.Shifted of the old state |
| Board.Oscset.Descend | board.c:146-153 | The lower ladder entered at position e moves the pitch down 12 from z, and 8 - e otherwise |
| Board.Oscset.Ascend | board.c:156-163 | The upper ladder, the same upward |
| Board.Oscset.AudioCallback | board.c:218-267 | Leaves Synth.AudioCallback of the old state |
| Board.Oscset.RenderBlock | board.c:231-249 | The nested loop leaves the voices at Render.Rendered of the old pool |
| Board.Oscset.Tick | board.c:234-248 | The inner loop over the active voices advances each of them by one sample |
| Board.Oscset.AgeVoices | board.c:250-266 | The aging loop leaves the pool at Aging.AgeFrom of the old pool, with the other fields unchanged |

## Left out

- Sound synthesis is not modelled: `instrument_hotel`, `instrument_triangle`, `lerp`, the tremolo, `AMPLITUDE`, the `Sint16` output buffer and its overflow. The render loop is modelled only for its effect on the oscillators.
- `pow` in setnote and `fmod` in the render loop are floating-point library calls. They become the class constants `wavelengthOf` and `advancePhase`, which the constructor takes as parameters.
- Doubles are exact reals, so rounding is not modelled. `FirstBlockExample`'s 0.992 is exact.
- `currentNote` is an unbounded integer: the 32-bit `int` overflow after about 2^31 / 12 octave presses is not modelled. `cOscillator`, `nSelectedStack` and `nBufferedNotes` are `nat`; their wrap-around cannot happen within the model's preconditions.
- The `SDL_QUIT` branch, `main`, SDL initialisation, the event loop and its delay are I/O and are left out. Other event types change nothing.
- The audio callback runs on SDL's audio thread, concurrently with the event handler, and the source uses no lock. The model treats each callback and each key press as atomic.
- `unfocusedDecrease` is never initialised and never read, so it is not a field of the model.
- `cbyte` is a `nat`: SDL passes non-negative byte counts, so C's truncating `/` and Dafny's `/` agree.
- `oscBuffer` is zero-filled by the model's constructor, but the source leaves it uninitialised. No entry is read before it is written.
- Board.Oscset.AddNoteToSet: requires `Synth.HitFits`, where the source writes past `aOsc` or `oscBuffer`. Undefined behaviour is a precondition here, not a modelled error path.
- Board.Oscset.KeyDown: requires `Synth.KeyFits`, which is `HitFits` after the key's shift, for the same reason.
- Board.Oscset.PlayFromStack: requires `n < 10`, which every caller in the switch meets.
- Board.Oscset.AgeVoices: implements the corrected loop from Findings, not the line-264 access as written. The access as written is `Aging.AgeFromAsWritten`.

## Findings

| source | as written | input that shows it | evidently intended | confidence | as-written member | corrected member |
|---|---|---|---|---|---|---|
| board.c:258-265 | After a removal, `--j` runs before the clamp `if (aOsc[j].targetVolume < 0) ...`. The clamp therefore reads and writes `aOsc[j-1]`, which is `aOsc[-1]` when the removed voice was in slot 0 | Any block boundary at which the voice in slot 0 has target volume <= 0, e.g. one silent voice (`AsWrittenFaultExample`) | The clamp applies only to a voice that stays in slot j. After a removal the slot is examined again, and the voice in slot j-1 was already clamped (`AsWrittenAgrees`) | not executed | Aging.AgeFromAsWritten | Aging.AgeFrom |
