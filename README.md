# Netrunner session rules and beat scheduler, in Dafny

This project models the core of the Netrunner browser minigame. The player
fires hacking commands at security layers. The rules of the game are the
power pool, the trace meter, the command cooldowns, the two-phase attack and
the win/lose check. The project also models the beat counter of the
procedural music engine.

- `wrappers.dfy` (module `Wrappers`) holds the `Option` type both halves use.
- `log_text.dfy` (module `LogText`) prints integers in decimal, as a
  JavaScript template literal does. It also builds the exact log lines the
  game writes.
- `game_rules.dfy` (module `GameRules`) holds the records (`SecurityLayer`,
  `HackingCommand`, `PlayerPower`), the starting tables, and one pure function
  per state update. These are the `prev => ...` bodies in `App.tsx`: the trace,
  cooldown and power ticks, the guard order of `executeCommand`, the layer and
  command updates of an attack, the outcome lines and the tutorial cursor.
  Lemmas about these functions sit beside them.
- `game_session.dfy` (module `GameSession`) has class `Game`, with one field
  per piece of React state. Each method is one tick or one event, and its
  ensures ties the new fields to the rule functions. `Valid()` is the
  invariant every method keeps.
  - `executeCommand` is split into two steps. `Invoke` runs the guards and
    tags the layer. It returns a `PendingAttack` that snapshots the command and
    the layer. `Resolve` is the first timeout body.
  - `ClearAnimation` is the second timeout body.
  - `CheckOutcome` is the outcome effect.
  - The caller chooses how ticks, resolutions and outcome checks interleave,
    as the browser's timers do.
  - Four client methods run concrete sessions, among them the overdraw of
    power by two attacks launched in the same second.
- `beat_scheduler.dfy` (module `BeatScheduler`) has the rhythm masks of
  `playBeat` as a `Beat` record and the table-index functions. It has the
  start/stop/timer state machine as pure steps over `SynthState`, and class
  `Synth`, whose methods are proved against those steps.

Behaviour of the code that the model keeps on purpose:

- Power can go negative. It is checked at invocation but charged at
  resolution, without a clamp (`GameSession.DoubleSpend`).
- "Available" does not mean "cooldown 0". The starting commands are available
  with cooldowns 1, 2 and 3. After a tick, a command becomes available one
  second after its cooldown reads 0 (`GameRules.AvailableOneTickAfterZero`).
  `Game.Valid()` states the exact invariant.
- Cooldowns keep decaying after the session ends. The trace and power timers
  stop, but only while `gameOver` is set, and they ignore which screen is up.
- The outcome check is not edge-triggered. Both of its checks can fire in one
  run, and every re-run under a finished condition logs again.
- There is no tutorial-to-main hand-over and no quit operation.
- In the music engine, the repeating timer advances the beat counter twice: in
  `playBeat` modulo 64 and again modulo 16. After the first beat, every timer
  beat falls on an odd position, where no instrument mask fires
  (`BeatScheduler.TimerBeatsAfterStartAreSilent`).

## Model

| member | source | states |
|---|---|---|
| LogText.NatToString | src/App.tsx:170 | the decimal text of a count is non-empty and all digits, with a leading zero only for zero; a count below 10 is its single digit, so zero prints as "0" |
| LogText.NatToStringRoundTrip | src/App.tsx:170 | reading the printed digits back gives the original count, so the shortfall numbers in the refusal line are exact |
| LogText.IntToString | src/App.tsx:170 | a number prints with a leading '-' exactly when it is negative, followed by the digits of its magnitude |
| LogText.SampleLines | src/App.tsx:170-213 | the executing, power-consumed, breached and shortfall lines of the concrete sessions below, written out character for character |
| GameRules.TraceStep | src/App.tsx:129 | one trace tick strictly raises a trace below 100 and never passes 100, and it yields 100 exactly from 98 up |
| GameRules.TraceAfterClosedForm | src/App.tsx:126-134 | after k live seconds the trace is min(trace + 2k, 100) |
| GameRules.FreshTraceCompletesAtFifty | src/App.tsx:126-134 | from 0 the trace reaches 100 exactly when at least 50 live seconds have passed |
| GameRules.CooldownStep | src/App.tsx:139-143 | a cooldown tick keeps the command's name, power and cost, leaves available only a command with cooldown 0, and strictly lowers a positive cooldown without going below 0 |
| GameRules.CooldownAll | src/App.tsx:138-144 | the cooldown tick steps every command independently and keeps the list length |
| GameRules.AvailableOneTickAfterZero | src/App.tsx:136-148 | after k ticks the cooldown is max(0, c - k), and the command is available iff k > c, one tick after it reads 0 |
| GameRules.RegenStep | src/App.tsx:153-156 | regeneration keeps max and rate, never lifts power above max, and never lowers it |
| GameRules.RegenAfterClosedForm | src/App.tsx:150-161 | after k live seconds power is min(current + k * rate, max), from a negative balance too |
| GameRules.Screen | src/App.tsx:163-174 | the guards in order: game over ignores the attempt; then a shortfall is reported with current and cost; then a cooldown or a broken layer blocks silently; otherwise the attempt is accepted |
| GameRules.RefusalLog | src/App.tsx:169-174 | only a power shortfall appends a line, exactly one, and it is the shortfall text with current power and cost |
| GameRules.OfferedTargetsAreAccepted | src/App.tsx:368-381 | a target button is shown iff a click on it passes every guard of executeCommand |
| GameRules.MarkAt | src/App.tsx:177-181 | tagging a layer changes only that layer's animation tag; broken flags and other layers stay as they were |
| GameRules.ResolveAt | src/App.tsx:188-196 | resolution sets broken to broken-or-success at the target index only, so broken never reverts, and it sets the success or failure tag |
| GameRules.ChargeAt | src/App.tsx:222-226 | the used command's cooldown grows by 3 on top of what is left and it becomes unavailable; other commands are unchanged |
| GameRules.ResolutionLog | src/App.tsx:207-213 | three lines in order: executing, power consumed with the cost, then the breached line when the snapshot command's power reaches the snapshot layer's difficulty and the breach-failed line otherwise |
| GameRules.BreachedLineIsNotFailure | src/App.tsx:210-212 | the breached line and the breach-failed line differ for every layer name |
| GameRules.OutcomeLog | src/App.tsx:113-124 | the outcome check appends exactly one trace-complete line iff trace >= 100 and exactly one hack-successful line iff every layer is broken, trace line first, and nothing when neither holds |
| GameRules.BothOutcomesInOneCheck | src/App.tsx:113-124 | with the trace at 100 and every layer broken, one run logs both lines, failure first |
| GameRules.TutorialNext | src/App.tsx:104-111 | Next keeps the step in [0, 7]; it advances by one before the last step, and on the last step it hides the tutorial and marks it complete |
| GameRules.TutorialWalk | src/App.tsx:104-111 | k clicks move the cursor k steps while steps remain, leaving show and complete alone |
| GameRules.TutorialCompletesAfterEightClicks | src/App.tsx:61-111 | from step 0, seven clicks reach the last step and the eighth closes the tutorial as complete |
| GameSession.Game.constructor | src/App.tsx:27-59 | the mounted state: start screen, the four layers, the four commands, power 10 of 10 regenerating 1, two log lines, trace 0, tutorial at step 0 and shown |
| GameSession.Game.TraceTick | src/App.tsx:126-134 | the trace takes one TraceStep unless the game is over; it never decreases and stays within [0, 100] |
| GameSession.Game.CooldownTick | src/App.tsx:136-148 | the commands take one CooldownAll step, game over or not; afterwards every available command has cooldown 0 |
| GameSession.Game.RegenTick | src/App.tsx:150-161 | power takes one RegenStep unless the game is over; it never decreases and stays at most max |
| GameSession.Game.Invoke | src/App.tsx:163-181 | nothing changes when the game is over; a shortfall appends exactly its one line; a blocked attempt changes nothing; an accepted one only tags the target layer 'hacking' and returns the snapshot of command and layer |
| GameSession.Game.Resolve | src/App.tsx:184-227 | the first timeout updates the layer via ResolveAt, subtracts the snapshot's cost without a clamp and without looking at gameOver, appends the three resolution lines and charges the command via ChargeAt |
| GameSession.Game.ClearAnimation | src/App.tsx:199-205 | the second timeout clears the tag of the target layer only |
| GameSession.Game.CheckOutcome | src/App.tsx:113-124 | gameOver is set when the trace reaches 100 or every layer is broken, success when every layer is broken, and the outcome lines are appended on every run |
| GameSession.Game.TutorialNextClick | src/App.tsx:104-111 | the tutorial cursor takes one TutorialNext step |
| GameSession.Game.StartTutorial | src/App.tsx:263-267 | switches to the tutorial screen, shows the tutorial and rewinds it to step 0 |
| GameSession.Game.StartGame | src/App.tsx:269-273 | switches to play, hides the tutorial and marks it complete |
| GameSession.Game.ShowTutorialAgain | src/App.tsx:406-416 | once complete, the tutorial can be reopened at step 0 |
| GameSession.FailedBypass | src/App.tsx:184-227 | BYPASS.exe against the Firewall fails, yet charges 3 power (10 to 7), sets cooldown 3 and logs executing, power consumed 3 and breach failed |
| GameSession.CrackFirewall | src/App.tsx:185 | CRYPTCRACK.exe, whose power equals the Firewall's difficulty, breaks the Firewall and charges 4 |
| GameSession.RefusedForPower | src/App.tsx:169-172 | with 7 power, ICE_BREAKER.exe (cost 8) is refused with the line "(7/8)", and power and layer tags are unchanged |
| GameSession.DoubleSpend | src/App.tsx:169-218 | two attacks accepted in the same second both pass the power guard at 10, and resolving them leaves power at -1 |
| BeatScheduler.BassIndex | src/AudioSynth.ts:99-101 | the bass table index of any position of the 64-step sequence lies in [0, 16), at the position's group of four |
| BeatScheduler.ChordIndex | src/AudioSynth.ts:112-113 | the chord index always lies in [0, 4), and it is the position's group of sixteen |
| BeatScheduler.KickAndSnareExclusive | src/AudioSynth.ts:76-84 | kick and snare never fire on the same beat |
| BeatScheduler.DrumsOverHiHatAndBass | src/AudioSynth.ts:76-102 | every kick or snare beat also carries a hi-hat and a bass note |
| BeatScheduler.ChordsOnKicks | src/AudioSynth.ts:76-124 | chords change only on kick beats, and high notes sound only on chord changes |
| BeatScheduler.DownbeatPlaysEverything | src/AudioSynth.ts:76-124 | position 0 plays kick, hi-hat, bass 36, the first chord and the high note, with no snare |
| BeatScheduler.OddPositionsAreSilent | src/AudioSynth.ts:76-124 | an odd position triggers no instrument |
| BeatScheduler.EvenPositionsAreHeard | src/AudioSynth.ts:86-89 | an even position always triggers at least the hi-hat |
| BeatScheduler.AfterBeat | src/AudioSynth.ts:126 | after a beat the counter is one more than before below 63, and 63 wraps to 0 |
| BeatScheduler.StartStep | src/AudioSynth.ts:129-142 | start does nothing while playing; otherwise it plays and arms the timer with the counter at 1, after beat 0; it keeps the scheduler invariant |
| BeatScheduler.StopStep | src/AudioSynth.ts:155-162 | stop leaves the scheduler stopped, the timer disarmed and the counter 0 |
| BeatScheduler.StopIsIdempotent | src/AudioSynth.ts:155-162 | stopping twice gives the same state as stopping once |
| BeatScheduler.TimerStep | src/AudioSynth.ts:145-150 | a timer firing while playing moves the counter from b to (b + 2) mod 16, keeps the flags and keeps the invariant (odd, below 16); while stopped it changes nothing |
| BeatScheduler.TimerPositionsWalkOdd | src/AudioSynth.ts:145-150 | while playing, the n later timer firings play n positions: the first is the counter, each is odd and below 16, and each is the previous plus 2 modulo 16 |
| BeatScheduler.TimerBeatsAfterStartAreSilent | src/AudioSynth.ts:126-150 | after start plays beat 0, every later timer beat is at an odd position below 16 and triggers nothing |
| BeatScheduler.Synth.constructor | src/AudioSynth.ts:4-6 | a new scheduler is stopped, with no timer, at beat 0 |
| BeatScheduler.Synth.PlayBeat | src/AudioSynth.ts:67-127 | plays the masks at currentBeat mod 64, then advances the counter mod 64 |
| BeatScheduler.Synth.Start | src/AudioSynth.ts:129-153 | the fields take one StartStep, and beat 0 is heard when the scheduler was stopped |
| BeatScheduler.Synth.OnTimer | src/AudioSynth.ts:145-151 | the fields take one TimerStep, and any beat heard is silent |
| BeatScheduler.Synth.Stop | src/AudioSynth.ts:155-162 | the fields take one StopStep |

## Left out

- Rendering, CSS classes, the start-screen markup, the highlight box and the
  retry reload. These are presentation only.
- Real timing. `setInterval`, `setTimeout` and React's re-render scheduling
  become methods the caller may interleave in any order. The model does not
  force `Resolve` to come one second after `Invoke`, `ClearAnimation` after
  `Resolve`, or `CheckOutcome` after every change of the layers or the trace.
  It also does not force each pending attack to be resolved exactly once.
- The tutorial step texts, their highlight selectors, and the
  `checkCondition`/`requireClick` closures. Nothing evaluates the closures;
  only the step count, 8, matters to the cursor.
- GameSession.Game.Invoke: requires valid indices unless the game is over.
  This rules out indices the page's buttons never pass. The code reads a
  missing layer only after the power and availability checks pass, so some
  calls with a bad layer index would log or return without error; those
  calls are not modelled.
- GameSession.Game.Resolve: requires only `Issued(p)`: indices in range and the
  fixed fields (name, strength, cost, difficulty) equal to the starting tables.
  It also accepts records that `Invoke` would refuse: a broken layer, an
  unavailable command or a power shortfall. So the model does not enforce that
  the cost is charged only after the guards passed. `Invoke`'s own ensures
  states that it returns a record only when every guard passes.
- The Web Audio graph and everything in floating point: oscillators, filters,
  envelopes, the MIDI-to-frequency conversion, `beatTime`, `setVolume`, and the
  one-shot effects (hack, success, failure, startup). Instruments are abstract
  events that carry their MIDI numbers.
- BeatScheduler.Synth.PlayBeat: the audio context is taken to exist, as the
  constructor creates it. The early return of `playBeat` without an audio
  context is not modelled.
- The UI components under `src/components/`, `src/AudioContext.tsx` and
  `src/index.tsx`. These are wiring, and App does not use the components.
