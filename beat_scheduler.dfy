/** The beat scheduler of the background music: which instruments a beat
    triggers, and the beat counter that start, stop, the per-beat routine and the
    repeating timer advance. Instruments are abstract events; the tones they
    would synthesize are not modelled. */
module BeatScheduler {
  import opened Wrappers

  /** Sub-beats in the sequence: 16 measures of 4 beats. */
  const SequenceLength := 64

  /** The modulus the repeating timer applies after each beat. */
  const TimerWrap := 16

  /** One bass note (a MIDI number) per group of four sub-beats. */
  const BassNotes: seq<int> := [36, 36, 41, 43, 36, 36, 41, 38, 36, 36, 41, 43, 36, 34, 33, 31]

  /** The pad chords (MIDI numbers), one per sixteen sub-beats. */
  const PadChords: seq<seq<int>> := [[48, 51, 55], [48, 51, 55], [53, 56, 60], [55, 58, 62]]

  /** The MIDI number of the atmospheric high note. */
  const AtmosphereNote := 72

  /** What one beat triggers: each drum, and the bass note, chord and high note
      when they sound. */
  datatype Beat = Beat(kick: bool, snare: bool, hiHat: bool, bass: Option<int>, pad: Option<seq<int>>, atmosphere: Option<int>)

  predicate Silent(b: Beat)
  {
    !b.kick && !b.snare && !b.hiHat && b.bass.None? && b.pad.None? && b.atmosphere.None?
  }

  /** The bass table index for a position in the sequence. */
  function BassIndex(position: nat): (k: nat)
    ensures position < SequenceLength ==> k < |BassNotes|
    ensures k * 4 <= position < k * 4 + 4
  {
    position / 4
  }

  /** The chord table index for a position in the sequence. */
  function ChordIndex(position: nat): (k: nat)
    ensures k < |PadChords|
    ensures position < SequenceLength ==> k * 16 <= position < k * 16 + 16
  {
    (position / 16) % |PadChords|
  }

  /** The rhythm masks applied to a position in the sequence. */
  function BeatAt(position: nat): Beat
    requires position < SequenceLength
  {
    Beat(
      kick := position % 8 == 0,
      snare := position % 8 == 4,
      hiHat := position % 2 == 0,
      bass := if position % 4 == 0 then Some(BassNotes[BassIndex(position)]) else None,
      pad := if position % 16 == 0 then Some(PadChords[ChordIndex(position)]) else None,
      atmosphere := if position % 32 == 0 then Some(AtmosphereNote) else None)
  }

  /** Kick and snare never share a beat. */
  lemma KickAndSnareExclusive(position: nat)
    requires position < SequenceLength
    ensures !(BeatAt(position).kick && BeatAt(position).snare)
  {
  }

  /** Every kick and every snare has a hi-hat and a bass note under it. */
  lemma DrumsOverHiHatAndBass(position: nat)
    requires position < SequenceLength
    ensures BeatAt(position).kick || BeatAt(position).snare ==> BeatAt(position).hiHat && BeatAt(position).bass.Some?
  {
    var q := position / 8;
    assert position == 4 * (2 * q) + position % 8;
  }

  /** Every chord change falls on a kick, and every high note on a chord change. */
  lemma ChordsOnKicks(position: nat)
    requires position < SequenceLength
    ensures BeatAt(position).pad.Some? ==> BeatAt(position).kick
    ensures BeatAt(position).atmosphere.Some? ==> BeatAt(position).pad.Some?
  {
    if position % 16 == 0 {
      var q := position / 16;
      assert position == 8 * (2 * q);
    }
    if position % 32 == 0 {
      var q := position / 32;
      assert position == 16 * (2 * q);
    }
  }

  /** The first beat of the sequence plays every instrument. */
  lemma DownbeatPlaysEverything()
    ensures BeatAt(0) == Beat(true, false, true, Some(36), Some([48, 51, 55]), Some(AtmosphereNote))
  {
  }

  /** An odd position triggers nothing at all: every mask asks for an even one. */
  lemma OddPositionsAreSilent(position: nat)
    requires position < SequenceLength && position % 2 == 1
    ensures Silent(BeatAt(position))
  {
  }

  /** An even position always has at least the hi-hat. */
  lemma EvenPositionsAreHeard(position: nat)
    requires position < SequenceLength && position % 2 == 0
    ensures !Silent(BeatAt(position))
  {
  }

  // ---------------------------------------------------------------------------
  // The counter and the start/stop state machine

  /** The scheduler's state: whether it plays, whether the repeating timer is
      armed, and the beat counter. */
  datatype SynthState = SynthState(isPlaying: bool, intervalActive: bool, currentBeat: int)

  const Idle := SynthState(false, false, 0)

  /** What holds between any two calls: the timer is armed exactly while
      playing, and while playing the counter is odd and below 16. */
  predicate Consistent(s: SynthState)
  {
    && 0 <= s.currentBeat < SequenceLength
    && (s.intervalActive <==> s.isPlaying)
    && (s.isPlaying ==> s.currentBeat % 2 == 1 && s.currentBeat < TimerWrap)
  }

  /** The counter after the per-beat routine, which advances it modulo 64. */
  function AfterBeat(beat: nat): (next: nat)
    ensures next < SequenceLength
    ensures beat < SequenceLength - 1 ==> next == beat + 1
    ensures beat == SequenceLength - 1 ==> next == 0
  {
    (beat + 1) % SequenceLength
  }

  /** start: nothing while playing; otherwise arm the timer, reset the counter
      and play beat 0 at once. */
  function StartStep(s: SynthState): (r: SynthState)
    ensures s.isPlaying ==> r == s
    ensures !s.isPlaying ==> r == SynthState(true, true, 1)
    ensures Consistent(s) ==> Consistent(r)
  {
    if s.isPlaying then s else SynthState(true, true, AfterBeat(0))
  }

  /** The beat start plays at once, if any. */
  function StartBeat(s: SynthState): Option<Beat>
  {
    if s.isPlaying then None else Some(BeatAt(0))
  }

  /** stop: disarm the timer and reset the counter. */
  function StopStep(s: SynthState): (r: SynthState)
    ensures !r.isPlaying && !r.intervalActive && r.currentBeat == 0
    ensures Consistent(r)
  {
    SynthState(false, false, 0)
  }

  /** Stopping twice leaves the same state as stopping once. */
  lemma StopIsIdempotent(s: SynthState)
    ensures StopStep(StopStep(s)) == StopStep(s)
  {
  }

  /** One firing of the repeating timer: play a beat, then advance the counter
      a second time, modulo 16. */
  function TimerStep(s: SynthState): (r: SynthState)
    requires 0 <= s.currentBeat
    ensures r.isPlaying == s.isPlaying && r.intervalActive == s.intervalActive
    ensures Consistent(s) && s.isPlaying ==> r.currentBeat == (s.currentBeat + 2) % TimerWrap
    ensures !s.isPlaying ==> r == s
    ensures Consistent(s) ==> Consistent(r)
  {
    if s.isPlaying then s.(currentBeat := (AfterBeat(s.currentBeat) + 1) % TimerWrap) else s
  }

  /** The beat one firing of the timer plays, if any. */
  function TimerBeat(s: SynthState): Option<Beat>
    requires 0 <= s.currentBeat
  {
    if s.isPlaying then Some(BeatAt(s.currentBeat % SequenceLength)) else None
  }

  /** The sequence positions that the next `n` firings of the timer play. */
  function TimerPositions(s: SynthState, n: nat): seq<int>
    requires Consistent(s)
    decreases n
  {
    if n == 0 || !s.isPlaying then [] else [s.currentBeat % SequenceLength] + TimerPositions(TimerStep(s), n - 1)
  }

  /** While playing, the timer plays odd positions below 16, starting at the
      counter and stepping by two modulo 16: 1, 3, ..., 15, 1, ... after start. */
  lemma {:induction false} TimerPositionsWalkOdd(s: SynthState, n: nat)
    requires Consistent(s) && s.isPlaying
    ensures |TimerPositions(s, n)| == n
    ensures n > 0 ==> TimerPositions(s, n)[0] == s.currentBeat
    ensures forall i :: 0 <= i < n ==> 0 <= TimerPositions(s, n)[i] < TimerWrap && TimerPositions(s, n)[i] % 2 == 1
    ensures forall i :: 0 <= i < n - 1 ==> TimerPositions(s, n)[i + 1] == (TimerPositions(s, n)[i] + 2) % TimerWrap
    decreases n
  {
    if n > 0 {
      var t := TimerStep(s);
      TimerPositionsWalkOdd(t, n - 1);
      var ps := TimerPositions(s, n);
      assert ps == [s.currentBeat] + TimerPositions(t, n - 1);
    }
  }

  /** After start, the beat played at once is the full downbeat, but every beat
      the timer plays afterwards falls on an odd position and triggers nothing. */
  lemma {:induction false} TimerBeatsAfterStartAreSilent(n: nat)
    ensures StartBeat(Idle) == Some(BeatAt(0))
    ensures |TimerPositions(StartStep(Idle), n)| == n
    ensures forall i :: 0 <= i < n ==>
      var p := TimerPositions(StartStep(Idle), n)[i];
      0 <= p < TimerWrap && p % 2 == 1 && Silent(BeatAt(p))
  {
    var s := StartStep(Idle);
    TimerPositionsWalkOdd(s, n);
    forall i | 0 <= i < n
      ensures var p := TimerPositions(s, n)[i]; 0 <= p < TimerWrap && p % 2 == 1 && Silent(BeatAt(p))
    {
      OddPositionsAreSilent(TimerPositions(s, n)[i]);
    }
  }

  /** The scheduler object: the three fields start, stop and the timer update. */
  class Synth {
    var isPlaying: bool
    var intervalActive: bool
    var currentBeat: int

    function State(): SynthState
      reads this
    {
      SynthState(isPlaying, intervalActive, currentBeat)
    }

    ghost predicate Valid()
      reads this
    {
      Consistent(State())
    }

    constructor ()
      ensures Valid() && State() == Idle
    {
      isPlaying := false;
      intervalActive := false;
      currentBeat := 0;
    }

    /** The per-beat routine: the masks at `currentBeat % 64`, then the advance. */
    method PlayBeat() returns (beat: Beat)
      requires 0 <= currentBeat
      modifies this`currentBeat
      ensures beat == BeatAt(old(currentBeat) % SequenceLength)
      ensures currentBeat == AfterBeat(old(currentBeat))
    {
      var position := currentBeat % SequenceLength;
      beat := BeatAt(position);
      currentBeat := (currentBeat + 1) % SequenceLength;
    }

    method Start() returns (heard: Option<Beat>)
      requires Valid()
      modifies this
      ensures Valid()
      ensures State() == StartStep(old(State())) && heard == StartBeat(old(State()))
    {
      if isPlaying {
        return None;
      }
      isPlaying := true;
      currentBeat := 0;
      var beat := PlayBeat();
      intervalActive := true;
      heard := Some(beat);
    }

    /** One firing of the repeating timer. */
    method OnTimer() returns (heard: Option<Beat>)
      requires Valid()
      modifies this`currentBeat
      ensures Valid()
      ensures State() == TimerStep(old(State())) && heard == TimerBeat(old(State()))
      ensures heard.Some? ==> Silent(heard.value)
    {
      heard := None;
      if isPlaying {
        ghost var was := State();
        assert currentBeat % SequenceLength == currentBeat;
        OddPositionsAreSilent(currentBeat);
        var beat := PlayBeat();
        currentBeat := (currentBeat + 1) % TimerWrap;
        heard := Some(beat);
        assert State() == TimerStep(was);
      }
    }

    method Stop()
      requires Valid()
      modifies this
      ensures Valid()
      ensures State() == StopStep(old(State()))
    {
      isPlaying := false;
      if intervalActive {
        intervalActive := false;
      }
      currentBeat := 0;
    }
  }
}
