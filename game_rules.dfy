/** The rules of a hacking session: the records the session holds and the pure
    updates that the once-per-second timers, the two phases of an attack, the
    outcome check and the tutorial buttons apply to them. The mutable session
    that applies these updates is GameSession.Game. */
module GameRules {
  import opened LogText
  import opened Wrappers

  /** The transient tag a layer shows while an attack on it plays out
      ('hacking', 'success', 'failure'); None stands for an absent or null tag. */
  datatype Animation = Hacking | Success | Failure

  datatype SecurityLayer = SecurityLayer(name: string, difficulty: int, broken: bool, animating: Option<Animation>)

  datatype HackingCommand = HackingCommand(name: string, power: int, cooldown: int, isAvailable: bool, powerCost: int)

  datatype PlayerPower = PlayerPower(current: int, max: int, regenRate: int)

  const TraceLimit := 100
  const TraceGain := 2
  const CooldownPenalty := 3
  const TutorialStepCount := 8

  const InitialLayers: seq<SecurityLayer> := [
    SecurityLayer("Firewall", 3, false, None),
    SecurityLayer("Encryption", 4, false, None),
    SecurityLayer("Neural ICE", 5, false, None),
    SecurityLayer("Black ICE", 7, false, None)
  ]

  const InitialCommands: seq<HackingCommand> := [
    HackingCommand("BYPASS.exe", 2, 0, true, 3),
    HackingCommand("CRYPTCRACK.exe", 3, 1, true, 4),
    HackingCommand("NEURAL_STORM.exe", 4, 2, true, 6),
    HackingCommand("ICE_BREAKER.exe", 5, 3, true, 8)
  ]

  const InitialPower := PlayerPower(10, 10, 1)

  const InitialLogs: seq<string> := ["> INITIATING HACK SEQUENCE...", "> CONNECTING TO MAINFRAME..."]

  function Min(a: int, b: int): int { if a <= b then a else b }

  function Max(a: int, b: int): int { if a >= b then a else b }

  /** Two layers agree on what no update ever changes. */
  predicate SameLayer(a: SecurityLayer, b: SecurityLayer)
  {
    a.name == b.name && a.difficulty == b.difficulty
  }

  /** Two commands agree on what no update ever changes. */
  predicate SameCommand(a: HackingCommand, b: HackingCommand)
  {
    a.name == b.name && a.power == b.power && a.powerCost == b.powerCost
  }

  // ---------------------------------------------------------------------------
  // The trace timer

  /** One second of the trace timer while the session is not over. */
  function TraceStep(trace: int): (r: int)
    ensures trace <= TraceLimit ==> trace < r <= TraceLimit || r == trace == TraceLimit
    ensures r == TraceLimit <==> trace >= TraceLimit - TraceGain
  {
    Min(trace + TraceGain, TraceLimit)
  }

  /** The trace after `k` seconds of an unfinished session. */
  function TraceAfter(trace: int, k: nat): int
  {
    if k == 0 then trace else TraceStep(TraceAfter(trace, k - 1))
  }

  /** The trace climbs by two a second and saturates at the limit. */
  lemma {:induction false} TraceAfterClosedForm(trace: int, k: nat)
    requires 0 <= trace <= TraceLimit
    ensures TraceAfter(trace, k) == Min(trace + TraceGain * k, TraceLimit)
  {
    if k > 0 {
      TraceAfterClosedForm(trace, k - 1);
    }
  }

  /** From a fresh session the trace reaches the limit in exactly fifty seconds. */
  lemma FreshTraceCompletesAtFifty(k: nat)
    ensures TraceAfter(0, k) == TraceLimit <==> k >= 50
  {
    TraceAfterClosedForm(0, k);
  }

  // ---------------------------------------------------------------------------
  // The cooldown timer (it runs whether or not the session is over)

  /** One second of the cooldown timer for one command: availability is taken
      from the cooldown BEFORE it is decremented. */
  function CooldownStep(c: HackingCommand): (r: HackingCommand)
    ensures SameCommand(r, c)
    ensures r.isAvailable ==> r.cooldown == 0
    ensures 0 <= c.cooldown ==> 0 <= r.cooldown <= c.cooldown
    ensures 0 < c.cooldown ==> r.cooldown < c.cooldown && !r.isAvailable
  {
    c.(cooldown := Max(0, c.cooldown - 1), isAvailable := c.cooldown == 0)
  }

  /** One second of the cooldown timer: every command steps independently. */
  function CooldownAll(cs: seq<HackingCommand>): (r: seq<HackingCommand>)
    ensures |r| == |cs|
    ensures forall i :: 0 <= i < |cs| ==> r[i] == CooldownStep(cs[i])
  {
    seq(|cs|, i requires 0 <= i < |cs| => CooldownStep(cs[i]))
  }

  /** A command after `k` seconds of the cooldown timer. */
  function CooldownTicks(c: HackingCommand, k: nat): HackingCommand
  {
    if k == 0 then c else CooldownStep(CooldownTicks(c, k - 1))
  }

  /** A command with cooldown `n` counts down to zero in `n` seconds and becomes
      available one second later, not at the moment its cooldown reads zero. */
  lemma {:induction false} AvailableOneTickAfterZero(c: HackingCommand, k: nat)
    requires 0 <= c.cooldown && 1 <= k
    ensures CooldownTicks(c, k).cooldown == Max(0, c.cooldown - k)
    ensures CooldownTicks(c, k).isAvailable <==> k > c.cooldown
    ensures SameCommand(CooldownTicks(c, k), c)
  {
    if k > 1 {
      AvailableOneTickAfterZero(c, k - 1);
    }
  }

  // ---------------------------------------------------------------------------
  // The power timer

  /** One second of regeneration while the session is not over. */
  function RegenStep(p: PlayerPower): (r: PlayerPower)
    ensures r.max == p.max && r.regenRate == p.regenRate
    ensures p.current <= p.max ==> r.current <= r.max
    ensures 0 <= p.regenRate && p.current <= p.max ==> p.current <= r.current
  {
    p.(current := Min(p.current + p.regenRate, p.max))
  }

  function RegenAfter(p: PlayerPower, k: nat): PlayerPower
  {
    if k == 0 then p else RegenStep(RegenAfter(p, k - 1))
  }

  /** Power refills by the regeneration rate each second, up to the maximum;
      this holds from a negative balance too. */
  lemma {:induction false} RegenAfterClosedForm(p: PlayerPower, k: nat)
    requires p.current <= p.max && 0 <= p.regenRate
    ensures RegenAfter(p, k) == p.(current := Min(p.current + k * p.regenRate, p.max))
  {
    if k > 0 {
      RegenAfterClosedForm(p, k - 1);
      assert (k - 1) * p.regenRate + p.regenRate == k * p.regenRate;
    }
  }

  // ---------------------------------------------------------------------------
  // Invoking an attack

  /** How executeCommand's guards, tried in their fixed order, treat an attempt. */
  datatype Screening =
    | Ignored                               // the session is over
    | Insufficient(current: int, cost: int) // too little power: one log line
    | Blocked                               // on cooldown, or layer already broken
    | Accepted

  function Screen(gameOver: bool, power: PlayerPower, command: HackingCommand, layer: SecurityLayer): (v: Screening)
    ensures v == Ignored <==> gameOver
    ensures v.Insufficient? <==> !gameOver && power.current < command.powerCost
    ensures v.Insufficient? ==> v == Insufficient(power.current, command.powerCost)
    ensures v == Accepted <==> !gameOver && power.current >= command.powerCost && command.isAvailable && !layer.broken
  {
    if gameOver then Ignored
    else if power.current < command.powerCost then Insufficient(power.current, command.powerCost)
    else if !command.isAvailable || layer.broken then Blocked
    else Accepted
  }

  /** The log lines a screening appends: only a power shortfall is reported. */
  function RefusalLog(v: Screening): (lines: seq<string>)
    ensures |lines| == if v.Insufficient? then 1 else 0
    ensures v.Insufficient? ==> lines[0] == InsufficientPowerLine(v.current, v.cost)
  {
    if v.Insufficient? then [InsufficientPowerLine(v.current, v.cost)] else []
  }

  /** Whether the command row shows a target button for the layer. */
  predicate TargetOffered(gameOver: bool, power: PlayerPower, command: HackingCommand, layer: SecurityLayer)
  {
    command.isAvailable && !gameOver && power.current >= command.powerCost && !layer.broken
  }

  /** A click on an offered button passes every guard, and every attempt that
      would pass the guards has its button on screen. */
  lemma OfferedTargetsAreAccepted(gameOver: bool, power: PlayerPower, command: HackingCommand, layer: SecurityLayer)
    ensures TargetOffered(gameOver, power, command, layer) <==> Screen(gameOver, power, command, layer) == Accepted
  {
  }

  /** What an accepted invocation remembers until it resolves: the indices, and
      the command and layer as they were when the attack was launched. */
  datatype PendingAttack = PendingAttack(commandIndex: int, layerIndex: int, command: HackingCommand, layer: SecurityLayer)

  /** The record was built from the session's own tables. */
  predicate Issued(p: PendingAttack)
  {
    && 0 <= p.commandIndex < |InitialCommands| && SameCommand(p.command, InitialCommands[p.commandIndex])
    && 0 <= p.layerIndex < |InitialLayers| && SameLayer(p.layer, InitialLayers[p.layerIndex])
  }

  /** The layer list with the tag of layer `i` replaced (no change when `i` is
      not an index of the list). */
  function MarkAt(layers: seq<SecurityLayer>, i: int, tag: Option<Animation>): (r: seq<SecurityLayer>)
    ensures |r| == |layers|
    ensures forall j :: 0 <= j < |layers| ==> SameLayer(r[j], layers[j]) && r[j].broken == layers[j].broken
    ensures forall j :: 0 <= j < |layers| && j != i ==> r[j] == layers[j]
    ensures 0 <= i < |layers| ==> r[i].animating == tag
  {
    seq(|layers|, j requires 0 <= j < |layers| => if j == i then layers[j].(animating := tag) else layers[j])
  }

  // ---------------------------------------------------------------------------
  // Resolving an attack

  /** The outcome rule: strength against difficulty, nothing else. */
  predicate Succeeds(command: HackingCommand, layer: SecurityLayer)
  {
    command.power >= layer.difficulty
  }

  /** The layer list after an attack on layer `i` resolves: `broken` can only
      become true, and no other layer changes. */
  function ResolveAt(layers: seq<SecurityLayer>, i: int, success: bool): (r: seq<SecurityLayer>)
    ensures |r| == |layers|
    ensures forall j :: 0 <= j < |layers| ==> SameLayer(r[j], layers[j]) && (layers[j].broken ==> r[j].broken)
    ensures forall j :: 0 <= j < |layers| && j != i ==> r[j] == layers[j]
    ensures 0 <= i < |layers| ==> (r[i].broken <==> layers[i].broken || success)
    ensures 0 <= i < |layers| ==> r[i].animating == Some(if success then Success else Failure)
  {
    seq(|layers|, j requires 0 <= j < |layers| =>
      if j == i then layers[j].(animating := Some(if success then Success else Failure), broken := layers[j].broken || success)
      else layers[j])
  }

  /** The command list after command `i` is used: its cooldown grows by three
      (stacking on what is left) and it is unavailable; the others do not change. */
  function ChargeAt(cs: seq<HackingCommand>, i: int): (r: seq<HackingCommand>)
    ensures |r| == |cs|
    ensures forall j :: 0 <= j < |cs| && j != i ==> r[j] == cs[j]
    ensures 0 <= i < |cs| ==> SameCommand(r[i], cs[i]) && r[i].cooldown == cs[i].cooldown + CooldownPenalty && !r[i].isAvailable
  {
    seq(|cs|, j requires 0 <= j < |cs| =>
      if j == i then cs[j].(cooldown := cs[j].cooldown + CooldownPenalty, isAvailable := false) else cs[j])
  }

  /** The three lines a resolution appends, from the snapshot taken at invocation. */
  function ResolutionLog(command: HackingCommand, layer: SecurityLayer): (lines: seq<string>)
    ensures |lines| == 3
    ensures lines[0] == ExecutingLine(command.name) && lines[1] == PowerConsumedLine(command.powerCost)
    ensures lines[2] == BreachedLine(layer.name) <==> Succeeds(command, layer)
    ensures !Succeeds(command, layer) ==> lines[2] == BreachFailedLine
  {
    BreachedLineIsNotFailure(layer.name);
    [ExecutingLine(command.name), PowerConsumedLine(command.powerCost),
     if Succeeds(command, layer) then BreachedLine(layer.name) else BreachFailedLine]
  }

  /** Breached lines end in '!', the failure line does not; so the last line of a
      resolution tells the two outcomes apart. */
  lemma BreachedLineIsNotFailure(name: string)
    ensures BreachedLine(name) != BreachFailedLine
  {
    var b := BreachedLine(name);
    assert b[|b| - 1] == '!';
    assert BreachFailedLine[|BreachFailedLine| - 1] == 'R';
  }

  // ---------------------------------------------------------------------------
  // The outcome check

  predicate AllBroken(layers: seq<SecurityLayer>)
  {
    forall i :: 0 <= i < |layers| ==> layers[i].broken
  }

  /** The lines one run of the outcome check appends; the two checks are
      independent, so both lines can appear together. */
  function OutcomeLog(trace: int, layers: seq<SecurityLayer>): (lines: seq<string>)
    ensures TraceCompleteLine in lines <==> trace >= TraceLimit
    ensures HackSuccessfulLine in lines <==> AllBroken(layers)
    ensures |lines| == (if trace >= TraceLimit then 1 else 0) + (if AllBroken(layers) then 1 else 0)
    ensures trace >= TraceLimit ==> lines[0] == TraceCompleteLine
  {
    (if trace >= TraceLimit then [TraceCompleteLine] else []) + (if AllBroken(layers) then [HackSuccessfulLine] else [])
  }

  /** When the trace completes just as the last layer falls, one run of the
      check reports both, failure first. */
  lemma BothOutcomesInOneCheck(layers: seq<SecurityLayer>)
    requires AllBroken(layers)
    ensures OutcomeLog(TraceLimit, layers) == [TraceCompleteLine, HackSuccessfulLine]
  {
  }

  // ---------------------------------------------------------------------------
  // The tutorial cursor

  datatype TutorialCursor = TutorialCursor(step: int, show: bool, complete: bool)

  /** The Next handler: advance, or on the last step close the tutorial and mark
      it complete without moving the step. */
  function TutorialNext(t: TutorialCursor): (r: TutorialCursor)
    ensures 0 <= t.step < TutorialStepCount ==> 0 <= r.step < TutorialStepCount
    ensures r.step == t.step + 1 || (r.step == t.step && !r.show && r.complete)
    ensures r.step == t.step + 1 <==> t.step < TutorialStepCount - 1
    ensures t.step < TutorialStepCount - 1 ==> r.show == t.show && r.complete == t.complete
  {
    if t.step < TutorialStepCount - 1 then t.(step := t.step + 1)
    else t.(show := false, complete := true)
  }

  function TutorialAfter(t: TutorialCursor, k: nat): TutorialCursor
  {
    if k == 0 then t else TutorialNext(TutorialAfter(t, k - 1))
  }

  /** Each Next click moves one step while steps remain. */
  lemma {:induction false} TutorialWalk(t: TutorialCursor, k: nat)
    requires 0 <= t.step && t.step + k < TutorialStepCount
    ensures TutorialAfter(t, k) == t.(step := t.step + k)
  {
    if k > 0 {
      TutorialWalk(t, k - 1);
    }
  }

  /** From the first step, seven clicks reach the last step and the eighth closes
      the tutorial and marks it complete. */
  lemma TutorialCompletesAfterEightClicks(show: bool, complete: bool)
    ensures TutorialAfter(TutorialCursor(0, show, complete), TutorialStepCount - 1) == TutorialCursor(TutorialStepCount - 1, show, complete)
    ensures TutorialAfter(TutorialCursor(0, show, complete), TutorialStepCount) == TutorialCursor(TutorialStepCount - 1, false, true)
  {
    TutorialWalk(TutorialCursor(0, show, complete), TutorialStepCount - 1);
  }
}
