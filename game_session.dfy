/** The hacking session as the App component holds it: one field per piece of
    React state, one method per timer tick, click or timeout body. The caller
    decides the interleaving of ticks, clicks, resolutions and outcome checks,
    as the browser's timers and React's effects do. */
module GameSession {
  import opened LogText
  import opened GameRules
  import opened Wrappers

  /** Which screen is up ('start', 'tutorial', 'playing'). */
  datatype GameScreen = StartScreen | TutorialScreen | Playing

  class Game {
    var gameState: GameScreen
    var securityLayers: seq<SecurityLayer>
    var playerPower: PlayerPower
    var commands: seq<HackingCommand>
    var logs: seq<string>
    var traceLevel: int
    var gameOver: bool
    var success: bool
    var showTutorial: bool
    var tutorialStep: int
    var tutorialComplete: bool

    /** What holds between any two steps of a session. */
    ghost predicate Valid()
      reads this
    {
      && |securityLayers| == |InitialLayers|
      && (forall i :: 0 <= i < |securityLayers| ==> SameLayer(securityLayers[i], InitialLayers[i]))
      && |commands| == |InitialCommands|
      && (forall i :: 0 <= i < |commands| ==> SameCommand(commands[i], InitialCommands[i]) && 0 <= commands[i].cooldown)
      // an available command has no cooldown left, except an entry still as
      // first listed (those start available with cooldowns 1, 2 and 3)
      && (forall i :: 0 <= i < |commands| && commands[i].isAvailable ==> commands[i].cooldown == 0 || commands[i] == InitialCommands[i])
      && playerPower.max == InitialPower.max && playerPower.regenRate == InitialPower.regenRate
      && playerPower.current <= playerPower.max
      && 0 <= traceLevel <= TraceLimit && traceLevel % TraceGain == 0
      && 0 <= tutorialStep < TutorialStepCount
      && (success ==> gameOver && AllBroken(securityLayers))
      && (gameOver ==> traceLevel == TraceLimit || AllBroken(securityLayers))
      && InitialLogs <= logs
    }

    function Cursor(): TutorialCursor
      reads this
    {
      TutorialCursor(tutorialStep, showTutorial, tutorialComplete)
    }

    /** The state the component mounts with. */
    constructor ()
      ensures Valid()
      ensures gameState == StartScreen
      ensures securityLayers == InitialLayers && commands == InitialCommands && playerPower == InitialPower
      ensures logs == InitialLogs && traceLevel == 0 && !gameOver && !success
      ensures Cursor() == TutorialCursor(0, true, false)
    {
      gameState := StartScreen;
      securityLayers := InitialLayers;
      playerPower := InitialPower;
      commands := InitialCommands;
      logs := InitialLogs;
      traceLevel := 0;
      gameOver := false;
      success := false;
      showTutorial := true;
      tutorialStep := 0;
      tutorialComplete := false;
    }

    /** The trace timer, once a second on every screen; frozen once the session is over. */
    method TraceTick()
      requires Valid()
      modifies this`traceLevel
      ensures Valid()
      ensures traceLevel == if gameOver then old(traceLevel) else TraceStep(old(traceLevel))
      ensures old(traceLevel) <= traceLevel <= TraceLimit
    {
      if !gameOver {
        traceLevel := TraceStep(traceLevel);
      }
    }

    /** The cooldown timer, once a second, whether or not the session is over. */
    method CooldownTick()
      requires Valid()
      modifies this`commands
      ensures Valid()
      ensures commands == CooldownAll(old(commands))
      ensures forall i :: 0 <= i < |commands| && commands[i].isAvailable ==> commands[i].cooldown == 0
    {
      commands := CooldownAll(commands);
    }

    /** The power timer, once a second; frozen once the session is over. */
    method RegenTick()
      requires Valid()
      modifies this`playerPower
      ensures Valid()
      ensures playerPower == if gameOver then old(playerPower) else RegenStep(old(playerPower))
      ensures old(playerPower.current) <= playerPower.current <= playerPower.max
    {
      if !gameOver {
        playerPower := RegenStep(playerPower);
      }
    }

    /** The synchronous part of executeCommand: the guards, and on success the
        'hacking' tag on the target layer. The returned record stands for the
        timeout armed with the command and layer as they were at this moment. */
    method Invoke(commandIndex: int, layerIndex: int) returns (pending: Option<PendingAttack>)
      requires Valid()
      requires gameOver || (0 <= commandIndex < |commands| && 0 <= layerIndex < |securityLayers|)
      modifies this`securityLayers, this`logs
      ensures Valid()
      ensures gameOver ==> pending == None && securityLayers == old(securityLayers) && logs == old(logs)
      ensures !gameOver ==>
        var v := Screen(gameOver, playerPower, old(commands[commandIndex]), old(securityLayers[layerIndex]));
        && (pending.Some? <==> v == Accepted)
        && logs == old(logs) + RefusalLog(v)
        && securityLayers == if v == Accepted then MarkAt(old(securityLayers), layerIndex, Some(Hacking)) else old(securityLayers)
      ensures pending.Some? ==>
        && pending.value == PendingAttack(commandIndex, layerIndex, old(commands[commandIndex]), old(securityLayers[layerIndex]))
        && Issued(pending.value)
    {
      if gameOver {
        return None;
      }
      var command := commands[commandIndex];
      var layer := securityLayers[layerIndex];
      if playerPower.current < command.powerCost {
        logs := logs + [InsufficientPowerLine(playerPower.current, command.powerCost)];
        return None;
      }
      if !command.isAvailable || layer.broken {
        return None;
      }
      securityLayers := MarkAt(securityLayers, layerIndex, Some(Hacking));
      pending := Some(PendingAttack(commandIndex, layerIndex, command, layer));
    }

    /** The first timeout of an accepted attack, one second later. It is not
        gated on the session being over and does not clamp power: the cost is
        taken from whatever power is left now. */
    method Resolve(p: PendingAttack)
      requires Valid() && Issued(p)
      modifies this`securityLayers, this`playerPower, this`logs, this`commands
      ensures Valid()
      ensures securityLayers == ResolveAt(old(securityLayers), p.layerIndex, Succeeds(p.command, p.layer))
      ensures playerPower == old(playerPower).(current := old(playerPower.current) - p.command.powerCost)
      ensures logs == old(logs) + ResolutionLog(p.command, p.layer)
      ensures commands == ChargeAt(old(commands), p.commandIndex)
    {
      var success := Succeeds(p.command, p.layer);
      securityLayers := ResolveAt(securityLayers, p.layerIndex, success);
      playerPower := playerPower.(current := playerPower.current - p.command.powerCost);
      logs := logs + ResolutionLog(p.command, p.layer);
      commands := ChargeAt(commands, p.commandIndex);
    }

    /** The second timeout, one second after the first: clears the layer's tag. */
    method ClearAnimation(layerIndex: int)
      requires Valid()
      modifies this`securityLayers
      ensures Valid()
      ensures securityLayers == MarkAt(old(securityLayers), layerIndex, None)
    {
      securityLayers := MarkAt(securityLayers, layerIndex, None);
    }

    /** The outcome effect, re-run after every change of the layers or of the
        trace. It is not edge-triggered: each run under a finished condition
        appends its line again. */
    method CheckOutcome()
      requires Valid()
      modifies this`gameOver, this`success, this`logs
      ensures Valid()
      ensures gameOver == (old(gameOver) || traceLevel >= TraceLimit || AllBroken(securityLayers))
      ensures success == (old(success) || AllBroken(securityLayers))
      ensures logs == old(logs) + OutcomeLog(traceLevel, securityLayers)
    {
      if traceLevel >= TraceLimit {
        gameOver := true;
        logs := logs + [TraceCompleteLine];
      }
      if AllBroken(securityLayers) {
        success := true;
        gameOver := true;
        logs := logs + [HackSuccessfulLine];
      }
    }

    /** The Next handler of the tutorial (no element of the page calls it). */
    method TutorialNextClick()
      requires Valid()
      modifies this`tutorialStep, this`showTutorial, this`tutorialComplete
      ensures Valid()
      ensures Cursor() == TutorialNext(old(Cursor()))
    {
      if tutorialStep < TutorialStepCount - 1 {
        tutorialStep := tutorialStep + 1;
      } else {
        showTutorial := false;
        tutorialComplete := true;
      }
    }

    /** 'START WITH TUTORIAL' on the start screen. */
    method StartTutorial()
      requires Valid()
      modifies this`gameState, this`showTutorial, this`tutorialStep
      ensures Valid()
      ensures gameState == TutorialScreen && Cursor() == old(Cursor()).(step := 0, show := true)
    {
      gameState := TutorialScreen;
      showTutorial := true;
      tutorialStep := 0;
    }

    /** 'DIRECT SYSTEM ACCESS' on the start screen. */
    method StartGame()
      requires Valid()
      modifies this`gameState, this`showTutorial, this`tutorialComplete
      ensures Valid()
      ensures gameState == Playing && Cursor() == old(Cursor()).(show := false, complete := true)
    {
      gameState := Playing;
      showTutorial := false;
      tutorialComplete := true;
    }

    /** 'SHOW TUTORIAL', offered once the tutorial is complete. */
    method ShowTutorialAgain()
      requires Valid() && tutorialComplete
      modifies this`showTutorial, this`tutorialStep
      ensures Valid()
      ensures Cursor() == old(Cursor()).(step := 0, show := true)
    {
      showTutorial := true;
      tutorialStep := 0;
    }
  }

  /** Each session below enters the game through 'DIRECT SYSTEM ACCESS' first,
      as a player must before any target button is shown. */

  /** BYPASS.exe (strength 2, cost 3) against the Firewall (difficulty 3) in a
      fresh session: the attack fails, yet the cost is charged and the command
      cools down for three seconds. */
  method FailedBypass() returns (broken: bool, power: int, cooldown: int, lines: seq<string>)
    ensures !broken && power == 7 && cooldown == 3
    ensures lines == ["> EXECUTING BYPASS.exe...", "> POWER CONSUMED: 3", "> BREACH FAILED - INSUFFICIENT POWER"]
  {
    var g := new Game();
    g.StartGame();
    var p := g.Invoke(0, 0);
    g.Resolve(p.value);
    g.ClearAnimation(0);
    broken, power, cooldown := g.securityLayers[0].broken, g.playerPower.current, g.commands[0].cooldown;
    lines := g.logs[|g.logs| - 3..];
    assert lines == ResolutionLog(InitialCommands[0], InitialLayers[0]);
    SampleLines();
  }

  /** CRYPTCRACK.exe (strength 3) meets the Firewall's difficulty exactly and breaks it. */
  method CrackFirewall() returns (broken: bool, power: int, line: string)
    ensures broken && power == 6 && line == "> Firewall BREACHED!"
  {
    var g := new Game();
    g.StartGame();
    assert Screen(false, InitialPower, InitialCommands[1], InitialLayers[0]) == Accepted;
    var p := g.Invoke(1, 0);
    assert p == Some(PendingAttack(1, 0, InitialCommands[1], InitialLayers[0]));
    g.Resolve(p.value);
    assert g.logs == InitialLogs + ResolutionLog(InitialCommands[1], InitialLayers[0]);
    broken, power, line := g.securityLayers[0].broken, g.playerPower.current, g.logs[|g.logs| - 1];
    assert line == BreachedLine("Firewall");
    SampleLines();
  }

  /** With 7 power left, ICE_BREAKER.exe (cost 8) is refused with one log line
      and nothing else changes. */
  method RefusedForPower() returns (accepted: bool, line: string, power: int, tagged: bool)
    ensures !accepted && line == "> ERROR: INSUFFICIENT POWER (7/8)" && power == 7 && !tagged
  {
    var g := new Game();
    g.StartGame();
    assert Screen(false, InitialPower, InitialCommands[0], InitialLayers[0]) == Accepted;
    var p := g.Invoke(0, 0);
    g.Resolve(p.value);
    g.ClearAnimation(0);
    assert g.playerPower == PlayerPower(7, 10, 1);
    assert g.securityLayers[1] == InitialLayers[1];
    ghost var before := g.logs;
    assert Screen(false, g.playerPower, g.commands[3], g.securityLayers[1]) == Insufficient(7, 8);
    var q := g.Invoke(3, 1);
    assert g.logs == before + [InsufficientPowerLine(7, 8)];
    accepted, line, power, tagged := q.Some?, g.logs[|g.logs| - 1], g.playerPower.current, g.securityLayers[1].animating.Some?;
    SampleLines();
  }

  /** Power is checked when an attack is launched but charged when it resolves,
      so two attacks launched in the same second overdraw it: 10 - 3 - 8. */
  method DoubleSpend() returns (power: int)
    ensures power == -1
  {
    var g := new Game();
    g.StartGame();
    var p := g.Invoke(0, 0);
    var q := g.Invoke(3, 1);
    g.Resolve(p.value);
    g.Resolve(q.value);
    power := g.playerPower.current;
  }
}
