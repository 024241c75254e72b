/** The body of the per-session one-second timer: advance game time and, when
    an escalation period has elapsed, raise the difficulty multiplier. */
module Ticker {
  import opened GameModel

  /** The escalation test the tick applies to the already-incremented time
      (the interval is in milliseconds, the clock in seconds). */
  predicate EscalationDue(g: GameState, time: int) {
    (time - g.lastDifficultyIncrease) as real >= g.difficultyInterval as real / 1000.0
  }

  /** One tick applied to a session's state. */
  function Advance(g: GameState): (g': GameState)
    ensures g'.gameTime == g.gameTime + 1
    ensures EscalationDue(g, g'.gameTime) ==>
              g'.difficultyMultiplier == g.difficultyMultiplier + 0.2 && g'.lastDifficultyIncrease == g'.gameTime
    ensures !EscalationDue(g, g'.gameTime) ==>
              g'.difficultyMultiplier == g.difficultyMultiplier && g'.lastDifficultyIncrease == g.lastDifficultyIncrease
    ensures g'.difficultyMultiplier >= g.difficultyMultiplier
    ensures g' == g.(gameTime := g'.gameTime, difficultyMultiplier := g'.difficultyMultiplier,
                     lastDifficultyIncrease := g'.lastDifficultyIncrease)
  {
    var t := g.gameTime + 1;
    if EscalationDue(g, t) then
      g.(gameTime := t, difficultyMultiplier := g.difficultyMultiplier + EscalationStep, lastDifficultyIncrease := t)
    else
      g.(gameTime := t)
  }

  /** The timer callback for session gameId. A missing session makes it a no-op;
      otherwise "difficulty-increase" (when due) precedes the unconditional
      "game-time-update", both carrying the updated values. */
  function Tick(srv: Server, gameId: string): (r: Step)
    ensures gameId !in srv.sessions ==> r == Step(srv, [])
    ensures gameId in srv.sessions ==>
              && OnlySession(srv, r.server, gameId)
              && r.server.sessions[gameId] == Advance(srv.sessions[gameId])
    ensures gameId in srv.sessions ==>
              var g := srv.sessions[gameId];
              var g' := r.server.sessions[gameId];
              && |r.out| == (if EscalationDue(g, g.gameTime + 1) then 2 else 1)
              && r.out[|r.out| - 1] == Outgoing(Room(gameId), GameTimeUpdate(g'.gameTime, g'.difficultyMultiplier))
              && (|r.out| == 2 ==> r.out[0] == Outgoing(Room(gameId), DifficultyIncrease(g'.difficultyMultiplier)))
  {
    if gameId !in srv.sessions then Step(srv, [])
    else
      var g := srv.sessions[gameId];
      var g' := Advance(g);
      var raised := if EscalationDue(g, g'.gameTime)
                    then [Outgoing(Room(gameId), DifficultyIncrease(g'.difficultyMultiplier))]
                    else [];
      Step(srv.(sessions := srv.sessions[gameId := g']),
           raised + [Outgoing(Room(gameId), GameTimeUpdate(g'.gameTime, g'.difficultyMultiplier))])
  }

  /** On a consistent clock the escalation fires exactly when the new time is
      a multiple of the escalation period (15 ticks). */
  lemma EscalatesOnMultiples(g: GameState)
    requires ClockConsistent(g)
    ensures EscalationDue(g, g.gameTime + 1) <==> (g.gameTime + 1) % EscalationTicks == 0
  {
    var t := g.gameTime;
    assert t == EscalationTicks * (t / EscalationTicks) + t % EscalationTicks;
    assert g.difficultyInterval as real / 1000.0 == 15.0;
    assert t + 1 - g.lastDifficultyIncrease == t % EscalationTicks + 1;
    ModSucc(t);
  }

  /** How the period index and remainder move when the clock advances by one. */
  lemma ModSucc(t: int)
    requires t >= 0
    ensures t % 15 == 14 ==> (t + 1) % 15 == 0 && (t + 1) / 15 == t / 15 + 1
    ensures t % 15 != 14 ==> (t + 1) % 15 == t % 15 + 1 && (t + 1) / 15 == t / 15
  {
  }

  /** A tick keeps the clock invariant. */
  lemma AdvancePreservesClock(g: GameState)
    requires ClockConsistent(g)
    ensures ClockConsistent(Advance(g))
  {
    EscalatesOnMultiples(g);
    ModSucc(g.gameTime);
  }

  /** n ticks in a row. */
  function Ticks(g: GameState, n: nat): GameState
  {
    if n == 0 then g else Advance(Ticks(g, n - 1))
  }

  /** The escalation schedule: n ticks from a fresh session leave game time n,
      the last escalation at the last multiple of 15, and the multiplier
      raised by 0.2 per completed 15 ticks. */
  lemma {:induction false} TicksFromFresh(n: nat)
    ensures Ticks(Fresh(), n).gameTime == n
    ensures Ticks(Fresh(), n).lastDifficultyIncrease == 15 * (n / 15)
    ensures Ticks(Fresh(), n).difficultyMultiplier == 1.0 + 0.2 * (n / 15) as real
    ensures Ticks(Fresh(), n).enemies == [] && Ticks(Fresh(), n).towers == []
  {
    TicksKeepClock(Fresh(), n);
    TicksCount(Fresh(), n);
    TicksKeepRest(Fresh(), n);
  }

  lemma {:induction false} TicksKeepClock(g: GameState, n: nat)
    requires ClockConsistent(g)
    ensures ClockConsistent(Ticks(g, n))
  {
    if n > 0 {
      TicksKeepClock(g, n - 1);
      AdvancePreservesClock(Ticks(g, n - 1));
    }
  }

  lemma {:induction false} TicksCount(g: GameState, n: nat)
    ensures Ticks(g, n).gameTime == g.gameTime + n
  {
    if n > 0 {
      TicksCount(g, n - 1);
    }
  }

  lemma {:induction false} TicksKeepRest(g: GameState, n: nat)
    ensures Ticks(g, n).enemies == g.enemies && Ticks(g, n).towers == g.towers
    ensures Ticks(g, n).score == g.score && Ticks(g, n).money == g.money
    ensures Ticks(g, n).barrierHealth == g.barrierHealth
  {
    if n > 0 {
      TicksKeepRest(g, n - 1);
    }
  }

  /** Over any number of ticks the multiplier never decreases. */
  lemma {:induction false} TicksMonotone(g: GameState, n: nat)
    ensures Ticks(g, n).difficultyMultiplier >= g.difficultyMultiplier
  {
    if n > 0 {
      TicksMonotone(g, n - 1);
    }
  }
}
