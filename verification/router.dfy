/** The event router: every inbound socket event and every timer firing is
    one transition of the server; a run applies them in arrival order. */
module Router {
  import opened Wrappers
  import opened GameModel
  import opened SessionStore
  import opened Ticker
  import Handlers

  /** The inbound events, plus the firing of a session's timer. */
  datatype Event =
    | JoinGame(gameId: string)
    | SpawnEnemy(gameId: string, enemy: Enemy)
    | EnemyDamage(gameId: string, enemyId: int, damage: int, health: int)
    | TowerPlaced(gameId: string, tower: Tower)
    | TowerMove(gameId: string, towerId: int, x: real, y: real, laneIndex: int)
    | TowerUpgrade(gameId: string, towerId: int)
    | TimerFired(gameId: string)

  /** Apply one event. Only the named session can change, and only a join
      adds a session or a timer. */
  function Apply(srv: Server, e: Event): (r: Step)
    ensures !e.JoinGame? ==> OnlySession(srv, r.server, e.gameId)
    ensures e.JoinGame? ==> r.server.sessions.Keys == srv.sessions.Keys + {e.gameId}
    ensures forall k :: k in srv.sessions && k != e.gameId ==>
              k in r.server.sessions && r.server.sessions[k] == srv.sessions[k]
    ensures !e.JoinGame? && e.gameId !in srv.sessions ==> r == Step(srv, [])
  {
    match e
    case JoinGame(k) => Join(srv, k)
    case SpawnEnemy(k, enemy) => Handlers.SpawnEnemy(srv, k, enemy)
    case EnemyDamage(k, id, damage, health) => Handlers.EnemyDamage(srv, k, id, damage, health)
    case TowerPlaced(k, tower) => Handlers.TowerPlaced(srv, k, tower)
    case TowerMove(k, id, x, y, lane) => Handlers.TowerMove(srv, k, id, x, y, lane)
    case TowerUpgrade(k, id) => Handlers.TowerUpgrade(srv, k, id)
    case TimerFired(k) => Tick(srv, k)
  }

  /** Apply the events in order; the emitted messages are concatenated in order. */
  function Run(srv: Server, es: seq<Event>): Step
    decreases |es|
  {
    if |es| == 0 then Step(srv, [])
    else
      var first := Apply(srv, es[0]);
      var rest := Run(first.server, es[1..]);
      Step(rest.server, first.out + rest.out)
  }

  /** Every transition keeps the server invariant. */
  lemma ApplyPreservesValid(srv: Server, e: Event)
    requires Valid(srv)
    ensures Valid(Apply(srv, e).server)
  {
    var r := Apply(srv, e).server;
    match e
    case JoinGame(k) => JoinPreservesValid(srv, k);
    case TimerFired(k) =>
      if k in srv.sessions {
        AdvancePreservesClock(srv.sessions[k]);
      }
    case _ =>
  }

  /** Every reachable server is valid. */
  lemma {:induction false} RunPreservesValid(srv: Server, es: seq<Event>)
    requires Valid(srv)
    ensures Valid(Run(srv, es).server)
    decreases |es|
  {
    if |es| > 0 {
      ApplyPreservesValid(srv, es[0]);
      RunPreservesValid(Apply(srv, es[0]).server, es[1..]);
    }
  }

  /** Number of "enemy-destroyed" messages sent to session key's room. */
  function Kills(out: seq<Outgoing>, key: string): nat
  {
    if |out| == 0 then 0
    else (if out[0].to == Room(key) && out[0].msg.EnemyDestroyed? then 1 else 0) + Kills(out[1..], key)
  }

  lemma {:induction false} KillsAppend(a: seq<Outgoing>, b: seq<Outgoing>, key: string)
    ensures Kills(a + b, key) == Kills(a, key) + Kills(b, key)
  {
    if |a| > 0 {
      assert (a + b)[1..] == a[1..] + b;
      KillsAppend(a[1..], b, key);
    } else {
      assert a + b == b;
    }
  }

  /** Total cost of the towers placed in session key by the events. */
  function PlacedCost(es: seq<Event>, key: string): int
  {
    if |es| == 0 then 0
    else (if es[0].TowerPlaced? && es[0].gameId == key then es[0].tower.cost else 0) + PlacedCost(es[1..], key)
  }

  /** A single transition changes a session's score and money only by the
      kill reward per "enemy-destroyed" it broadcasts to that session and by
      the cost of a tower placed there. */
  lemma ApplyLedger(srv: Server, e: Event, key: string)
    requires key in srv.sessions && !(e.JoinGame? && e.gameId == key)
    ensures var r := Apply(srv, e);
            var g := srv.sessions[key];
            && key in r.server.sessions
            && r.server.sessions[key].score == g.score + 10 * Kills(r.out, key)
            && r.server.sessions[key].money == g.money + 15 * Kills(r.out, key) - PlacedCost([e], key)
  {
    assert [e][1..] == [];
    match e
    case EnemyDamage(k, id, d, h) => DamageLedger(srv, k, id, d, h, key);
    case _ =>
      var r := Apply(srv, e);
      NoKillsOutside(r.out, key);
  }

  /** The enemy-damage part of the ledger: a kill in key's session is the one
      "enemy-destroyed" broadcast to its room. */
  lemma DamageLedger(srv: Server, k: string, id: int, d: int, h: int, key: string)
    requires key in srv.sessions
    ensures var r := Handlers.EnemyDamage(srv, k, id, d, h);
            var g := srv.sessions[key];
            && key in r.server.sessions
            && r.server.sessions[key].score == g.score + 10 * Kills(r.out, key)
            && r.server.sessions[key].money == g.money + 15 * Kills(r.out, key)
  {
    var r := Handlers.EnemyDamage(srv, k, id, d, h);
    if k !in srv.sessions || Handlers.EnemyIndex(srv.sessions[k].enemies, id).None? {
      assert r.out == [];
    } else if k != key {
      assert forall j :: 0 <= j < |r.out| ==> r.out[j].to == Room(k);
      NoKillsOutside(r.out, key);
    } else if h > 0 {
      assert r.out == [Outgoing(Room(key), EnemyHealthUpdate(id, h))];
    } else {
      KillBroadcast(r.out, key, id);
    }
  }

  /** The three messages of a kill count as one kill for the session. */
  lemma KillBroadcast(out: seq<Outgoing>, key: string, id: int)
    requires |out| == 3 && out[1] == Outgoing(Room(key), EnemyDestroyed(id))
    requires !out[0].msg.EnemyDestroyed? && !out[2].msg.EnemyDestroyed?
    ensures Kills(out, key) == 1
  {
    var tail := out[1..];
    assert Kills(tail[1..], key) == 0 by {
      assert tail[1..][1..] == [];
    }
    assert Kills(tail, key) == 1;
  }

  /** Only a destroying enemy-damage on key's session broadcasts a kill there. */
  lemma NoKillsOutside(out: seq<Outgoing>, key: string)
    requires forall j :: 0 <= j < |out| ==> !(out[j].to == Room(key) && out[j].msg.EnemyDestroyed?)
    ensures Kills(out, key) == 0
  {
    if |out| > 0 {
      NoKillsOutside(out[1..], key);
    }
  }

  /** Money and score are the fold of the per-event deltas: over any run in
      which the session is not re-joined, score rises by 10 and money by 15
      per broadcast kill, and money falls by the cost of every tower placed. */
  lemma {:induction false} RunLedger(srv: Server, es: seq<Event>, key: string)
    requires key in srv.sessions
    requires forall j :: 0 <= j < |es| ==> es[j] != JoinGame(key)
    decreases |es|
    ensures var r := Run(srv, es);
            var g := srv.sessions[key];
            && key in r.server.sessions
            && r.server.sessions[key].score == g.score + 10 * Kills(r.out, key)
            && r.server.sessions[key].money == g.money + 15 * Kills(r.out, key) - PlacedCost(es, key)
  {
    if |es| > 0 {
      var first := Apply(srv, es[0]);
      ApplyLedger(srv, es[0], key);
      RunLedger(first.server, es[1..], key);
      KillsAppend(first.out, Run(first.server, es[1..]).out, key);
    }
  }

  /** Events for a session nobody has joined are dropped silently. */
  lemma {:induction false} UnknownSessionSilent(srv: Server, es: seq<Event>, key: string)
    requires key !in srv.sessions
    requires forall j :: 0 <= j < |es| ==> es[j].gameId == key && !es[j].JoinGame?
    ensures Run(srv, es) == Step(srv, [])
    decreases |es|
  {
    if |es| > 0 {
      assert Apply(srv, es[0]) == Step(srv, []);
      UnknownSessionSilent(srv, es[1..], key);
    }
  }

  /** Session gameId exists and holds no enemy with the id. */
  predicate NoEnemyWithId(srv: Server, gameId: string, enemyId: int) {
    gameId in srv.sessions && Handlers.EnemyIndex(srv.sessions[gameId].enemies, enemyId).None?
  }

  /** The event spawns an enemy with the id into session gameId. */
  predicate Respawns(e: Event, gameId: string, enemyId: int) {
    e.SpawnEnemy? && e.gameId == gameId && e.enemy.id == enemyId
  }

  /** While no enemy with the id is in the session, no event other than a
      respawn of that id brings one back, and none broadcasts its destruction. */
  lemma ApplyKeepsGone(srv: Server, e: Event, gameId: string, enemyId: int)
    requires NoEnemyWithId(srv, gameId, enemyId) && !Respawns(e, gameId, enemyId)
    ensures NoEnemyWithId(Apply(srv, e).server, gameId, enemyId)
    ensures Outgoing(Room(gameId), EnemyDestroyed(enemyId)) !in Apply(srv, e).out
  {
    match e
    case EnemyDamage(k, id, d, h) => DamageKeepsGone(srv, k, id, d, h, gameId, enemyId);
    case SpawnEnemy(k, enemy) =>
      if k == gameId {
        var es := srv.sessions[gameId].enemies;
        assert Handlers.SpawnEnemy(srv, k, enemy).server.sessions[gameId].enemies == es + [enemy];
      }
    case _ =>
  }

  /** The enemy-damage case: a hit on another id keeps the ids in place, and a
      kill of another id announces that other id. */
  lemma DamageKeepsGone(srv: Server, k: string, id: int, d: int, h: int, gameId: string, enemyId: int)
    requires NoEnemyWithId(srv, gameId, enemyId)
    ensures NoEnemyWithId(Handlers.EnemyDamage(srv, k, id, d, h).server, gameId, enemyId)
    ensures Outgoing(Room(gameId), EnemyDestroyed(enemyId)) !in Handlers.EnemyDamage(srv, k, id, d, h).out
  {
    if k == gameId && Handlers.EnemyIndex(srv.sessions[k].enemies, id).Some? {
      if h > 0 {
        HitKeepsGone(srv, k, id, d, h, enemyId);
      } else {
        KillKeepsGone(srv, k, id, d, h, enemyId);
      }
    } else {
      MissKeepsGone(srv, k, id, d, h, gameId, enemyId);
    }
  }

  lemma MissKeepsGone(srv: Server, k: string, id: int, d: int, h: int, gameId: string, enemyId: int)
    requires NoEnemyWithId(srv, gameId, enemyId)
    requires k != gameId || Handlers.EnemyIndex(srv.sessions[k].enemies, id).None?
    ensures NoEnemyWithId(Handlers.EnemyDamage(srv, k, id, d, h).server, gameId, enemyId)
    ensures Outgoing(Room(gameId), EnemyDestroyed(enemyId)) !in Handlers.EnemyDamage(srv, k, id, d, h).out
  {
    var r := Handlers.EnemyDamage(srv, k, id, d, h);
    if k !in srv.sessions || Handlers.EnemyIndex(srv.sessions[k].enemies, id).None? {
      assert r == Step(srv, []);
    } else {
      assert k != gameId;
      assert r.server.sessions[gameId] == srv.sessions[gameId];
      if h > 0 {
        assert r.out == [Outgoing(Room(k), EnemyHealthUpdate(id, h))];
      } else {
        assert r.out[0].to == Room(k) && r.out[1].to == Room(k) && r.out[2].to == Room(k);
        assert r.out == [r.out[0], r.out[1], r.out[2]];
      }
    }
  }

  lemma HitKeepsGone(srv: Server, k: string, id: int, d: int, h: int, enemyId: int)
    requires NoEnemyWithId(srv, k, enemyId) && h > 0
    requires Handlers.EnemyIndex(srv.sessions[k].enemies, id).Some?
    ensures NoEnemyWithId(Handlers.EnemyDamage(srv, k, id, d, h).server, k, enemyId)
    ensures Outgoing(Room(k), EnemyDestroyed(enemyId)) !in Handlers.EnemyDamage(srv, k, id, d, h).out
  {
    var r := Handlers.EnemyDamage(srv, k, id, d, h);
    var es := srv.sessions[k].enemies;
    var es' := r.server.sessions[k].enemies;
    assert forall j :: 0 <= j < |es'| ==> es'[j].id == es[j].id;
  }

  lemma KillKeepsGone(srv: Server, k: string, id: int, d: int, h: int, enemyId: int)
    requires NoEnemyWithId(srv, k, enemyId) && h <= 0
    requires Handlers.EnemyIndex(srv.sessions[k].enemies, id).Some?
    ensures NoEnemyWithId(Handlers.EnemyDamage(srv, k, id, d, h).server, k, enemyId)
    ensures Outgoing(Room(k), EnemyDestroyed(enemyId)) !in Handlers.EnemyDamage(srv, k, id, d, h).out
  {
    var r := Handlers.EnemyDamage(srv, k, id, d, h);
    Handlers.RemoveEnemyKeepsFirstOther(srv.sessions[k].enemies, id, enemyId);
  }

  /** Over any run with no respawn of the id, the session keeps no enemy with
      it and no "enemy-destroyed" for it is broadcast. */
  lemma {:induction false} RunKeepsGone(srv: Server, es: seq<Event>, gameId: string, enemyId: int)
    requires NoEnemyWithId(srv, gameId, enemyId)
    requires forall j :: 0 <= j < |es| ==> !Respawns(es[j], gameId, enemyId)
    ensures NoEnemyWithId(Run(srv, es).server, gameId, enemyId)
    ensures Outgoing(Room(gameId), EnemyDestroyed(enemyId)) !in Run(srv, es).out
    decreases |es|
  {
    if |es| > 0 {
      ApplyKeepsGone(srv, es[0], gameId, enemyId);
      RunKeepsGone(Apply(srv, es[0]).server, es[1..], gameId, enemyId);
    }
  }

  /** Exactly one "enemy-destroyed" per kill: a destroying damage event
      followed by any run that does not respawn the id broadcasts the
      destruction of that id to the session exactly once. */
  lemma DestroyedExactlyOnce(srv: Server, gameId: string, enemyId: int, d: int, h: int, es: seq<Event>)
    requires gameId in srv.sessions && h <= 0
    requires Handlers.EnemyIndex(srv.sessions[gameId].enemies, enemyId).Some?
    requires forall j :: 0 <= j < |es| ==> !Respawns(es[j], gameId, enemyId)
    ensures multiset(Run(srv, [EnemyDamage(gameId, enemyId, d, h)] + es).out)[Outgoing(Room(gameId), EnemyDestroyed(enemyId))] == 1
  {
    var msg := Outgoing(Room(gameId), EnemyDestroyed(enemyId));
    var all := [EnemyDamage(gameId, enemyId, d, h)] + es;
    var kill := Apply(srv, all[0]);
    assert all[1..] == es;
    RunKeepsGone(kill.server, es, gameId, enemyId);
    assert kill.out == [kill.out[0], msg, kill.out[2]];
    assert multiset(kill.out)[msg] == 1;
  }
}
