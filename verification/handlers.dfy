/** The gameplay event handlers. Each looks its session up, silently does
    nothing when it is missing, applies one small update and broadcasts to
    the session's room. */
module Handlers {
  import opened Wrappers
  import opened Seqs
  import opened GameModel

  /** Position of the first enemy with the given id (how `find` picks the enemy to hit). */
  function EnemyIndex(es: seq<Enemy>, id: int): (r: Option<nat>)
    ensures r.Some? ==> r.value < |es| && es[r.value].id == id
    ensures r.Some? ==> forall j :: 0 <= j < r.value ==> es[j].id != id
    ensures r.None? <==> forall j :: 0 <= j < |es| ==> es[j].id != id
  {
    FirstIndex(es, HasId(id))
  }

  /** The test `find` selects an enemy by. */
  function HasId(id: int): Enemy -> bool {
    (e: Enemy) => e.id == id
  }

  /** Position of the first tower with the given id. */
  function TowerIndex(ts: seq<Tower>, id: int): (r: Option<nat>)
    ensures r.Some? ==> r.value < |ts| && ts[r.value].id == id
    ensures r.Some? ==> forall j :: 0 <= j < r.value ==> ts[j].id != id
    ensures r.None? <==> forall j :: 0 <= j < |ts| ==> ts[j].id != id
  {
    FirstIndex(ts, (t: Tower) => t.id == id)
  }

  /** Every enemy with the given id removed, duplicates included; all others
      kept with their multiplicity. */
  function RemoveEnemy(es: seq<Enemy>, id: int): (r: seq<Enemy>)
    ensures forall e :: e in r <==> e in es && e.id != id
    ensures forall e :: multiset(r)[e] == if e.id == id then 0 else multiset(es)[e]
    ensures EnemyIndex(r, id).None?
  {
    Filter(es, OtherId(id))
  }

  /** The test `filter` keeps an enemy by. */
  function OtherId(id: int): Enemy -> bool {
    (e: Enemy) => e.id != id
  }

  /** Removal works piecewise, so the surviving enemies keep their spawn order. */
  lemma RemoveEnemyAppend(es1: seq<Enemy>, es2: seq<Enemy>, id: int)
    ensures RemoveEnemy(es1 + es2, id) == RemoveEnemy(es1, id) + RemoveEnemy(es2, id)
  {
    FilterAppend(es1, es2, OtherId(id));
  }

  /** Removing one id does not change which enemy a later hit on another id
      lands on: the first enemy with that id is still the same one. */
  lemma RemoveEnemyKeepsFirstOther(es: seq<Enemy>, id: int, other: int)
    requires other != id
    ensures EnemyIndex(RemoveEnemy(es, id), other).None? <==> EnemyIndex(es, other).None?
    ensures EnemyIndex(RemoveEnemy(es, id), other).Some? ==>
              RemoveEnemy(es, id)[EnemyIndex(RemoveEnemy(es, id), other).value] == es[EnemyIndex(es, other).value]
  {
    FilterKeepsFirst(es, OtherId(id), HasId(other));
  }

  /** Writing a new health into an enemy that is about to be removed does not
      change what the removal leaves. */
  lemma RemoveEnemyIgnoresHit(es: seq<Enemy>, id: int, i: nat, health: int)
    requires i < |es| && es[i].id == id
    ensures RemoveEnemy(es[i := es[i].(health := health)], id) == RemoveEnemy(es, id)
  {
    FilterIgnoresRejectedUpdate(es, OtherId(id), i, es[i].(health := health));
  }

  /** A session after the kill of enemy `enemyId` found at position i: the
      health write, then removal of every enemy with that id, then the reward. */
  function Kill(g: GameState, enemyId: int, i: nat, health: int): (g': GameState)
    requires i < |g.enemies| && g.enemies[i].id == enemyId
    ensures g'.enemies == RemoveEnemy(g.enemies, enemyId)
    ensures g'.score == g.score + 10 && g'.money == g.money + 15
    ensures g'.towers == g.towers && ClockAndBarrierKept(g, g')
  {
    var hit := g.(enemies := g.enemies[i := g.enemies[i].(health := health)]);
    RemoveEnemyIgnoresHit(g.enemies, enemyId, i, health);
    hit.(enemies := RemoveEnemy(hit.enemies, enemyId), score := hit.score + KillScore, money := hit.money + KillReward)
  }

  /** spawn-enemy: append the enemy (duplicate ids accepted) and broadcast it. */
  function SpawnEnemy(srv: Server, gameId: string, enemy: Enemy): (r: Step)
    ensures gameId !in srv.sessions ==> r == Step(srv, [])
    ensures gameId in srv.sessions ==> OnlySession(srv, r.server, gameId) && gameId in r.server.sessions
    ensures gameId in srv.sessions ==>
              var g := srv.sessions[gameId];
              var g' := r.server.sessions[gameId];
              && g'.enemies == g.enemies + [enemy]
              && g'.towers == g.towers && g'.score == g.score && g'.money == g.money
              && ClockAndBarrierKept(g, g')
              && r.out == [Outgoing(Room(gameId), EnemySpawned(enemy))]
  {
    if gameId !in srv.sessions then Step(srv, [])
    else
      var g := srv.sessions[gameId];
      Step(srv.(sessions := srv.sessions[gameId := g.(enemies := g.enemies + [enemy])]),
           [Outgoing(Room(gameId), EnemySpawned(enemy))])
  }

  /** enemy-damage: the client-computed `health` is written to the first enemy
      with the id (the `damage` argument is not used). At health <= 0 every
      enemy with that id is removed and the kill is rewarded. */
  function EnemyDamage(srv: Server, gameId: string, enemyId: int, damage: int, health: int): (r: Step)
    ensures gameId !in srv.sessions ==> r == Step(srv, [])
    ensures gameId in srv.sessions && EnemyIndex(srv.sessions[gameId].enemies, enemyId).None? ==>
              r == Step(srv, [])
    ensures gameId in srv.sessions ==> OnlySession(srv, r.server, gameId) && gameId in r.server.sessions
    ensures gameId in srv.sessions && EnemyIndex(srv.sessions[gameId].enemies, enemyId).Some? ==>
              var g := srv.sessions[gameId];
              var g' := r.server.sessions[gameId];
              && g'.towers == g.towers
              && ClockAndBarrierKept(g, g')
              && |r.out| >= 1
              && r.out[0] == Outgoing(Room(gameId), EnemyHealthUpdate(enemyId, health))
    ensures gameId in srv.sessions && EnemyIndex(srv.sessions[gameId].enemies, enemyId).Some? && health > 0 ==>
              var g := srv.sessions[gameId];
              var i := EnemyIndex(g.enemies, enemyId).value;
              var g' := r.server.sessions[gameId];
              && |g'.enemies| == |g.enemies|
              && g'.enemies[i] == g.enemies[i].(health := health)
              && (forall j :: 0 <= j < |g.enemies| && j != i ==> g'.enemies[j] == g.enemies[j])
              && g'.score == g.score && g'.money == g.money
              && |r.out| == 1
    ensures gameId in srv.sessions && EnemyIndex(srv.sessions[gameId].enemies, enemyId).Some? && health <= 0 ==>
              var g := srv.sessions[gameId];
              var g' := r.server.sessions[gameId];
              && g'.enemies == RemoveEnemy(g.enemies, enemyId)
              && g'.score == g.score + 10 && g'.money == g.money + 15
              && |r.out| == 3
              && r.out[1] == Outgoing(Room(gameId), EnemyDestroyed(enemyId))
              && r.out[2] == Outgoing(Room(gameId), GameStateSnapshot(g'))
  {
    if gameId !in srv.sessions then Step(srv, [])
    else
      var g := srv.sessions[gameId];
      match EnemyIndex(g.enemies, enemyId)
      case None => Step(srv, [])
      case Some(i) =>
        var hit := g.(enemies := g.enemies[i := g.enemies[i].(health := health)]);
        var update := Outgoing(Room(gameId), EnemyHealthUpdate(enemyId, health));
        if health > 0 then
          Step(srv.(sessions := srv.sessions[gameId := hit]), [update])
        else
          var g' := Kill(g, enemyId, i, health);
          Step(srv.(sessions := srv.sessions[gameId := g']),
               [update, Outgoing(Room(gameId), EnemyDestroyed(enemyId)), Outgoing(Room(gameId), GameStateSnapshot(g'))])
  }

  /** tower-placed: append the tower and charge its cost, with no lower bound
      on money; broadcast the whole state. */
  function TowerPlaced(srv: Server, gameId: string, tower: Tower): (r: Step)
    ensures gameId !in srv.sessions ==> r == Step(srv, [])
    ensures gameId in srv.sessions ==> OnlySession(srv, r.server, gameId) && gameId in r.server.sessions
    ensures gameId in srv.sessions ==>
              var g := srv.sessions[gameId];
              var g' := r.server.sessions[gameId];
              && g'.towers == g.towers + [tower]
              && g'.money == g.money - tower.cost
              && g'.enemies == g.enemies && g'.score == g.score
              && ClockAndBarrierKept(g, g')
              && r.out == [Outgoing(Room(gameId), GameStateSnapshot(g'))]
  {
    if gameId !in srv.sessions then Step(srv, [])
    else
      var g := srv.sessions[gameId];
      var g' := g.(towers := g.towers + [tower], money := g.money - tower.cost);
      Step(srv.(sessions := srv.sessions[gameId := g']), [Outgoing(Room(gameId), GameStateSnapshot(g'))])
  }

  /** The tower after an upgrade: one level up, damage scaled by 1.5 and
      rounded down, fire interval scaled by 0.8 but never below 300. */
  function Upgrade(t: Tower): (u: Tower)
    ensures u.level == t.level + 1
    ensures u.damage as real <= 1.5 * t.damage as real < u.damage as real + 1.0
    ensures u.fireRate >= MinFireRate
    ensures u.fireRate == 0.8 * t.fireRate || u.fireRate == MinFireRate
    ensures u.fireRate >= 0.8 * t.fireRate
    ensures u == t.(level := u.level, damage := u.damage, fireRate := u.fireRate)
  {
    var rate := 0.8 * t.fireRate;
    t.(level := t.level + 1,
       damage := (3 * t.damage) / 2,
       fireRate := if rate > MinFireRate then rate else MinFireRate)
  }

  /** tower-move: overwrite position and lane of the first tower with the id. */
  function TowerMove(srv: Server, gameId: string, towerId: int, x: real, y: real, laneIndex: int): (r: Step)
    ensures gameId !in srv.sessions ==> r == Step(srv, [])
    ensures gameId in srv.sessions && TowerIndex(srv.sessions[gameId].towers, towerId).None? ==>
              r == Step(srv, [])
    ensures gameId in srv.sessions ==> OnlySession(srv, r.server, gameId) && gameId in r.server.sessions
    ensures gameId in srv.sessions && TowerIndex(srv.sessions[gameId].towers, towerId).Some? ==>
              var g := srv.sessions[gameId];
              var i := TowerIndex(g.towers, towerId).value;
              var g' := r.server.sessions[gameId];
              && |g'.towers| == |g.towers|
              && g'.towers[i] == g.towers[i].(x := x, y := y, laneIndex := laneIndex)
              && (forall j :: 0 <= j < |g.towers| && j != i ==> g'.towers[j] == g.towers[j])
              && g'.enemies == g.enemies && g'.score == g.score && g'.money == g.money
              && ClockAndBarrierKept(g, g')
              && r.out == [Outgoing(Room(gameId), TowerMoved(towerId, x, y, laneIndex))]
  {
    if gameId !in srv.sessions then Step(srv, [])
    else
      var g := srv.sessions[gameId];
      match TowerIndex(g.towers, towerId)
      case None => Step(srv, [])
      case Some(i) =>
        var moved := g.towers[i].(x := x, y := y, laneIndex := laneIndex);
        Step(srv.(sessions := srv.sessions[gameId := g.(towers := g.towers[i := moved])]),
             [Outgoing(Room(gameId), TowerMoved(towerId, x, y, laneIndex))])
  }

  /** tower-upgrade: upgrade the first tower with the id and broadcast its new level. */
  function TowerUpgrade(srv: Server, gameId: string, towerId: int): (r: Step)
    ensures gameId !in srv.sessions ==> r == Step(srv, [])
    ensures gameId in srv.sessions && TowerIndex(srv.sessions[gameId].towers, towerId).None? ==>
              r == Step(srv, [])
    ensures gameId in srv.sessions ==> OnlySession(srv, r.server, gameId) && gameId in r.server.sessions
    ensures gameId in srv.sessions && TowerIndex(srv.sessions[gameId].towers, towerId).Some? ==>
              var g := srv.sessions[gameId];
              var i := TowerIndex(g.towers, towerId).value;
              var g' := r.server.sessions[gameId];
              && |g'.towers| == |g.towers|
              && g'.towers[i] == Upgrade(g.towers[i])
              && (forall j :: 0 <= j < |g.towers| && j != i ==> g'.towers[j] == g.towers[j])
              && g'.enemies == g.enemies && g'.score == g.score && g'.money == g.money
              && ClockAndBarrierKept(g, g')
              && r.out == [Outgoing(Room(gameId), TowerUpgraded(towerId, g.towers[i].level + 1))]
  {
    if gameId !in srv.sessions then Step(srv, [])
    else
      var g := srv.sessions[gameId];
      match TowerIndex(g.towers, towerId)
      case None => Step(srv, [])
      case Some(i) =>
        var up := Upgrade(g.towers[i]);
        Step(srv.(sessions := srv.sessions[gameId := g.(towers := g.towers[i := up])]),
             [Outgoing(Room(gameId), TowerUpgraded(towerId, up.level))])
  }

  /** Damage never shrinks for a non-negative value, grows strictly from 2 on,
      and is stuck at 1 (floor of 1.5). */
  lemma UpgradeDamage(t: Tower)
    ensures t.damage >= 0 ==> Upgrade(t).damage >= t.damage
    ensures t.damage >= 2 ==> Upgrade(t).damage > t.damage
    ensures t.damage == 1 ==> Upgrade(t).damage == 1
  {
  }

  /** The fire interval shrinks exactly when it is above 300, stays at 300,
      and a value below 300 is raised to 300. */
  lemma UpgradeFireRate(t: Tower)
    ensures Upgrade(t).fireRate < t.fireRate <==> t.fireRate > MinFireRate
    ensures Upgrade(t).fireRate == t.fireRate <==> t.fireRate == MinFireRate
    ensures Upgrade(t).fireRate > t.fireRate <==> t.fireRate < MinFireRate
  {
  }

  /** Two upgrades of a damage-10, rate-1000 tower give damage 22 and rate 640. */
  lemma TwoUpgrades(t: Tower)
    requires t.damage == 10 && t.fireRate == 1000.0
    ensures Upgrade(Upgrade(t)).damage == 22 && Upgrade(Upgrade(t)).fireRate == 640.0
    ensures Upgrade(Upgrade(t)).level == t.level + 2
  {
  }

  /** After a kill the id is gone, so any further damage event for it, with
      whatever health, is a silent no-op. */
  lemma DestroyedOnce(srv: Server, gameId: string, enemyId: int, damage: int, health: int, damage2: int, health2: int)
    requires gameId in srv.sessions && health <= 0
    ensures var s1 := EnemyDamage(srv, gameId, enemyId, damage, health).server;
            EnemyDamage(s1, gameId, enemyId, damage2, health2) == Step(s1, [])
  {
  }

  /** A spawned enemy can be hit right away: damage events find it, unless an
      earlier enemy with the same id shadows it. */
  lemma SpawnedEnemyFound(srv: Server, gameId: string, enemy: Enemy)
    requires gameId in srv.sessions
    ensures var es := srv.sessions[gameId].enemies;
            var es' := SpawnEnemy(srv, gameId, enemy).server.sessions[gameId].enemies;
            EnemyIndex(es', enemy.id) == if EnemyIndex(es, enemy.id).Some? then EnemyIndex(es, enemy.id) else Some(|es|)
  {
    var es := srv.sessions[gameId].enemies;
    var es' := SpawnEnemy(srv, gameId, enemy).server.sessions[gameId].enemies;
    assert es' == es + [enemy];
    assert es'[|es|].id == enemy.id;
    if EnemyIndex(es, enemy.id).Some? {
      assert es'[EnemyIndex(es, enemy.id).value].id == enemy.id;
    }
  }

  /** Repeating a move changes nothing further: the same tower is found and
      already sits where the move puts it. */
  lemma MoveIdempotent(srv: Server, gameId: string, towerId: int, x: real, y: real, laneIndex: int)
    ensures var s1 := TowerMove(srv, gameId, towerId, x, y, laneIndex).server;
            TowerMove(s1, gameId, towerId, x, y, laneIndex).server == s1
  {
    var s1 := TowerMove(srv, gameId, towerId, x, y, laneIndex).server;
    if gameId in srv.sessions {
      var ts := srv.sessions[gameId].towers;
      var ts' := s1.sessions[gameId].towers;
      match TowerIndex(ts, towerId)
      case None =>
      case Some(i) =>
        assert ts'[i := ts'[i].(x := x, y := y, laneIndex := laneIndex)] == ts';
        assert s1.sessions[gameId := s1.sessions[gameId].(towers := ts')] == s1.sessions;
    }
  }
}
