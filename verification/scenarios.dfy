/** Concrete runs of the event protocol. */
module Scenarios {
  import Wrappers
  import opened GameModel
  import opened Router
  import Handlers

  const G1: string := "g1"

  function Grunt(): Enemy {
    Enemy(1, 0.0, 0.0, 20, 20, 1.0, 0)
  }

  function Cannon(cost: int): Tower {
    Tower(1, 0.0, 0.0, 1, 10, 1000.0, 100.0, cost, 0)
  }

  /** Join, spawn an enemy with 20 health, then report it at 0: the kill is
      broadcast, the enemy is gone, score is 10 and money 115. */
  lemma KillScenario()
    ensures var r := Run(EmptyServer(), [JoinGame(G1), SpawnEnemy(G1, Grunt()), EnemyDamage(G1, 1, 20, 0)]);
            && G1 in r.server.sessions
            && r.server.sessions[G1].score == 10
            && r.server.sessions[G1].money == 115
            && r.server.sessions[G1].enemies == []
            && Outgoing(Room(G1), EnemyDestroyed(1)) in r.out
  {
    var es := [JoinGame(G1), SpawnEnemy(G1, Grunt()), EnemyDamage(G1, 1, 20, 0)];
    var s1 := Apply(EmptyServer(), es[0]);
    var s2 := Apply(s1.server, es[1]);
    assert s2.server.sessions[G1].enemies == [Grunt()];
    var s3 := Apply(s2.server, es[2]);
    assert Handlers.EnemyIndex(s2.server.sessions[G1].enemies, 1) == Wrappers.Some(0);
    assert s3.server.sessions[G1].enemies == [] by {
      assert Grunt() !in s3.server.sessions[G1].enemies;
    }
    assert es[1..][1..] == [es[2]] && [es[2]][1..] == [];
    assert Run(s2.server, [es[2]]) == Step(s3.server, s3.out + []);
    assert Run(s1.server, es[1..]) == Step(s3.server, s2.out + (s3.out + []));
    assert Run(EmptyServer(), es) == Step(s3.server, s1.out + (s2.out + (s3.out + [])));
    assert s3.out[1] == Outgoing(Room(G1), EnemyDestroyed(1));
  }

  /** Join, place a tower costing 50, upgrade it twice: money 50, damage 22,
      fire interval 640, level 3. */
  lemma PlaceAndUpgradeScenario()
    ensures var r := Run(EmptyServer(), [JoinGame(G1), TowerPlaced(G1, Cannon(50)), TowerUpgrade(G1, 1), TowerUpgrade(G1, 1)]);
            && G1 in r.server.sessions
            && r.server.sessions[G1].money == 50
            && |r.server.sessions[G1].towers| == 1
            && r.server.sessions[G1].towers[0].damage == 22
            && r.server.sessions[G1].towers[0].fireRate == 640.0
            && r.server.sessions[G1].towers[0].level == 3
  {
    var es := [JoinGame(G1), TowerPlaced(G1, Cannon(50)), TowerUpgrade(G1, 1), TowerUpgrade(G1, 1)];
    var s1 := Apply(EmptyServer(), es[0]);
    var s2 := Apply(s1.server, es[1]);
    assert s2.server.sessions[G1].towers == [Cannon(50)];
    var s3 := Apply(s2.server, es[2]);
    assert Handlers.TowerIndex(s2.server.sessions[G1].towers, 1) == Wrappers.Some(0);
    var s4 := Apply(s3.server, es[3]);
    assert Handlers.TowerIndex(s3.server.sessions[G1].towers, 1) == Wrappers.Some(0);
    Handlers.TwoUpgrades(Cannon(50));
    assert es[1..][1..][1..] == [es[3]] && [es[3]][1..] == [];
    assert es[1..][1..] == es[2..];
    assert Run(s3.server, [es[3]]).server == s4.server;
    assert Run(s2.server, es[2..]).server == s4.server;
    assert Run(s1.server, es[1..]).server == s4.server;
  }

  /** Placing a tower dearer than the purse drives money negative. */
  lemma OverdraftScenario()
    ensures var r := Run(EmptyServer(), [JoinGame(G1), TowerPlaced(G1, Cannon(150))]);
            G1 in r.server.sessions && r.server.sessions[G1].money == -50
  {
    var es := [JoinGame(G1), TowerPlaced(G1, Cannon(150))];
    var s1 := Apply(EmptyServer(), es[0]);
    var s2 := Apply(s1.server, es[1]);
    assert es[1..] == [es[1]] && [es[1]][1..] == [];
    assert Run(s1.server, es[1..]).server == s2.server;
  }
}
