/** The join-game handler: create a session on first join, reset it on every later one. */
module SessionStore {
  import opened GameModel

  /** join-game(gameId). A new key gets the default state and a periodic timer;
      an existing key is reset in place, keeping its escalation interval and
      starting no second timer. The joiner alone receives the resulting state. */
  function Join(srv: Server, gameId: string): (r: Step)
    ensures gameId in r.server.sessions
    ensures AtDefaults(r.server.sessions[gameId])
    ensures r.server.sessions[gameId].difficultyInterval ==
              if gameId in srv.sessions then srv.sessions[gameId].difficultyInterval else 15000
    ensures r.server.sessions.Keys == srv.sessions.Keys + {gameId}
    ensures forall k :: k in srv.sessions && k != gameId ==> r.server.sessions[k] == srv.sessions[k]
    ensures gameId in srv.sessions ==> r.server.timers == srv.timers
    ensures gameId !in srv.sessions ==> r.server.timers == srv.timers + [gameId]
    ensures r.out == [Outgoing(Sender, GameStateSnapshot(r.server.sessions[gameId]))]
  {
    var g := if gameId in srv.sessions then Reset(srv.sessions[gameId]) else Fresh();
    var timers := if gameId in srv.sessions then srv.timers else srv.timers + [gameId];
    Step(Server(srv.sessions[gameId := g], timers), [Outgoing(Sender, GameStateSnapshot(g))])
  }

  /** Joining twice is the same as joining once: same server, same message. */
  lemma JoinIdempotent(srv: Server, gameId: string)
    ensures Join(Join(srv, gameId).server, gameId) == Join(srv, gameId)
  {
    var s1 := Join(srv, gameId).server;
    assert s1.sessions[gameId := Reset(s1.sessions[gameId])] == s1.sessions;
  }

  /** Join wipes progress: whatever two servers hold for a key, joining it
      leaves that key in the same state in both (given the same interval). */
  lemma JoinForgetsProgress(srv1: Server, srv2: Server, gameId: string)
    requires gameId in srv1.sessions && gameId in srv2.sessions
    requires srv1.sessions[gameId].difficultyInterval == srv2.sessions[gameId].difficultyInterval
    ensures Join(srv1, gameId).server.sessions[gameId] == Join(srv2, gameId).server.sessions[gameId]
    ensures Join(srv1, gameId).out == Join(srv2, gameId).out
  {
  }

  /** Join keeps the server invariant. */
  lemma JoinPreservesValid(srv: Server, gameId: string)
    requires Valid(srv)
    ensures Valid(Join(srv, gameId).server)
  {
    var r := Join(srv, gameId).server;
    if gameId !in srv.sessions {
      assert gameId !in srv.timers;
      forall i, j | 0 <= i < j < |r.timers|
        ensures r.timers[i] != r.timers[j]
      {
        if j == |srv.timers| {
          assert r.timers[i] in srv.timers;
        }
      }
    }
  }
}
