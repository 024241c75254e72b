/** The records the real-time server keeps per session, the messages it
    broadcasts, and the invariant every reachable server state satisfies. */
module GameModel {

  /** An enemy as a client sends it; `id` is chosen by the client and is not
      required to be unique. */
  datatype Enemy = Enemy(id: int, x: real, y: real, health: int, maxHealth: int, speed: real, laneIndex: int)

  /** A tower as a client places it; `cost` is charged once, at placement. */
  datatype Tower = Tower(id: int, x: real, y: real, level: int, damage: int, fireRate: real,
                         range: real, cost: int, laneIndex: int)

  /** The authoritative state of one session. */
  datatype GameState = GameState(
    barrierHealth: int,
    score: int,
    money: int,
    gameTime: int,                 // seconds, advanced by the one-second tick
    difficultyMultiplier: real,
    enemies: seq<Enemy>,           // spawn order
    towers: seq<Tower>,            // placement order
    lastDifficultyIncrease: int,   // gameTime of the last escalation
    difficultyInterval: int)       // milliseconds between escalations

  const InitialBarrierHealth: int := 100
  const InitialMoney: int := 100
  const DifficultyIntervalMs: int := 15000
  /** The escalation period in whole ticks: difficultyInterval / 1000. */
  const EscalationTicks: int := 15
  const EscalationStep: real := 0.2
  const KillScore: int := 10
  const KillReward: int := 15
  const MinFireRate: real := 300.0

  /** The state a session is created with. */
  function Fresh(): GameState {
    GameState(InitialBarrierHealth, 0, InitialMoney, 0, 1.0, [], [], 0, DifficultyIntervalMs)
  }

  /** Rejoining a session: every field back to its default except the
      escalation interval, which is left as it was. */
  function Reset(g: GameState): GameState {
    Fresh().(difficultyInterval := g.difficultyInterval)
  }

  /** Every field that join-game sets is at its default value. */
  predicate AtDefaults(g: GameState) {
    && g.barrierHealth == 100 && g.score == 0 && g.money == 100
    && g.gameTime == 0 && g.difficultyMultiplier == 1.0
    && g.enemies == [] && g.towers == []
    && g.lastDifficultyIncrease == 0
  }

  /** Who a message is sent to: the joining socket only, or every socket in a session's room. */
  datatype Audience = Sender | Room(gameId: string)

  /** The server-to-client events, one constructor per event name. */
  datatype Message =
    | GameStateSnapshot(state: GameState)                              // "game-state"
    | EnemySpawned(enemy: Enemy)                                       // "enemy-spawned"
    | EnemyHealthUpdate(enemyId: int, health: int)                     // "enemy-health-update"
    | EnemyDestroyed(enemyId: int)                                     // "enemy-destroyed"
    | TowerMoved(towerId: int, x: real, y: real, laneIndex: int)       // "tower-moved"
    | TowerUpgraded(towerId: int, level: int)                          // "tower-upgraded"
    | DifficultyIncrease(multiplier: real)                             // "difficulty-increase"
    | GameTimeUpdate(gameTime: int, difficultyMultiplier: real)        // "game-time-update"

  datatype Outgoing = Outgoing(to: Audience, msg: Message)

  /** The server: the session map, and one entry per periodic timer started
      (a timer names the session whose tick it drives; timers are never stopped). */
  datatype Server = Server(sessions: map<string, GameState>, timers: seq<string>)

  /** The result of one transition: the new server and the messages emitted, in order. */
  datatype Step = Step(server: Server, out: seq<Outgoing>)

  function EmptyServer(): Server {
    Server(map[], [])
  }

  /** The clock fields of a session are where the tick schedule puts them:
      the interval is the creation default, the last escalation happened at
      the most recent multiple of the escalation period, and the multiplier
      has grown by one step per completed period. */
  predicate ClockConsistent(g: GameState) {
    && g.difficultyInterval == DifficultyIntervalMs
    && g.gameTime >= 0
    && g.lastDifficultyIncrease == g.gameTime - g.gameTime % EscalationTicks
    && g.difficultyMultiplier == 1.0 + EscalationStep * (g.gameTime / EscalationTicks) as real
  }

  predicate NoDuplicates(s: seq<string>) {
    forall i, j :: 0 <= i < j < |s| ==> s[i] != s[j]
  }

  /** Every reachable server: each session has exactly one timer and a consistent clock. */
  predicate Valid(srv: Server) {
    && NoDuplicates(srv.timers)
    && (forall k :: k in srv.timers ==> k in srv.sessions)
    && (forall k :: k in srv.sessions ==> k in srv.timers)
    && (forall k :: k in srv.sessions ==> ClockConsistent(srv.sessions[k]))
  }

  /** srv' differs from srv at most in session `key`: same sessions, same timers. */
  predicate OnlySession(srv: Server, srv': Server, key: string) {
    && srv'.timers == srv.timers
    && srv'.sessions.Keys == srv.sessions.Keys
    && (forall k :: k in srv.sessions && k != key ==> srv'.sessions[k] == srv.sessions[k])
  }

  /** The fields no gameplay event touches. */
  predicate ClockAndBarrierKept(g: GameState, g': GameState) {
    && g'.barrierHealth == g.barrierHealth
    && g'.gameTime == g.gameTime
    && g'.difficultyMultiplier == g.difficultyMultiplier
    && g'.lastDifficultyIncrease == g.lastDifficultyIncrease
    && g'.difficultyInterval == g.difficultyInterval
  }

  /** The empty server satisfies the invariant; Fresh satisfies the clock invariant. */
  lemma InitialValid()
    ensures Valid(EmptyServer())
    ensures ClockConsistent(Fresh()) && AtDefaults(Fresh())
  {
  }
}
