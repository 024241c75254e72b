# Tower-defense session server: a Dafny model

This project models the authoritative real-time state machine of a
multiplayer tower-defense server (`src/socket.ts`). The server keeps a map
from session key to `GameState`. Each socket event — `join-game`,
`spawn-enemy`, `enemy-damage`, `tower-placed`, `tower-move`,
`tower-upgrade` — and each firing of a session's one-second timer applies
one deterministic transition to that map and emits broadcasts.

Here every transition is a pure function `(Server, event) -> Step(Server', messages)`:

- `Server` holds the session map and the list of timers that have been started.
- The messages are a sequence of `Outgoing(audience, message)`.
  The audience is either the joining socket (`Sender`) or a session's room (`Room(key)`).
  The sequence keeps emission order.

Files:

- `wrappers.dfy`: `Option`.
- `seqs.dfy`: first-match search and filtering, the two array operations the handlers use.
- `game_model.dfy`: the `Enemy`, `Tower` and `GameState` records, the defaults, the messages, and the server invariant `Valid`.
- `session_store.dfy`: join-game, which creates or resets a session.
- `ticker.dfy`: the tick body and the escalation schedule.
- `handlers.dfy`: spawn, damage, place, move and upgrade.
- `router.dfy`: event dispatch, runs of events, invariant preservation and the money/score ledger.
- `scenarios.dfy`: concrete runs.

`Valid` is the invariant every reachable server satisfies (`Router.RunPreservesValid`):

- Each session has exactly one timer, and each timer names a session.
- `difficultyInterval` stays 15000.
- `lastDifficultyIncrease` is the last multiple of 15 at or below `gameTime`.
- `difficultyMultiplier` is `1 + 0.2·(gameTime div 15)`.

The handlers never touch the clock fields, and `join-game` puts them back to 0, so this holds everywhere.

## Model

| member | source | states |
|---|---|---|
| `GameModel.InitialValid` | src/socket.ts:65-77 | The default session state satisfies the clock invariant and every join-game default. The empty server is valid. |
| `Seqs.FirstIndex` | src/socket.ts:146 | The result is the index of the first element passing the test, or None exactly when no element passes. |
| `Seqs.Filter` | src/socket.ts:152-154 | The result contains exactly the elements passing the test, each with its original multiplicity. A one-element sequence is kept exactly when its element passes. |
| `Seqs.FilterAppend` | src/socket.ts:152-154 | Filtering a concatenation is the concatenation of the filtered parts. With the one-element case this fixes the result, so survivors keep their original order. |
| `Seqs.FilterKeepsFirst` | src/socket.ts:146-154 | If every element the second test selects passes the filter, the first such element after filtering is the first such element before. It exists afterwards exactly when it existed before. |
| `Handlers.EnemyIndex` | src/socket.ts:146 | `find` picks the first enemy whose id matches. None means no enemy has that id. |
| `Handlers.TowerIndex` | src/socket.ts:194 | `find` picks the first tower whose id matches. None means no tower has that id. |
| `Handlers.RemoveEnemy` | src/socket.ts:152-154 | Every enemy with the id is removed, duplicates included. All other enemies are kept with their multiplicity. Afterwards no enemy with the id can be found. |
| `Handlers.RemoveEnemyAppend` | src/socket.ts:152-154 | Removing an id from a concatenation removes it from each part, so surviving enemies keep their spawn order. |
| `Handlers.RemoveEnemyKeepsFirstOther` | src/socket.ts:146-154 | After removing one id, a hit on any other id finds the same enemy as before, or none exactly when none was there. |
| `Handlers.RemoveEnemyIgnoresHit` | src/socket.ts:148-154 | Writing the new health into the enemy before the filter does not change what the filter leaves. |
| `Handlers.Kill` | src/socket.ts:148-156 | A kill leaves the original enemies minus every enemy with that id. Score rises by 10 and money by 15. Towers, clock fields and barrier are unchanged. |
| `SessionStore.Join` | src/socket.ts:61-118 | Join sets every field to its default. A new key gets interval 15000 and one new timer. An existing key keeps its interval, and no timer is added. Other sessions are unchanged. Exactly one game-state is sent, to the joiner only. |
| `SessionStore.JoinIdempotent` | src/socket.ts:105-117 | Joining twice gives the same server and the same message as joining once. |
| `SessionStore.JoinForgetsProgress` | src/socket.ts:105-117 | Joining an existing session gives a result that does not depend on its prior progress. |
| `SessionStore.JoinPreservesValid` | src/socket.ts:65-80 | A join keeps one timer per session, because a timer is started only when the key is created. |
| `Ticker.Advance` | src/socket.ts:83-91 | Game time rises by exactly 1. When due, the multiplier rises by 0.2 and the last-increase time becomes the new time; otherwise both stay. No other field changes. |
| `Ticker.Tick` | src/socket.ts:81-103 | An absent session means no change and no message. Otherwise the session is advanced and only it changes. difficulty-increase is emitted exactly when due, and game-time-update is always emitted last. Both carry the updated values. |
| `Ticker.EscalatesOnMultiples` | src/socket.ts:86-89 | On a consistent clock, escalation fires exactly when the new game time is a multiple of 15. |
| `Ticker.AdvancePreservesClock` | src/socket.ts:83-91 | A tick keeps the escalation schedule invariant. |
| `Ticker.TicksFromFresh` | src/socket.ts:81-102 | After n ticks from the defaults: game time is n, the last increase is at 15·(n div 15), and the multiplier is 1 + 0.2·(n div 15). |
| `Ticker.TicksMonotone` | src/socket.ts:90 | Over any number of ticks the multiplier never decreases. |
| `Handlers.SpawnEnemy` | src/socket.ts:120-129 | An absent session is a silent no-op. Otherwise the enemy is appended at the end (duplicate ids allowed) and one enemy-spawned goes to the room. Towers, score, money and the clock are unchanged. |
| `Handlers.EnemyDamage` | src/socket.ts:131-163 | An absent session or unknown id is a silent no-op. Otherwise only the first matching enemy gets the new health. Health above 0 leaves score and money unchanged and emits only the health update. Health at or below 0 removes every enemy with that id, adds 10 score and 15 money, and emits health update, enemy-destroyed, then game-state, in that order. |
| `Handlers.DestroyedOnce` | src/socket.ts:146-158 | After a kill, any later damage event for that id is a silent no-op, whatever its damage and health. |
| `Handlers.TowerPlaced` | src/socket.ts:165-175 | An absent session is a no-op. Otherwise the tower is appended and money falls by exactly its cost, with no lower bound. One game-state goes to the room. |
| `Handlers.Upgrade` | src/socket.ts:212-214 | Level rises by 1. Damage becomes the floor of 1.5·damage. Fire interval becomes the larger of 300 and 0.8·interval, so it is at least 300. Nothing else changes. |
| `Handlers.TowerMove` | src/socket.ts:177-203 | An absent session or unknown id is a silent no-op. Otherwise only the first matching tower changes, and only in x, y and lane. Enemies, score and money are unchanged. One tower-moved goes to the room. |
| `Handlers.TowerUpgrade` | src/socket.ts:205-222 | An absent session or unknown id is a silent no-op. Otherwise only the first matching tower is upgraded, and the others, enemies, score and money are unchanged. One tower-upgraded with the new level goes to the room. |
| `Handlers.UpgradeDamage` | src/socket.ts:213 | Damage never decreases from a non-negative value. It strictly grows from 2 upward. At 1 it stays 1. |
| `Handlers.UpgradeFireRate` | src/socket.ts:214 | The fire interval falls exactly when it is above 300 and stays the same exactly at 300. It is raised exactly when below 300. |
| `Handlers.TwoUpgrades` | src/socket.ts:212-214 | From damage 10 and interval 1000, two upgrades give 22 and 640, two levels up. |
| `Handlers.SpawnedEnemyFound` | src/socket.ts:120-149 | After a spawn, a damage event for that id finds the new enemy. If an earlier enemy has the same id, it finds that earlier one instead. |
| `Handlers.MoveIdempotent` | src/socket.ts:194-198 | Repeating the same tower-move leaves the server as the first move left it. |
| `Router.Apply` | src/socket.ts:61-222 | Dispatching an event changes at most the named session. Only join-game adds a session. Any non-join event for an absent session is silent. |
| `Router.ApplyPreservesValid` | src/socket.ts:61-222 | Every transition keeps the server invariant. |
| `Router.RunPreservesValid` | src/socket.ts:56-222 | Every server reached from a valid one by any event sequence is valid. |
| `Router.DamageLedger` | src/socket.ts:151-157 | An enemy-damage changes a session's score by 10 and its money by 15 per enemy-destroyed sent to that session's room, and otherwise not at all. |
| `Router.KillBroadcast` | src/socket.ts:149-158 | The three kill messages contain exactly one kill for the session. |
| `Router.NoKillsOutside` | src/socket.ts:157 | A message sequence with no enemy-destroyed for a session counts no kills there. |
| `Router.KillsAppend` | src/socket.ts:157 | Kill counts add up over concatenated broadcasts. |
| `Router.ApplyLedger` | src/socket.ts:151-172 | Any event except a rejoin changes a session's score only by 10 per broadcast kill. It changes money only by 15 per kill minus the cost of a tower placed there. |
| `Router.RunLedger` | src/socket.ts:151-172 | Over any run without a rejoin, the final score is the initial score plus 10 per kill. Final money is initial money plus 15 per kill minus the summed cost of the towers placed. This is the fold of the per-event deltas. |
| `Router.UnknownSessionSilent` | src/socket.ts:123-208 | Any run of non-join events for an absent session leaves the server unchanged and emits nothing. |
| `Router.ApplyKeepsGone` | src/socket.ts:61-222 | While a session holds no enemy with an id, an event that does not respawn that id keeps it absent and broadcasts no enemy-destroyed for it. |
| `Router.DamageKeepsGone` | src/socket.ts:144-158 | An enemy-damage event keeps an absent id absent and does not announce its destruction. |
| `Router.HitKeepsGone` | src/socket.ts:146-149 | A non-lethal hit on another id keeps every enemy id in place, so an absent id stays absent. |
| `Router.KillKeepsGone` | src/socket.ts:151-158 | A kill of another id leaves an absent id absent and announces only the other id. |
| `Router.MissKeepsGone` | src/socket.ts:144-147 | A damage event for another session, or for an id it lacks, leaves the session as it was and sends nothing to its room. |
| `Router.RunKeepsGone` | src/socket.ts:61-222 | Over any run with no respawn of the id, the id stays absent and no enemy-destroyed for it reaches the session's room. |
| `Router.DestroyedExactlyOnce` | src/socket.ts:146-158 | A lethal damage event followed by any run that does not respawn the id broadcasts enemy-destroyed for that id to the session exactly once. |
| `Seqs.FilterIgnoresRejectedUpdate` | src/socket.ts:148-154 | Replacing a rejected element by another rejected value does not change the filter's result. |
| `Scenarios.KillScenario` | src/socket.ts:61-163 | Join, spawn enemy 1 with health 20, then report health 0. The result is enemy-destroyed(1) broadcast, score 10, money 115 and no enemies. |
| `Scenarios.PlaceAndUpgradeScenario` | src/socket.ts:165-222 | Join, place a tower costing 50, then upgrade it twice. The result is money 50, damage 22, interval 640 and level 3. |
| `Scenarios.OverdraftScenario` | src/socket.ts:165-175 | Placing a tower costing 150 in a fresh session leaves money at -50. |

## Behaviour worth knowing

- An upgrade does not always raise damage. Damage 1 becomes floor(1.5) = 1 and stays there; damage grows strictly only from 2 upward (`Handlers.UpgradeDamage`).
- An upgrade does not always lower the fire interval. At 300 it stays 300, and an interval below 300 is raised to 300 (`Handlers.UpgradeFireRate`).
- Money has no lower bound: placing a tower subtracts its cost unconditionally, so money can go negative (`Scenarios.OverdraftScenario`).

## Left out

- socket.io server construction and transport options (src/socket.ts:39-54), connection logging, and `socket.join` room membership. A broadcast is modelled as one `Outgoing` entry addressed to `Room(key)`, and delivery to the room's sockets is not modelled.
- The real `setInterval` and wall-clock timing. The tick body is a step function (`Ticker.Tick`, the `TimerFired` event) that an outside driver applies. Starting a timer is recorded in `Server.timers`. The fact that timers are never cancelled is a resource concern and is not modelled beyond that list.
- The `debug-time`, `disconnect` and `error` handlers (src/socket.ts:224-241): they only log.
- IEEE-754 arithmetic. `difficultyMultiplier`, `fireRate`, positions, speed and range are exact `real`s, so repeated `+= 0.2` is exact here but not in JavaScript. Ids, health, level, damage, cost, money and counters are `int`. `Math.floor(d * 1.5)` on integer damage is `(3 * d) / 2` (Dafny's division floors for a positive divisor).
- Ticker.Advance: the multiplier is raised by exactly 0.2, not by the rounded floating-point sum.
- Handlers.EnemyDamage: the `damage` argument is accepted and ignored, as in the code. The client-supplied `health` is trusted.
- The REST routes, server wiring, ORM entity and type-declaration files. The alternative `GameState` shape in `src/types/gameState.ts` is not used by the socket logic.
