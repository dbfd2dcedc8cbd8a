# Game-state engine of the multiplayer "beer and bouncer" game server

This project models the authoritative game engine of `server.js`. That engine is one
global world made of four pieces:

- a list of players, one per connected socket;
- a "bouncer" obstacle that moves across the arena;
- a "beer" collectible;
- the bouncer's velocity `(vx, vy)`.

Four kinds of event change that world:

- a socket connects, and gets a new player at a spawn position;
- a socket sends `update`, and its entries take the reported fields;
- a socket disconnects, and its entries are filtered out;
- the 50 Hz timer runs `draw`. The tick reflects the bouncer off the walls on its
  pre-move position and then moves it. It then takes each player in list order:
  - a bouncer hit respawns the player and costs 20 points, with `lost` at -60 or below;
  - the beer test is made on a copy taken after that respawn, and a pickup gains 10
    points and replaces the beer, with `won` at 30 or above.

  A single `update` broadcast then carries the last player that had a collision.

The model is in five modules, one per file:

- `Spawn` (spawn.dfy): `random` and `getRandomPosition`, as functions of the integer
  that the scaled random draw yields.
- `Entities` (entities.dfy): the value types. These are the player, collectible,
  bouncer, client report and emitted events. There is also `Rules`: the arena bounds,
  the default radius and the two collision tests, which are code this model does not
  contain.
- `Registry` (registry.dfy): the list functions behind the `update` and `disconnect`
  handlers, and their algebra.
- `Tick` (tick.dfy): the reflection of one axis and one player's turn. `Process` is
  the processing of the first `n` players in order; each player is tested against the
  beer left by those before it.
- `World` (world.dfy): class `GameWorld`, whose fields are the module-level variables
  of the server. An `events` log stands for the emits. Its methods are proved against
  the functions above:
  - `Connect`, `Update` and `Disconnect` for the three socket handlers;
  - `Draw` for the tick. `Draw` is built from `MoveBouncer` and from `TakeTurns`,
    which is the `forEach` loop; `TakeTurns` is in turn built from `NextTurn` and
    `Turn`.

The random draws and the clock readings are parameters:

- a `Sample` is the pair of integers `Math.floor(Math.random() * (max - min + 1))`;
- a `TickInput` gives, for one player's turn, the draws and the `Date.now()` value that
  the turn may use.

`playerUpdate` is a reference to a list entry in the source. The model keeps it as an
index into the list. `ProcessPrefix` shows that no later turn changes an entry, so
reading the entry at the end of the tick gives the object's final state.

Some behaviours of the server worth noting:

- `disconnect` emits only `remove-player`; it sends no full-state broadcast.
- `update` broadcasts even when the sender has no entry, and does not check the
  payload.
- A pickup adds the literal 10 (server.js:154), not the beer's `value`, which is
  always 1.
- No handler replaces the beer at a client's request.

## Model

| member | source | states |
|---|---|---|
| Spawn.Random | server.js:71-73 | `random(lo, hi)` with the draw u in [0, hi - lo] lies in the closed range [lo, hi] |
| Spawn.Snap | server.js:78-79 | `Math.floor(k / 10) * 10` is a multiple of 10 lying in (k - 10, k] |
| Spawn.SnapIsGreatestMultiple | server.js:78-79 | no multiple of 10 lies above the snapped value and at or below k |
| Spawn.RandomPosition | server.js:75-82 | both coordinates are multiples of 10 and at most max - 50, and are above min + 50 - 10, so strictly inside the arena |
| Spawn.RandomPositionReaches | server.js:75-82 | every grid point of the inset ranges is the spawn position for some valid draw |
| Entities.NewPlayer | server.js:98-99 | the new player has the socket id, score 0, the default radius and the spawn position of its draw |
| Entities.NewBeer | server.js:85-86 | a beer built at a spawn position has value 1, the clock id and a position in the spawn region |
| Entities.NewBouncer | server.js:87-88 | the bouncer starts at the spawn position of its draw, so on the grid, in the inset range and strictly inside the arena, and it has the default radius of a Player object |
| Registry.Reported | server.js:107-112 | an entry overwritten by a report keeps its id |
| Registry.Overwrite | server.js:106-113 | the list keeps its length and ids; entries with the sender's id carry the reported x, y, score and radius; every other entry is unchanged |
| Registry.OverwriteAbsent | server.js:106-113 | an update from a socket with no entry leaves the list unchanged |
| Registry.OverwriteIdempotent | server.js:106-113 | applying the same report twice equals applying it once |
| Registry.OverwriteCommutes | server.js:106-113 | updates from two different sockets commute |
| Registry.OverwriteKeepsDistinct | server.js:106-113 | if the ids are pairwise distinct before an update, they still are after it |
| Registry.Without | server.js:121 | the filtered list is no longer than the old one and has no entry with the id; an entry is in it exactly when it was in the old list with another id |
| Registry.WithoutConcat | server.js:121 | filtering distributes over concatenation, so kept entries stay in their original relative order |
| Registry.WithoutAbsent | server.js:121 | disconnecting a socket with no entry leaves the list unchanged |
| Registry.Occurrences | server.js:121 | the number of entries with an id is at most the length, and it is zero exactly when no entry has that id |
| Registry.WithoutLength | server.js:121 | the filtered list is shorter than the old one by exactly the number of entries with the id |
| Registry.WithoutKeepsDistinct | server.js:121 | if the ids are pairwise distinct before a disconnect, they still are after it |
| Registry.WithoutAfterOverwrite | server.js:105-121 | an update followed by a disconnect of the same socket equals the disconnect alone |
| Registry.JoinKeepsDistinct | server.js:101 | appending a player with a fresh id keeps ids pairwise distinct |
| Tick.ReflectAxis | server.js:132-135 | the velocity stays or is negated. It is negated exactly when one of the axis's two wall tests holds, and kept when both or neither hold. Past the max wall a positive velocity turns negative, and within the min wall a negative one turns positive |
| Tick.ReflectFlipsAtMostOnce | server.js:132-135 | when the arena is at least as wide as the bouncer, the two tests never both hold, so an axis is negated exactly when either test holds |
| Tick.Knocked | server.js:141-145 | after the bouncer test the player is unchanged if it was not hit; if it was hit, it has the respawn position and 20 points fewer; id and radius are kept |
| Tick.StepPlayer | server.js:140-162 | one turn keeps the player's id and radius, leaves the beer or replaces it by a new one from the turn's draw, and emits only `lost` or `won` naming that player |
| Tick.StepEventCounts | server.js:147-160 | one turn emits `lost` at most once and `won` at most once, and only for its own player: `lost` exactly on a hit that leaves -60 or less, `won` exactly on a pickup that leaves 30 or more |
| Tick.StepPlayerSpec | server.js:141-161 | position is the respawn draw exactly on a bouncer hit; score changes by -20 for a hit and +10 for a pickup made by the post-hit copy; the beer is replaced exactly on a pickup; `lost` exactly when the hit leaves -60 or less; `won` exactly when a pickup leaves 30 or more; without a collision nothing changes |
| Tick.Process | server.js:138-163 | processing the first n players yields n entries; the affected index, when set, is one of them |
| Tick.ProcessKeepsIds | server.js:140-163 | a tick changes no player's id or radius |
| Tick.ProcessEmitsOutcomes | server.js:147-160 | the loop emits nothing but `lost` and `won` |
| Tick.ProcessKeepsBeerValid | server.js:155-156 | the beer stays in the spawn region with value 1 through a tick |
| Tick.ProcessPrefix | server.js:140-163 | later turns do not change entries already processed |
| Tick.ProcessAt | server.js:140-163 | entry k after the tick is player k's own turn, taken against the beer current at that turn |
| Tick.AffectedIsLastHit | server.js:138-157 | every player with a collision is at or before the affected index, and the affected index had a collision, so `playerUpdate` is the last player in list order with a collision |
| Tick.BeerKeptWithoutPickup | server.js:153-156 | if nobody picks up the beer, it is unchanged after the tick |
| Tick.BeerIsLastPickup | server.js:153-156 | otherwise the beer is the one built from the draws of the last player in list order that picked it up |
| Tick.LostIff | server.js:141-149 | a `lost` event names a player exactly when the bouncer hit that player and its score minus 20 is -60 or less |
| Tick.WonWhenReached | server.js:152-160 | a player that picks up the current beer and then has 30 or more is named by a `won` event |
| Tick.WonOnlyWhenReached | server.js:152-160 | every `won` event names a player that picked up the current beer and then had 30 or more |
| Tick.LostAtMostOnce | server.js:140-163 | when ids are distinct, a tick emits `lost` for a socket at most once, and never for a socket with no entry |
| Tick.WonAtMostOnce | server.js:140-163 | when ids are distinct, a tick emits `won` for a socket at most once, and never for a socket with no entry |
| Tick.LostOnce | server.js:141-149 | when ids are distinct, a tick emits `lost` for a socket exactly once if the bouncer hit its player and left it at -60 or less, and not at all otherwise |
| Tick.WonOnce | server.js:152-160 | when ids are distinct, a tick emits `won` for a socket exactly once if its player picked up the current beer and then had 30 or more, and not at all otherwise |
| Tick.TickScore | server.js:141-154 | after the tick a player's score is its old score, minus 20 for a bouncer hit, plus 10 for a pickup; its position is the respawn draw after a hit and unchanged otherwise |
| Tick.BroadcastNamesLastHit | server.js:138-171 | the final `update` carries null exactly when no player had a collision. Otherwise it carries the final state of a player that had one, with no later player in list order having one |
| World.GameWorld.constructor | server.js:84-129 | start-up has an empty list, the beer and then the bouncer at spawn positions, velocity (2, 2) and no emitted events |
| World.GameWorld.Connect | server.js:98-103 | the list gains exactly the new player at its end and nothing else changes; `init` goes to the new socket with the list that includes it |
| World.GameWorld.Update | server.js:105-115 | the in-place loop leaves the list equal to `Overwrite`, then one `update` with no player is broadcast |
| World.GameWorld.Disconnect | server.js:117-121 | `remove-player` is emitted once and the list becomes `Without` of the old one |
| World.GameWorld.Turn | server.js:140-162 | one iteration, mutating the entry in place, results in `StepPlayer`'s player, beer, events and collision flag |
| World.GameWorld.NextTurn | server.js:140-163 | if the state is the outcome of the first i turns followed by the untouched rest, after turn i it is the outcome of the first i + 1 |
| World.GameWorld.TakeTurns | server.js:138-163 | after the `forEach`, the list, beer, `playerUpdate` and emitted events are those of `Process` on the old list and beer |
| World.GameWorld.MoveBouncer | server.js:132-137 | each velocity is the reflection of its axis on the pre-move position, and the bouncer then moves by exactly the new velocity. When the arena is at least as wide (or high) as the bouncer, that axis is negated exactly when the bouncer is past either of its walls, so it never flips twice |
| World.GameWorld.Draw | server.js:130-174 | a tick reflects and moves the bouncer, processes the players as `Process` does against the moved bouncer, and then emits exactly one `update`, carrying the last affected player or none |
| World.TwoClientsThenUpdate | server.js:98-115 | after two connections and an update from the first, the broadcast lists the first client with the reported values and the second at its spawn position |

## Left out

- The Express app, its middleware, static routes, 404 handler and `listen` (server.js:1-64) are HTTP plumbing with no game logic.
- `anno-mess-board-server.js` is database connection, signal handling and route wiring, with no game logic.
- The socket.io transport and the `connections` array (server.js:92-96, 119-120) are left out. Emits are entries appended to the `events` log, and who receives them is recorded only by the event kind.
- `setInterval`, the 50 Hz cadence and the `interval` handle sent with `won` and `lost` (server.js:127, 148, 159) are timers. A tick is one atomic `Draw` call.
- `Math.random` and `Date.now()` (server.js:72, 86, 88, 156) are floating-point and clock values. The drawn integers and the clock readings are parameters, so the model does not claim that beer ids are distinct.
- The bodies of `Player.collision`, `Collectible` and `dimension` (`./public/*`) are not part of this model. The collision tests are abstract functions in `Rules`, keeping the source's argument order. The arena bounds are an `Arena` parameter with non-empty inset ranges, and the default radius of a Player object is `Rules.playerRadius`.
- The bouncer's `value` and `id` fields and the other Player fields it is built with (server.js:88) are not modelled. The tick never reads or changes them. They are still sent with the bouncer in every `init` and `update` payload (server.js:103, 114, 168), and the logged `Bouncer` value leaves them out. `bouncer.collision` may read them, but because they never change, the abstract `Rules.bouncerHits` covers that case.
- `console.log` output is left out.
- Tick.StepPlayer: its own contract states only the id, radius, beer and event shape. The full meaning of a turn is in `Tick.StepPlayerSpec`, which keeps the list-level proofs inexpensive.
- World.GameWorld.MoveBouncer: the model does not claim the bouncer stays inside the arena. With speed 2 and tests on the pre-move position, that depends on the arena size and the bouncer's radius and start position, which the source does not fix.
- Untyped JavaScript values are not modelled: positions, scores and radii are unbounded integers. Non-numeric or missing fields in an `update` payload cannot be represented.
