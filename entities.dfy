/** The values the game server keeps and sends: players, the bouncer, the beer,
    the client's update report and the messages it emits. */
module Entities {
  import opened Spawn

  datatype Option<T> = None | Some(value: T)

  /** Score lost when the bouncer hits a player. */
  const LOSS_PENALTY := 20
  /** A player whose score is at most this after a bouncer hit is told it lost. */
  const LOSS_THRESHOLD := -60
  /** Score gained on a beer pickup: a literal in the tick, not the beer's `value`. */
  const PICKUP_REWARD := 10
  /** A player whose score is at least this after a pickup is told it won. */
  const WIN_THRESHOLD := 30
  /** The `value` every beer is built with. */
  const BEER_VALUE := 1
  /** The bouncer's speed on each axis at start-up; the tick only ever negates it. */
  const INITIAL_SPEED := 2

  /** A connected client's player; `id` is the socket id. */
  datatype Player = Player(id: string, x: int, y: int, score: int, radius: int)

  /** The beer; `id` is the clock reading taken when it was built. */
  datatype Collectible = Collectible(x: int, y: int, value: int, id: int)

  /** The moving obstacle. */
  datatype Bouncer = Bouncer(x: int, y: int, radius: int)

  /** The fields a client sends in its `update` message. */
  datatype Report = Report(x: int, y: int, score: int, radius: int)

  /** What the server emits, in the order it emits it. */
  datatype Event =
    /** `init`, sent to the newly connected socket only. */
    | Init(to: string, players: seq<Player>, beer: Collectible, bouncer: Bouncer)
    /** `update`, broadcast to every socket; `player` is the tick's affected player. */
    | Update(players: seq<Player>, bouncer: Bouncer, beer: Collectible, player: Option<Player>)
    /** `remove-player`, sent to every socket but the one that left. */
    | RemovePlayer(id: string)
    /** `lost` and `won`, broadcast with the player's id. */
    | Lost(id: string)
    | Won(id: string)

  /** What the engine takes from code it does not own: the arena bounds, the default
      radius of a new Player object, and the two collision tests
      `bouncer.collision(player)` and `copy.collision(beer)`. */
  datatype Rules = Rules(
    arena: Arena,
    playerRadius: int,
    bouncerHits: (Bouncer, Player) -> bool,
    beerHits: (Player, Collectible) -> bool)

  /** The player a new connection gets: the socket id, a spawn position, score 0. */
  function NewPlayer(rules: Rules, id: string, s: Sample): (p: Player)
    requires rules.arena.Valid() && ValidSample(rules.arena, s)
    ensures p.id == id && p.score == 0 && p.radius == rules.playerRadius
    ensures Point(p.x, p.y) == RandomPosition(rules.arena, s)
    ensures InSpawnRegion(rules.arena, Point(p.x, p.y))
  {
    var pos := RandomPosition(rules.arena, s);
    Player(id, pos.x, pos.y, 0, rules.playerRadius)
  }

  /** A fresh beer at a spawn position, with value 1 and the given clock id. */
  function NewBeer(a: Arena, s: Sample, id: int): (c: Collectible)
    requires a.Valid() && ValidSample(a, s)
    ensures c.value == BEER_VALUE && c.id == id
    ensures Point(c.x, c.y) == RandomPosition(a, s)
    ensures InSpawnRegion(a, Point(c.x, c.y))
  {
    var pos := RandomPosition(a, s);
    Collectible(pos.x, pos.y, BEER_VALUE, id)
  }

  /** The bouncer as start-up builds it: a Player object at a spawn position, so with the default radius. */
  function NewBouncer(rules: Rules, s: Sample): (b: Bouncer)
    requires rules.arena.Valid() && ValidSample(rules.arena, s)
    ensures b.radius == rules.playerRadius
    ensures Point(b.x, b.y) == RandomPosition(rules.arena, s)
    ensures InSpawnRegion(rules.arena, Point(b.x, b.y))
    ensures rules.arena.minX < b.x < rules.arena.maxX && rules.arena.minY < b.y < rules.arena.maxY
  {
    var pos := RandomPosition(rules.arena, s);
    Bouncer(pos.x, pos.y, rules.playerRadius)
  }
}
