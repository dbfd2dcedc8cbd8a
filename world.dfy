/** The server's single game world: the module-level state of the game server
    (`playersList`, `bouncer`, `beer`, `vx`, `vy`) and the handlers that change it.
    `events` records, in order, what the server emits. */
module World {
  import opened Spawn
  import opened Entities
  import opened Registry
  import opened Tick

  /** Replacing the element right after a prefix. */
  lemma ReplaceAfterPrefix<T>(a: seq<T>, p: T, c: seq<T>, x: T)
    ensures (a + [p] + c)[|a| := x] == a + [x] + c
  {
  }

  /** The loop bookkeeping of one turn: the list with entry i replaced by its turn's
      result is the outcome of one more player followed by the untouched rest. */
  lemma TurnExtends(rules: Rules, b: Bouncer, beer0: Collectible, ps: seq<Player>, ins: seq<TickInput>, i: nat)
    requires rules.arena.Valid() && |ins| == |ps| && ValidInputs(rules.arena, ins) && i < |ps|
    ensures var o := Process(rules, b, beer0, ps, ins, i);
            var s := StepPlayer(rules, b, o.beer, ps[i], ins[i]);
            var o' := Process(rules, b, beer0, ps, ins, i + 1);
            && (o.players + ps[i..])[i := s.player] == o'.players + ps[i + 1..]
            && (o.players + ps[i..])[i] == ps[i]
  {
    var o := Process(rules, b, beer0, ps, ins, i);
    var s := StepPlayer(rules, b, o.beer, ps[i], ins[i]);
    assert ps[i..] == [ps[i]] + ps[i + 1..];
    ReplaceAfterPrefix(o.players, ps[i], ps[i + 1..], s.player);
  }

  /** ReflectFlipsAtMostOnce for whichever arena size, as the implication MoveBouncer states. */
  lemma AxisFlipsAtMostOnce(v: int, pos: int, radius: int, lo: int, hi: int)
    ensures hi - lo >= 2 * radius ==>
              ReflectAxis(v, pos, radius, lo, hi) == if pos + radius > hi || pos - radius <= lo then -v else v
  {
    if hi - lo >= 2 * radius {
      ReflectFlipsAtMostOnce(v, pos, radius, lo, hi);
    }
  }

  class GameWorld {
    const rules: Rules
    var players: seq<Player>
    var bouncer: Bouncer
    var beer: Collectible
    var vx: int
    var vy: int
    var events: seq<Event>

    /** The arena is usable, the beer sits where `getRandomPosition` puts things and has
        value 1, the bouncer keeps the default radius, and the bouncer's speed on each
        axis stays 2. */
    ghost predicate Valid()
      reads this
    {
      && rules.arena.Valid()
      && ValidBeer(rules.arena, beer)
      && bouncer.radius == rules.playerRadius
      && (vx == INITIAL_SPEED || vx == -INITIAL_SPEED)
      && (vy == INITIAL_SPEED || vy == -INITIAL_SPEED)
    }

    /** Start-up: no players, a beer and then the bouncer at spawn positions, velocity (2, 2). */
    constructor (r: Rules, beerSpawn: Sample, beerId: int, bouncerSpawn: Sample)
      requires r.arena.Valid() && ValidSample(r.arena, beerSpawn) && ValidSample(r.arena, bouncerSpawn)
      ensures Valid()
      ensures rules == r
      ensures players == [] && events == []
      ensures beer == NewBeer(r.arena, beerSpawn, beerId)
      ensures bouncer == NewBouncer(r, bouncerSpawn)
      ensures vx == INITIAL_SPEED && vy == INITIAL_SPEED
    {
      rules := r;
      players := [];
      beer := NewBeer(r.arena, beerSpawn, beerId);
      bouncer := NewBouncer(r, bouncerSpawn);
      vx, vy := INITIAL_SPEED, INITIAL_SPEED;
      events := [];
    }

    /** `connection`: append a new player for the socket and send it `init`. */
    method Connect(id: string, spawn: Sample)
      requires Valid() && ValidSample(rules.arena, spawn)
      modifies this`players, this`events
      ensures Valid()
      ensures players == old(players) + [NewPlayer(rules, id, spawn)]
      ensures events == old(events) + [Init(id, players, beer, bouncer)]
    {
      var pos := RandomPosition(rules.arena, spawn);
      var player := Player(id, pos.x, pos.y, 0, rules.playerRadius);
      players := players + [player];
      events := events + [Init(id, players, beer, bouncer)];
    }

    /** `update` from socket `id`: overwrite every entry with that id, then broadcast
        the whole state with no affected player. */
    method Update(id: string, u: Report)
      requires Valid()
      modifies this`players, this`events
      ensures Valid()
      ensures players == Overwrite(old(players), id, u)
      ensures events == old(events) + [Event.Update(players, bouncer, beer, None)]
    {
      ghost var before := players;
      var i := 0;
      while i < |players|
        invariant 0 <= i <= |players| == |before|
        invariant forall j :: 0 <= j < i ==>
                    players[j] == if before[j].id == id then Reported(before[j], u) else before[j]
        invariant forall j :: i <= j < |players| ==> players[j] == before[j]
        invariant events == old(events)
      {
        if players[i].id == id {
          var user := players[i];
          user := user.(x := u.x, y := u.y, score := u.score, radius := u.radius);
          players := players[i := user];
        }
        i := i + 1;
      }
      assert players == Overwrite(before, id, u);
      events := events + [Event.Update(players, bouncer, beer, None)];
    }

    /** `disconnect` of socket `id`: tell the other sockets, then drop its entries. */
    method Disconnect(id: string)
      requires Valid()
      modifies this`players, this`events
      ensures Valid()
      ensures events == old(events) + [RemovePlayer(id)]
      ensures players == Without(old(players), id)
    {
      events := events + [RemovePlayer(id)];
      players := Without(players, id);
    }

    /** One iteration of the tick's `forEach`: the bouncer test on entry i, then the
        beer test on a copy of the entry as it stands after the bouncer test. Returns
        whether either test held, i.e. whether `playerUpdate` is set to this player. */
    method Turn(i: nat, inp: TickInput) returns (hit: bool)
      requires Valid() && i < |players| && ValidInput(rules.arena, inp)
      modifies this`players, this`beer, this`events
      ensures Valid()
      ensures var s := StepPlayer(rules, bouncer, old(beer), old(players[i]), inp);
              && players == old(players)[i := s.player]
              && beer == s.beer
              && events == old(events) + s.events
              && hit == s.hit
    {
      hit := false;
      var player := players[i];
      if rules.bouncerHits(bouncer, player) {
        var pos := RandomPosition(rules.arena, inp.respawn);
        player := player.(x := pos.x, y := pos.y, score := player.score - LOSS_PENALTY);
        players := players[i := player];
        hit := true;
        if player.score <= LOSS_THRESHOLD {
          events := events + [Lost(player.id)];
        }
      }
      // `new Player(player)`: the beer test sees the entry as it is now.
      var copy := player;
      if rules.beerHits(copy, beer) {
        player := player.(score := player.score + PICKUP_REWARD);
        players := players[i := player];
        var pos := RandomPosition(rules.arena, inp.beerSpawn);
        beer := Collectible(pos.x, pos.y, BEER_VALUE, inp.beerId);
        hit := true;
        if player.score >= WIN_THRESHOLD {
          events := events + [Won(player.id)];
        }
      }
    }

    /** Turn i of the tick's `forEach`, seen from the whole loop: if the list, the
        beer and the events are the outcome of the first i turns followed by the
        untouched rest, then afterwards they are the outcome of the first i + 1. */
    method NextTurn(i: nat, ins: seq<TickInput>, ghost ps: seq<Player>, ghost beer0: Collectible,
                    ghost events0: seq<Event>) returns (hit: bool)
      requires Valid() && |ins| == |ps| == |players| && ValidInputs(rules.arena, ins) && i < |ps|
      requires var o := Process(rules, bouncer, beer0, ps, ins, i);
               && players == o.players + ps[i..]
               && beer == o.beer
               && events == events0 + o.events
      modifies this`players, this`beer, this`events
      ensures Valid()
      ensures var o := Process(rules, bouncer, beer0, ps, ins, i);
              var o' := Process(rules, bouncer, beer0, ps, ins, i + 1);
              && players == o'.players + ps[i + 1..]
              && beer == o'.beer
              && events == events0 + o'.events
              && o'.affected == if hit then Some(i) else o.affected
    {
      TurnExtends(rules, bouncer, beer0, ps, ins, i);
      hit := Turn(i, ins[i]);
    }

    /** The tick's `forEach` over the players, in list order, with `playerUpdate`
        as the returned index. */
    method TakeTurns(ins: seq<TickInput>) returns (affected: Option<nat>)
      requires Valid() && |ins| == |players| && ValidInputs(rules.arena, ins)
      modifies this`players, this`beer, this`events
      ensures Valid()
      ensures var o := Process(rules, bouncer, old(beer), old(players), ins, |old(players)|);
              && players == o.players
              && beer == o.beer
              && affected == o.affected
              && events == old(events) + o.events
    {
      ghost var ps := players;
      ghost var beer0 := beer;
      ghost var events0 := events;
      affected := None;
      var i := 0;
      while i < |players|
        invariant 0 <= i <= |ps| == |players|
        invariant Valid()
        modifies this`players, this`beer, this`events
        invariant var o := Process(rules, bouncer, beer0, ps, ins, i);
                  && players == o.players + ps[i..]
                  && beer == o.beer
                  && affected == o.affected
                  && events == events0 + o.events
      {
        var hit := NextTurn(i, ins, ps, beer0, events0);
        if hit {
          affected := Some(i);
        }
        i := i + 1;
      }
      assert ps[i..] == [];
    }

    /** The start of `draw`: the four wall tests, in the source's order, on the
        pre-move position, each negating its axis's velocity; then the move. */
    method MoveBouncer()
      requires Valid()
      modifies this`bouncer, this`vx, this`vy
      ensures Valid()
      ensures vx == ReflectAxis(old(vx), old(bouncer.x), old(bouncer.radius), rules.arena.minX, rules.arena.maxX)
      ensures vy == ReflectAxis(old(vy), old(bouncer.y), old(bouncer.radius), rules.arena.minY, rules.arena.maxY)
      ensures bouncer == Bouncer(old(bouncer.x) + vx, old(bouncer.y) + vy, old(bouncer.radius))
      // An arena at least as wide (high) as the bouncer never flips an axis twice.
      ensures rules.arena.maxX - rules.arena.minX >= 2 * rules.playerRadius ==>
                vx == if old(bouncer.x) + rules.playerRadius > rules.arena.maxX
                         || old(bouncer.x) - rules.playerRadius <= rules.arena.minX then -old(vx) else old(vx)
      ensures rules.arena.maxY - rules.arena.minY >= 2 * rules.playerRadius ==>
                vy == if old(bouncer.y) + rules.playerRadius > rules.arena.maxY
                         || old(bouncer.y) - rules.playerRadius <= rules.arena.minY then -old(vy) else old(vy)
    {
      if bouncer.x + bouncer.radius > rules.arena.maxX { vx := -vx; }
      if bouncer.y + bouncer.radius > rules.arena.maxY { vy := -vy; }
      if bouncer.x - bouncer.radius <= rules.arena.minX { vx := -vx; }
      if bouncer.y - bouncer.radius <= rules.arena.minY { vy := -vy; }
      bouncer := bouncer.(x := bouncer.x + vx, y := bouncer.y + vy);
      AxisFlipsAtMostOnce(old(vx), old(bouncer.x), rules.playerRadius, rules.arena.minX, rules.arena.maxX);
      AxisFlipsAtMostOnce(old(vy), old(bouncer.y), rules.playerRadius, rules.arena.minY, rules.arena.maxY);
    }

    /** `draw`, one tick: move the bouncer, process every player in order against it,
        then broadcast once. */
    method Draw(ins: seq<TickInput>)
      requires Valid() && |ins| == |players| && ValidInputs(rules.arena, ins)
      modifies this`players, this`bouncer, this`beer, this`vx, this`vy, this`events
      ensures Valid()
      ensures vx == ReflectAxis(old(vx), old(bouncer.x), old(bouncer.radius), rules.arena.minX, rules.arena.maxX)
      ensures vy == ReflectAxis(old(vy), old(bouncer.y), old(bouncer.radius), rules.arena.minY, rules.arena.maxY)
      ensures bouncer == Bouncer(old(bouncer.x) + vx, old(bouncer.y) + vy, old(bouncer.radius))
      ensures var o := Process(rules, bouncer, old(beer), old(players), ins, |old(players)|);
              && players == o.players
              && beer == o.beer
              && events == old(events) + o.events + [Event.Update(players, bouncer, beer, AffectedPlayer(o))]
    {
      MoveBouncer();
      // The index of the entry `playerUpdate` refers to; that entry is not changed
      // after its own turn, so reading it now gives the object's final state.
      var affected := TakeTurns(ins);
      var update := if affected.Some? then Some(players[affected.value]) else None;
      events := events + [Event.Update(players, bouncer, beer, update)];
    }
  }

  /** Two clients connect and the first sends an update: the broadcast that follows
      lists the first client with the reported values and the second at its spawn. */
  method TwoClientsThenUpdate(r: Rules, beerSpawn: Sample, beerId: int, bouncerSpawn: Sample,
                              a: string, sa: Sample, b: string, sb: Sample, u: Report) returns (e: Event)
    requires r.arena.Valid() && ValidSample(r.arena, beerSpawn) && ValidSample(r.arena, bouncerSpawn)
    requires ValidSample(r.arena, sa) && ValidSample(r.arena, sb) && a != b
    ensures e.Update? && e.player.None?
    ensures e.players == [Reported(NewPlayer(r, a, sa), u), NewPlayer(r, b, sb)]
  {
    var w := new GameWorld(r, beerSpawn, beerId, bouncerSpawn);
    w.Connect(a, sa);
    w.Connect(b, sb);
    w.Update(a, u);
    e := w.events[|w.events| - 1];
  }
}
