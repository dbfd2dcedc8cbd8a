/** One tick of the game loop (`draw`) as functions: the bouncer's wall reflection,
    one player's collision processing, and the processing of the whole list in order. */
module Tick {
  import opened Spawn
  import opened Entities
  import opened Registry

  /** One axis of the reflection: the max-wall test and then the min-wall test, both
      on the pre-move position, each negating the velocity when it holds. */
  function ReflectAxis(v: int, pos: int, radius: int, lo: int, hi: int): (w: int)
    ensures w == v || w == -v
    ensures (pos + radius > hi) == (pos - radius <= lo) ==> w == v
    ensures (pos + radius > hi) != (pos - radius <= lo) ==> w == -v
    ensures pos + radius > hi && pos - radius > lo ==> (v > 0 ==> w < 0)
    ensures pos - radius <= lo && pos + radius <= hi ==> (v < 0 ==> w > 0)
  {
    var afterMax := if pos + radius > hi then -v else v;
    if pos - radius <= lo then -afterMax else afterMax
  }

  /** When the arena is at least as wide as the bouncer, the two wall tests of an axis
      never both hold, so one tick flips an axis at most once. */
  lemma ReflectFlipsAtMostOnce(v: int, pos: int, radius: int, lo: int, hi: int)
    requires hi - lo >= 2 * radius
    ensures !(pos + radius > hi && pos - radius <= lo)
    ensures ReflectAxis(v, pos, radius, lo, hi) == (if pos + radius > hi || pos - radius <= lo then -v else v)
  {
  }

  /** The random inputs one player's turn may use: a respawn draw for a bouncer hit,
      a draw for the new beer's position and the clock reading for its id. */
  datatype TickInput = TickInput(respawn: Sample, beerSpawn: Sample, beerId: int)

  predicate ValidInput(a: Arena, inp: TickInput) {
    ValidSample(a, inp.respawn) && ValidSample(a, inp.beerSpawn)
  }

  predicate ValidInputs(a: Arena, ins: seq<TickInput>) {
    forall i :: 0 <= i < |ins| ==> ValidInput(a, ins[i])
  }

  /** The player after the bouncer test: moved to the respawn position and 20 points
      down when the bouncer hits it, unchanged otherwise. */
  function Knocked(rules: Rules, b: Bouncer, p: Player, inp: TickInput): (q: Player)
    requires rules.arena.Valid() && ValidInput(rules.arena, inp)
    ensures q.id == p.id && q.radius == p.radius
    ensures rules.bouncerHits(b, p) ==>
              Point(q.x, q.y) == RandomPosition(rules.arena, inp.respawn) && q.score == p.score - LOSS_PENALTY
    ensures !rules.bouncerHits(b, p) ==> q == p
  {
    if rules.bouncerHits(b, p) then
      var pos := RandomPosition(rules.arena, inp.respawn);
      p.(x := pos.x, y := pos.y, score := p.score - LOSS_PENALTY)
    else p
  }

  /** The beer test is made on a copy taken after the bouncer test, so a knocked
      player is tested at its respawn position. */
  predicate PicksUp(rules: Rules, b: Bouncer, beer: Collectible, p: Player, inp: TickInput)
    requires rules.arena.Valid() && ValidInput(rules.arena, inp)
  {
    rules.beerHits(Knocked(rules, b, p, inp), beer)
  }

  /** The result of one player's turn. */
  datatype Step = Step(player: Player, beer: Collectible, hit: bool, events: seq<Event>)

  /** One iteration of the tick's `forEach` over the players. Its contract keeps to
      what the list-level processing needs; StepPlayerSpec states the rest. */
  function StepPlayer(rules: Rules, b: Bouncer, beer: Collectible, p: Player, inp: TickInput): (s: Step)
    requires rules.arena.Valid() && ValidInput(rules.arena, inp)
    ensures s.player.id == p.id && s.player.radius == p.radius
    ensures s.beer == beer || s.beer == NewBeer(rules.arena, inp.beerSpawn, inp.beerId)
    ensures forall e :: e in s.events ==> e == Lost(p.id) || e == Won(p.id)
  {
    var q := Knocked(rules, b, p, inp);
    var lost := if rules.bouncerHits(b, p) && q.score <= LOSS_THRESHOLD then [Lost(p.id)] else [];
    if PicksUp(rules, b, beer, p, inp) then
      var r := q.(score := q.score + PICKUP_REWARD);
      var won := if r.score >= WIN_THRESHOLD then [Won(p.id)] else [];
      Step(r, NewBeer(rules.arena, inp.beerSpawn, inp.beerId), true, lost + won)
    else
      Step(q, beer, rules.bouncerHits(b, p), lost)
  }

  /** One player's turn: a bouncer hit respawns the player and costs 20 points, a
      pickup of the beer (tested after the bouncer) gains 10 and replaces the beer;
      `lost` follows a hit that leaves -60 or less, `won` a pickup that leaves 30 or
      more; a turn with neither collision changes nothing. */
  lemma StepPlayerSpec(rules: Rules, b: Bouncer, beer: Collectible, p: Player, inp: TickInput)
    requires rules.arena.Valid() && ValidInput(rules.arena, inp)
    ensures var s := StepPlayer(rules, b, beer, p, inp);
            && Point(s.player.x, s.player.y) ==
                 (if rules.bouncerHits(b, p) then RandomPosition(rules.arena, inp.respawn) else Point(p.x, p.y))
            && s.player.score == p.score
                 - (if rules.bouncerHits(b, p) then LOSS_PENALTY else 0)
                 + (if PicksUp(rules, b, beer, p, inp) then PICKUP_REWARD else 0)
            && (s.hit <==> rules.bouncerHits(b, p) || PicksUp(rules, b, beer, p, inp))
            && s.beer == (if PicksUp(rules, b, beer, p, inp)
                          then NewBeer(rules.arena, inp.beerSpawn, inp.beerId) else beer)
            && (Lost(p.id) in s.events <==> rules.bouncerHits(b, p) && p.score - LOSS_PENALTY <= LOSS_THRESHOLD)
            && (Won(p.id) in s.events <==> PicksUp(rules, b, beer, p, inp) && s.player.score >= WIN_THRESHOLD)
            && (!s.hit ==> s.player == p && s.beer == beer && s.events == [])
  {
  }

  /** One turn emits `lost` at most once and `won` at most once, and only for its
      own player: `lost` exactly on a hit that leaves -60 or less, `won` exactly on a
      pickup that leaves 30 or more. */
  lemma StepEventCounts(rules: Rules, b: Bouncer, beer: Collectible, p: Player, inp: TickInput, id: string)
    requires rules.arena.Valid() && ValidInput(rules.arena, inp)
    ensures var s := StepPlayer(rules, b, beer, p, inp);
            multiset(s.events)[Lost(id)] ==
              if id == p.id && rules.bouncerHits(b, p) && p.score - LOSS_PENALTY <= LOSS_THRESHOLD then 1 else 0
    ensures var s := StepPlayer(rules, b, beer, p, inp);
            multiset(s.events)[Won(id)] ==
              if id == p.id && PicksUp(rules, b, beer, p, inp) && s.player.score >= WIN_THRESHOLD then 1 else 0
  {
  }

  /** The state after the tick's loop: the new list, the beer, the index of the
      last player that had a collision (`playerUpdate`), and the `lost`/`won` events. */
  datatype Outcome = Outcome(players: seq<Player>, beer: Collectible, affected: Option<nat>, events: seq<Event>)

  /** The spawn-region invariant of the beer. */
  predicate ValidBeer(a: Arena, c: Collectible) {
    InSpawnRegion(a, Point(c.x, c.y)) && c.value == BEER_VALUE
  }

  /** The first n players processed in list order, each against the beer left by
      those before it; `n == |ps|` is the whole tick. */
  function Process(rules: Rules, b: Bouncer, beer: Collectible, ps: seq<Player>, ins: seq<TickInput>, n: nat): (o: Outcome)
    requires rules.arena.Valid() && |ins| == |ps| && ValidInputs(rules.arena, ins) && n <= |ps|
    ensures |o.players| == n
    ensures o.affected.Some? ==> o.affected.value < n
    decreases n
  {
    if n == 0 then Outcome([], beer, None, [])
    else
      var r := Process(rules, b, beer, ps, ins, n - 1);
      var s := StepPlayer(rules, b, r.beer, ps[n - 1], ins[n - 1]);
      Outcome(r.players + [s.player], s.beer, if s.hit then Some(n - 1) else r.affected, r.events + s.events)
  }

  /** Player k's turn, taken against the beer left by the players before it. */
  function StepAt(rules: Rules, b: Bouncer, beer: Collectible, ps: seq<Player>, ins: seq<TickInput>, k: nat): Step
    requires rules.arena.Valid() && |ins| == |ps| && ValidInputs(rules.arena, ins) && k < |ps|
  {
    StepPlayer(rules, b, Process(rules, b, beer, ps, ins, k).beer, ps[k], ins[k])
  }

  /** Player k picks up the beer current at its turn. */
  predicate PickupAt(rules: Rules, b: Bouncer, beer: Collectible, ps: seq<Player>, ins: seq<TickInput>, k: nat)
    requires rules.arena.Valid() && |ins| == |ps| && ValidInputs(rules.arena, ins) && k < |ps|
  {
    PicksUp(rules, b, Process(rules, b, beer, ps, ins, k).beer, ps[k], ins[k])
  }

  /** A tick keeps every player's id and radius. */
  lemma {:induction false} ProcessKeepsIds(rules: Rules, b: Bouncer, beer: Collectible, ps: seq<Player>, ins: seq<TickInput>, n: nat)
    requires rules.arena.Valid() && |ins| == |ps| && ValidInputs(rules.arena, ins) && n <= |ps|
    ensures var o := Process(rules, b, beer, ps, ins, n);
            forall i :: 0 <= i < n ==> o.players[i].id == ps[i].id && o.players[i].radius == ps[i].radius
    decreases n
  {
    if n > 0 {
      ProcessKeepsIds(rules, b, beer, ps, ins, n - 1);
      var r := Process(rules, b, beer, ps, ins, n - 1);
      var s := StepPlayer(rules, b, r.beer, ps[n - 1], ins[n - 1]);
      assert Process(rules, b, beer, ps, ins, n).players == r.players + [s.player];
    }
  }

  /** A tick emits only `lost` and `won`. */
  lemma {:induction false} ProcessEmitsOutcomes(rules: Rules, b: Bouncer, beer: Collectible, ps: seq<Player>, ins: seq<TickInput>, n: nat)
    requires rules.arena.Valid() && |ins| == |ps| && ValidInputs(rules.arena, ins) && n <= |ps|
    ensures forall e :: e in Process(rules, b, beer, ps, ins, n).events ==> e.Lost? || e.Won?
    decreases n
  {
    if n > 0 {
      ProcessEmitsOutcomes(rules, b, beer, ps, ins, n - 1);
      var r := Process(rules, b, beer, ps, ins, n - 1);
      var s := StepPlayer(rules, b, r.beer, ps[n - 1], ins[n - 1]);
      assert Process(rules, b, beer, ps, ins, n).events == r.events + s.events;
    }
  }

  /** A tick keeps the beer in the spawn region with value 1. */
  lemma {:induction false} ProcessKeepsBeerValid(rules: Rules, b: Bouncer, beer: Collectible, ps: seq<Player>, ins: seq<TickInput>, n: nat)
    requires rules.arena.Valid() && |ins| == |ps| && ValidInputs(rules.arena, ins) && n <= |ps|
    requires ValidBeer(rules.arena, beer)
    ensures ValidBeer(rules.arena, Process(rules, b, beer, ps, ins, n).beer)
    decreases n
  {
    if n > 0 {
      ProcessKeepsBeerValid(rules, b, beer, ps, ins, n - 1);
    }
  }

  /** The entries already processed are not touched by later turns. */
  lemma {:induction false} ProcessPrefix(rules: Rules, b: Bouncer, beer: Collectible, ps: seq<Player>, ins: seq<TickInput>, k: nat, n: nat)
    requires rules.arena.Valid() && |ins| == |ps| && ValidInputs(rules.arena, ins) && k <= n <= |ps|
    ensures Process(rules, b, beer, ps, ins, k).players == Process(rules, b, beer, ps, ins, n).players[..k]
    decreases n
  {
    if k < n {
      ProcessPrefix(rules, b, beer, ps, ins, k, n - 1);
      var r := Process(rules, b, beer, ps, ins, n - 1);
      assert Process(rules, b, beer, ps, ins, n).players[..n - 1] == r.players;
      assert r.players[..k] == Process(rules, b, beer, ps, ins, n).players[..k];
    } else {
      assert Process(rules, b, beer, ps, ins, n).players[..k] == Process(rules, b, beer, ps, ins, n).players;
    }
  }

  /** Each entry of the new list is that player's own turn, taken against the beer
      current at its turn. */
  lemma {:induction false} ProcessAt(rules: Rules, b: Bouncer, beer: Collectible, ps: seq<Player>, ins: seq<TickInput>, k: nat, n: nat)
    requires rules.arena.Valid() && |ins| == |ps| && ValidInputs(rules.arena, ins) && k < n <= |ps|
    ensures Process(rules, b, beer, ps, ins, n).players[k] == StepAt(rules, b, beer, ps, ins, k).player
    decreases n
  {
    var r := Process(rules, b, beer, ps, ins, n - 1);
    var s := StepPlayer(rules, b, r.beer, ps[n - 1], ins[n - 1]);
    assert Process(rules, b, beer, ps, ins, n).players == r.players + [s.player];
    if k < n - 1 {
      ProcessAt(rules, b, beer, ps, ins, k, n - 1);
    }
  }

  /** `playerUpdate` ends as the last player in list order that had any collision:
      every player with a collision is at or before the affected index, and the
      affected index had one. So it stays null exactly when no player had one. */
  lemma {:induction false} AffectedIsLastHit(rules: Rules, b: Bouncer, beer: Collectible, ps: seq<Player>, ins: seq<TickInput>, k: nat, n: nat)
    requires rules.arena.Valid() && |ins| == |ps| && ValidInputs(rules.arena, ins) && k < n <= |ps|
    ensures var o := Process(rules, b, beer, ps, ins, n);
            StepAt(rules, b, beer, ps, ins, k).hit ==> o.affected.Some? && k <= o.affected.value
    ensures var o := Process(rules, b, beer, ps, ins, n);
            o.affected == Some(k) ==> StepAt(rules, b, beer, ps, ins, k).hit
    decreases n
  {
    var r := Process(rules, b, beer, ps, ins, n - 1);
    var s := StepPlayer(rules, b, r.beer, ps[n - 1], ins[n - 1]);
    assert Process(rules, b, beer, ps, ins, n).affected == if s.hit then Some(n - 1) else r.affected;
    if k < n - 1 {
      AffectedIsLastHit(rules, b, beer, ps, ins, k, n - 1);
    } else {
      assert StepAt(rules, b, beer, ps, ins, k) == s;
    }
  }

  /** The beer after the tick is unchanged when nobody picked it up. */
  lemma {:induction false} BeerKeptWithoutPickup(rules: Rules, b: Bouncer, beer: Collectible, ps: seq<Player>, ins: seq<TickInput>, n: nat)
    requires rules.arena.Valid() && |ins| == |ps| && ValidInputs(rules.arena, ins) && n <= |ps|
    requires forall k :: 0 <= k < n ==> !PickupAt(rules, b, beer, ps, ins, k)
    ensures Process(rules, b, beer, ps, ins, n).beer == beer
    decreases n
  {
    if n > 0 {
      BeerKeptWithoutPickup(rules, b, beer, ps, ins, n - 1);
      assert !PickupAt(rules, b, beer, ps, ins, n - 1);
    }
  }

  /** Otherwise it is the beer built for the last player that picked one up. */
  lemma {:induction false} BeerIsLastPickup(rules: Rules, b: Bouncer, beer: Collectible, ps: seq<Player>, ins: seq<TickInput>, k: nat, n: nat)
    requires rules.arena.Valid() && |ins| == |ps| && ValidInputs(rules.arena, ins) && k < n <= |ps|
    requires PickupAt(rules, b, beer, ps, ins, k)
    requires forall j :: k < j < n ==> !PickupAt(rules, b, beer, ps, ins, j)
    ensures Process(rules, b, beer, ps, ins, n).beer == NewBeer(rules.arena, ins[k].beerSpawn, ins[k].beerId)
    decreases n
  {
    if k < n - 1 {
      BeerIsLastPickup(rules, b, beer, ps, ins, k, n - 1);
      assert !PickupAt(rules, b, beer, ps, ins, n - 1);
    }
  }

  /** A `lost` event names a player exactly when the bouncer hit that player and
      the 20-point loss took its score to -60 or below. */
  lemma {:induction false} LostIff(rules: Rules, b: Bouncer, beer: Collectible, ps: seq<Player>, ins: seq<TickInput>, n: nat, id: string)
    requires rules.arena.Valid() && |ins| == |ps| && ValidInputs(rules.arena, ins) && n <= |ps|
    ensures Lost(id) in Process(rules, b, beer, ps, ins, n).events <==>
              exists k :: 0 <= k < n && ps[k].id == id && rules.bouncerHits(b, ps[k])
                          && ps[k].score - LOSS_PENALTY <= LOSS_THRESHOLD
    decreases n
  {
    if n > 0 {
      var r := Process(rules, b, beer, ps, ins, n - 1);
      var s := StepPlayer(rules, b, r.beer, ps[n - 1], ins[n - 1]);
      assert Process(rules, b, beer, ps, ins, n).events == r.events + s.events;
      LostIff(rules, b, beer, ps, ins, n - 1, id);
      if Lost(id) in s.events {
        assert Lost(id) == Lost(ps[n - 1].id);
      }
    }
  }

  /** A player that picks up the beer current at its turn and then has a score of
      30 or more is named by a `won` event. */
  lemma {:induction false} WonWhenReached(rules: Rules, b: Bouncer, beer: Collectible, ps: seq<Player>, ins: seq<TickInput>, k: nat, n: nat)
    requires rules.arena.Valid() && |ins| == |ps| && ValidInputs(rules.arena, ins) && k < n <= |ps|
    requires PickupAt(rules, b, beer, ps, ins, k)
    requires StepAt(rules, b, beer, ps, ins, k).player.score >= WIN_THRESHOLD
    ensures Won(ps[k].id) in Process(rules, b, beer, ps, ins, n).events
    decreases n
  {
    var r := Process(rules, b, beer, ps, ins, n - 1);
    var s := StepPlayer(rules, b, r.beer, ps[n - 1], ins[n - 1]);
    assert Process(rules, b, beer, ps, ins, n).events == r.events + s.events;
    if k < n - 1 {
      WonWhenReached(rules, b, beer, ps, ins, k, n - 1);
    } else {
      assert StepAt(rules, b, beer, ps, ins, k) == s;
    }
  }

  /** Every `won` event names such a player. */
  lemma {:induction false} WonOnlyWhenReached(rules: Rules, b: Bouncer, beer: Collectible, ps: seq<Player>, ins: seq<TickInput>, n: nat, id: string)
    requires rules.arena.Valid() && |ins| == |ps| && ValidInputs(rules.arena, ins) && n <= |ps|
    requires Won(id) in Process(rules, b, beer, ps, ins, n).events
    ensures exists k :: 0 <= k < n && ps[k].id == id && PickupAt(rules, b, beer, ps, ins, k)
                        && StepAt(rules, b, beer, ps, ins, k).player.score >= WIN_THRESHOLD
    decreases n
  {
    var r := Process(rules, b, beer, ps, ins, n - 1);
    var s := StepPlayer(rules, b, r.beer, ps[n - 1], ins[n - 1]);
    assert Process(rules, b, beer, ps, ins, n).events == r.events + s.events;
    if Won(id) in s.events {
      assert Won(id) == Won(ps[n - 1].id);
      assert StepAt(rules, b, beer, ps, ins, n - 1) == s;
      assert PickupAt(rules, b, beer, ps, ins, n - 1);
    } else {
      WonOnlyWhenReached(rules, b, beer, ps, ins, n - 1, id);
    }
  }

  /** A tick emits `lost` for a socket at most once when that socket has at most
      one entry, and never for a socket with no entry. */
  lemma {:induction false} LostAtMostOnce(rules: Rules, b: Bouncer, beer: Collectible, ps: seq<Player>, ins: seq<TickInput>, n: nat, id: string)
    requires rules.arena.Valid() && |ins| == |ps| && ValidInputs(rules.arena, ins) && n <= |ps|
    requires DistinctIds(ps)
    ensures multiset(Process(rules, b, beer, ps, ins, n).events)[Lost(id)] <= 1
    ensures (forall k :: 0 <= k < n ==> ps[k].id != id) ==>
              multiset(Process(rules, b, beer, ps, ins, n).events)[Lost(id)] == 0
    decreases n
  {
    if n > 0 {
      var r := Process(rules, b, beer, ps, ins, n - 1);
      var s := StepPlayer(rules, b, r.beer, ps[n - 1], ins[n - 1]);
      var e := Process(rules, b, beer, ps, ins, n).events;
      assert e == r.events + s.events;
      assert multiset(e) == multiset(r.events) + multiset(s.events);
      LostAtMostOnce(rules, b, beer, ps, ins, n - 1, id);
      StepEventCounts(rules, b, r.beer, ps[n - 1], ins[n - 1], id);
      if ps[n - 1].id == id {
        assert forall k :: 0 <= k < n - 1 ==> ps[k].id != id;
      }
    }
  }

  /** A tick emits `won` for a socket at most once when that socket has at most
      one entry, and never for a socket with no entry. */
  lemma {:induction false} WonAtMostOnce(rules: Rules, b: Bouncer, beer: Collectible, ps: seq<Player>, ins: seq<TickInput>, n: nat, id: string)
    requires rules.arena.Valid() && |ins| == |ps| && ValidInputs(rules.arena, ins) && n <= |ps|
    requires DistinctIds(ps)
    ensures multiset(Process(rules, b, beer, ps, ins, n).events)[Won(id)] <= 1
    ensures (forall k :: 0 <= k < n ==> ps[k].id != id) ==>
              multiset(Process(rules, b, beer, ps, ins, n).events)[Won(id)] == 0
    decreases n
  {
    if n > 0 {
      var r := Process(rules, b, beer, ps, ins, n - 1);
      var s := StepPlayer(rules, b, r.beer, ps[n - 1], ins[n - 1]);
      var e := Process(rules, b, beer, ps, ins, n).events;
      assert e == r.events + s.events;
      assert multiset(e) == multiset(r.events) + multiset(s.events);
      WonAtMostOnce(rules, b, beer, ps, ins, n - 1, id);
      StepEventCounts(rules, b, r.beer, ps[n - 1], ins[n - 1], id);
      if ps[n - 1].id == id {
        assert forall k :: 0 <= k < n - 1 ==> ps[k].id != id;
      }
    }
  }

  /** With one entry per socket, a tick emits `lost` for a socket once when the
      bouncer hit its player and left it at -60 or less, and not at all otherwise. */
  lemma {:induction false} LostOnce(rules: Rules, b: Bouncer, beer: Collectible, ps: seq<Player>, ins: seq<TickInput>, n: nat, id: string)
    requires rules.arena.Valid() && |ins| == |ps| && ValidInputs(rules.arena, ins) && n <= |ps|
    requires DistinctIds(ps)
    ensures multiset(Process(rules, b, beer, ps, ins, n).events)[Lost(id)] ==
              if exists k :: 0 <= k < n && ps[k].id == id && rules.bouncerHits(b, ps[k])
                             && ps[k].score - LOSS_PENALTY <= LOSS_THRESHOLD
              then 1 else 0
  {
    LostIff(rules, b, beer, ps, ins, n, id);
    LostAtMostOnce(rules, b, beer, ps, ins, n, id);
  }

  /** With one entry per socket, a tick emits `won` for a socket once when its player
      picked up the current beer and then had 30 or more, and not at all otherwise. */
  lemma {:induction false} WonOnce(rules: Rules, b: Bouncer, beer: Collectible, ps: seq<Player>, ins: seq<TickInput>, n: nat, id: string)
    requires rules.arena.Valid() && |ins| == |ps| && ValidInputs(rules.arena, ins) && n <= |ps|
    requires DistinctIds(ps)
    ensures multiset(Process(rules, b, beer, ps, ins, n).events)[Won(id)] ==
              if exists k :: 0 <= k < n && ps[k].id == id && PickupAt(rules, b, beer, ps, ins, k)
                             && StepAt(rules, b, beer, ps, ins, k).player.score >= WIN_THRESHOLD
              then 1 else 0
  {
    WonAtMostOnce(rules, b, beer, ps, ins, n, id);
    var events := Process(rules, b, beer, ps, ins, n).events;
    if exists k :: 0 <= k < n && ps[k].id == id && PickupAt(rules, b, beer, ps, ins, k)
                   && StepAt(rules, b, beer, ps, ins, k).player.score >= WIN_THRESHOLD {
      var k :| 0 <= k < n && ps[k].id == id && PickupAt(rules, b, beer, ps, ins, k)
               && StepAt(rules, b, beer, ps, ins, k).player.score >= WIN_THRESHOLD;
      WonWhenReached(rules, b, beer, ps, ins, k, n);
      assert Won(id) in events;
    } else if Won(id) in events {
      WonOnlyWhenReached(rules, b, beer, ps, ins, n, id);
    }
  }

  /** A tick changes a score by exactly -20 for a bouncer hit and +10 for a pickup;
      a bouncer hit moves the player to its respawn position. */
  lemma TickScore(rules: Rules, b: Bouncer, beer: Collectible, ps: seq<Player>, ins: seq<TickInput>, k: nat)
    requires rules.arena.Valid() && |ins| == |ps| && ValidInputs(rules.arena, ins) && k < |ps|
    ensures var q := Process(rules, b, beer, ps, ins, |ps|).players[k];
            && q.score == ps[k].score
                 - (if rules.bouncerHits(b, ps[k]) then LOSS_PENALTY else 0)
                 + (if PickupAt(rules, b, beer, ps, ins, k) then PICKUP_REWARD else 0)
            && Point(q.x, q.y) == (if rules.bouncerHits(b, ps[k]) then RandomPosition(rules.arena, ins[k].respawn)
                                   else Point(ps[k].x, ps[k].y))
  {
    ProcessAt(rules, b, beer, ps, ins, k, |ps|);
  }

  /** The `update` sent at the end of the tick names the affected player as it
      stands after the loop (the object `playerUpdate` refers to), or null. */
  function AffectedPlayer(o: Outcome): (p: Option<Player>)
    ensures p.Some? <==> o.affected.Some? && o.affected.value < |o.players|
    ensures p.Some? ==> p.value == o.players[o.affected.value]
  {
    if o.affected.Some? && o.affected.value < |o.players| then Some(o.players[o.affected.value]) else None
  }

  /** The `update` at the end of the tick carries null exactly when no player had a
      collision; otherwise it carries the final state of a player that had one and
      after which no player in list order had one. */
  lemma {:induction false} BroadcastNamesLastHit(rules: Rules, b: Bouncer, beer: Collectible, ps: seq<Player>, ins: seq<TickInput>)
    requires rules.arena.Valid() && |ins| == |ps| && ValidInputs(rules.arena, ins)
    ensures var o := Process(rules, b, beer, ps, ins, |ps|);
            AffectedPlayer(o).None? <==> forall k :: 0 <= k < |ps| ==> !StepAt(rules, b, beer, ps, ins, k).hit
    ensures var o := Process(rules, b, beer, ps, ins, |ps|);
            AffectedPlayer(o).Some? ==>
              exists k :: 0 <= k < |ps| && StepAt(rules, b, beer, ps, ins, k).hit && AffectedPlayer(o).value == o.players[k]
                          && forall j :: k < j < |ps| ==> !StepAt(rules, b, beer, ps, ins, j).hit
  {
    var o := Process(rules, b, beer, ps, ins, |ps|);
    forall k | 0 <= k < |ps|
      ensures StepAt(rules, b, beer, ps, ins, k).hit ==> o.affected.Some? && k <= o.affected.value
      ensures o.affected == Some(k) ==> StepAt(rules, b, beer, ps, ins, k).hit
    {
      AffectedIsLastHit(rules, b, beer, ps, ins, k, |ps|);
    }
    if o.affected.Some? {
      var k := o.affected.value;
      assert StepAt(rules, b, beer, ps, ins, k).hit;
    }
  }
}
