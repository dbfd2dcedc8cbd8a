/** The player list as the connection handlers change it: the `update` handler's
    field overwrite and the `disconnect` handler's filter, as functions on lists. */
module Registry {
  import opened Entities

  /** No two entries share an id (one player per live connection). */
  predicate DistinctIds(ps: seq<Player>) {
    forall i, j :: 0 <= i < j < |ps| ==> ps[i].id != ps[j].id
  }

  /** No entry has the id. */
  predicate Absent(ps: seq<Player>, id: string) {
    forall i :: 0 <= i < |ps| ==> ps[i].id != id
  }

  /** One entry after the update handler: the reported x, y, score and radius, the id kept. */
  function Reported(p: Player, u: Report): (q: Player)
    ensures q.id == p.id
  {
    p.(x := u.x, y := u.y, score := u.score, radius := u.radius)
  }

  /** The list after `update`: every entry with the sender's id carries the report. */
  function Overwrite(ps: seq<Player>, id: string, u: Report): (r: seq<Player>)
    ensures |r| == |ps|
    ensures forall i :: 0 <= i < |ps| ==> r[i].id == ps[i].id
    ensures forall i :: 0 <= i < |ps| && ps[i].id != id ==> r[i] == ps[i]
    ensures forall i :: 0 <= i < |ps| && ps[i].id == id ==>
              r[i].x == u.x && r[i].y == u.y && r[i].score == u.score && r[i].radius == u.radius
    decreases |ps|
  {
    if ps == [] then []
    else [if ps[0].id == id then Reported(ps[0], u) else ps[0]] + Overwrite(ps[1..], id, u)
  }

  /** An update from a socket that has no entry leaves the list as it was. */
  lemma OverwriteAbsent(ps: seq<Player>, id: string, u: Report)
    requires Absent(ps, id)
    ensures Overwrite(ps, id, u) == ps
  {
  }

  /** Sending the same report twice has the effect of sending it once. */
  lemma OverwriteIdempotent(ps: seq<Player>, id: string, u: Report)
    ensures Overwrite(Overwrite(ps, id, u), id, u) == Overwrite(ps, id, u)
  {
  }

  /** Updates from two different sockets touch disjoint entries, so their order does not matter. */
  lemma OverwriteCommutes(ps: seq<Player>, id1: string, u1: Report, id2: string, u2: Report)
    requires id1 != id2
    ensures Overwrite(Overwrite(ps, id1, u1), id2, u2) == Overwrite(Overwrite(ps, id2, u2), id1, u1)
  {
  }

  /** The update handler keeps ids apart, since it never changes an id. */
  lemma OverwriteKeepsDistinct(ps: seq<Player>, id: string, u: Report)
    requires DistinctIds(ps)
    ensures DistinctIds(Overwrite(ps, id, u))
  {
  }

  /** The list after `disconnect`: `playersList.filter(player => player.id !== id)`. */
  function Without(ps: seq<Player>, id: string): (r: seq<Player>)
    ensures |r| <= |ps|
    ensures Absent(r, id)
    ensures forall p :: p in r <==> p in ps && p.id != id
    decreases |ps|
  {
    if ps == [] then []
    else if ps[0].id == id then Without(ps[1..], id)
    else [ps[0]] + Without(ps[1..], id)
  }

  /** Filtering distributes over concatenation: the kept entries stay in their
      original relative order. */
  lemma {:induction false} WithoutConcat(a: seq<Player>, b: seq<Player>, id: string)
    ensures Without(a + b, id) == Without(a, id) + Without(b, id)
    decreases |a|
  {
    if a == [] {
      assert a + b == b;
    } else {
      assert (a + b)[1..] == a[1..] + b;
      WithoutConcat(a[1..], b, id);
    }
  }

  /** Disconnecting a socket with no entry leaves the list as it was. */
  lemma {:induction false} WithoutAbsent(ps: seq<Player>, id: string)
    requires Absent(ps, id)
    ensures Without(ps, id) == ps
    decreases |ps|
  {
    if ps != [] {
      WithoutAbsent(ps[1..], id);
    }
  }

  /** The filter removes exactly the entries with the id: the kept count is the
      length minus the number of entries with that id. */
  function Occurrences(ps: seq<Player>, id: string): (n: nat)
    ensures n <= |ps|
    ensures n == 0 <==> Absent(ps, id)
    decreases |ps|
  {
    if ps == [] then 0
    else (if ps[0].id == id then 1 else 0) + Occurrences(ps[1..], id)
  }

  lemma {:induction false} WithoutLength(ps: seq<Player>, id: string)
    ensures |Without(ps, id)| == |ps| - Occurrences(ps, id)
    decreases |ps|
  {
    if ps != [] {
      WithoutLength(ps[1..], id);
    }
  }

  /** Disconnecting keeps the other ids apart. */
  lemma {:induction false} WithoutKeepsDistinct(ps: seq<Player>, id: string)
    requires DistinctIds(ps)
    ensures DistinctIds(Without(ps, id))
    decreases |ps|
  {
    if ps != [] {
      assert DistinctIds(ps[1..]) by {
        forall i, j | 0 <= i < j < |ps[1..]| ensures ps[1..][i].id != ps[1..][j].id {
          assert ps[1..][i] == ps[i + 1] && ps[1..][j] == ps[j + 1];
        }
      }
      WithoutKeepsDistinct(ps[1..], id);
      var rest := Without(ps[1..], id);
      if ps[0].id != id {
        forall q | q in rest ensures q.id != ps[0].id {
          var k :| 0 <= k < |ps[1..]| && ps[1..][k] == q;
          assert ps[k + 1] == q;
        }
        var r := [ps[0]] + rest;
        forall i, j | 0 <= i < j < |r| ensures r[i].id != r[j].id {
          if i == 0 {
            assert r[j] == rest[j - 1] && r[j] in rest;
          } else {
            assert r[i] == rest[i - 1] && r[j] == rest[j - 1];
          }
        }
      }
    }
  }

  /** Updating an entry and then disconnecting it is the same as only disconnecting it. */
  lemma {:induction false} WithoutAfterOverwrite(ps: seq<Player>, id: string, u: Report)
    ensures Without(Overwrite(ps, id, u), id) == Without(ps, id)
    decreases |ps|
  {
    if ps != [] {
      var o := Overwrite(ps, id, u);
      assert o[1..] == Overwrite(ps[1..], id, u);
      WithoutAfterOverwrite(ps[1..], id, u);
    }
  }

  /** A connection with a fresh id keeps ids apart. */
  lemma JoinKeepsDistinct(ps: seq<Player>, p: Player)
    requires DistinctIds(ps) && Absent(ps, p.id)
    ensures DistinctIds(ps + [p])
  {
  }
}
