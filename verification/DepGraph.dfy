/** Dependency files and what can be reached in them. */
module DepGraph {
  /** A line of the file: a foodule and those it depends on. */
  datatype Line = Line(foodule: nat, deps: seq<nat>)

  /** The file has a line for each foodule from 1 on, in order, naming foodules of the file only. */
  predicate FileOk(file: seq<Line>) {
    && (forall i | 0 <= i < |file| :: file[i].foodule == i + 1)
    && (forall i, k | 0 <= i < |file| && 0 <= k < |file[i].deps| :: 1 <= file[i].deps[k] <= |file|)
  }

  function Deps(file: seq<Line>, u: nat): seq<nat>
    requires 1 <= u <= |file|
  {
    file[u - 1].deps
  }

  /** Each foodule comes before all it depends on, in some numbering. */
  predicate Ranked(file: seq<Line>, rank: seq<nat>) {
    && FileOk(file) && |rank| == |file|
    && (forall i | 0 <= i < |file| :: rank[i] < |file|)
    && (forall i, k | 0 <= i < |file| && 0 <= k < |file[i].deps| :: rank[i] < rank[file[i].deps[k] - 1])
  }

  /** p goes from u to v, each foodule depending on the next. */
  predicate Path(file: seq<Line>, p: seq<nat>, u: nat, v: nat) {
    && |p| > 0 && p[0] == u && p[|p| - 1] == v
    && (forall i | 0 <= i < |p| :: 1 <= p[i] <= |file|)
    && (forall i | 0 <= i < |p| - 1 :: p[i + 1] in Deps(file, p[i]))
  }

  /** v is u, or something u depends on, directly or not. */
  ghost predicate Reaches(file: seq<Line>, u: nat, v: nat) {
    exists p :: Path(file, p, u, v)
  }

  lemma ReachesSelf(file: seq<Line>, u: nat)
    requires 1 <= u <= |file|
    ensures Reaches(file, u, u)
  {
    assert Path(file, [u], u, u);
  }

  lemma ReachesOn(file: seq<Line>, u: nat, d: nat, v: nat)
    requires 1 <= u <= |file| && d in Deps(file, u) && Reaches(file, d, v)
    ensures Reaches(file, u, v)
  {
    var p :| Path(file, p, d, v);
    var q := [u] + p;
    forall i | 0 <= i < |q| - 1
      ensures 1 <= q[i] <= |file| && q[i + 1] in Deps(file, q[i])
    {
      assert i > 0 ==> q[i] == p[i - 1] && q[i + 1] == p[i - 1 + 1];
    }
    assert Path(file, q, u, v);
  }

  /** Whatever is reached is reached by way of some dependency. */
  lemma ReachesBy(file: seq<Line>, u: nat, v: nat) returns (d: nat)
    requires Reaches(file, u, v) && u != v
    ensures 1 <= u <= |file| && d in Deps(file, u) && Reaches(file, d, v)
  {
    var p :| Path(file, p, u, v);
    d := p[1];
    assert p[0 + 1] in Deps(file, p[0]);
    var q := p[1..];
    forall i | 0 <= i < |q| - 1
      ensures q[i + 1] in Deps(file, q[i])
    {
      assert p[i + 1 + 1] in Deps(file, p[i + 1]);
    }
    assert Path(file, q, d, v);
  }

  /** Along a path the rank grows, so nothing is reached from its own dependencies. */
  lemma {:induction false} RankGrows(file: seq<Line>, rank: seq<nat>, p: seq<nat>, u: nat, v: nat)
    requires Ranked(file, rank) && Path(file, p, u, v)
    ensures rank[u - 1] <= rank[v - 1]
    decreases |p|
  {
    if |p| > 1 {
      assert p[0 + 1] in Deps(file, p[0]);
      forall i | 0 <= i < |p[1..]| - 1
        ensures p[1..][i + 1] in Deps(file, p[1..][i])
      {
        assert p[i + 1 + 1] in Deps(file, p[i + 1]);
      }
      RankGrows(file, rank, p[1..], p[1], v);
    }
  }

  lemma NoCycle(file: seq<Line>, rank: seq<nat>, u: nat, d: nat)
    requires Ranked(file, rank) && 1 <= u <= |file| && d in Deps(file, u)
    ensures !Reaches(file, d, u)
  {
    if Reaches(file, d, u) {
      var p :| Path(file, p, d, u);
      RankGrows(file, rank, p, d, u);
    }
  }

  /** Done foodules have all their dependencies done. */
  predicate Closed(file: seq<Line>, done: set<nat>) {
    forall v | v in done :: 1 <= v <= |file| && forall k | 0 <= k < |Deps(file, v)| :: Deps(file, v)[k] in done
  }

  lemma {:induction false} ClosedReaches(file: seq<Line>, done: set<nat>, p: seq<nat>, u: nat, v: nat)
    requires Closed(file, done) && u in done && Path(file, p, u, v)
    ensures v in done
    decreases |p|
  {
    if |p| > 1 {
      assert p[0 + 1] in Deps(file, p[0]);
      forall i | 0 <= i < |p[1..]| - 1
        ensures p[1..][i + 1] in Deps(file, p[1..][i])
      {
        assert p[i + 1 + 1] in Deps(file, p[i + 1]);
      }
      ClosedReaches(file, done, p[1..], p[1], v);
    }
  }
}
