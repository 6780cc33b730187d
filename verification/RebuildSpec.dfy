/** What a rebuilding has to do: what a foodule needs, in what order, and how the recursion goes about it. */
module RebuildSpec {
  import opened DepGraph
  import opened Options

  /** The new part of the log, appended when u is rebuilt with those in `before` done already: just what u
      needs and was not done, each once and after all it depends on. */
  ghost predicate Rebuilt(file: seq<Line>, before: set<nat>, added: seq<nat>, want: set<nat>) {
    && (forall k | 0 <= k < |added| :: added[k] in want && added[k] !in before)
    && (forall v | v in want && v !in before :: v in added)
    && (forall j, k | 0 <= j < k < |added| :: added[j] != added[k])
    && (forall k | 0 <= k < |added| :: InOrder(file, before, added, k))
  }

  predicate InOrder(file: seq<Line>, before: set<nat>, added: seq<nat>, k: nat)
    requires k < |added|
  {
    1 <= added[k] <= |file| && forall i | 0 <= i < |Deps(file, added[k])| :: Deps(file, added[k])[i] in before || Deps(file, added[k])[i] in added[..k]
  }

  /** What u needs, itself included. */
  ghost function Needs(file: seq<Line>, u: nat): set<nat> {
    set v | 1 <= v <= |file| && Reaches(file, u, v)
  }

  ghost predicate ReachedFrom(file: seq<Line>, deps: seq<nat>, v: nat) {
    exists k :: 0 <= k < |deps| && Reaches(file, deps[k], v)
  }

  /** What the given foodules need. */
  ghost function NeedsOf(file: seq<Line>, deps: seq<nat>): set<nat> {
    set v | 1 <= v <= |file| && ReachedFrom(file, deps, v)
  }

  lemma NeedsIsDeps(file: seq<Line>, u: nat)
    requires FileOk(file) && 1 <= u <= |file|
    ensures Needs(file, u) == {u} + NeedsOf(file, Deps(file, u))
  {
    ReachesSelf(file, u);
    forall v | 1 <= v <= |file|
      ensures Reaches(file, u, v) <==> v == u || ReachedFrom(file, Deps(file, u), v)
    {
      if Reaches(file, u, v) && v != u {
        var d := ReachesBy(file, u, v);
      }
      if k :| 0 <= k < |Deps(file, u)| && Reaches(file, Deps(file, u)[k], v) {
        ReachesOn(file, u, Deps(file, u)[k], v);
      }
    }
  }

  lemma DoneNeeds(file: seq<Line>, done: set<nat>, u: nat)
    requires Closed(file, done) && u in done
    ensures Needs(file, u) <= done
  {
    forall v | v in Needs(file, u)
      ensures v in done
    {
      var p :| Path(file, p, u, v);
      ClosedReaches(file, done, p, u, v);
    }
  }

  /** One more part of the work, after what has been done so far. */
  lemma RebuiltMore(file: seq<Line>, before: set<nat>, a: seq<nat>, wanted: set<nat>, b: seq<nat>, more: set<nat>)
    requires Rebuilt(file, before, a, wanted) && Rebuilt(file, before + wanted, b, more)
    ensures Rebuilt(file, before, a + b, wanted + more)
  {
    var c := a + b;
    forall k: nat | k < |c|
      ensures InOrder(file, before, c, k)
    {
      if k < |a| {
        assert InOrder(file, before, a, k) && c[..k] == a[..k];
      } else {
        assert InOrder(file, before + wanted, b, k - |a|) && c[..k] == a + b[..k - |a|];
      }
    }
  }

  /** Nothing that u needs is on a cycle. */
  ghost predicate Acyclic(file: seq<Line>, u: nat) {
    forall v | v in Needs(file, u) :: v !in NeedsOf(file, Deps(file, v))
  }

  lemma RankedIsAcyclic(file: seq<Line>, rank: seq<nat>, u: nat)
    requires Ranked(file, rank)
    ensures Acyclic(file, u)
  {
    forall v | v in Needs(file, u)
      ensures v !in NeedsOf(file, Deps(file, v))
    {
      var deps := Deps(file, v);
      if v in NeedsOf(file, deps) {
        var k :| 0 <= k < |deps| && Reaches(file, deps[k], v);
        NoCycle(file, rank, v, deps[k]);
      }
    }
  }

  lemma NotItsOwn(file: seq<Line>, u: nat)
    requires Acyclic(file, u) && 1 <= u <= |file|
    ensures u !in NeedsOf(file, Deps(file, u))
  {
    ReachesSelf(file, u);
  }

  /** A dependency needs less, and is on no cycle either. */
  lemma DepNeedsLess(file: seq<Line>, u: nat, dep: nat)
    requires FileOk(file) && 1 <= u <= |file| && Acyclic(file, u) && dep in Deps(file, u)
    ensures Acyclic(file, dep) && Needs(file, dep) < Needs(file, u) && |Needs(file, dep)| < |Needs(file, u)|
  {
    var k :| 0 <= k < |Deps(file, u)| && Deps(file, u)[k] == dep;
    NeedsIsDeps(file, u);
    NotItsOwn(file, u);
    forall v | v in Needs(file, dep)
      ensures v in NeedsOf(file, Deps(file, u))
    {
      assert ReachedFrom(file, Deps(file, u), v);
    }
    Smaller(Needs(file, dep), Needs(file, u), u);
  }

  lemma Smaller(a: set<nat>, b: set<nat>, x: nat)
    requires a <= b && x in b && x !in a
    ensures a < b && |a| < |b|
  {
    BelowSubset(a, b - {x});
  }

  lemma {:induction false} BelowSubset(a: set<nat>, b: set<nat>)
    requires a <= b
    ensures |a| <= |b|
  {
    if a != {} {
      var x :| x in a;
      BelowSubset(a - {x}, b - {x});
    }
  }

  lemma LastAlone(file: seq<Line>, before: set<nat>, u: nat)
    requires FileOk(file) && 1 <= u <= |file| && NeedsOf(file, Deps(file, u)) <= before && u !in before
    ensures Rebuilt(file, before, [u], {u})
  {
    var deps := Deps(file, u);
    forall k | 0 <= k < |deps|
      ensures deps[k] in before
    {
      ReachesSelf(file, deps[k]);
      assert ReachedFrom(file, deps, deps[k]);
    }
    assert InOrder(file, before, [u], 0);
  }

  /** When all u depends on is done, u itself can be rebuilt. */
  lemma RebuiltLast(file: seq<Line>, before: set<nat>, a: seq<nat>, u: nat)
    requires FileOk(file) && 1 <= u <= |file| && u !in before && u !in NeedsOf(file, Deps(file, u))
    requires Rebuilt(file, before, a, NeedsOf(file, Deps(file, u)))
    ensures Rebuilt(file, before, a + [u], Needs(file, u))
  {
    var wanted := NeedsOf(file, Deps(file, u));
    LastAlone(file, before + wanted, u);
    RebuiltMore(file, before, a, wanted, [u], {u});
    NeedsIsDeps(file, u);
    assert wanted + {u} == Needs(file, u);
  }

  lemma ClosedMore(file: seq<Line>, before: set<nat>, u: nat)
    requires FileOk(file) && Closed(file, before)
    ensures Closed(file, before + Needs(file, u))
  {
    forall v | v in Needs(file, u)
      ensures forall k | 0 <= k < |Deps(file, v)| :: Deps(file, v)[k] in Needs(file, u)
    {
      NeedsClosed(file, u, v);
    }
  }

  lemma NeedsClosed(file: seq<Line>, u: nat, v: nat)
    requires FileOk(file) && v in Needs(file, u)
    ensures forall k | 0 <= k < |Deps(file, v)| :: Deps(file, v)[k] in Needs(file, u)
  {
    var p :| Path(file, p, u, v);
    forall k | 0 <= k < |Deps(file, v)|
      ensures Deps(file, v)[k] in Needs(file, u)
    {
      assert Path(file, p + [Deps(file, v)[k]], u, Deps(file, v)[k]);
    }
  }

  // ----- the recursion

  /** What is done and what is reported. */
  datatype Work = Work(done: set<nat>, log: seq<nat>)

  /** Rebuilding u with at most `depth` processes waiting for each other, u's among them; None when that
      is not enough. */
  function Call(file: seq<Line>, depth: nat, u: nat, done: set<nat>): Option<Work>
    requires FileOk(file) && 1 <= u <= |file|
    decreases depth, 0
  {
    if depth == 0 then None
    else
      match CallDeps(file, depth - 1, Deps(file, u), 0, done)
      case None => None
      case Some(w) => Some(Work(w.done + {u}, w.log + [u]))
  }

  /** Going through the dependencies D from the i-th on. */
  function CallDeps(file: seq<Line>, depth: nat, D: seq<nat>, i: nat, done: set<nat>): Option<Work>
    requires FileOk(file) && i <= |D| && forall k | 0 <= k < |D| :: 1 <= D[k] <= |file|
    decreases depth, 1, |D| - i
  {
    if i == |D| then Some(Work(done, []))
    else if D[i] in done then CallDeps(file, depth, D, i + 1, done)
    else
      match Call(file, depth, D[i], done)
      case None => None
      case Some(w) =>
        match CallDeps(file, depth, D, i + 1, w.done)
        case None => None
        case Some(x) => Some(Work(x.done, w.log + x.log))
  }
}
