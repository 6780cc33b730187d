/** When the recursion of the rebuilding ends: exactly when no cycle is in its way. */
module RebuildEnds {
  import opened DepGraph
  import opened Options
  import opened Pigeonhole
  import opened RebuildSpec

  // ----- without a cycle it ends

  lemma {:induction false} AcyclicEnds(file: seq<Line>, depth: nat, u: nat, done: set<nat>)
    requires FileOk(file) && 1 <= u <= |file| && Acyclic(file, u) && depth >= |Needs(file, u)|
    ensures Call(file, depth, u, done).Some?
    decreases depth, 0
  {
    ReachesSelf(file, u);
    BelowSubset({u}, Needs(file, u));
    AcyclicDepsEnd(file, depth - 1, u, 0, done);
  }

  lemma {:induction false} AcyclicDepsEnd(file: seq<Line>, depth: nat, u: nat, i: nat, done: set<nat>)
    requires FileOk(file) && 1 <= u <= |file| && Acyclic(file, u) && depth + 1 >= |Needs(file, u)| && i <= |Deps(file, u)|
    ensures CallDeps(file, depth, Deps(file, u), i, done).Some?
    decreases depth, 1, |Deps(file, u)| - i
  {
    var D := Deps(file, u);
    if i < |D| {
      if D[i] in done {
        AcyclicDepsEnd(file, depth, u, i + 1, done);
      } else {
        DepNeedsLess(file, u, D[i]);
        AcyclicEnds(file, depth, D[i], done);
        AcyclicDepsEnd(file, depth, u, i + 1, Call(file, depth, D[i], done).value.done);
      }
    }
  }

  // ----- when it ends there was no cycle

  /** What has been rebuilt, and u last of all, if it has no part in what its dependencies need. */
  ghost predicate Right(file: seq<Line>, u: nat, done: set<nat>, w: Work) {
    && Rebuilt(file, done, w.log, Needs(file, u)) && w.done == done + Needs(file, u)
    && w.log != [] && w.log[|w.log| - 1] == u
  }

  /** A foodule reported last, of which none was done before, is no dependency of another of them. */
  lemma LastIsNoDep(file: seq<Line>, e: nat, done: set<nat>, w: Work, u: nat)
    requires FileOk(file) && Right(file, e, done, w) && e !in done
    requires 1 <= u <= |file| && e in Deps(file, u) && u !in done
    ensures u !in Needs(file, e)
  {
    forall k | 0 <= k < |w.log|
      ensures w.log[k] != u
    {
      assert InOrder(file, done, w.log, k);
      DepsBefore(file, done, w.log, k, e);
    }
  }

  lemma DepsBefore(file: seq<Line>, done: set<nat>, log: seq<nat>, k: nat, e: nat)
    requires k < |log| && InOrder(file, done, log, k)
    ensures e in Deps(file, log[k]) && e !in done ==> e in log[..k]
  {
  }

  lemma {:induction false} EndsRight(file: seq<Line>, depth: nat, u: nat, done: set<nat>)
    requires FileOk(file) && 1 <= u <= |file| && Closed(file, done) && u !in done && Call(file, depth, u, done).Some?
    ensures Right(file, u, done, Call(file, depth, u, done).value)
    ensures u !in NeedsOf(file, Deps(file, u))
    decreases depth, 0
  {
    var D := Deps(file, u);
    assert D[..0] == [];
    DepsEndRight(file, depth - 1, u, 0, done);
    var w := CallDeps(file, depth - 1, D, 0, done).value;
    NoNeeds(file, D[..0]);
    assert D[..|D|] == D;
    RebuiltLast(file, done, w.log, u);
    NeedsIsDeps(file, u);
  }

  lemma NoNeeds(file: seq<Line>, deps: seq<nat>)
    requires deps == []
    ensures NeedsOf(file, deps) == {}
  {
  }

  /** The dependencies from the i-th on, u not being needed by those before. */
  lemma {:induction false} DepsEndRight(file: seq<Line>, depth: nat, u: nat, i: nat, done: set<nat>)
    requires FileOk(file) && 1 <= u <= |file| && Closed(file, done) && u !in done && i <= |Deps(file, u)|
    requires CallDeps(file, depth, Deps(file, u), i, done).Some?
    ensures var w := CallDeps(file, depth, Deps(file, u), i, done).value; var D := Deps(file, u)[i..];
      Rebuilt(file, done, w.log, NeedsOf(file, D)) && w.done == done + NeedsOf(file, D) && u !in NeedsOf(file, D)
    decreases depth, 1, |Deps(file, u)| - i
  {
    var D := Deps(file, u);
    if i == |D| {
      NoNeeds(file, D[i..]);
    } else {
      NeedsFirst(file, D, i);
      if D[i] in done {
        DoneNeeds(file, done, D[i]);
        DepsEndRight(file, depth, u, i + 1, done);
        RestRebuilt(file, done, D, i, CallDeps(file, depth, D, i + 1, done).value);
      } else {
        OneEndsRight(file, depth, u, i, done);
      }
    }
  }

  lemma {:induction false} OneEndsRight(file: seq<Line>, depth: nat, u: nat, i: nat, done: set<nat>)
    requires FileOk(file) && 1 <= u <= |file| && Closed(file, done) && u !in done && i < |Deps(file, u)|
    requires CallDeps(file, depth, Deps(file, u), i, done).Some? && Deps(file, u)[i] !in done
    ensures var w := CallDeps(file, depth, Deps(file, u), i, done).value; var D := Deps(file, u)[i..];
      Rebuilt(file, done, w.log, NeedsOf(file, D)) && w.done == done + NeedsOf(file, D) && u !in NeedsOf(file, D)
    decreases depth, 1, |Deps(file, u)| - i, 0
  {
    var D := Deps(file, u);
    var w := Call(file, depth, D[i], done).value;
    EndsRight(file, depth, D[i], done);
    LastIsNoDep(file, D[i], done, w, u);
    ClosedMore(file, done, D[i]);
    DepsEndRight(file, depth, u, i + 1, w.done);
    var x := CallDeps(file, depth, D, i + 1, w.done).value;
    RebuiltMore(file, done, w.log, Needs(file, D[i]), x.log, NeedsOf(file, D[i + 1..]));
    NeedsFirst(file, D, i);
  }

  lemma NeedsFirst(file: seq<Line>, D: seq<nat>, i: nat)
    requires i < |D|
    ensures NeedsOf(file, D[i..]) == Needs(file, D[i]) + NeedsOf(file, D[i + 1..])
  {
    forall v | 1 <= v <= |file|
      ensures v in NeedsOf(file, D[i..]) <==> v in Needs(file, D[i]) || v in NeedsOf(file, D[i + 1..])
    {
      if Reaches(file, D[i], v) {
        assert D[i..][0] == D[i];
      }
      var all, rest := D[i..], D[i + 1..];
      if k :| 0 <= k < |rest| && Reaches(file, rest[k], v) {
        assert all[k + 1] == rest[k];
      }
      if v in NeedsOf(file, all) {
        var k :| 0 <= k < |all| && Reaches(file, all[k], v);
        assert k > 0 ==> rest[k - 1] == all[k];
      }
    }
  }

  lemma RestRebuilt(file: seq<Line>, done: set<nat>, D: seq<nat>, i: nat, w: Work)
    requires i < |D| && Needs(file, D[i]) <= done
    requires Rebuilt(file, done, w.log, NeedsOf(file, D[i + 1..])) && w.done == done + NeedsOf(file, D[i + 1..])
    ensures Rebuilt(file, done, w.log, Needs(file, D[i]) + NeedsOf(file, D[i + 1..]))
    ensures w.done == done + (Needs(file, D[i]) + NeedsOf(file, D[i + 1..]))
  {
  }

  /** What is reported in order is on no cycle. */
  lemma {:induction false} OrderedPath(file: seq<Line>, log: seq<nat>, p: seq<nat>, u: nat, v: nat, k: nat)
    requires Path(file, p, u, v) && k < |log| && log[k] == u
    requires forall j | 0 <= j < |log| :: InOrder(file, {}, log, j)
    ensures exists j :: 0 <= j <= k && log[j] == v
    decreases |p|
  {
    if |p| > 1 {
      assert p[0 + 1] in Deps(file, p[0]);
      assert InOrder(file, {}, log, k);
      DepsBefore(file, {}, log, k, p[1]);
      var j :| 0 <= j < k && log[j] == p[1];
      PathTail(file, p, u, v);
      OrderedPath(file, log, p[1..], p[1], v, j);
    }
  }

  lemma PathTail(file: seq<Line>, p: seq<nat>, u: nat, v: nat)
    requires Path(file, p, u, v) && |p| > 1
    ensures Path(file, p[1..], p[1], v)
  {
    var q := p[1..];
    forall i | 0 <= i < |q| - 1
      ensures q[i + 1] in Deps(file, q[i])
    {
      assert p[i + 1 + 1] in Deps(file, p[i + 1]);
    }
  }

  lemma OrderedIsAcyclic(file: seq<Line>, log: seq<nat>, u: nat)
    requires FileOk(file) && Rebuilt(file, {}, log, Needs(file, u))
    ensures Acyclic(file, u)
  {
    forall v | v in Needs(file, u)
      ensures v !in NeedsOf(file, Deps(file, v))
    {
      var k :| 0 <= k < |log| && log[k] == v;
      forall d | d in Deps(file, v)
        ensures !Reaches(file, d, v)
      {
        OrderedDep(file, log, v, k, d);
      }
    }
  }

  lemma OrderedDep(file: seq<Line>, log: seq<nat>, v: nat, k: nat, d: nat)
    requires k < |log| && log[k] == v && 1 <= v <= |file| && d in Deps(file, v)
    requires forall i, j | 0 <= i < j < |log| :: log[i] != log[j]
    requires forall j | 0 <= j < |log| :: InOrder(file, {}, log, j)
    ensures !Reaches(file, d, v)
  {
    assert InOrder(file, {}, log, k);
    DepsBefore(file, {}, log, k, d);
    var j :| 0 <= j < k && log[j] == d;
    forall p
      ensures !Path(file, p, d, v)
    {
      if Path(file, p, d, v) {
        OrderedPath(file, log, p, d, v, j);
      }
    }
  }

  /** The rebuilding of u, with nothing done yet, ends exactly when nothing that u needs is on a cycle; and
      then there are never more processes waiting for each other than there are foodules. */
  lemma EndsIff(file: seq<Line>, u: nat)
    requires FileOk(file) && 1 <= u <= |file|
    ensures (exists depth :: Call(file, depth, u, {}).Some?) <==> Acyclic(file, u)
    ensures Acyclic(file, u) ==> Call(file, |file|, u, {}).Some?
  {
    if depth :| Call(file, depth, u, {}).Some? {
      EndsRight(file, depth, u, {});
      OrderedIsAcyclic(file, Call(file, depth, u, {}).value.log, u);
    }
    if Acyclic(file, u) {
      NeedsFew(file, u);
      AcyclicEnds(file, |file|, u, {});
    }
  }

  lemma NeedsFew(file: seq<Line>, u: nat)
    ensures |Needs(file, u)| <= |file|
  {
    var less := set v | v in Needs(file, u) :: (v - 1) as nat;
    BelowBound(less, |file|);
    LessOne(Needs(file, u), less);
  }

  lemma {:induction false} LessOne(a: set<nat>, b: set<nat>)
    requires forall v | v in a :: v >= 1 && v - 1 in b
    ensures |a| <= |b|
  {
    if a != {} {
      var x :| x in a;
      LessOne(a - {x}, b - {x - 1});
    }
  }
}
