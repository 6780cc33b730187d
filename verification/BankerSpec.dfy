/** The banker's state as a value, and what it means for it to be safe.

    A state is safe when the threads that have not exited can finish one after
    the other, each needing no more than what is free by then.  A grant, a
    release and a quit are moves between such states. */
module BankerSpec {
  import opened Vectors

  datatype Raw = Raw(avail: Vec, alloc: seq<Vec>, need: seq<Vec>, exited: seq<bool>)

  predicate Shaped(r: Raw) {
    && |r.alloc| == |r.need| == |r.exited|
    && (forall i | 0 <= i < |r.alloc| :: |r.alloc[i]| == |r.avail|)
    && (forall i | 0 <= i < |r.need| :: |r.need[i]| == |r.avail|)
  }

  type Sys = r: Raw | Shaped(r) witness Raw([], [], [], [])

  /** A pending request: the thread and how much it asks of each resource. */
  datatype Request = Request(from: nat, amt: Vec)

  predicate Fits(s: Sys, r: Request) {
    r.from < |s.alloc| && |r.amt| == |s.avail|
  }

  predicate AllocNonNeg(s: Sys) {
    forall i | 0 <= i < |s.alloc| :: NonNeg(s.alloc[i])
  }

  /** Moves d from the free pool to thread i: a grant when d is positive, a release when negative. */
  function Move(s: Sys, i: nat, d: Vec): Sys
    requires i < |s.alloc| && |d| == |s.avail|
  {
    Raw(Minus(s.avail, d), s.alloc[i := Plus(s.alloc[i], d)], s.need[i := Minus(s.need[i], d)], s.exited)
  }

  lemma MoveNothing(s: Sys, i: nat, d: Vec)
    requires i < |s.alloc| && |d| == |s.avail| && forall j | 0 <= j < |d| :: d[j] == 0
    ensures Move(s, i, d) == s
  {
    assert Plus(s.alloc[i], d) == s.alloc[i] && Minus(s.need[i], d) == s.need[i] && Minus(s.avail, d) == s.avail;
  }

  /** Moving d and then -d leaves the state as it was. */
  lemma MoveBack(s: Sys, i: nat, d: Vec)
    requires i < |s.alloc| && |d| == |s.avail|
    ensures Move(Move(s, i, d), i, seq(|d|, j requires 0 <= j < |d| => -1 * d[j])) == s
  {
    var t := Move(Move(s, i, d), i, seq(|d|, j requires 0 <= j < |d| => -1 * d[j]));
    assert t.avail == s.avail && t.alloc[i] == s.alloc[i] && t.need[i] == s.need[i];
    assert t.alloc == s.alloc && t.need == s.need;
  }

  function Grant(s: Sys, r: Request): Sys
    requires Fits(s, r)
  {
    Move(s, r.from, r.amt)
  }

  /** Thread i returns everything and stops. */
  function Quit(s: Sys, i: nat): Sys
    requires i < |s.alloc|
  {
    Raw(Plus(s.avail, s.alloc[i]), s.alloc[i := Zeros(|s.avail|)], s.need[i := Zeros(|s.avail|)], s.exited[i := true])
  }

  function Exited(s: Sys): set<nat> {
    set i: nat | i < |s.exited| && s.exited[i]
  }

  /** Starting with `work` free and `done` finished, the threads can finish in this order. */
  predicate Completes(s: Sys, work: Vec, done: set<nat>, order: seq<nat>)
    requires |work| == |s.avail|
    decreases |order|
  {
    if order == [] then
      forall i: nat | i < |s.alloc| :: i in done
    else
      && order[0] < |s.alloc|
      && order[0] !in done
      && Leq(s.need[order[0]], work)
      && Completes(s, Plus(work, s.alloc[order[0]]), done + {order[0]}, order[1..])
  }

  ghost predicate CanComplete(s: Sys, work: Vec, done: set<nat>)
    requires |work| == |s.avail|
  {
    exists order: seq<nat> :: Completes(s, work, done, order)
  }

  /** Some completion order of the threads that have not exited exists. */
  ghost predicate Safe(s: Sys) {
    CanComplete(s, s.avail, Exited(s))
  }

  // ----- how completion orders survive a change of the state

  /** More free resources keep an order; so does changing only rows that are done. */
  lemma {:induction false} CompletesMonotone(s: Sys, work: Vec, s': Sys, work': Vec, done: set<nat>, order: seq<nat>)
    requires |work| == |s.avail| == |work'| == |s'.avail| && |s.alloc| == |s'.alloc|
    requires forall i: nat | i < |s.alloc| && i !in done :: s.alloc[i] == s'.alloc[i] && s.need[i] == s'.need[i]
    requires Leq(work, work')
    requires Completes(s, work, done, order)
    ensures Completes(s', work', done, order)
    decreases |order|
  {
    if order != [] {
      CompletesMonotone(s, Plus(work, s.alloc[order[0]]), s', Plus(work', s'.alloc[order[0]]), done + {order[0]}, order[1..]);
    }
  }

  function Without(order: seq<nat>, t: nat): seq<nat> {
    if order == [] then []
    else if order[0] == t then order[1..]
    else [order[0]] + Without(order[1..], t)
  }

  /** Letting t finish first, out of turn, keeps the rest of the order: greedy choice loses nothing. */
  lemma {:induction false} FinishEarly(s: Sys, work: Vec, done: set<nat>, order: seq<nat>, t: nat, work': Vec)
    requires AllocNonNeg(s)
    requires |work| == |s.avail| == |work'|
    requires t < |s.alloc| && t !in done
    requires Leq(Plus(work, s.alloc[t]), work')
    requires Completes(s, work, done, order)
    ensures Completes(s, work', done + {t}, Without(order, t))
    decreases |order|
  {
    var o := order[0];
    if o == t {
      CompletesMonotone(s, Plus(work, s.alloc[t]), s, work', done + {t}, order[1..]);
    } else {
      FinishEarly(s, Plus(work, s.alloc[o]), done + {o}, order[1..], t, Plus(work', s.alloc[o]));
      assert done + {t} + {o} == done + {o} + {t};
      var w := Without(order, t);
      assert w[0] == o && w[1..] == Without(order[1..], t);
    }
  }

  /** Choosing a thread that fits never changes whether all can complete. */
  lemma GreedyChoice(s: Sys, work: Vec, done: set<nat>, t: nat)
    requires |work| == |s.avail|
    requires t < |s.alloc| && t !in done && Leq(s.need[t], work)
    ensures CanComplete(s, Plus(work, s.alloc[t]), done + {t}) ==> CanComplete(s, work, done)
    ensures AllocNonNeg(s) && CanComplete(s, work, done) ==> CanComplete(s, Plus(work, s.alloc[t]), done + {t})
  {
    var w := Plus(work, s.alloc[t]);
    if CanComplete(s, w, done + {t}) {
      var order: seq<nat> :| Completes(s, w, done + {t}, order);
      var longer := [t] + order;
      assert longer[1..] == order;
      assert Completes(s, work, done, longer);
    }
    if AllocNonNeg(s) && CanComplete(s, work, done) {
      var order: seq<nat> :| Completes(s, work, done, order);
      FinishEarly(s, work, done, order, t, w);
    }
  }

  /** When no unfinished thread fits, completing means there is none left. */
  lemma StuckMeansDone(s: Sys, work: Vec, done: set<nat>)
    requires |work| == |s.avail|
    requires forall i: nat | i < |s.alloc| && i !in done :: !Leq(s.need[i], work)
    ensures CanComplete(s, work, done) <==> forall i: nat | i < |s.alloc| :: i in done
  {
    if forall i: nat | i < |s.alloc| :: i in done {
      assert Completes(s, work, done, []);
    }
  }

  /** A row of zeros, exited or not, does not change the answer. */
  lemma ZeroRowIrrelevant(s: Sys, work: Vec, done: set<nat>, t: nat)
    requires AllocNonNeg(s)
    requires |work| == |s.avail| && NonNeg(work)
    requires t < |s.alloc| && s.alloc[t] == Zeros(|s.avail|) == s.need[t]
    ensures CanComplete(s, work, done + {t}) <==> CanComplete(s, work, done)
  {
    if t in done {
      assert done + {t} == done;
    } else {
      assert Plus(work, s.alloc[t]) == work;
      GreedyChoice(s, work, done, t);
    }
  }

  /** Taking back a grant (or releasing) keeps any completion order. */
  lemma {:induction false} UnmoveCompletes(s: Sys, t: nat, d: Vec, work: Vec, done: set<nat>, order: seq<nat>)
    requires t < |s.alloc| && |d| == |s.avail| == |work| && NonNeg(d)
    requires Completes(Move(s, t, d), if t in done then work else Minus(work, d), done, order)
    ensures Completes(s, work, done, order)
    decreases |order|
  {
    if order != [] {
      var o := order[0];
      var s' := Move(s, t, d);
      var work' := if t in done then work else Minus(work, d);
      var next := Plus(work, s.alloc[o]);
      assert Plus(work', s'.alloc[o]) == if t in done + {o} then next else Minus(next, d);
      UnmoveCompletes(s, t, d, next, done + {o}, order[1..]);
      forall j | 0 <= j < |work|
        ensures s.need[o][j] <= work[j]
      {
        assert s'.need[o][j] <= work'[j];
      }
    }
  }

  lemma UnmoveSafe(s: Sys, t: nat, d: Vec)
    requires t < |s.alloc| && |d| == |s.avail| && NonNeg(d) && !s.exited[t]
    requires Safe(Move(s, t, d))
    ensures Safe(s)
  {
    var s' := Move(s, t, d);
    assert Exited(s') == Exited(s);
    var order: seq<nat> :| Completes(s', s'.avail, Exited(s'), order);
    UnmoveCompletes(s, t, d, s.avail, Exited(s), order);
  }

  /** A release, whatever its size up to the allocation, keeps safety. */
  lemma ReleaseKeepsSafe(s: Sys, t: nat, d: Vec)
    requires t < |s.alloc| && |d| == |s.avail| && !s.exited[t]
    requires forall j | 0 <= j < |d| :: d[j] <= 0
    requires Safe(s)
    ensures Safe(Move(s, t, d))
  {
    var back := Minus(Zeros(|d|), d);
    var s' := Move(s, t, d);
    assert Move(s', t, back) == s by {
      var r := Move(s', t, back);
      assert r.avail == s.avail && r.alloc[t] == s.alloc[t] && r.need[t] == s.need[t];
      assert r.alloc == s.alloc && r.need == s.need;
    }
    UnmoveSafe(s', t, back);
  }

  /** A quit keeps safety. */
  lemma QuitKeepsSafe(s: Sys, t: nat)
    requires t < |s.alloc| && !s.exited[t] && AllocNonNeg(s)
    requires Safe(s)
    ensures Safe(Quit(s, t))
  {
    var s' := Quit(s, t);
    var order: seq<nat> :| Completes(s, s.avail, Exited(s), order);
    FinishEarly(s, s.avail, Exited(s), order, t, s'.avail);
    assert Exited(s') == Exited(s) + {t};
    CompletesMonotone(s, s'.avail, s', s'.avail, Exited(s'), Without(order, t));
  }

  /** Serving the first thread of a completion order keeps that very order. */
  lemma GrantToFirst(s: Sys, order: seq<nat>, amt: Vec)
    requires order != [] && Completes(s, s.avail, Exited(s), order)
    requires |amt| == |s.avail| && Leq(amt, s.need[order[0]])
    ensures var s' := Move(s, order[0], amt); Completes(s', s'.avail, Exited(s'), order)
  {
    var t := order[0];
    var s' := Move(s, t, amt);
    assert Exited(s') == Exited(s);
    assert Plus(s'.avail, s'.alloc[t]) == Plus(s.avail, s.alloc[t]);
    CompletesMonotone(s, Plus(s.avail, s.alloc[t]), s', Plus(s.avail, s.alloc[t]), Exited(s) + {t}, order[1..]);
    assert Leq(s'.need[t], s'.avail);
  }

  /** From nothing allocated and every need within what is free, any order completes. */
  lemma {:induction false} FreshCompletes(s: Sys, from: nat, done: set<nat>)
    requires from <= |s.alloc|
    requires forall i | 0 <= i < |s.alloc| :: s.alloc[i] == Zeros(|s.avail|) && Leq(s.need[i], s.avail)
    requires forall i: nat :: i in done <==> i < from
    ensures CanComplete(s, s.avail, done)
    decreases |s.alloc| - from
  {
    if from == |s.alloc| {
      StuckMeansDone(s, s.avail, done);
    } else {
      FreshCompletes(s, from + 1, done + {from});
      assert Plus(s.avail, s.alloc[from]) == s.avail;
      GreedyChoice(s, s.avail, done, from);
    }
  }
}
