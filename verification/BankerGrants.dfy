/** Which pending requests a pass grants, in terms of what is free and of the orders in which the threads can
    finish. */
module BankerGrants {
  import opened Vectors
  import opened BankerSpec
  import opened BankerSweep
  import opened BankerRuns

  /** The request asks more of some resource than is free. */
  predicate Exceeds(s: Sys, r: Request)
    requires Fits(s, r)
  {
    exists j | 0 <= j < |s.avail| :: r.amt[j] > s.avail[j]
  }

  /** Once thread r.from has what it asks, the threads that have not exited can finish in some order. */
  ghost predicate LeavesOrder(s: Sys, r: Request)
    requires Fits(s, r)
  {
    exists order: seq<nat> :: Completes(Move(s, r.from, r.amt), Minus(s.avail, r.amt), Exited(s), order)
  }

  /** The threads that have not exited can be played out in this order: each is given all that it still needs,
      which is free by then, and quits. */
  predicate PlaysOut(s: Sys, order: seq<nat>)
    decreases |order|
  {
    if order == [] then AllExited(s)
    else
      var t := order[0];
      && t < |s.alloc| && !s.exited[t] && (forall j | 0 <= j < |s.avail| :: s.need[t][j] <= s.avail[j])
      && PlaysOut(Quit(Move(s, t, s.need[t]), t), order[1..])
  }

  /** s has come from b by threads quitting that `done` has. */
  predicate Along(b: Sys, work: Vec, done: set<nat>, s: Sys) {
    && |s.alloc| == |b.alloc| && s.avail == work && |work| == |b.avail| && Exited(s) == done
    && forall i: nat | i < |s.alloc| && i !in done :: s.alloc[i] == b.alloc[i] && s.need[i] == b.need[i]
  }

  lemma QuitAlong(b: Sys, work: Vec, done: set<nat>, s: Sys, t: nat)
    requires Along(b, work, done, s) && t < |s.alloc| && t !in done
    ensures Along(b, Plus(work, b.alloc[t]), done + {t}, Quit(Move(s, t, s.need[t]), t))
  {
    var u := Quit(Move(s, t, s.need[t]), t);
    assert u.avail == Plus(work, b.alloc[t]);
    assert Exited(u) == done + {t};
  }

  lemma {:induction false} OrderPlaysOut(b: Sys, work: Vec, done: set<nat>, s: Sys, order: seq<nat>)
    requires Along(b, work, done, s)
    ensures Completes(b, work, done, order) <==> PlaysOut(s, order)
    decreases |order|
  {
    if order == [] {
      assert forall i: nat | i < |s.alloc| :: i in Exited(s) <==> s.exited[i];
    } else if order[0] < |s.alloc| && order[0] !in done {
      QuitAlong(b, work, done, s, order[0]);
      OrderPlaysOut(b, Plus(work, b.alloc[order[0]]), done + {order[0]}, Quit(Move(s, order[0], s.need[order[0]]), order[0]), order[1..]);
    }
  }

  /** A state is safe exactly if the threads can be played out in some order. */
  lemma SafeIff(s: Sys)
    ensures Safe(s) <==> exists order :: PlaysOut(s, order)
  {
    if order: seq<nat> :| Completes(s, s.avail, Exited(s), order) {
      OrderPlaysOut(s, s.avail, Exited(s), s, order);
    }
    if order :| PlaysOut(s, order) {
      OrderPlaysOut(s, s.avail, Exited(s), s, order);
    }
  }

  /** What the source asks of a request to be granted. */
  ghost predicate MayHave(avoid: bool, s: Sys, r: Request)
    requires Fits(s, r)
  {
    !Exceeds(s, r) && (avoid ==> LeavesOrder(s, r))
  }

  lemma ServedExactly(avoid: bool, s: Sys, r: Request)
    requires Fits(s, r)
    ensures CanServe(avoid, s, r) <==> MayHave(avoid, s, r)
  {
    var t := Move(s, r.from, r.amt);
    assert Exited(t) == Exited(s) && t.avail == Minus(s.avail, r.amt);
    if LeavesOrder(s, r) {
      var order: seq<nat> :| Completes(t, t.avail, Exited(t), order);
      assert CanComplete(t, t.avail, Exited(t));
    }
  }

  // ----- what a pass grants and what it leaves

  /** These requests granted one after the other, each when it may be, take s to t. */
  ghost predicate Granting(avoid: bool, s: Sys, g: seq<Request>, t: Sys)
    decreases |g|
  {
    if g == [] then t == s
    else Fits(s, g[0]) && MayHave(avoid, s, g[0]) && Granting(avoid, Move(s, g[0].from, g[0].amt), g[1..], t)
  }

  /** q is dealt into g and left, both in its order. */
  predicate Dealt(q: seq<Request>, g: seq<Request>, left: seq<Request>)
    decreases |q|
  {
    if q == [] then g == [] && left == []
    else
      || (g != [] && g[0] == q[0] && Dealt(q[1..], g[1..], left))
      || (left != [] && left[0] == q[0] && Dealt(q[1..], g, left[1..]))
  }

  predicate AreFrom(g: seq<Request>, threads: seq<nat>) {
    |g| == |threads| && forall k | 0 <= k < |g| :: g[k].from == threads[k]
  }

  lemma {:induction false} PassGrants(avoid: bool, s: Sys, q: seq<Request>) returns (g: seq<Request>)
    requires AllFit(s, q)
    ensures var w := Sweep(avoid, s, q); AreFrom(g, w.granted) && Granting(avoid, s, g, w.sys) && Dealt(q, g, w.left)
    decreases |q|
  {
    g := [];
    if q != [] {
      ServedExactly(avoid, s, q[0]);
      if CanServe(avoid, s, q[0]) {
        var more := PassGrants(avoid, Grant(s, q[0]), q[1..]);
        g := [q[0]] + more;
        assert g[1..] == more;
      } else {
        g := PassGrants(avoid, s, q[1..]);
        var w := Sweep(avoid, s, q[1..]);
        assert ([q[0]] + w.left)[1..] == w.left;
      }
    }
  }

  /** What is left asks more than is free, or would leave no order in which all can finish. */
  ghost predicate NoneMayHave(avoid: bool, s: Sys, q: seq<Request>) {
    forall k | 0 <= k < |q| :: Fits(s, q[k]) && (Exceeds(s, q[k]) || (avoid && !LeavesOrder(s, q[k])))
  }

  lemma PassLeaves(avoid: bool, s: Sys, q: seq<Request>)
    requires AllGenuine(s, q)
    ensures var w := Sweep(avoid, s, q); NoneMayHave(avoid, w.sys, w.left)
  {
    SweepIsMaximal(avoid, s, q);
    var w := Sweep(avoid, s, q);
    forall k | 0 <= k < |w.left|
      ensures Exceeds(w.sys, w.left[k]) || (avoid && !LeavesOrder(w.sys, w.left[k]))
    {
      ServedExactly(avoid, w.sys, w.left[k]);
    }
  }

  lemma {:induction false} SweepAppend(avoid: bool, s: Sys, q: seq<Request>, r: Request)
    requires AllFit(s, q) && Fits(s, r)
    ensures var w := Sweep(avoid, s, q);
      Sweep(avoid, s, q + [r]) == if CanServe(avoid, w.sys, r) then Swept(Grant(w.sys, r), w.left, w.granted + [r.from])
                                  else Swept(w.sys, w.left + [r], w.granted)
    decreases |q|
  {
    var all := q + [r];
    if q == [] {
      assert all[0] == r && all[1..] == [];
      assert Sweep(avoid, Grant(s, r), []) == Swept(Grant(s, r), [], []);
    } else {
      assert all[0] == q[0] && all[1..] == q[1..] + [r];
      var next := if CanServe(avoid, s, q[0]) then Grant(s, q[0]) else s;
      SweepAppend(avoid, next, q[1..], r);
      var w := Sweep(avoid, next, q[1..]);
      assert [q[0].from] + (w.granted + [r.from]) == [q[0].from] + w.granted + [r.from];
      assert [q[0]] + (w.left + [r]) == [q[0]] + w.left + [r];
    }
  }

  /** The k-th request is decided on what the grants before it leave: it is granted exactly if it asks no
      more than is free there and, with avoidance, an order remains. */
  lemma DecidedInTurn(avoid: bool, s: Sys, q: seq<Request>, k: nat)
    requires AllFit(s, q) && k < |q|
    ensures var w, v := Sweep(avoid, s, q[..k]), Sweep(avoid, s, q[..k + 1]);
      && Fits(w.sys, q[k])
      && if MayHave(avoid, w.sys, q[k]) then v.granted == w.granted + [q[k].from] && v.left == w.left && v.sys == Move(w.sys, q[k].from, q[k].amt)
         else v.granted == w.granted && v.left == w.left + [q[k]] && v.sys == w.sys
  {
    assert q[..k + 1] == q[..k] + [q[k]];
    SweepAppend(avoid, s, q[..k], q[k]);
    ServedExactly(avoid, Sweep(avoid, s, q[..k]).sys, q[k]);
  }

  // ----- a turn of the master

  /** The turn that takes the message in st to t and signals these threads: each was granted what it asked
      when it might have it, and nobody still pending may have what it asks. */
  ghost predicate RightTurn(avoid: bool, st: State, t: State, granted: seq<nat>) {
    && (exists g :: AreFrom(g, granted) && Granting(avoid, st.sys, g, t.sys) && Dealt(st.queue, g, t.queue))
    && NoneMayHave(avoid, t.sys, t.queue)
  }

  lemma NobodyIsGranted(avoid: bool, st: State)
    requires st.queue == []
    ensures RightTurn(avoid, st, st, [])
  {
    var g: seq<Request> := [];
    assert AreFrom(g, []) && Granting(avoid, st.sys, g, st.sys) && Dealt(st.queue, g, st.queue);
  }

  lemma PassIsRight(avoid: bool, lim: Limits, st: State)
    requires QueueFits(st) && Sound(avoid, lim, st)
    ensures RightTurn(avoid, st, Settle(avoid, st), Sweep(avoid, st.sys, st.queue).granted)
  {
    SoundIsGenuine(avoid, lim, st);
    PassLeaves(avoid, st.sys, st.queue);
    var g := PassGrants(avoid, st.sys, st.queue);
  }

  /** Every turn of the master is right. */
  lemma TurnIsRight(avoid: bool, lim: Limits, st: State, e: Event)
    requires Inv(avoid, lim, st) && Legal(st, e)
    ensures RightTurn(avoid, Received(st, e), Step(avoid, st, e), Woken(avoid, st, e))
  {
    match e
    case Ask(i, req) =>
      RegisterKeepsSound(avoid, lim, st, i, req);
      PassIsRight(avoid, lim, Received(st, e));
    case Stop(i) =>
      QuitKeepsSound(avoid, lim, st, i);
      var t := Received(st, e);
      if AllExited(t.sys) {
        PendingMeansLive(t.sys, t.queue);
        NobodyIsGranted(avoid, t);
      } else {
        PassIsRight(avoid, lim, t);
      }
  }
}
