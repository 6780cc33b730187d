/** Serving the queue of pending requests in one pass, front to back. */
module BankerSweep {
  import opened Vectors
  import opened BankerSpec

  predicate Enough(s: Sys, r: Request)
    requires Fits(s, r)
  {
    Leq(r.amt, s.avail)
  }

  /** Whether a request may be granted now; `avoid` is the _DLAVOID build. */
  ghost predicate CanServe(avoid: bool, s: Sys, r: Request)
    requires Fits(s, r)
  {
    Enough(s, r) && (avoid ==> Safe(Grant(s, r)))
  }

  predicate AllFit(s: Sys, q: seq<Request>) {
    forall k | 0 <= k < |q| :: Fits(s, q[k])
  }

  /** None of these could be granted in s. */
  ghost predicate AllRefused(avoid: bool, s: Sys, q: seq<Request>)
    requires AllFit(s, q)
  {
    forall k | 0 <= k < |q| :: !CanServe(avoid, s, q[k])
  }

  /** What a pass leaves: the state, the ungranted requests, and who was granted, in order. */
  datatype Swept = Swept(sys: Sys, left: seq<Request>, granted: seq<nat>)

  ghost function Sweep(avoid: bool, s: Sys, q: seq<Request>): (w: Swept)
    requires AllFit(s, q)
    ensures |w.sys.alloc| == |s.alloc| && |w.sys.avail| == |s.avail| && w.sys.exited == s.exited
    ensures AllFit(w.sys, w.left)
    decreases |q|
  {
    if q == [] then
      Swept(s, [], [])
    else if CanServe(avoid, s, q[0]) then
      var w := Sweep(avoid, Grant(s, q[0]), q[1..]);
      w.(granted := [q[0].from] + w.granted)
    else
      var w := Sweep(avoid, s, q[1..]);
      w.(left := [q[0]] + w.left)
  }

  /** A request that can come from the queue: nothing negative, from a thread still there. */
  predicate Genuine(s: Sys, r: Request) {
    Fits(s, r) && NonNeg(r.amt) && !s.exited[r.from]
  }

  predicate AllGenuine(s: Sys, q: seq<Request>)
    ensures AllGenuine(s, q) ==> AllFit(s, q)
  {
    forall k | 0 <= k < |q| :: Genuine(s, q[k])
  }

  /** A request that is refused stays refused after any other grant. */
  lemma RefusedStaysRefused(avoid: bool, s: Sys, g: Request, r: Request)
    requires Genuine(s, g) && Genuine(s, r)
    requires CanServe(avoid, Grant(s, g), r)
    ensures CanServe(avoid, s, r)
  {
    var both := Grant(Grant(s, g), r);
    var other := Grant(Grant(s, r), g);
    forall j | 0 <= j < |s.avail|
      ensures r.amt[j] <= s.avail[j]
    {
      assert r.amt[j] <= Grant(s, g).avail[j];
    }
    if avoid {
      assert both == other by {
        assert both.avail == other.avail;
        forall i | 0 <= i < |s.alloc|
          ensures both.alloc[i] == other.alloc[i] && both.need[i] == other.need[i]
        {
        }
        assert both.alloc == other.alloc && both.need == other.need;
      }
      UnmoveSafe(Grant(s, r), g.from, g.amt);
    }
  }

  lemma {:induction false} RefusedThroughSweep(avoid: bool, s: Sys, q: seq<Request>, r: Request)
    requires AllGenuine(s, q)
    requires Genuine(s, r)
    requires CanServe(avoid, Sweep(avoid, s, q).sys, r)
    ensures CanServe(avoid, s, r)
    decreases |q|
  {
    if q != [] {
      if CanServe(avoid, s, q[0]) {
        RefusedThroughSweep(avoid, Grant(s, q[0]), q[1..], r);
        RefusedStaysRefused(avoid, s, q[0], r);
      } else {
        RefusedThroughSweep(avoid, s, q[1..], r);
      }
    }
  }

  /** One pass is maximal: nothing it leaves behind could be granted now. */
  lemma {:induction false} SweepIsMaximal(avoid: bool, s: Sys, q: seq<Request>)
    requires AllGenuine(s, q)
    ensures var w := Sweep(avoid, s, q); AllRefused(avoid, w.sys, w.left)
    decreases |q|
  {
    if q != [] {
      if CanServe(avoid, s, q[0]) {
        SweepIsMaximal(avoid, Grant(s, q[0]), q[1..]);
      } else {
        SweepIsMaximal(avoid, s, q[1..]);
        if CanServe(avoid, Sweep(avoid, s, q[1..]).sys, q[0]) {
          RefusedThroughSweep(avoid, s, q[1..], q[0]);
        }
      }
    }
  }

  /** The queue is dealt, in arrival order, into the granted and the ungranted. */
  predicate Splits(q: seq<Request>, left: seq<Request>, granted: seq<nat>)
    decreases |q|
  {
    if q == [] then
      left == [] && granted == []
    else
      || (left != [] && left[0] == q[0] && Splits(q[1..], left[1..], granted))
      || (granted != [] && granted[0] == q[0].from && Splits(q[1..], left, granted[1..]))
  }

  lemma {:induction false} SweepKeepsArrivalOrder(avoid: bool, s: Sys, q: seq<Request>)
    requires AllFit(s, q)
    ensures var w := Sweep(avoid, s, q); Splits(q, w.left, w.granted)
    decreases |q|
  {
    if q != [] {
      if CanServe(avoid, s, q[0]) {
        SweepKeepsArrivalOrder(avoid, Grant(s, q[0]), q[1..]);
        var w := Sweep(avoid, s, q);
        assert w.granted[1..] == Sweep(avoid, Grant(s, q[0]), q[1..]).granted;
      } else {
        SweepKeepsArrivalOrder(avoid, s, q[1..]);
        var w := Sweep(avoid, s, q);
        assert w.left[1..] == Sweep(avoid, s, q[1..]).left;
      }
    }
  }

  lemma {:induction false} SweepIdle(avoid: bool, s: Sys, q: seq<Request>)
    requires AllFit(s, q)
    requires AllRefused(avoid, s, q)
    ensures Sweep(avoid, s, q) == Swept(s, q, [])
    decreases |q|
  {
    if q != [] {
      SweepIdle(avoid, s, q[1..]);
    }
  }

  /** A second pass right after the first never grants anything. */
  lemma SecondSweepGrantsNothing(avoid: bool, s: Sys, q: seq<Request>)
    requires AllGenuine(s, q)
    ensures var w := Sweep(avoid, s, q); Sweep(avoid, w.sys, w.left) == Swept(w.sys, w.left, [])
  {
    SweepIsMaximal(avoid, s, q);
    var w := Sweep(avoid, s, q);
    SweepIdle(avoid, w.sys, w.left);
  }
}
