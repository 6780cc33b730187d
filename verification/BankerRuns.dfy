/** Whole runs of the banker: threads send requests and quit, the master answers. */
module BankerRuns {
  import opened Vectors
  import opened BankerSpec
  import opened BankerSweep
  import opened Pigeonhole

  /** What a thread sends the master: a vector of requests and releases, or its end. */
  datatype Event = Ask(i: nat, req: Vec) | Stop(i: nat)

  /** The master's state between two events. */
  datatype State = State(sys: Sys, queue: seq<Request>)

  function Negatives(req: Vec): Vec {
    seq(|req|, j requires 0 <= j < |req| => if req[j] < 0 then req[j] else 0)
  }

  function Positives(req: Vec): Vec {
    seq(|req|, j requires 0 <= j < |req| => if req[j] > 0 then req[j] else 0)
  }

  predicate Additional(req: Vec) {
    exists j | 0 <= j < |req| :: req[j] > 0
  }

  predicate Waiting(st: State, i: nat) {
    exists k | 0 <= k < |st.queue| :: st.queue[k].from == i
  }

  predicate QueueFits(st: State) {
    AllFit(st.sys, st.queue)
  }

  /** Releases take effect at once; the rest of the request joins the queue. */
  function Register(st: State, i: nat, req: Vec): (t: State)
    requires QueueFits(st) && i < |st.sys.alloc| && |req| == |st.sys.avail|
    ensures QueueFits(t)
  {
    State(Move(st.sys, i, Negatives(req)),
          if Additional(req) then st.queue + [Request(i, Positives(req))] else st.queue)
  }

  ghost function Settle(avoid: bool, st: State): (t: State)
    requires QueueFits(st)
    ensures QueueFits(t)
  {
    var w := Sweep(avoid, st.sys, st.queue);
    State(w.sys, w.left)
  }

  predicate AllExited(s: Sys) {
    forall i | 0 <= i < |s.exited| :: s.exited[i]
  }

  predicate Possible(st: State, e: Event) {
    e.i < |st.sys.alloc| && (e.Ask? ==> |e.req| == |st.sys.avail|)
  }

  /** One turn of the master's loop. */
  ghost function Step(avoid: bool, st: State, e: Event): (t: State)
    requires QueueFits(st) && Possible(st, e)
    ensures QueueFits(t)
    ensures |t.sys.alloc| == |st.sys.alloc| && |t.sys.avail| == |st.sys.avail|
  {
    match e
    case Ask(i, req) => Settle(avoid, Register(st, i, req))
    case Stop(i) =>
      var t := State(Quit(st.sys, i), st.queue);
      if AllExited(t.sys) then t else Settle(avoid, t)
  }

  /** The state with the message taken, before the pass. */
  function Received(st: State, e: Event): (t: State)
    requires QueueFits(st) && Possible(st, e)
    ensures QueueFits(t)
  {
    match e
    case Ask(i, req) => Register(st, i, req)
    case Stop(i) => State(Quit(st.sys, i), st.queue)
  }

  /** The threads signalled in that turn, in order. */
  ghost function Woken(avoid: bool, st: State, e: Event): seq<nat>
    requires QueueFits(st) && Possible(st, e)
  {
    var t := Received(st, e);
    if e.Stop? && AllExited(t.sys) then [] else Sweep(avoid, t.sys, t.queue).granted
  }

  lemma StepExits(avoid: bool, st: State, e: Event)
    requires QueueFits(st) && Possible(st, e)
    ensures Step(avoid, st, e).sys.exited == if e.Stop? then st.sys.exited[e.i := true] else st.sys.exited
  {
  }

  /** What a thread following its script may send: it is there, it is not waiting,
      it releases no more than it holds and asks no more than it still needs. */
  predicate Legal(st: State, e: Event) {
    && Possible(st, e)
    && !st.sys.exited[e.i]
    && !Waiting(st, e.i)
    && (e.Ask? ==> forall j | 0 <= j < |e.req| :: -st.sys.alloc[e.i][j] <= e.req[j] <= st.sys.need[e.i][j])
  }

  ghost predicate LegalRun(avoid: bool, st: State, evs: seq<Event>)
    requires QueueFits(st)
    decreases |evs|
  {
    evs != [] ==> Legal(st, evs[0]) && LegalRun(avoid, Step(avoid, st, evs[0]), evs[1..])
  }

  ghost function Run(avoid: bool, st: State, evs: seq<Event>): (t: State)
    requires QueueFits(st) && LegalRun(avoid, st, evs)
    ensures QueueFits(t)
    decreases |evs|
  {
    if evs == [] then st else Run(avoid, Step(avoid, st, evs[0]), evs[1..])
  }

  /** What is declared once and for all: the total of each resource and each thread's maximum. */
  datatype Limits = Limits(total: Vec, max: seq<Vec>)

  function Start(lim: Limits): State
    requires forall i | 0 <= i < |lim.max| :: |lim.max[i]| == |lim.total|
  {
    var n, m := |lim.max|, |lim.total|;
    State(Raw(lim.total, seq(n, _ => Zeros(m)), lim.max, seq(n, _ => false)), [])
  }

  predicate LimitsOk(lim: Limits) {
    && NonNeg(lim.total)
    && forall i | 0 <= i < |lim.max| ::
      |lim.max[i]| == |lim.total| && NonNeg(lim.max[i]) && Leq(lim.max[i], lim.total)
  }

  /** Books balance: nothing negative, totals conserved, declared maxima kept. */
  predicate Books(lim: Limits, s: Sys) {
    var n, m := |lim.max|, |lim.total|;
    && |s.alloc| == n && |s.avail| == m
    && (forall i | 0 <= i < n :: |lim.max[i]| == m)
    && NonNeg(s.avail) && AllocNonNeg(s)
    && (forall i | 0 <= i < n :: NonNeg(s.need[i]))
    && (forall j | 0 <= j < m :: s.avail[j] + ColSum(s.alloc, j) == lim.total[j])
    && (forall i | 0 <= i < n :: if s.exited[i] then s.alloc[i] == Zeros(m) == s.need[i]
                                                else Plus(s.alloc[i], s.need[i]) == lim.max[i])
  }

  /** Pending requests are genuine, within the declared need, one per thread. */
  predicate Pending(s: Sys, q: seq<Request>) {
    && (forall k | 0 <= k < |q| :: Genuine(s, q[k]) && Leq(q[k].amt, s.need[q[k].from]))
    && (forall a, b | 0 <= a < b < |q| :: q[a].from != q[b].from)
  }

  /** Only live threads wait. */
  lemma PendingMeansLive(s: Sys, q: seq<Request>)
    requires Pending(s, q)
    ensures q == [] || !AllExited(s)
  {
    if q != [] {
      assert Genuine(s, q[0]);
    }
  }

  lemma NoOrderMeansAllExited(s: Sys, order: seq<nat>)
    requires Completes(s, s.avail, Exited(s), order)
    ensures order != [] || AllExited(s)
  {
    if order == [] {
      forall i | 0 <= i < |s.exited|
        ensures s.exited[i]
      {
        assert i in Exited(s);
      }
    }
  }

  ghost predicate Refused(avoid: bool, st: State)
    requires QueueFits(st)
  {
    AllRefused(avoid, st.sys, st.queue)
  }

  /** Everything but "nothing pending could be granted", which only a finished turn has. */
  ghost predicate Sound(avoid: bool, lim: Limits, st: State) {
    && Books(lim, st.sys)
    && Pending(st.sys, st.queue)
    && (avoid ==> Safe(st.sys))
  }

  ghost predicate Inv(avoid: bool, lim: Limits, st: State) {
    && QueueFits(st)
    && Sound(avoid, lim, st)
    && Refused(avoid, st)
  }

  lemma StartInv(avoid: bool, lim: Limits)
    requires LimitsOk(lim)
    ensures Inv(avoid, lim, Start(lim))
  {
    var s := Start(lim).sys;
    forall j | 0 <= j < |lim.total|
      ensures s.avail[j] + ColSum(s.alloc, j) == lim.total[j]
    {
      ColSumZero(s.alloc, j);
    }
    forall i | 0 <= i < |lim.max|
      ensures Plus(s.alloc[i], s.need[i]) == lim.max[i]
    {
    }
    assert Exited(s) == {};
    FreshCompletes(s, 0, {});
  }

  /** Moving d between pool and thread i, with no side going negative, keeps the books. */
  lemma MoveKeepsBooks(lim: Limits, s: Sys, i: nat, d: Vec)
    requires Books(lim, s) && i < |s.alloc| && |d| == |s.avail| && !s.exited[i]
    requires forall j | 0 <= j < |d| :: -s.alloc[i][j] <= d[j] <= s.need[i][j] && d[j] <= s.avail[j]
    ensures Books(lim, Move(s, i, d))
  {
    var t := Move(s, i, d);
    forall j | 0 <= j < |s.avail|
      ensures t.avail[j] + ColSum(t.alloc, j) == lim.total[j]
    {
      ColSumUpdate(s.alloc, j, i, t.alloc[i]);
    }
    assert Plus(t.alloc[i], t.need[i]) == Plus(s.alloc[i], s.need[i]);
  }

  lemma QuitKeepsBooks(lim: Limits, s: Sys, i: nat)
    requires Books(lim, s) && i < |s.alloc| && !s.exited[i]
    ensures Books(lim, Quit(s, i))
  {
    var t := Quit(s, i);
    forall j | 0 <= j < |s.avail|
      ensures t.avail[j] + ColSum(t.alloc, j) == lim.total[j]
    {
      ColSumUpdate(s.alloc, j, i, t.alloc[i]);
    }
  }

  /** A sweep changes no row but those it grants, and drops requests without making any. */
  lemma {:induction false} SweepFrame(avoid: bool, s: Sys, q: seq<Request>)
    requires AllFit(s, q)
    ensures forall r | r in Sweep(avoid, s, q).left :: r in q
    ensures forall i | 0 <= i < |s.alloc| && (forall k | 0 <= k < |q| :: q[k].from != i) ::
              Sweep(avoid, s, q).sys.alloc[i] == s.alloc[i] && Sweep(avoid, s, q).sys.need[i] == s.need[i]
    decreases |q|
  {
    if q != [] {
      SweepFrame(avoid, if CanServe(avoid, s, q[0]) then Grant(s, q[0]) else s, q[1..]);
    }
  }

  lemma GrantKeepsSound(avoid: bool, lim: Limits, s: Sys, q: seq<Request>)
    requires Sound(avoid, lim, State(s, q)) && q != [] && CanServe(avoid, s, q[0])
    ensures Sound(avoid, lim, State(Grant(s, q[0]), q[1..]))
  {
    MoveKeepsBooks(lim, s, q[0].from, q[0].amt);
  }

  lemma TailPending(s: Sys, t: Sys, r: Request, q: seq<Request>, left: seq<Request>)
    requires Pending(s, [r] + q) && Pending(t, left) && Fits(s, r)
    requires |t.alloc| == |s.alloc| && |t.avail| == |s.avail| && t.exited == s.exited && t.need[r.from] == s.need[r.from]
    requires forall x | x in left :: x in q
    ensures Pending(t, [r] + left)
  {
    var all := [r] + q;
    assert all[0] == r && all[1..] == q;
    forall k | 0 <= k < |left|
      ensures left[k].from != r.from
    {
      assert left[k] in q;
      var b :| 0 <= b < |q| && q[b] == left[k];
      assert all[b + 1] == q[b];
    }
  }

  /** A sweep keeps the books, the queue in order, and (avoiding) safety. */
  lemma {:induction false} SweepKeepsSound(avoid: bool, lim: Limits, s: Sys, q: seq<Request>)
    requires Sound(avoid, lim, State(s, q))
    ensures var w := Sweep(avoid, s, q); Sound(avoid, lim, State(w.sys, w.left))
    decreases |q|
  {
    if q != [] {
      if CanServe(avoid, s, q[0]) {
        GrantKeepsSound(avoid, lim, s, q);
        SweepKeepsSound(avoid, lim, Grant(s, q[0]), q[1..]);
      } else {
        SweepKeepsSound(avoid, lim, s, q[1..]);
        SweepFrame(avoid, s, q[1..]);
        var w := Sweep(avoid, s, q[1..]);
        assert q == [q[0]] + q[1..];
        TailPending(s, w.sys, q[0], q[1..], w.left);
      }
    }
  }

  lemma RegisterKeepsPending(lim: Limits, st: State, i: nat, req: Vec)
    requires QueueFits(st) && Books(lim, st.sys) && Pending(st.sys, st.queue) && Legal(st, Ask(i, req))
    ensures var t := Register(st, i, req); Pending(t.sys, t.queue)
  {
  }

  lemma RegisterKeepsSound(avoid: bool, lim: Limits, st: State, i: nat, req: Vec)
    requires QueueFits(st) && Sound(avoid, lim, st) && Legal(st, Ask(i, req))
    ensures Sound(avoid, lim, Register(st, i, req))
  {
    RegisterKeepsPending(lim, st, i, req);
    MoveKeepsBooks(lim, st.sys, i, Negatives(req));
    if avoid {
      ReleaseKeepsSafe(st.sys, i, Negatives(req));
    }
  }

  lemma QuitKeepsSound(avoid: bool, lim: Limits, st: State, i: nat)
    requires QueueFits(st) && Sound(avoid, lim, st) && Legal(st, Stop(i))
    ensures Sound(avoid, lim, State(Quit(st.sys, i), st.queue))
  {
    QuitKeepsBooks(lim, st.sys, i);
    if avoid {
      QuitKeepsSafe(st.sys, i);
    }
  }

  lemma SettleInv(avoid: bool, lim: Limits, st: State)
    requires QueueFits(st) && Sound(avoid, lim, st)
    ensures Inv(avoid, lim, Settle(avoid, st))
  {
    SweepKeepsSound(avoid, lim, st.sys, st.queue);
    SweepIsMaximal(avoid, st.sys, st.queue);
  }

  lemma StepInv(avoid: bool, lim: Limits, st: State, e: Event)
    requires Inv(avoid, lim, st) && Legal(st, e)
    ensures Inv(avoid, lim, Step(avoid, st, e))
  {
    match e
    case Ask(i, req) =>
      RegisterKeepsSound(avoid, lim, st, i, req);
      SettleInv(avoid, lim, Register(st, i, req));
    case Stop(i) =>
      QuitKeepsSound(avoid, lim, st, i);
      var t := State(Quit(st.sys, i), st.queue);
      if AllExited(t.sys) {
        PendingMeansLive(t.sys, t.queue);
      } else {
        SettleInv(avoid, lim, t);
      }
  }

  /** Every run, from any reachable state, keeps the books balanced and, with avoidance, every state safe. */
  lemma {:induction false} RunInv(avoid: bool, lim: Limits, st: State, evs: seq<Event>)
    requires Inv(avoid, lim, st) && LegalRun(avoid, st, evs)
    ensures Inv(avoid, lim, Run(avoid, st, evs))
    decreases |evs|
  {
    if evs != [] {
      StepInv(avoid, lim, st, evs[0]);
      RunInv(avoid, lim, Step(avoid, st, evs[0]), evs[1..]);
    }
  }

  /** The thread at the head of a completion order can have its request at once. */
  lemma FirstCanBeServed(s: Sys, order: seq<nat>, r: Request)
    requires order != [] && Completes(s, s.avail, Exited(s), order)
    requires Fits(s, r) && r.from == order[0] && Leq(r.amt, s.need[r.from])
    ensures CanServe(true, s, r)
  {
    GrantToFirst(s, order, r.amt);
  }

  /** What a sweep needs of a sound state. */
  lemma SoundIsGenuine(avoid: bool, lim: Limits, st: State)
    requires Sound(avoid, lim, st)
    ensures AllocNonNeg(st.sys) && AllGenuine(st.sys, st.queue)
  {
  }

  /** After the last exit no event is legal. */
  lemma NothingAfterTheEnd(avoid: bool, st: State, evs: seq<Event>)
    requires QueueFits(st) && LegalRun(avoid, st, evs)
    ensures evs == [] || !AllExited(st.sys)
  {
  }

  /** With avoidance, while some thread is live, some live thread is not waiting. */
  lemma NeverAllWaiting(lim: Limits, st: State)
    requires Inv(true, lim, st) && !AllExited(st.sys)
    ensures exists i: nat :: i < |st.sys.alloc| && !st.sys.exited[i] && !Waiting(st, i)
  {
    var s := st.sys;
    var order: seq<nat> :| Completes(s, s.avail, Exited(s), order);
    NoOrderMeansAllExited(s, order);
    var t := order[0];
    if Waiting(st, t) {
      var k :| 0 <= k < |st.queue| && st.queue[k].from == t;
      var r := st.queue[k];
      FirstCanBeServed(s, order, r);
    }
    assert t < |s.alloc| && !s.exited[t];
  }

  /** From every reachable state the threads can all still be brought to their end. */
  lemma {:induction false} CanAlwaysFinish(lim: Limits, st: State) returns (evs: seq<Event>)
    requires Inv(true, lim, st)
    ensures LegalRun(true, st, evs) && AllExited(Run(true, st, evs).sys)
    decreases |st.sys.alloc| - |Exited(st.sys)|
  {
    if AllExited(st.sys) {
      evs := [];
    } else {
      NeverAllWaiting(lim, st);
      var i: nat :| i < |st.sys.alloc| && !st.sys.exited[i] && !Waiting(st, i);
      var next := Step(true, st, Stop(i));
      StepInv(true, lim, st, Stop(i));
      StepExits(true, st, Stop(i));
      assert Exited(next.sys) == Exited(st.sys) + {i};
      ExitedBound(next.sys);
      var rest := CanAlwaysFinish(lim, next);
      evs := [Stop(i)] + rest;
      assert evs[1..] == rest;
    }
  }

  lemma ExitedBound(s: Sys)
    ensures |Exited(s)| <= |s.alloc|
  {
    BelowBound(Exited(s), |s.alloc|);
  }

  lemma AllExitedCount(s: Sys)
    ensures |Exited(s)| == |s.alloc| <==> AllExited(s)
    ensures |Exited(s)| <= |s.alloc|
  {
    ExitedBound(s);
    if AllExited(s) {
      FullSet(|s.alloc|, Exited(s));
    } else {
      var i :| 0 <= i < |s.exited| && !s.exited[i];
      BelowBound(Exited(s) + {i}, |s.alloc|);
    }
  }

  /** When every thread has exited, every resource is back in the pool. */
  lemma AllReturned(avoid: bool, lim: Limits, st: State)
    requires Inv(avoid, lim, st) && AllExited(st.sys)
    ensures st.sys.avail == lim.total && st.queue == []
  {
    forall j | 0 <= j < |lim.total|
      ensures st.sys.avail[j] == lim.total[j]
    {
      ColSumZero(st.sys.alloc, j);
    }
    PendingMeansLive(st.sys, st.queue);
  }
}
