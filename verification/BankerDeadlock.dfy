/** Which declared limits let the threads deadlock when the master does not avoid it. */
module BankerDeadlock {
  import opened Vectors
  import opened BankerSpec
  import opened BankerSweep
  import opened BankerRuns

  /** Some thread is live, and every live thread waits. */
  predicate Deadlocked(st: State) {
    !AllExited(st.sys) && forall i: nat | i < |st.sys.alloc| && !st.sys.exited[i] :: Waiting(st, i)
  }

  ghost predicate Reaches(avoid: bool, lim: Limits, st: State)
    requires LimitsOk(lim)
  {
    exists evs :: LegalRun(avoid, Start(lim), evs) && Run(avoid, Start(lim), evs) == st
  }

  lemma ReachedInv(avoid: bool, lim: Limits, st: State)
    requires LimitsOk(lim) && Reaches(avoid, lim, st)
    ensures Inv(avoid, lim, st)
  {
    StartInv(avoid, lim);
    var evs :| LegalRun(avoid, Start(lim), evs) && Run(avoid, Start(lim), evs) == st;
    RunInv(avoid, lim, Start(lim), evs);
  }

  lemma {:induction false} RunAppend(avoid: bool, st: State, evs: seq<Event>, e: Event)
    requires QueueFits(st) && LegalRun(avoid, st, evs) && Legal(Run(avoid, st, evs), e)
    ensures LegalRun(avoid, st, evs + [e]) && Run(avoid, st, evs + [e]) == Step(avoid, Run(avoid, st, evs), e)
    decreases |evs|
  {
    if evs == [] {
      assert (evs + [e])[1..] == [];
      assert Run(avoid, Step(avoid, st, e), []) == Step(avoid, st, e);
    } else {
      RunAppend(avoid, Step(avoid, st, evs[0]), evs[1..], e);
      assert (evs + [e])[1..] == evs[1..] + [e];
    }
  }

  lemma Go(avoid: bool, lim: Limits, st: State, e: Event)
    requires LimitsOk(lim) && Reaches(avoid, lim, st) && QueueFits(st) && Legal(st, e)
    ensures Reaches(avoid, lim, Step(avoid, st, e))
  {
    var evs :| LegalRun(avoid, Start(lim), evs) && Run(avoid, Start(lim), evs) == st;
    RunAppend(avoid, Start(lim), evs, e);
  }

  lemma Stay(avoid: bool, lim: Limits)
    requires LimitsOk(lim)
    ensures Reaches(avoid, lim, Start(lim))
  {
    assert LegalRun(avoid, Start(lim), []) && Run(avoid, Start(lim), []) == Start(lim);
  }

  // ----- the condition

  function One(b: bool): int {
    if b then 1 else 0
  }

  /** The most that thread i, one of those of f, can hold of resource j while it still lacks one f[i]. */
  function Cap(lim: Limits, f: map<nat, nat>, i: nat, j: nat): int
    requires LimitsOk(lim) && i < |lim.max| && j < |lim.total|
  {
    if i in f then lim.max[i][j] - One(f[i] == j) else 0
  }

  /** The most that the threads of f, from the i-th on, can hold of resource j. */
  function Caps(lim: Limits, f: map<nat, nat>, i: nat, j: nat): int
    requires LimitsOk(lim) && i <= |lim.max| && j < |lim.total|
    decreases |lim.max| - i
  {
    if i == |lim.max| then 0 else Cap(lim, f, i, j) + Caps(lim, f, i + 1, j)
  }

  /** f gives each of some threads a resource it may need, such that these threads can hold all there is of
      those resources while each still lacks its own. */
  predicate CanLock(lim: Limits, f: map<nat, nat>)
    requires LimitsOk(lim)
  {
    && f != map[]
    && (forall i | i in f :: i < |lim.max| && f[i] < |lim.total| && lim.max[i][f[i]] >= 1)
    && (forall j | j in f.Values :: lim.total[j] <= Caps(lim, f, 0, j))
  }

  // ----- a deadlock shows which threads lock each other

  predicate Lacks(st: State, i: nat, j: nat) {
    i < |st.sys.need| && j < |st.sys.avail| && j < |st.sys.need[i]| && st.sys.need[i][j] > st.sys.avail[j]
  }

  /** A waiting thread needs more of some resource than is free. */
  lemma WaitingLacks(lim: Limits, st: State, i: nat)
    requires Inv(false, lim, st) && i < |st.sys.alloc| && Waiting(st, i)
    ensures exists j :: Lacks(st, i, j)
  {
    var k :| 0 <= k < |st.queue| && st.queue[k].from == i;
    assert !CanServe(false, st.sys, st.queue[k]);
    var j :| 0 <= j < |st.sys.avail| && st.queue[k].amt[j] > st.sys.avail[j];
    assert Lacks(st, i, j);
  }

  ghost function Lack(st: State, i: nat): (j: nat)
    requires exists j :: Lacks(st, i, j)
    ensures Lacks(st, i, j)
  {
    var j :| Lacks(st, i, j);
    j
  }

  /** Each thread of f holds no more than its cap, and one that lacks j less than that by what is free. */
  lemma {:induction false} HeldWithinCaps(lim: Limits, st: State, f: map<nat, nat>, i: nat, j: nat)
    requires LimitsOk(lim) && Books(lim, st.sys) && i <= |lim.max| && j < |lim.total|
    requires forall h: nat | h < |lim.max| :: h in f <==> !st.sys.exited[h]
    requires forall h | h in f :: Lacks(st, h, f[h])
    ensures ColSum(st.sys.alloc[i..], j) <= Caps(lim, f, i, j)
    ensures (exists h :: h in f && h >= i && f[h] == j) ==> ColSum(st.sys.alloc[i..], j) + st.sys.avail[j] <= Caps(lim, f, i, j)
    decreases |lim.max| - i
  {
    if i < |lim.max| {
      HeldWithinCaps(lim, st, f, i + 1, j);
      assert st.sys.alloc[i..][1..] == st.sys.alloc[i + 1..];
      HeldWithinCap(lim, st, f, i, j);
    }
  }

  lemma HeldWithinCap(lim: Limits, st: State, f: map<nat, nat>, i: nat, j: nat)
    requires LimitsOk(lim) && Books(lim, st.sys) && i < |lim.max| && j < |lim.total|
    requires i in f <==> !st.sys.exited[i]
    requires i in f ==> Lacks(st, i, f[i])
    ensures st.sys.alloc[i][j] + (if i in f && f[i] == j then st.sys.avail[j] else 0) <= Cap(lim, f, i, j)
  {
    if i in f {
      assert Plus(st.sys.alloc[i], st.sys.need[i])[j] == lim.max[i][j];
    }
  }

  lemma LiveLock(lim: Limits, st: State, f: map<nat, nat>)
    requires LimitsOk(lim) && Books(lim, st.sys) && !AllExited(st.sys)
    requires forall h: nat :: h in f <==> h < |lim.max| && !st.sys.exited[h]
    requires forall h | h in f :: Lacks(st, h, f[h])
    ensures CanLock(lim, f)
  {
    forall i | i in f
      ensures lim.max[i][f[i]] >= 1
    {
      HeldWithinCap(lim, st, f, i, f[i]);
    }
    forall j | j in f.Values
      ensures lim.total[j] <= Caps(lim, f, 0, j)
    {
      HeldWithinCaps(lim, st, f, 0, j);
      assert st.sys.alloc[0..] == st.sys.alloc;
    }
    var i :| 0 <= i < |st.sys.exited| && !st.sys.exited[i];
    assert i in f;
  }

  lemma DeadlockLocks(lim: Limits, st: State)
    requires LimitsOk(lim) && Inv(false, lim, st) && Deadlocked(st)
    ensures exists f :: CanLock(lim, f)
  {
    forall i: nat | i < |st.sys.alloc| && !st.sys.exited[i]
      ensures exists j :: Lacks(st, i, j)
    {
      WaitingLacks(lim, st, i);
    }
    var f := map i: nat | i < |st.sys.alloc| && !st.sys.exited[i] :: Lack(st, i);
    LiveLock(lim, st, f);
  }

  // ----- such threads can be led into a deadlock

  /** A request for what is free, when nothing is pending, is granted at once. */
  lemma AskGranted(st: State, i: nat, req: Vec)
    requires st.queue == [] && i < |st.sys.alloc| && |req| == |st.sys.avail| && NonNeg(req) && Leq(req, st.sys.avail)
    ensures Step(false, st, Ask(i, req)) == State(Move(st.sys, i, req), [])
  {
    MoveNothing(st.sys, i, Negatives(req));
    assert Positives(req) == req;
    if Additional(req) {
      var q := [Request(i, req)];
      assert st.queue + q == q && q[1..] == [];
      assert CanServe(false, st.sys, q[0]);
      assert Sweep(false, Grant(st.sys, q[0]), []) == Swept(Move(st.sys, i, req), [], []);
    } else {
      MoveNothing(st.sys, i, req);
    }
  }

  /** What thread i takes: of each resource of js, up to its cap, what is still free. */
  function Take(lim: Limits, f: map<nat, nat>, js: set<nat>, avail: Vec, i: nat): (req: Vec)
    requires LimitsOk(lim) && i < |lim.max| && |avail| == |lim.total|
    ensures |req| == |avail|
  {
    seq(|avail|, j requires 0 <= j < |avail| => if j in js then Least(avail[j], Cap(lim, f, i, j)) else 0)
  }

  function Least(x: int, y: int): int {
    if x <= y then x else y
  }

  function Most(x: int): int {
    if x < 0 then 0 else x
  }

  /** What is free of resource j when the first k threads have taken what they can. */
  function Rest(lim: Limits, f: map<nat, nat>, js: set<nat>, k: nat, j: nat): int
    requires LimitsOk(lim) && k <= |lim.max| && j < |lim.total|
  {
    if j in js then Most(lim.total[j] - Caps(lim, f, 0, j) + Caps(lim, f, k, j)) else lim.total[j]
  }

  /** The first k threads have quit, those not of f, or taken what they can of the resources js. */
  predicate Filled(lim: Limits, f: map<nat, nat>, js: set<nat>, st: State, k: nat)
    requires LimitsOk(lim) && k <= |lim.max|
  {
    var s := st.sys;
    && st.queue == [] && |s.alloc| == |lim.max| && |s.avail| == |lim.total|
    && (forall j: nat | j < |s.avail| :: s.avail[j] == Rest(lim, f, js, k, j))
    && (forall i: nat | i < |s.alloc| :: RowFilled(lim, f, s, i, k))
  }

  predicate RowFilled(lim: Limits, f: map<nat, nat>, s: Sys, i: nat, k: nat)
    requires i < |s.alloc| == |lim.max|
  {
    && (s.exited[i] <==> i < k && i !in f)
    && (i < k && i in f ==> f[i] < |s.avail| && s.need[i][f[i]] >= 1)
    && (k <= i ==> s.alloc[i] == Zeros(|s.avail|) && s.need[i] == lim.max[i])
  }

  /** Every thread of f may need its resource, which is in js. */
  predicate Names(lim: Limits, f: map<nat, nat>, js: set<nat>)
    requires LimitsOk(lim)
  {
    forall i | i in f :: i < |lim.max| && f[i] < |lim.total| && lim.max[i][f[i]] >= 1 && f[i] in js
  }

  lemma TakeOne(lim: Limits, f: map<nat, nat>, js: set<nat>, k: nat, j: nat)
    requires LimitsOk(lim) && Names(lim, f, js) && k in f && j < |lim.total|
    ensures 0 <= Cap(lim, f, k, j) <= lim.max[k][j]
    ensures f[k] == j ==> Cap(lim, f, k, j) < lim.max[k][j]
    ensures j in js ==> Rest(lim, f, js, k + 1, j) == Rest(lim, f, js, k, j) - Least(Rest(lim, f, js, k, j), Cap(lim, f, k, j))
  {
    assert lim.max[k][j] >= 0;
  }

  lemma TakeFits(lim: Limits, f: map<nat, nat>, js: set<nat>, st: State, k: nat)
    requires LimitsOk(lim) && Names(lim, f, js) && k in f && Filled(lim, f, js, st, k)
    ensures var req := Take(lim, f, js, st.sys.avail, k);
      NonNeg(req) && Leq(req, st.sys.avail) && Leq(req, lim.max[k]) && req[f[k]] < lim.max[k][f[k]]
  {
    var req := Take(lim, f, js, st.sys.avail, k);
    forall j: nat | j < |req|
      ensures 0 <= req[j] <= st.sys.avail[j] && req[j] <= lim.max[k][j] && (j == f[k] ==> req[j] < lim.max[k][j])
    {
      TakeOne(lim, f, js, k, j);
      assert lim.total[j] >= 0;
    }
  }

  lemma TakeFills(lim: Limits, f: map<nat, nat>, js: set<nat>, st: State, k: nat)
    requires LimitsOk(lim) && Names(lim, f, js) && k in f && Filled(lim, f, js, st, k)
    ensures Filled(lim, f, js, State(Move(st.sys, k, Take(lim, f, js, st.sys.avail, k)), []), k + 1)
  {
    TakeFits(lim, f, js, st, k);
    TakeLeaves(lim, f, js, st, k);
    var req := Take(lim, f, js, st.sys.avail, k);
    assert RowFilled(lim, f, st.sys, k, k);
    RowsFill(lim, f, st.sys, k, req);
  }

  lemma RowsFill(lim: Limits, f: map<nat, nat>, s: Sys, k: nat, req: Vec)
    requires k in f && k < |lim.max| == |s.alloc| && |req| == |s.avail| && f[k] < |s.avail| && req[f[k]] < s.need[k][f[k]]
    requires forall i: nat | i < |s.alloc| :: RowFilled(lim, f, s, i, k)
    ensures var t, next := Move(s, k, req), k + 1;
      forall i: nat | i < |t.alloc| :: RowFilled(lim, f, t, i, next)
  {
    var t, next := Move(s, k, req), k + 1;
    forall i: nat | i < |t.alloc|
      ensures RowFilled(lim, f, t, i, next)
    {
      assert RowFilled(lim, f, s, i, k);
      assert i != k ==> t.need[i] == s.need[i] && t.alloc[i] == s.alloc[i];
    }
  }

  lemma TakeLeaves(lim: Limits, f: map<nat, nat>, js: set<nat>, st: State, k: nat)
    requires LimitsOk(lim) && Names(lim, f, js) && k in f && Filled(lim, f, js, st, k)
    ensures var rest := Minus(st.sys.avail, Take(lim, f, js, st.sys.avail, k));
      forall j: nat | j < |rest| :: rest[j] == Rest(lim, f, js, k + 1, j)
  {
    var rest := Minus(st.sys.avail, Take(lim, f, js, st.sys.avail, k));
    forall j: nat | j < |rest|
      ensures rest[j] == Rest(lim, f, js, k + 1, j)
    {
      TakeOne(lim, f, js, k, j);
    }
  }

  lemma FillOne(lim: Limits, f: map<nat, nat>, js: set<nat>, st: State, k: nat) returns (t: State)
    requires LimitsOk(lim) && Names(lim, f, js) && k in f
    requires Reaches(false, lim, st) && Filled(lim, f, js, st, k)
    ensures Reaches(false, lim, t) && Filled(lim, f, js, t, k + 1)
  {
    var req := Take(lim, f, js, st.sys.avail, k);
    assert RowFilled(lim, f, st.sys, k, k);
    TakeFits(lim, f, js, st, k);
    TakeFills(lim, f, js, st, k);
    AskGranted(st, k, req);
    t := State(Move(st.sys, k, req), []);
    AskReaches(lim, st, k, req, t);
  }

  lemma QuitFills(lim: Limits, f: map<nat, nat>, js: set<nat>, st: State, k: nat)
    requires LimitsOk(lim) && k !in f && k < |lim.max| && Filled(lim, f, js, st, k)
    ensures Filled(lim, f, js, State(Quit(st.sys, k), []), k + 1)
  {
    assert RowFilled(lim, f, st.sys, k, k);
    assert Plus(st.sys.avail, st.sys.alloc[k]) == st.sys.avail;
    var t, next := Quit(st.sys, k), k + 1;
    forall i: nat | i < |t.alloc|
      ensures RowFilled(lim, f, t, i, next)
    {
      assert RowFilled(lim, f, st.sys, i, k);
    }
    forall j: nat | j < |lim.total|
      ensures Rest(lim, f, js, k + 1, j) == Rest(lim, f, js, k, j)
    {
    }
  }

  lemma QuitOne(lim: Limits, f: map<nat, nat>, js: set<nat>, st: State, k: nat) returns (t: State)
    requires LimitsOk(lim) && k !in f && k < |lim.max|
    requires Reaches(false, lim, st) && Filled(lim, f, js, st, k)
    ensures Reaches(false, lim, t) && Filled(lim, f, js, t, k + 1)
  {
    assert RowFilled(lim, f, st.sys, k, k);
    Go(false, lim, st, Stop(k));
    t := State(Quit(st.sys, k), []);
    assert Step(false, st, Stop(k)) == t;
    QuitFills(lim, f, js, st, k);
  }

  lemma AskReaches(lim: Limits, st: State, i: nat, req: Vec, t: State)
    requires LimitsOk(lim) && Reaches(false, lim, st) && QueueFits(st) && i < |st.sys.alloc|
    requires |req| == |st.sys.avail| && NonNeg(st.sys.alloc[i]) && NonNeg(req) && Leq(req, st.sys.need[i])
    requires !st.sys.exited[i] && !Waiting(st, i) && Step(false, st, Ask(i, req)) == t
    ensures Reaches(false, lim, t)
  {
    Go(false, lim, st, Ask(i, req));
  }

  lemma {:induction false} FillFrom(lim: Limits, f: map<nat, nat>, js: set<nat>, st: State, k: nat) returns (t: State)
    requires LimitsOk(lim) && Names(lim, f, js) && k <= |lim.max|
    requires Reaches(false, lim, st) && Filled(lim, f, js, st, k)
    ensures Reaches(false, lim, t) && Filled(lim, f, js, t, |lim.max|)
    decreases |lim.max| - k
  {
    if k == |lim.max| {
      t := st;
    } else if k in f {
      t := FillOne(lim, f, js, st, k);
      t := FillFrom(lim, f, js, t, k + 1);
    } else {
      t := QuitOne(lim, f, js, st, k);
      t := FillFrom(lim, f, js, t, k + 1);
    }
  }

  /** A request for one of resource j. */
  function Unit(m: nat, j: nat): (u: Vec)
    ensures |u| == m && forall h | 0 <= h < m :: u[h] == if h == j then 1 else 0
  {
    seq(m, h requires 0 <= h < m => if h == j then 1 else 0)
  }

  /** Sweeping a refused queue with one newcomer at its end only decides the newcomer. */
  lemma {:induction false} SweepLast(s: Sys, q: seq<Request>, r: Request)
    requires AllFit(s, q) && Fits(s, r) && AllRefused(false, s, q) && !CanServe(false, s, r)
    ensures AllFit(s, q + [r])
    ensures Sweep(false, s, q + [r]).sys == s && Sweep(false, s, q + [r]).left == q + [r]
    decreases |q|
  {
    if q == [] {
      assert (q + [r])[1..] == [];
    } else {
      assert (q + [r])[1..] == q[1..] + [r];
      SweepLast(s, q[1..], r);
    }
  }

  /** Nothing is free of what the threads of f lack; they alone have not quit. */
  predicate Short(f: map<nat, nat>, s: Sys) {
    && AllocNonNeg(s) && (forall i: nat | i < |s.alloc| :: NonNeg(s.need[i]))
    && (forall i | i in f :: i < |s.alloc| && f[i] < |s.avail| && s.avail[f[i]] == 0 && s.need[i][f[i]] >= 1)
    && (forall i: nat | i < |s.alloc| :: s.exited[i] <==> i !in f)
  }

  /** The first k threads of f wait. */
  ghost predicate Asked(f: map<nat, nat>, st: State, k: nat) {
    && QueueFits(st) && AllRefused(false, st.sys, st.queue)
    && (forall i: nat | i in f && i < k :: Waiting(st, i))
    && (forall h | 0 <= h < |st.queue| :: st.queue[h].from < k)
  }

  lemma AskOne(lim: Limits, f: map<nat, nat>, st: State, k: nat) returns (t: State)
    requires LimitsOk(lim) && k in f && Reaches(false, lim, st) && Short(f, st.sys) && Asked(f, st, k)
    ensures Reaches(false, lim, t) && t.sys == st.sys && Asked(f, t, k + 1)
  {
    var req := Unit(|st.sys.avail|, f[k]);
    t := State(st.sys, st.queue + [Request(k, req)]);
    UnitRefused(st, k, f[k]);
    UnitNeeded(st.sys, k, f[k]);
    AskReaches(lim, st, k, req, t);
    OneMoreWaits(f, st, Request(k, req));
  }

  lemma OneMoreWaits(f: map<nat, nat>, st: State, r: Request)
    requires Asked(f, st, r.from) && Fits(st.sys, r) && !CanServe(false, st.sys, r)
    ensures Asked(f, State(st.sys, st.queue + [r]), r.from + 1)
  {
    AllStillWait(f, st, State(st.sys, st.queue + [r]), r.from);
  }

  lemma UnitNeeded(s: Sys, i: nat, j: nat)
    requires i < |s.alloc| && j < |s.avail| && NonNeg(s.need[i]) && s.need[i][j] >= 1
    ensures NonNeg(Unit(|s.avail|, j)) && Leq(Unit(|s.avail|, j), s.need[i])
  {
  }

  /** A request for one of a resource of which nothing is free joins the queue. */
  lemma UnitRefused(st: State, i: nat, j: nat)
    requires QueueFits(st) && AllRefused(false, st.sys, st.queue)
    requires i < |st.sys.alloc| && j < |st.sys.avail| && st.sys.avail[j] == 0
    ensures var r := Request(i, Unit(|st.sys.avail|, j));
      && Step(false, st, Ask(i, r.amt)) == State(st.sys, st.queue + [r])
      && Fits(st.sys, r) && !CanServe(false, st.sys, r)
  {
    var req := Unit(|st.sys.avail|, j);
    var r := Request(i, req);
    MoveNothing(st.sys, i, Negatives(req));
    assert Positives(req) == req && req[j] > 0;
    SweepLast(st.sys, st.queue, r);
  }

  lemma AllStillWait(f: map<nat, nat>, st: State, t: State, k: nat)
    requires |t.queue| == |st.queue| + 1 && t.queue[..|st.queue|] == st.queue && t.queue[|st.queue|].from == k
    requires forall i: nat | i in f && i < k :: Waiting(st, i)
    ensures forall i: nat | i in f && i < k + 1 :: Waiting(t, i)
  {
    forall i: nat | i in f && i < k + 1
      ensures Waiting(t, i)
    {
      if i < k {
        var h :| 0 <= h < |st.queue| && st.queue[h].from == i;
        assert t.queue[h] == st.queue[h];
      }
    }
  }

  /** Some state in which the first k threads of f wait is reached. */
  ghost predicate Waiters(lim: Limits, f: map<nat, nat>, k: nat)
    requires LimitsOk(lim)
  {
    exists st :: Reaches(false, lim, st) && |st.sys.alloc| == |lim.max| && Short(f, st.sys) && Asked(f, st, k)
  }

  lemma OneWaiter(lim: Limits, f: map<nat, nat>, k: nat, next: nat)
    requires LimitsOk(lim) && Waiters(lim, f, k) && next == k + 1
    ensures Waiters(lim, f, next)
  {
    var st :| Reaches(false, lim, st) && |st.sys.alloc| == |lim.max| && Short(f, st.sys) && Asked(f, st, k);
    if k in f {
      var t := AskOne(lim, f, st, k);
      assert Asked(f, t, next);
    } else {
      NobodyAsks(f, st, k);
      assert Asked(f, st, next);
    }
  }

  lemma NobodyAsks(f: map<nat, nat>, st: State, k: nat)
    requires Asked(f, st, k) && k !in f
    ensures Asked(f, st, k + 1)
  {
  }

  lemma {:induction false} AllWaiters(lim: Limits, f: map<nat, nat>, k: nat)
    requires LimitsOk(lim) && Waiters(lim, f, 0)
    ensures Waiters(lim, f, k)
  {
    if k > 0 {
      AllWaiters(lim, f, k - 1);
      OneWaiter(lim, f, k - 1, k);
    }
  }

  lemma FilledUp(lim: Limits, f: map<nat, nat>, st: State)
    requires LimitsOk(lim) && CanLock(lim, f) && Filled(lim, f, f.Values, st, |lim.max|) && Books(lim, st.sys)
    ensures Short(f, st.sys) && Asked(f, st, 0)
  {
    var s := st.sys;
    forall i | i in f
      ensures i < |s.alloc| && f[i] < |s.avail| && s.avail[f[i]] == 0 && s.need[i][f[i]] >= 1
    {
      assert f[i] in f.Values && RowFilled(lim, f, s, i, |lim.max|);
    }
    forall i: nat | i < |s.alloc|
      ensures s.exited[i] <==> i !in f
    {
      assert RowFilled(lim, f, s, i, |lim.max|);
    }
  }

  lemma AllShortWait(f: map<nat, nat>, st: State)
    requires f != map[] && Short(f, st.sys) && Asked(f, st, |st.sys.alloc|)
    ensures Deadlocked(st)
  {
    var i :| i in f;
  }

  lemma LocksDeadlock(lim: Limits, f: map<nat, nat>)
    requires LimitsOk(lim) && CanLock(lim, f)
    ensures exists st :: Reaches(false, lim, st) && Deadlocked(st)
  {
    Stay(false, lim);
    var st := FillFrom(lim, f, f.Values, Start(lim), 0);
    ReachedInv(false, lim, st);
    FilledUp(lim, f, st);
    AllWaiters(lim, f, |lim.max|);
    st :| Reaches(false, lim, st) && |st.sys.alloc| == |lim.max| && Short(f, st.sys) && Asked(f, st, |lim.max|);
    AllShortWait(f, st);
  }

  /** Without avoidance the threads can come to wait for each other for ever exactly when the declared
      limits let some of them lock each other. */
  lemma DeadlockIff(lim: Limits)
    requires LimitsOk(lim)
    ensures (exists st :: Reaches(false, lim, st) && Deadlocked(st)) <==> (exists f :: CanLock(lim, f))
  {
    if st :| Reaches(false, lim, st) && Deadlocked(st) {
      ReachedInv(false, lim, st);
      DeadlockLocks(lim, st);
    }
    if f :| CanLock(lim, f) {
      LocksDeadlock(lim, f);
    }
  }

  // ----- one resource

  /** What the threads, from the i-th on, can hold of the only resource while each still lacks one. */
  function Loose(lim: Limits, i: nat): int
    requires LimitsOk(lim) && |lim.total| == 1 && i <= |lim.max|
    decreases |lim.max| - i
  {
    if i == |lim.max| then 0 else Most(lim.max[i][0] - 1) + Loose(lim, i + 1)
  }

  lemma {:induction false} CapsAreLoose(lim: Limits, f: map<nat, nat>, i: nat)
    requires LimitsOk(lim) && |lim.total| == 1 && i <= |lim.max|
    requires forall h | h in f :: h < |lim.max| && f[h] == 0 && lim.max[h][0] >= 1
    ensures Caps(lim, f, i, 0) <= Loose(lim, i)
    ensures (forall h: nat | h < |lim.max| :: lim.max[h][0] >= 1 ==> h in f) ==> Caps(lim, f, i, 0) == Loose(lim, i)
    decreases |lim.max| - i
  {
    if i < |lim.max| {
      CapsAreLoose(lim, f, i + 1);
    }
  }

  lemma {:induction false} NobodyLoose(lim: Limits, i: nat)
    requires LimitsOk(lim) && |lim.total| == 1 && i <= |lim.max|
    requires forall h | 0 <= h < |lim.max| :: lim.max[h][0] == 0
    ensures Loose(lim, i) == 0
    decreases |lim.max| - i
  {
    if i < |lim.max| {
      NobodyLoose(lim, i + 1);
    }
  }

  lemma LooseLocks(lim: Limits)
    requires LimitsOk(lim) && |lim.total| == 1 && 1 <= lim.total[0] <= Loose(lim, 0)
    ensures exists f :: CanLock(lim, f)
  {
    var f: map<nat, nat> := map i: nat | i < |lim.max| && lim.max[i][0] >= 1 :: 0;
    CapsAreLoose(lim, f, 0);
    if f == map[] {
      forall h: nat | h < |lim.max|
        ensures lim.max[h][0] == 0
      {
        assert h !in f;
      }
      NobodyLoose(lim, 0);
    }
    assert CanLock(lim, f);
  }

  lemma LocksLoose(lim: Limits, f: map<nat, nat>)
    requires LimitsOk(lim) && |lim.total| == 1 && CanLock(lim, f)
    ensures 1 <= lim.total[0] <= Loose(lim, 0)
  {
    CapsAreLoose(lim, f, 0);
    var i :| i in f;
    assert f[i] in f.Values && lim.max[i][0] <= lim.total[0];
  }

  /** With one resource the threads can deadlock exactly when they can hold all of it while each that may
      need any still lacks one. */
  lemma OneResource(lim: Limits)
    requires LimitsOk(lim) && |lim.total| == 1
    ensures (exists st :: Reaches(false, lim, st) && Deadlocked(st)) <==> 1 <= lim.total[0] <= Loose(lim, 0)
  {
    DeadlockIff(lim);
    if f :| CanLock(lim, f) {
      LocksLoose(lim, f);
    }
    if 1 <= lim.total[0] <= Loose(lim, 0) {
      LooseLocks(lim);
    }
  }

  /** Two threads that may each need both of two: a deadlock. */
  lemma WithoutAvoidanceDeadlocks()
    ensures var lim := Limits([2], [[2], [2]]);
      LimitsOk(lim) && exists st :: Reaches(false, lim, st) && Deadlocked(st)
  {
    var lim := Limits([2], [[2], [2]]);
    assert Loose(lim, 1) == 1 + Loose(lim, 2);
    OneResource(lim);
  }
}
