/** Every run of the whole program comes to its end: nothing stops it before, and it cannot go on for ever. */
module BankerProgramRuns {
  import opened Vectors
  import opened BankerSpec
  import opened BankerSweep
  import opened BankerRuns
  import opened BankerScripts
  import opened BankerDeadlock
  import opened BankerProgram
  import opened Options
  import opened Pigeonhole
  import H = Handshake

  // ----- nothing stops but at the end

  ghost predicate CanMove(avoid: bool, c: Program)
    requires Sized(c)
  {
    (exists i: nat | i < |c.h.pc| :: ThreadMoves(c, i).Some?) || MasterMoves(avoid, c).Some?
  }

  lemma HandshakeMoves(avoid: bool, lim: Limits, c: Program)
    requires Orderly(avoid, lim, c) && H.CanMove(c.h)
    ensures CanMove(avoid, c)
  {
    if i: nat :| i < |c.h.pc| && H.ThreadStep(c.h, i, H.Quit).Some? {
      assert ThreadMoves(c, i).Some?;
    } else if c.h.mpc == H.Reading {
      RegisterMoves(avoid, lim, c);
    } else if c.h.mpc == H.Serving && c.rest != [] {
      if CanServe(avoid, c.sys, c.rest[0]) {
        GrantMoves(avoid, lim, c);
      }
    }
  }

  /** Every thread has quit, the master is through, and all resources are back. */
  predicate Through(lim: Limits, c: Program) {
    && c.h.mpc == H.Done && |c.h.pc| == |lim.max| && (forall i: nat | i < |c.h.pc| :: c.h.pc[i] == H.Gone)
    && c.sys.avail == lim.total && c.rest + c.kept == []
  }

  /** The master waits for a message, every thread has quit or waits for a grant, some do, and these hold all
      there is of some resources while each lacks one. */
  ghost predicate Locked(lim: Limits, c: Program) {
    && c.h.mpc == H.InReqB && c.rest == [] && (forall i: nat | i < |c.h.pc| :: c.h.pc[i] == H.Gone || c.h.pc[i] == H.Waiting)
    && LimitsOk(lim) && (forall k | 0 <= k < |c.kept| :: Fits(c.sys, c.kept[k])) && Deadlocked(State(c.sys, c.kept))
    && exists f :: CanLock(lim, f)
  }

  /** The states in which nobody can take a step; with avoidance it is never for want of a grant. */
  lemma StopsWhere(avoid: bool, lim: Limits, c: Program)
    requires LimitsOk(lim) && Orderly(avoid, lim, c) && |lim.max| > 0 && !CanMove(avoid, c)
    ensures Through(lim, c) || (!avoid && Locked(lim, c))
  {
    if H.CanMove(c.h) {
      HandshakeMoves(avoid, lim, c);
    }
    H.StoppedState(c.h);
    if c.h.mpc == H.Done {
      AllGone(avoid, lim, c);
    } else {
      AllWait(avoid, lim, c);
    }
  }

  lemma AllGone(avoid: bool, lim: Limits, c: Program)
    requires Orderly(avoid, lim, c) && c.h.mpc == H.Done && forall i: nat | i < |c.h.pc| :: c.h.pc[i] == H.Gone
    ensures Through(lim, c)
  {
    forall i: nat | i < |c.h.pc|
      ensures c.sys.exited[i]
    {
      assert Linked(c, i) && H.Local(c.h, i);
    }
    EverythingBack(avoid, lim, c);
  }

  /** Between two messages nobody but the threads that have quit is not waiting. */
  lemma WaitersDeadlock(avoid: bool, lim: Limits, c: Program)
    requires Orderly(avoid, lim, c) && |lim.max| > 0 && c.h.mpc == H.InReqB
    requires forall i: nat | i < |c.h.pc| :: c.h.pc[i] == H.Gone || (c.h.pc[i] == H.Waiting && i in c.h.queue && i in c.h.live)
    ensures c.rest == [] && Settled(avoid, c) == State(c.sys, c.kept) && Deadlocked(State(c.sys, c.kept))
  {
    var w := Sweep(avoid, c.sys, c.rest);
    assert c.kept + w.left == c.kept && c.rest + c.kept == c.kept;
    var h :| h in c.h.live;
    assert Linked(c, h);
    forall i: nat | i < |c.sys.alloc| && !c.sys.exited[i]
      ensures Waiting(State(c.sys, c.kept), i)
    {
      assert Linked(c, i) && H.Local(c.h, i);
    }
  }

  lemma AllWait(avoid: bool, lim: Limits, c: Program)
    requires LimitsOk(lim) && Orderly(avoid, lim, c) && |lim.max| > 0 && c.h.mpc == H.InReqB
    requires forall i: nat | i < |c.h.pc| :: c.h.pc[i] == H.Gone || (c.h.pc[i] == H.Waiting && i in c.h.queue && i in c.h.live)
    ensures !avoid && Locked(lim, c)
  {
    WaitersDeadlock(avoid, lim, c);
    var st := Settled(avoid, c);
    if avoid {
      NeverAllWaiting(lim, st);
    } else {
      DeadlockLocks(lim, st);
    }
  }

  lemma EverythingBack(avoid: bool, lim: Limits, c: Program)
    requires Orderly(avoid, lim, c) && forall i: nat | i < |c.h.pc| :: c.sys.exited[i]
    ensures c.sys.avail == lim.total && c.rest + c.kept == []
  {
    PendingMeansLive(c.sys, c.rest + c.kept);
    forall j | 0 <= j < |lim.total|
      ensures c.sys.avail[j] == lim.total[j]
    {
      ColSumZero(c.sys.alloc, j);
    }
  }

  // ----- and every run comes to its end

  /** How far a thread is from the end of its loop; negative on the way to writing its next message. */
  function Pos(p: H.ThreadPc): int {
    match p
    case Idle => 0
    case WantR(_) => -1
    case GotR(_) => -2
    case GotC(_) => -3
    case Sending(_) => 9
    case AtReqB(_) => 8
    case Acking(_) => 7
    case AtAckB(_) => 6
    case Unlocking(_) => 5
    case Parting(_) => 4
    case Waiting => 3
    case Woken => 2
    case Leaving => 1
    case Gone => 0
  }

  predicate QuitWritten(p: H.ThreadPc) {
    p == H.Gone || ((H.Presenting(p) || p.Unlocking? || p.Parting?) && p.k == H.Quit)
  }

  /** A bound on the steps of a thread: fourteen for each message not written yet. */
  function ThreadRank(p: H.ThreadPc, lines: seq<Vec>): int {
    14 * (|lines| + if QuitWritten(p) then 0 else 1) + Pos(p) + 3
  }

  function ThreadRanks(pc: seq<H.ThreadPc>, left: seq<seq<Vec>>, n: nat): nat
    requires n <= |pc| == |left|
  {
    if n == 0 then 0 else ThreadRanks(pc, left, n - 1) + ThreadRank(pc[n - 1], left[n - 1])
  }

  /** A bound on the steps of the master before it reads the next message. */
  function MasterRank(m: H.MasterPc, rest: nat): nat {
    match m
    case ToReqB => 2
    case InReqB => 1
    case Reading => 0
    case ToAckB(_) => 4 * rest + 5
    case InAckB(_) => 4 * rest + 4
    case Serving => 4 * rest + 3
    case Locking(_) => 4 * rest + 6
    case Signalling(_) => 4 * rest + 5
    case Releasing(_) => 4 * rest + 4
    case Done => 0
  }

  ghost function Work(avoid: bool, c: Program): int
    requires Sized(c)
  {
    ThreadRanks(c.h.pc, c.left, |c.h.pc|) + Turns(|c.h.pc|, ToSend(Abstract(avoid, c))) + MasterRank(c.h.mpc, |c.rest|)
  }

  /** A bound on the steps of the master for so many messages from n threads: four for each pending request
      and six more, each time. */
  function Turns(n: nat, messages: int): nat
    decreases messages
  {
    if messages <= 0 then 0 else 4 * n + 6 + Turns(n, messages - 1)
  }

  lemma {:induction false} RanksFall(pc: seq<H.ThreadPc>, left: seq<seq<Vec>>, qc: seq<H.ThreadPc>, more: seq<seq<Vec>>, n: nat, i: nat)
    requires n <= |pc| == |left| && n <= |qc| == |more|
    requires forall j | 0 <= j < n :: ThreadRank(qc[j], more[j]) <= ThreadRank(pc[j], left[j])
    ensures ThreadRanks(qc, more, n) <= ThreadRanks(pc, left, n)
    ensures i < n && ThreadRank(qc[i], more[i]) < ThreadRank(pc[i], left[i]) ==> ThreadRanks(qc, more, n) < ThreadRanks(pc, left, n)
    decreases n
  {
    if n > 0 {
      RanksFall(pc, left, qc, more, n - 1, i);
    }
  }

  lemma OwnRankFalls(c: Program, i: nat, d: Program)
    requires Sized(c) && H.Inv(c.h) && i < |c.h.pc| && ThreadMoves(c, i) == Some(d) && KindOk(c, i)
    ensures |d.h.pc| == |d.left| == |c.h.pc| && ThreadRank(d.h.pc[i], d.left[i]) < ThreadRank(c.h.pc[i], c.left[i])
  {
    H.SeenAround(c.h, i, i);
    if c.h.pc[i].Sending? && c.h.reqb.Some? {
      assert c.h.reqb == Some(H.Master);
    }
  }

  lemma OtherStays(h: H.State, i: nat, k: H.Kind, j: nat)
    requires H.Around(h, i, j) && H.ThreadStep(h, i, k).Some? && i != j
    ensures var t := H.ThreadStep(h, i, k).value; |t.pc| == |h.pc| && t.pc[j] == h.pc[j]
  {
    if h.pc[i].Sending? && h.reqb.Some? {
      assert h.reqb == Some(H.Master);
    }
  }

  lemma ThreadRanksFall(c: Program, i: nat, d: Program)
    requires Sized(c) && H.Inv(c.h) && i < |c.h.pc| && ThreadMoves(c, i) == Some(d) && KindOk(c, i)
    ensures |d.h.pc| == |d.left| == |c.h.pc|
    ensures ThreadRanks(d.h.pc, d.left, |c.h.pc|) < ThreadRanks(c.h.pc, c.left, |c.h.pc|)
  {
    OwnRankFalls(c, i, d);
    forall j: nat | j < |c.h.pc| && j != i
      ensures d.h.pc[j] == c.h.pc[j] && d.left[j] == c.left[j]
    {
      H.SeenAround(c.h, i, j);
      OtherStays(c.h, i, NextKind(c.left[i]), j);
    }
    RanksFall(c.h.pc, c.left, d.h.pc, d.left, |c.h.pc|, i);
  }

  lemma ThreadLeavesMaster(c: Program, i: nat, d: Program)
    requires Sized(c) && H.Inv(c.h) && i < |c.h.pc| && ThreadMoves(c, i) == Some(d)
    ensures d.rest == c.rest && MasterRank(d.h.mpc, |d.rest|) <= MasterRank(c.h.mpc, |c.rest|)
  {
    H.SeenAround(c.h, i, i);
    if c.h.pc[i].Sending? && c.h.reqb.Some? {
      assert c.h.reqb == Some(H.Master);
    }
  }

  lemma ThreadAbstract(avoid: bool, lim: Limits, c: Program, i: nat, d: Program)
    requires Orderly(avoid, lim, c) && i < |c.h.pc| && ThreadMoves(c, i) == Some(d)
    ensures Sized(d) && Abstract(avoid, d) == Abstract(avoid, c)
  {
    ThreadOrderly(avoid, lim, c, i);
    ThreadOne(c, i, i, d);
    forall j: nat | j < |c.h.pc|
      ensures Unsent(d, j) == Unsent(c, j)
    {
      assert KindOk(c, j);
      ThreadOne(c, i, j, d);
    }
    SameAbstract(avoid, c, d);
  }

  lemma ThreadWorks(avoid: bool, lim: Limits, c: Program, i: nat)
    requires Orderly(avoid, lim, c) && i < |c.h.pc| && ThreadMoves(c, i).Some?
    ensures Sized(ThreadMoves(c, i).value) && Work(avoid, ThreadMoves(c, i).value) < Work(avoid, c)
  {
    var d := ThreadMoves(c, i).value;
    assert KindOk(c, i);
    ThreadRanksFall(c, i, d);
    ThreadAbstract(avoid, lim, c, i, d);
    ThreadLeavesMaster(c, i, d);
  }

  lemma MasterLeavesThread(h: H.State, pick: Option<nat>, j: nat, lines: seq<Vec>)
    requires H.Around(h, j, j) && H.MasterStep(h, pick).Some?
    ensures var t := H.MasterStep(h, pick).value; |t.pc| == |h.pc| && ThreadRank(t.pc[j], lines) <= ThreadRank(h.pc[j], lines)
  {
  }

  lemma MasterLeavesThreads(c: Program, pick: Option<nat>)
    requires Sized(c) && H.Inv(c.h) && H.MasterStep(c.h, pick).Some?
    ensures var t := H.MasterStep(c.h, pick).value;
      |t.pc| == |c.h.pc| && ThreadRanks(t.pc, c.left, |c.left|) <= ThreadRanks(c.h.pc, c.left, |c.left|)
  {
    var t := H.MasterStep(c.h, pick).value;
    H.MasterStepGlobal(c.h, pick);
    forall j: nat | j < |c.h.pc|
      ensures ThreadRank(t.pc[j], c.left[j]) <= ThreadRank(c.h.pc[j], c.left[j])
    {
      H.SeenAround(c.h, j, j);
      MasterLeavesThread(c.h, pick, j, c.left[j]);
    }
    RanksFall(c.h.pc, c.left, t.pc, c.left, |c.left|, 0);
  }

  lemma MasterRankFalls(h: H.State, pick: Option<nat>, rest: nat)
    requires H.Inv(h) && H.MasterStep(h, pick).Some? && h.mpc != H.Reading && (h.mpc == H.Serving ==> rest == 0)
    ensures pick == None ==> MasterRank(H.MasterStep(h, pick).value.mpc, rest) < MasterRank(h.mpc, rest)
  {
  }

  lemma QuietWorks(avoid: bool, lim: Limits, c: Program)
    requires Orderly(avoid, lim, c) && c.h.mpc != H.Reading && (c.h.mpc == H.Serving ==> c.rest == []) && MasterMoves(avoid, c).Some?
    ensures Sized(MasterMoves(avoid, c).value) && Work(avoid, MasterMoves(avoid, c).value) < Work(avoid, c)
  {
    var d := MasterMoves(avoid, c).value;
    MasterQuiet(avoid, lim, c);
    QuietAbstract(avoid, lim, c);
    MasterLeavesThreads(c, None);
    MasterRankFalls(c.h, None, |c.rest|);
  }

  lemma PassWorks(avoid: bool, lim: Limits, c: Program)
    requires Orderly(avoid, lim, c) && c.h.mpc == H.Serving && c.rest != []
    ensures MasterMoves(avoid, c).Some? && Sized(MasterMoves(avoid, c).value) && Work(avoid, MasterMoves(avoid, c).value) < Work(avoid, c)
  {
    if CanServe(avoid, c.sys, c.rest[0]) {
      GrantInv(avoid, lim, c);
      GrantMoves(avoid, lim, c);
      MasterLeavesThreads(c, Some(c.rest[0].from));
      GrantAbstract(avoid, lim, c);
    } else {
      RefuseInv(avoid, lim, c);
      RefuseAbstract(avoid, c);
    }
  }

  lemma {:induction false} FewPending(s: Sys, q: seq<Request>)
    requires Pending(s, q)
    ensures |q| <= |s.alloc|
  {
    var froms := seq(|q|, k requires 0 <= k < |q| => q[k].from);
    Crowd(froms, |s.alloc|);
  }

  lemma RegisterSends(avoid: bool, lim: Limits, c: Program)
    requires Orderly(avoid, lim, c) && c.h.mpc == H.Reading && MasterMoves(avoid, c).Some?
    ensures Sized(MasterMoves(avoid, c).value) && ToSend(Abstract(avoid, MasterMoves(avoid, c).value)) == ToSend(Abstract(avoid, c)) - 1
  {
    RegisteredLines(avoid, lim, c);
    AdvanceSendsOne(avoid, Abstract(avoid, c), c.h.reqfrom);
  }

  lemma RegisterFew(avoid: bool, lim: Limits, c: Program)
    requires Orderly(avoid, lim, c) && c.h.mpc == H.Reading && MasterMoves(avoid, c).Some?
    ensures var d := MasterMoves(avoid, c).value;
      d.left == c.left && d.h.pc == c.h.pc && MasterRank(d.h.mpc, |d.rest|) <= 4 * |c.h.pc| + 5
  {
    var d := MasterMoves(avoid, c).value;
    RegisteredRest(avoid, lim, c);
    FewPending(d.sys, d.rest);
  }

  lemma RegisteredRest(avoid: bool, lim: Limits, c: Program)
    requires Orderly(avoid, lim, c) && c.h.mpc == H.Reading && MasterMoves(avoid, c).Some?
    ensures var d := MasterMoves(avoid, c).value; Pending(d.sys, d.rest) && |d.sys.alloc| == |c.h.pc|
  {
    var d := MasterMoves(avoid, c).value;
    RegisteredSettled(avoid, lim, c);
    assert d.rest + d.kept == d.rest;
  }

  lemma MessagePays(avoid: bool, c: Program, d: Program)
    requires Sized(c) && Sized(d) && d.left == c.left && d.h.pc == c.h.pc
    requires MasterRank(d.h.mpc, |d.rest|) <= 4 * |c.h.pc| + 5 && ToSend(Abstract(avoid, d)) == ToSend(Abstract(avoid, c)) - 1
    requires ToSend(Abstract(avoid, c)) >= 1
    ensures Work(avoid, d) < Work(avoid, c)
  {
  }

  lemma SomethingToSend(avoid: bool, lim: Limits, c: Program)
    requires Orderly(avoid, lim, c) && c.h.mpc == H.Reading && MasterMoves(avoid, c).Some?
    ensures ToSend(Abstract(avoid, c)) >= 1
  {
    RegisterSends(avoid, lim, c);
    ExitedBound(Abstract(avoid, MasterMoves(avoid, c).value).st.sys);
  }

  lemma RegisterWorks(avoid: bool, lim: Limits, c: Program)
    requires Orderly(avoid, lim, c) && c.h.mpc == H.Reading && MasterMoves(avoid, c).Some?
    ensures Sized(MasterMoves(avoid, c).value) && Work(avoid, MasterMoves(avoid, c).value) < Work(avoid, c)
  {
    RegisterSends(avoid, lim, c);
    RegisterFew(avoid, lim, c);
    SomethingToSend(avoid, lim, c);
    MessagePays(avoid, c, MasterMoves(avoid, c).value);
  }

  /** Every step leaves less to do. */
  lemma NextWorks(avoid: bool, lim: Limits, c: Program, d: Program)
    requires Orderly(avoid, lim, c) && Next(avoid, c, d)
    ensures Sized(d) && Work(avoid, d) < Work(avoid, c)
  {
    if i: nat :| i < |c.h.pc| && ThreadMoves(c, i) == Some(d) {
      ThreadWorks(avoid, lim, c, i);
    } else if c.h.mpc == H.Reading {
      RegisterWorks(avoid, lim, c);
    } else if c.h.mpc == H.Serving && c.rest != [] {
      PassWorks(avoid, lim, c);
    } else {
      QuietWorks(avoid, lim, c);
    }
  }

  // ----- whole runs

  ghost predicate Steps(avoid: bool, run: seq<Program>) {
    run != [] && forall k | 0 < k < |run| :: Next(avoid, run[k - 1], run[k])
  }

  /** A run of the program from its start, in any interleaving. */
  ghost predicate RunOf(avoid: bool, lim: Limits, scripts: seq<seq<Vec>>, run: seq<Program>)
    requires LimitsOk(lim)
  {
    Steps(avoid, run) && run[0] == Launch(lim, scripts)
  }

  /** The scripts are those of the threads, and each may be sent. */
  predicate ScriptsOk(lim: Limits, scripts: seq<seq<Vec>>) {
    && LimitsOk(lim) && |scripts| == |lim.max|
    && forall i | 0 <= i < |scripts| :: Follows(Zeros(|lim.total|), lim.max[i], scripts[i])
  }

  lemma {:induction false} RunOrderly(avoid: bool, lim: Limits, scripts: seq<seq<Vec>>, run: seq<Program>, k: nat)
    requires ScriptsOk(lim, scripts) && RunOf(avoid, lim, scripts, run) && k < |run|
    ensures Orderly(avoid, lim, run[k])
  {
    if k == 0 {
      LaunchOrderly(avoid, lim, scripts);
    } else {
      RunOrderly(avoid, lim, scripts, run, k - 1);
      NextOrderly(avoid, lim, run[k - 1], run[k]);
    }
  }

  lemma {:induction false} StepsWork(avoid: bool, lim: Limits, run: seq<Program>, k: nat)
    requires Steps(avoid, run) && Orderly(avoid, lim, run[0]) && k < |run|
    ensures Orderly(avoid, lim, run[k]) && k + Work(avoid, run[k]) <= Work(avoid, run[0])
  {
    if k > 0 {
      StepsWork(avoid, lim, run, k - 1);
      NextOrderly(avoid, lim, run[k - 1], run[k]);
      NextWorks(avoid, lim, run[k - 1], run[k]);
    }
  }

  lemma {:induction false} FirstRanks(scripts: seq<seq<Vec>>, pc: seq<H.ThreadPc>, n: nat)
    requires n <= |pc| == |scripts| && forall i | 0 <= i < |pc| :: pc[i] == H.Idle
    ensures ThreadRanks(pc, scripts, n) == 14 * Lines(scripts[..n]) + 17 * n
  {
    if n == 0 {
      assert scripts[..0] == [];
    } else {
      FirstRanks(scripts, pc, n - 1);
      assert scripts[..n] == scripts[..n - 1] + [scripts[n - 1]];
      LinesAppend(scripts[..n - 1], scripts[n - 1]);
    }
  }

  lemma {:induction false} LinesAppend(left: seq<seq<Vec>>, more: seq<Vec>)
    ensures Lines(left + [more]) == Lines(left) + |more|
  {
    if left == [] {
      assert (left + [more])[1..] == [];
    } else {
      assert (left + [more])[1..] == left[1..] + [more];
      LinesAppend(left[1..], more);
    }
  }

  lemma StartSends(avoid: bool, lim: Limits, scripts: seq<seq<Vec>>)
    requires ScriptsOk(lim, scripts)
    ensures var c := Launch(lim, scripts); Sized(c) && ToSend(Abstract(avoid, c)) == Lines(scripts) + |lim.max|
  {
    var c := Launch(lim, scripts);
    assert forall i: nat | i < |scripts| :: Unsent(c, i) == scripts[i];
    assert Abstract(avoid, c).left == scripts && Exited(c.sys) == {};
  }

  /** Nobody has taken a step, and so many lines are to be sent. */
  ghost predicate Fresh(avoid: bool, c: Program, n: nat, lines: nat) {
    && Sized(c) && |c.h.pc| == n && ToSend(Abstract(avoid, c)) == lines + n && MasterRank(c.h.mpc, |c.rest|) == 2
    && ThreadRanks(c.h.pc, c.left, n) == 14 * lines + 17 * n
  }

  lemma FreshWork(avoid: bool, c: Program, n: nat, lines: nat)
    requires Fresh(avoid, c, n, lines)
    ensures Work(avoid, c) == 14 * (lines + n) + 3 * n + Turns(n, lines + n) + 2
  {
  }

  lemma StartRanks(lim: Limits, scripts: seq<seq<Vec>>)
    requires LimitsOk(lim) && |scripts| == |lim.max|
    ensures var c := Launch(lim, scripts);
      && |c.h.pc| == |c.left| == |lim.max| && MasterRank(c.h.mpc, |c.rest|) == 2
      && ThreadRanks(c.h.pc, c.left, |c.h.pc|) == 14 * Lines(scripts) + 17 * |lim.max|
  {
    FirstRanks(scripts, Launch(lim, scripts).h.pc, |scripts|);
    assert scripts[..|scripts|] == scripts;
  }

  lemma LaunchFresh(avoid: bool, lim: Limits, scripts: seq<seq<Vec>>)
    requires ScriptsOk(lim, scripts)
    ensures Fresh(avoid, Launch(lim, scripts), |lim.max|, Lines(scripts))
  {
    StartSends(avoid, lim, scripts);
    StartRanks(lim, scripts);
  }

  lemma WorkLeft(avoid: bool, lim: Limits, c: Program)
    requires Orderly(avoid, lim, c)
    ensures Work(avoid, c) >= 0
  {
  }

  /** The steps of n threads and the master for so many messages. */
  function StepBound(n: nat, messages: nat): int {
    14 * messages + 3 * n + Turns(n, messages) + 3
  }

  lemma StepsBounded(avoid: bool, lim: Limits, run: seq<Program>, n: nat, lines: nat)
    requires Steps(avoid, run) && Orderly(avoid, lim, run[0]) && Fresh(avoid, run[0], n, lines)
    ensures |run| <= StepBound(n, lines + n)
  {
    StepsWork(avoid, lim, run, |run| - 1);
    FreshWork(avoid, run[0], n, lines);
    WorkLeft(avoid, lim, run[|run| - 1]);
  }

  lemma LaunchReady(avoid: bool, lim: Limits, scripts: seq<seq<Vec>>, c: Program)
    requires ScriptsOk(lim, scripts) && c == Launch(lim, scripts)
    ensures Orderly(avoid, lim, c) && Fresh(avoid, c, |lim.max|, Lines(scripts))
  {
    LaunchOrderly(avoid, lim, scripts);
    LaunchFresh(avoid, lim, scripts);
  }

  lemma BoundedFor(avoid: bool, lim: Limits, scripts: seq<seq<Vec>>, run: seq<Program>, n: nat, lines: nat)
    requires ScriptsOk(lim, scripts) && RunOf(avoid, lim, scripts, run) && n == |lim.max| && lines == Lines(scripts)
    ensures |run| <= StepBound(n, lines + n)
  {
    LaunchReady(avoid, lim, scripts, run[0]);
    StepsBounded(avoid, lim, run, n, lines);
  }

  lemma {:induction false} TurnsAre(n: nat, messages: nat)
    ensures Turns(n, messages) == (4 * n + 6) * messages
  {
    if messages > 0 {
      TurnsAre(n, messages - 1);
    }
  }

  /** No run has more steps than the threads and the master need for their messages, one for each line and
      one quit for each thread, whatever the interleaving. */
  lemma RunsAreBounded(avoid: bool, lim: Limits, scripts: seq<seq<Vec>>, run: seq<Program>)
    requires ScriptsOk(lim, scripts) && RunOf(avoid, lim, scripts, run)
    ensures |run| <= StepBound(|lim.max|, Lines(scripts) + |lim.max|)
  {
    BoundedFor(avoid, lim, scripts, run, |lim.max|, Lines(scripts));
  }

  /** With avoidance, where no step is possible every thread has quit, the master is through, and all
      resources are back: the program ends, and does nothing else than end. */
  lemma EveryRunEnds(lim: Limits, scripts: seq<seq<Vec>>, run: seq<Program>, k: nat)
    requires ScriptsOk(lim, scripts) && RunOf(true, lim, scripts, run) && k < |run| && |lim.max| > 0
    ensures Sized(run[k]) && (CanMove(true, run[k]) || Through(lim, run[k]))
  {
    EveryRunStops(true, lim, scripts, run, k);
  }

  /** In either build, it is so or the threads left hold each other up, which the declared maxima must allow. */
  lemma EveryRunStops(avoid: bool, lim: Limits, scripts: seq<seq<Vec>>, run: seq<Program>, k: nat)
    requires ScriptsOk(lim, scripts) && RunOf(avoid, lim, scripts, run) && k < |run| && |lim.max| > 0
    ensures Sized(run[k]) && (CanMove(avoid, run[k]) || Through(lim, run[k]) || (!avoid && Locked(lim, run[k])))
  {
    RunOrderly(avoid, lim, scripts, run, k);
    if !CanMove(avoid, run[k]) {
      StopsWhere(avoid, lim, run[k]);
    }
  }

  /** What the master reads is what the thread wrote: in every state of every run, the requests and releases
      of the line in the shared vector are those the thread's script has next. */
  lemma MessageArrives(avoid: bool, lim: Limits, scripts: seq<seq<Vec>>, run: seq<Program>, k: nat)
    requires ScriptsOk(lim, scripts) && RunOf(avoid, lim, scripts, run) && k < |run| && run[k].h.mpc == H.Reading
    ensures var c := run[k]; var i := c.h.reqfrom;
      && i < |c.left| == |scripts|
      && (c.h.reqkind == H.Quit ==> c.left[i] == [])
      && (c.h.reqkind != H.Quit ==> |c.left[i]| < |scripts[i]| && scripts[i][|scripts[i]| - |c.left[i]| - 1] == c.REQ)
  {
    RunOrderly(avoid, lim, scripts, run, k);
    ReadMessage(avoid, lim, run[k]);
    SuffixInv(avoid, lim, scripts, run, k, run[k].h.reqfrom);
  }

  /** What thread i has still to send is the end of its script. */
  lemma {:induction false} SuffixInv(avoid: bool, lim: Limits, scripts: seq<seq<Vec>>, run: seq<Program>, k: nat, i: nat)
    requires ScriptsOk(lim, scripts) && RunOf(avoid, lim, scripts, run) && k < |run| && i < |scripts|
    ensures Orderly(avoid, lim, run[k]) && Suffix(Unsent(run[k], i), scripts[i])
  {
    RunOrderly(avoid, lim, scripts, run, k);
    if k == 0 {
      assert Unsent(run[0], i) == scripts[i];
    } else {
      SuffixInv(avoid, lim, scripts, run, k - 1, i);
      UnsentNext(avoid, lim, run[k - 1], run[k], i);
      SuffixTail(Unsent(run[k - 1], i), Unsent(run[k], i), scripts[i]);
    }
  }

  lemma SuffixTail(a: seq<Vec>, b: seq<Vec>, all: seq<Vec>)
    requires Suffix(a, all) && (b == a || (a != [] && b == a[1..]))
    ensures Suffix(b, all)
  {
  }

  predicate Suffix(a: seq<Vec>, b: seq<Vec>) {
    |a| <= |b| && a == b[|b| - |a|..]
  }

  /** A step takes at most the first line from what is still to send. */
  lemma UnsentNext(avoid: bool, lim: Limits, c: Program, d: Program, j: nat)
    requires Orderly(avoid, lim, c) && Next(avoid, c, d) && j < |c.left|
    ensures Sized(d) && |d.left| == |c.left|
    ensures Unsent(d, j) == Unsent(c, j) || (Unsent(c, j) != [] && Unsent(d, j) == Unsent(c, j)[1..])
  {
    NextOrderly(avoid, lim, c, d);
    if i: nat :| i < |c.h.pc| && ThreadMoves(c, i) == Some(d) {
      assert KindOk(c, i) && KindOk(c, j);
      ThreadOne(c, i, j, d);
    } else if c.h.mpc == H.Reading {
      ReadUnsent(avoid, lim, c, d, j);
    } else {
      PassUnsent(avoid, lim, c, d, j);
    }
  }

  lemma ReadUnsent(avoid: bool, lim: Limits, c: Program, d: Program, j: nat)
    requires Orderly(avoid, lim, c) && MasterMoves(avoid, c) == Some(d) && c.h.mpc == H.Reading && j < |c.left|
    ensures Sized(d) && |d.left| == |c.left|
    ensures Unsent(d, j) == Unsent(c, j) || (Unsent(c, j) != [] && Unsent(d, j) == Unsent(c, j)[1..])
  {
    RegisteredLines(avoid, lim, c);
    assert Abstract(avoid, d).left[j] == Unsent(d, j) && Abstract(avoid, c).left[j] == Unsent(c, j);
  }

  lemma PassUnsent(avoid: bool, lim: Limits, c: Program, d: Program, j: nat)
    requires Orderly(avoid, lim, c) && MasterMoves(avoid, c) == Some(d) && c.h.mpc != H.Reading && j < |c.left|
    ensures Sized(d) && |d.left| == |c.left| && Unsent(d, j) == Unsent(c, j)
  {
    MasterSame(avoid, lim, c);
    assert |Abstract(avoid, d).left| == |d.left| && |Abstract(avoid, c).left| == |c.left|;
    assert Abstract(avoid, d).left[j] == Unsent(d, j) && Abstract(avoid, c).left[j] == Unsent(c, j);
  }

  /** What the master does between two readings does not change what the banker will come to. */
  lemma MasterSame(avoid: bool, lim: Limits, c: Program)
    requires Orderly(avoid, lim, c) && c.h.mpc != H.Reading && MasterMoves(avoid, c).Some?
    ensures Sized(MasterMoves(avoid, c).value) && Abstract(avoid, MasterMoves(avoid, c).value) == Abstract(avoid, c)
  {
    if c.h.mpc == H.Serving && c.rest != [] {
      if CanServe(avoid, c.sys, c.rest[0]) {
        GrantAbstract(avoid, lim, c);
      } else {
        RefuseAbstract(avoid, c);
      }
    } else {
      QuietAbstract(avoid, lim, c);
    }
  }
}
