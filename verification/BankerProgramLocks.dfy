/** Without avoidance: which declared maxima let the whole program come to a standstill, for some scripts and
    in some interleaving. */
module BankerProgramLocks {
  import opened Vectors
  import opened BankerSweep
  import opened BankerRuns
  import opened BankerScripts
  import opened BankerDeadlock
  import opened BankerProgram
  import opened BankerProgramRuns
  import opened Options
  import H = Handshake

  // ----- steps one after the other

  ghost predicate Leads(avoid: bool, c: Program, d: Program) {
    exists run: seq<Program> :: Steps(avoid, run) && run[0] == c && run[|run| - 1] == d
  }

  lemma LeadsItself(avoid: bool, c: Program)
    ensures Leads(avoid, c, c)
  {
    var run := [c];
    assert Steps(avoid, run) && run[0] == c && run[|run| - 1] == c;
  }

  lemma LeadsOn(avoid: bool, c: Program, d: Program, e: Program)
    requires Leads(avoid, c, d) && BankerProgram.Next(avoid, d, e)
    ensures Leads(avoid, c, e)
  {
    var run: seq<Program> :| Steps(avoid, run) && run[0] == c && run[|run| - 1] == d;
    var more := run + [e];
    forall k | 0 < k < |more|
      ensures BankerProgram.Next(avoid, more[k - 1], more[k])
    {
      assert k < |run| ==> BankerProgram.Next(avoid, run[k - 1], run[k]);
    }
    assert Steps(avoid, more) && more[0] == c && more[|more| - 1] == e;
  }

  lemma ThreadLeads(avoid: bool, lim: Limits, c: Program, d: Program, i: nat) returns (e: Program)
    requires Orderly(avoid, lim, d) && Leads(avoid, c, d) && i < |d.h.pc| && ThreadMoves(d, i).Some?
    ensures ThreadMoves(d, i) == Some(e) && Leads(avoid, c, e) && Orderly(avoid, lim, e)
    ensures Abstract(avoid, e) == Abstract(avoid, d)
  {
    e := ThreadMoves(d, i).value;
    LeadsOn(avoid, c, d, e);
    ThreadOrderly(avoid, lim, d, i);
    ThreadAbstract(avoid, lim, d, i, e);
  }

  lemma MasterLeads(avoid: bool, lim: Limits, c: Program, d: Program) returns (e: Program)
    requires Orderly(avoid, lim, d) && Leads(avoid, c, d) && MasterMoves(avoid, d).Some?
    ensures MasterMoves(avoid, d) == Some(e) && Leads(avoid, c, e) && Orderly(avoid, lim, e)
  {
    e := MasterMoves(avoid, d).value;
    LeadsOn(avoid, c, d, e);
    MasterOrderly(avoid, lim, d);
  }

  // ----- winding up: no new message is sent

  predicate Resting(p: H.ThreadPc) {
    p == H.Idle || p == H.Waiting || p == H.Gone
  }

  /** Every thread is idle, waits or has quit, and the master waits for a message or is through. */
  predicate AtRest(h: H.State) {
    (h.mpc == H.InReqB || h.mpc == H.Done) && forall j: nat | j < |h.pc| :: Resting(h.pc[j])
  }

  /** No thread is on the way to the master. */
  predicate Sent(h: H.State, j: nat)
    requires j < |h.pc|
  {
    !h.pc[j].WantR? && !h.pc[j].GotR? && !h.pc[j].GotC? && !Unread(h, j)
  }

  predicate AllSent(h: H.State) {
    h.mpc != H.Reading && forall j: nat | j < |h.pc| :: Sent(h, j)
  }

  lemma BusyThreadSends(h: H.State, i: nat, k: H.Kind, j: nat)
    requires H.Around(h, i, j) && H.ThreadStep(h, i, k).Some? && h.pc[i] != H.Idle && h.mpc != H.Reading && Sent(h, i) && Sent(h, j)
    ensures var t := H.ThreadStep(h, i, k).value; |t.pc| == |h.pc| && t.mpc != H.Reading && Sent(t, j)
  {
  }

  lemma MasterSends(h: H.State, j: nat)
    requires H.Around(h, j, j) && H.MasterStep(h, None).Some? && h.mpc != H.Reading && Sent(h, j)
    requires h.reqb.Some? && h.reqb.value.Thread? ==> h.reqb.value.i < |h.pc| && Sent(h, h.reqb.value.i)
    ensures var t := H.MasterStep(h, None).value; |t.pc| == |h.pc| && t.mpc != H.Reading && Sent(t, j)
  {
  }

  lemma ThreadWinds(h: H.State, i: nat, k: H.Kind)
    requires H.Inv(h) && i < |h.pc| && h.pc[i] != H.Idle && H.ThreadStep(h, i, k).Some? && AllSent(h)
    ensures AllSent(H.ThreadStep(h, i, k).value)
  {
    H.SeenAround(h, i, i);
    BusyThreadSends(h, i, k, i);
    var t := H.ThreadStep(h, i, k).value;
    forall j: nat | j < |h.pc|
      ensures Sent(t, j)
    {
      H.SeenAround(h, i, j);
      BusyThreadSends(h, i, k, j);
    }
  }

  lemma MasterReadsNothing(h: H.State)
    requires H.Inv(h) && AllSent(h) && H.MasterStep(h, None).Some?
    ensures H.MasterStep(h, None).value.mpc != H.Reading
  {
    forall j: nat | j < |h.pc|
      ensures !h.pc[j].AtReqB?
    {
      assert Sent(h, j);
    }
    if h.reqb.Some? && h.reqb.value.Thread? {
      H.WhoIsInReqB(h);
    }
  }

  lemma MasterWinds(h: H.State)
    requires H.Inv(h) && AllSent(h) && H.MasterStep(h, None).Some?
    ensures AllSent(H.MasterStep(h, None).value)
  {
    MasterReadsNothing(h);
    H.MasterStepGlobal(h, None);
    var t := H.MasterStep(h, None).value;
    forall j: nat | j < |h.pc|
      ensures Sent(t, j)
    {
      H.SeenAround(h, j, j);
      if h.reqb.Some? && h.reqb.value.Thread? {
        H.WhoIsInReqB(h);
      }
      MasterSends(h, j);
    }
  }

  lemma PassWinds(h: H.State, t: H.State)
    requires AllSent(h) && t.pc == h.pc && t.mpc != H.Reading
    ensures AllSent(t)
  {
    forall j: nat | j < |t.pc|
      ensures Sent(t, j)
    {
      assert Sent(h, j);
    }
  }

  /** Nobody sends: somebody can move who is not idle, or all are at rest. */
  lemma RestOrBusy(h: H.State)
    requires H.Inv(h)
    ensures H.Busy(h) || AtRest(h)
  {
    if !H.Busy(h) {
      H.MasterBlocked(h);
      forall j: nat | j < |h.pc|
        ensures Resting(h.pc[j])
      {
        H.ThreadBlocked(h, j);
      }
    }
  }

  /** One step of winding up. */
  lemma WindOne(avoid: bool, lim: Limits, c: Program, d: Program) returns (e: Program)
    requires Orderly(avoid, lim, d) && Leads(avoid, c, d) && AllSent(d.h) && H.Busy(d.h)
    ensures Orderly(avoid, lim, e) && Leads(avoid, c, e) && AllSent(e.h) && Abstract(avoid, e) == Abstract(avoid, d)
    ensures Work(avoid, e) < Work(avoid, d)
  {
    if i: nat :| i < |d.h.pc| && d.h.pc[i] != H.Idle && H.ThreadStep(d.h, i, H.Quit).Some? {
      e := WindThread(avoid, lim, c, d, i);
    } else {
      e := WindMaster(avoid, lim, c, d);
    }
  }

  lemma WindThread(avoid: bool, lim: Limits, c: Program, d: Program, i: nat) returns (e: Program)
    requires Orderly(avoid, lim, d) && Leads(avoid, c, d) && AllSent(d.h)
    requires i < |d.h.pc| && d.h.pc[i] != H.Idle && H.ThreadStep(d.h, i, H.Quit).Some?
    ensures Orderly(avoid, lim, e) && Leads(avoid, c, e) && AllSent(e.h) && Abstract(avoid, e) == Abstract(avoid, d)
    ensures Work(avoid, e) < Work(avoid, d)
  {
    ThreadCan(d, i);
    e := ThreadLeads(avoid, lim, c, d, i);
    WoundThread(avoid, lim, d, i, e);
  }

  lemma ThreadCan(d: Program, i: nat)
    requires Sized(d) && i < |d.h.pc| && H.ThreadStep(d.h, i, H.Quit).Some?
    ensures ThreadMoves(d, i).Some?
  {
  }

  lemma WoundThread(avoid: bool, lim: Limits, d: Program, i: nat, e: Program)
    requires Orderly(avoid, lim, d) && AllSent(d.h) && i < |d.h.pc| && d.h.pc[i] != H.Idle && ThreadMoves(d, i) == Some(e)
    ensures AllSent(e.h) && Sized(e) && Work(avoid, e) < Work(avoid, d)
  {
    ThreadWinds(d.h, i, NextKind(d.left[i]));
    ThreadWorks(avoid, lim, d, i);
  }

  lemma WindMaster(avoid: bool, lim: Limits, c: Program, d: Program) returns (e: Program)
    requires Orderly(avoid, lim, d) && Leads(avoid, c, d) && AllSent(d.h) && H.MasterStep(d.h, None).Some?
    ensures Orderly(avoid, lim, e) && Leads(avoid, c, e) && AllSent(e.h) && Abstract(avoid, e) == Abstract(avoid, d)
    ensures Work(avoid, e) < Work(avoid, d)
  {
    MasterCan(avoid, lim, d);
    e := MasterLeads(avoid, lim, c, d);
    MasterSame(avoid, lim, d);
    NextWorks(avoid, lim, d, e);
    MasterWound(avoid, lim, d, e);
  }

  lemma MasterCan(avoid: bool, lim: Limits, d: Program)
    requires Orderly(avoid, lim, d) && AllSent(d.h) && H.MasterStep(d.h, None).Some?
    ensures MasterMoves(avoid, d).Some?
  {
    if d.h.mpc == H.Serving && d.rest != [] && CanServe(avoid, d.sys, d.rest[0]) {
      GrantMoves(avoid, lim, d);
    }
  }

  lemma MasterWound(avoid: bool, lim: Limits, d: Program, e: Program)
    requires Orderly(avoid, lim, d) && AllSent(d.h) && H.MasterStep(d.h, None).Some? && MasterMoves(avoid, d) == Some(e)
    ensures AllSent(e.h)
  {
    if d.h.mpc == H.Serving && d.rest != [] {
      if CanServe(avoid, d.sys, d.rest[0]) {
        var g := GrantTo(avoid, lim, d);
      }
      PassWinds(d.h, e.h);
    } else {
      MasterWinds(d.h);
    }
  }

  /** When nobody sends another message, all come to rest. */
  lemma {:induction false} WindUp(avoid: bool, lim: Limits, c: Program, d: Program) returns (e: Program)
    requires Orderly(avoid, lim, d) && Leads(avoid, c, d) && AllSent(d.h)
    ensures Orderly(avoid, lim, e) && Leads(avoid, c, e) && AtRest(e.h) && Abstract(avoid, e) == Abstract(avoid, d)
    decreases Work(avoid, d)
  {
    RestOrBusy(d.h);
    WorkLeft(avoid, lim, d);
    if AtRest(d.h) {
      e := d;
    } else {
      e := WindOne(avoid, lim, c, d);
      WorkLeft(avoid, lim, e);
      e := WindUp(avoid, lim, c, e);
    }
  }

  // ----- one message

  /** Only thread i has set out, and the master waits for it. */
  predicate SetOut(h: H.State, i: nat) {
    && i < |h.pc| && h.mpc == H.InReqB && (forall j: nat | j < |h.pc| && j != i :: Resting(h.pc[j]))
  }

  lemma NobodyHolds(h: H.State, i: nat)
    requires H.Inv(h) && SetOut(h, i) && !H.HoldsR(h.pc[i]) && !H.HoldsC(h.pc[i])
    ensures h.rmtx == None && h.cmtx[i] == H.Free && h.reqb == Some(H.Master)
  {
    assert H.Local(h, i);
    forall j: nat | j < |h.pc|
      ensures h.rmtx != Some(j)
    {
      assert H.Local(h, j) && (j == i || Resting(h.pc[j]));
    }
  }

  lemma TakesR(h: H.State, i: nat, k: H.Kind)
    requires H.Inv(h) && SetOut(h, i) && h.pc[i].WantR?
    ensures H.ThreadStep(h, i, k).Some?
    ensures var t := H.ThreadStep(h, i, k).value; SetOut(t, i) && t.pc[i] == H.GotR(h.pc[i].k)
  {
    NobodyHolds(h, i);
  }

  lemma TakesC(h: H.State, i: nat, k: H.Kind)
    requires H.Inv(h) && SetOut(h, i) && h.pc[i].GotR? && h.pc[i].k != H.Quit
    ensures H.ThreadStep(h, i, k).Some?
    ensures var t := H.ThreadStep(h, i, k).value; SetOut(t, i) && t.pc[i] == H.GotC(h.pc[i].k)
  {
    assert H.Local(h, i);
  }

  lemma Hands(h: H.State, i: nat, k: H.Kind)
    requires H.Inv(h) && SetOut(h, i) && h.pc[i].Sending?
    ensures H.ThreadStep(h, i, k).Some?
    ensures Delivered(H.ThreadStep(h, i, k).value, i)
  {
    assert H.Local(h, i);
    assert h.reqb == Some(H.Master);
  }

  /** The program has come so far, thread i alone has set out, and the banker stands at r. */
  ghost predicate OnWay(avoid: bool, lim: Limits, c: Program, d: Program, i: nat, r: Running) {
    Orderly(avoid, lim, d) && Leads(avoid, c, d) && SetOut(d.h, i) && Abstract(avoid, d) == r
  }

  lemma SetsOut(avoid: bool, lim: Limits, c: Program, d: Program, i: nat, r: Running) returns (e: Program)
    requires OnWay(avoid, lim, c, d, i, r) && d.h.pc[i] == H.Idle
    ensures OnWay(avoid, lim, c, e, i, r) && e.h.pc[i].WantR?
  {
    e := ThreadLeads(avoid, lim, c, d, i);
  }

  lemma Locks(avoid: bool, lim: Limits, c: Program, d: Program, i: nat, r: Running) returns (e: Program)
    requires OnWay(avoid, lim, c, d, i, r) && d.h.pc[i].WantR?
    ensures OnWay(avoid, lim, c, e, i, r) && e.h.pc[i].GotR?
  {
    TakesR(d.h, i, NextKind(d.left[i]));
    e := ThreadLeads(avoid, lim, c, d, i);
  }

  lemma LocksOwn(avoid: bool, lim: Limits, c: Program, d: Program, i: nat, r: Running) returns (e: Program)
    requires OnWay(avoid, lim, c, d, i, r) && d.h.pc[i].GotR? && d.h.pc[i].k != H.Quit
    ensures OnWay(avoid, lim, c, e, i, r) && e.h.pc[i].GotC?
  {
    TakesC(d.h, i, NextKind(d.left[i]));
    e := ThreadLeads(avoid, lim, c, d, i);
  }

  lemma Written(h: H.State, i: nat, k: H.Kind)
    requires H.Inv(h) && SetOut(h, i) && (h.pc[i].GotC? || h.pc[i] == H.GotR(H.Quit))
    ensures H.ThreadStep(h, i, k).Some?
    ensures var t := H.ThreadStep(h, i, k).value; SetOut(t, i) && t.pc[i].Sending?
  {
  }

  lemma WritesLine(avoid: bool, lim: Limits, c: Program, d: Program, i: nat, r: Running) returns (e: Program)
    requires OnWay(avoid, lim, c, d, i, r) && (d.h.pc[i].GotC? || d.h.pc[i] == H.GotR(H.Quit))
    ensures OnWay(avoid, lim, c, e, i, r) && e.h.pc[i].Sending?
  {
    Written(d.h, i, NextKind(d.left[i]));
    e := ThreadLeads(avoid, lim, c, d, i);
  }

  /** The master is about to read the message of thread i; all others rest. */
  predicate Delivered(h: H.State, i: nat) {
    && i < |h.pc| && h.mpc == H.Reading && h.reqfrom == i && h.pc[i].Acking?
    && forall j: nat | j < |h.pc| && j != i :: Resting(h.pc[j])
  }

  lemma HandsOver(avoid: bool, lim: Limits, c: Program, d: Program, i: nat, r: Running) returns (e: Program)
    requires OnWay(avoid, lim, c, d, i, r) && d.h.pc[i].Sending?
    ensures Orderly(avoid, lim, e) && Leads(avoid, c, e) && Abstract(avoid, e) == r && Delivered(e.h, i)
  {
    Hands(d.h, i, NextKind(d.left[i]));
    e := ThreadLeads(avoid, lim, c, d, i);
  }

  /** Thread i, idle while all rest, gets its message to the master. */
  lemma SendsToMaster(avoid: bool, lim: Limits, c: Program, d: Program, i: nat, r: Running) returns (e: Program)
    requires OnWay(avoid, lim, c, d, i, r) && d.h.pc[i] == H.Idle
    ensures Orderly(avoid, lim, e) && Leads(avoid, c, e) && Abstract(avoid, e) == r && Delivered(e.h, i)
  {
    e := SetsOut(avoid, lim, c, d, i, r);
    e := Locks(avoid, lim, c, e, i, r);
    if e.h.pc[i].k != H.Quit {
      e := LocksOwn(avoid, lim, c, e, i, r);
    }
    e := WritesLine(avoid, lim, c, e, i, r);
    e := HandsOver(avoid, lim, c, e, i, r);
  }

  lemma ReadIsSent(h: H.State, i: nat)
    requires H.Inv(h) && Delivered(h, i)
    ensures AllSent(H.MasterStep(h, None).value)
  {
    var t := H.MasterStep(h, None).value;
    forall j: nat | j < |t.pc|
      ensures Sent(t, j)
    {
      assert j != i ==> Resting(h.pc[j]);
    }
  }

  /** The master reads the message of thread i: the banker takes its step, and all that follows is done. */
  lemma ReadsIt(avoid: bool, lim: Limits, c: Program, d: Program, i: nat, r: Running) returns (e: Program)
    requires Orderly(avoid, lim, d) && Leads(avoid, c, d) && Abstract(avoid, d) == r && Delivered(d.h, i)
    ensures Orderly(avoid, lim, e) && Leads(avoid, c, e) && AllSent(e.h)
    ensures Enabled(r, i) && Possible(r.st, NextEvent(r, i)) && Abstract(avoid, e) == Advance(avoid, r, i)
  {
    RegisterMoves(avoid, lim, d);
    e := MasterLeads(avoid, lim, c, d);
    RegisteredLines(avoid, lim, d);
    MasterRead(avoid, d, i, e);
  }

  lemma MasterRead(avoid: bool, d: Program, i: nat, e: Program)
    requires Sized(d) && H.Inv(d.h) && Delivered(d.h, i) && MasterMoves(avoid, d) == Some(e)
    ensures AllSent(e.h)
  {
    ReadIsSent(d.h, i);
  }

  /** From rest to rest: the message of a thread that may send one is read, and all that follows is done. */
  lemma OneMessage(avoid: bool, lim: Limits, c: Program, d: Program, i: nat, r: Running) returns (e: Program)
    requires Orderly(avoid, lim, d) && Leads(avoid, c, d) && AtRest(d.h) && Abstract(avoid, d) == r && Enabled(r, i)
    ensures Orderly(avoid, lim, e) && Leads(avoid, c, e) && AtRest(e.h)
    ensures Possible(r.st, NextEvent(r, i)) && Abstract(avoid, e) == Advance(avoid, r, i)
  {
    EnabledIsIdle(avoid, lim, d, i);
    e := SendsToMaster(avoid, lim, c, d, i, r);
    e := ReadsIt(avoid, lim, c, e, i, r);
    e := WindUp(avoid, lim, c, e);
  }

  lemma EnabledIsIdle(avoid: bool, lim: Limits, d: Program, i: nat)
    requires Orderly(avoid, lim, d) && AtRest(d.h) && Enabled(Abstract(avoid, d), i)
    ensures SetOut(d.h, i) && d.h.pc[i] == H.Idle
  {
    assert Linked(d, i) && H.Local(d.h, i);
    RestSettled(avoid, lim, d);
  }

  /** At rest there is nothing left of the pass. */
  lemma RestSettled(avoid: bool, lim: Limits, d: Program)
    requires Orderly(avoid, lim, d) && d.h.mpc == H.InReqB
    ensures Settled(avoid, d) == State(d.sys, d.kept) && d.rest == [] && d.rest + d.kept == d.kept
  {
    var w := Sweep(avoid, d.sys, d.rest);
    assert d.kept + w.left == d.kept;
  }

  // ----- scripts for a run of the banker

  /** What thread i asks in a run. */
  function AsksOf(evs: seq<Event>, i: nat): seq<Vec> {
    if evs == [] then [] else (if evs[0].Ask? && evs[0].i == i then [evs[0].req] else []) + AsksOf(evs[1..], i)
  }

  lemma {:induction false} NothingAfterStop(avoid: bool, st: State, evs: seq<Event>, i: nat)
    requires QueueFits(st) && LegalRun(avoid, st, evs) && i < |st.sys.exited| && st.sys.exited[i]
    ensures AsksOf(evs, i) == []
    decreases |evs|
  {
    if evs != [] {
      StepExits(avoid, st, evs[0]);
      NothingAfterStop(avoid, Step(avoid, st, evs[0]), evs[1..], i);
    }
  }

  /** The lines of a thread that sends what the run has for it. */
  predicate Scripted(r: Running, evs: seq<Event>) {
    |r.left| == |r.st.sys.exited| && forall i: nat | i < |r.left| && !r.st.sys.exited[i] :: r.left[i] == AsksOf(evs, i)
  }

  lemma ScriptSays(avoid: bool, r: Running, evs: seq<Event>)
    requires QueueFits(r.st) && evs != [] && LegalRun(avoid, r.st, evs) && Scripted(r, evs)
    ensures Enabled(r, evs[0].i) && NextEvent(r, evs[0].i) == evs[0]
    ensures Scripted(Advance(avoid, r, evs[0].i), evs[1..])
  {
    var e := evs[0];
    StepExits(avoid, r.st, e);
    if e.Stop? {
      NothingAfterStop(avoid, Step(avoid, r.st, e), evs[1..], e.i);
    }
  }

  /** What a legal run has for a thread is a script the thread may follow. */
  lemma {:induction false} AsksFollow(avoid: bool, lim: Limits, st: State, evs: seq<Event>, i: nat)
    requires Inv(avoid, lim, st) && LegalRun(avoid, st, evs) && i < |lim.max| && !st.sys.exited[i]
    ensures Follows(BankerScripts.Owed(st.sys, st.queue, i), lim.max[i], AsksOf(evs, i))
    decreases |evs|
  {
    if evs != [] {
      var t := Step(avoid, st, evs[0]);
      StepInv(avoid, lim, st, evs[0]);
      StepExits(avoid, st, evs[0]);
      if evs[0] == Stop(i) {
        NothingAfterStop(avoid, t, evs[1..], i);
      } else {
        AsksFollow(avoid, lim, t, evs[1..], i);
        AskFollows(avoid, lim, st, evs, i, BankerScripts.Owed(t.sys, t.queue, i));
      }
    }
  }

  lemma AskFollows(avoid: bool, lim: Limits, st: State, evs: seq<Event>, i: nat, next: Vec)
    requires QueueFits(st) && Books(lim, st.sys) && evs != [] && Legal(st, evs[0]) && evs[0] != Stop(i) && i < |lim.max|
    requires var t := Step(avoid, st, evs[0]); next == BankerScripts.Owed(t.sys, t.queue, i)
    requires Follows(next, lim.max[i], AsksOf(evs[1..], i))
    ensures Follows(BankerScripts.Owed(st.sys, st.queue, i), lim.max[i], AsksOf(evs, i))
  {
    StepOwed(avoid, st, evs[0], i);
    if evs[0].i == i {
      AskIsLine(lim, st, evs[0]);
      var lines := AsksOf(evs, i);
      assert lines[0] == evs[0].req && lines[1..] == AsksOf(evs[1..], i);
    } else {
      assert AsksOf(evs, i) == AsksOf(evs[1..], i);
    }
  }

  lemma AskIsLine(lim: Limits, st: State, e: Event)
    requires QueueFits(st) && Books(lim, st.sys) && Legal(st, e) && e.Ask?
    ensures LineOk(BankerScripts.Owed(st.sys, st.queue, e.i), lim.max[e.i], e.req)
  {
    OwedNotWaiting(st.sys, st.queue, e.i);
    assert Plus(st.sys.alloc[e.i], st.sys.need[e.i]) == lim.max[e.i];
    assert forall j | 0 <= j < |e.req| :: lim.max[e.i][j] == st.sys.alloc[e.i][j] + st.sys.need[e.i][j];
  }

  // ----- the whole program plays it

  lemma {:induction false} Plays(avoid: bool, lim: Limits, c: Program, d: Program, evs: seq<Event>) returns (e: Program)
    requires Orderly(avoid, lim, d) && Leads(avoid, c, d) && AtRest(d.h)
    requires Scripted(Abstract(avoid, d), evs) && LegalRun(avoid, Abstract(avoid, d).st, evs)
    ensures Orderly(avoid, lim, e) && Leads(avoid, c, e) && AtRest(e.h)
    ensures Settled(avoid, e) == Run(avoid, Abstract(avoid, d).st, evs)
    decreases |evs|
  {
    if evs == [] {
      e := d;
    } else {
      ScriptSays(avoid, Abstract(avoid, d), evs);
      e := OneMessage(avoid, lim, c, d, evs[0].i, Abstract(avoid, d));
      e := Plays(avoid, lim, c, e, evs[1..]);
    }
  }

  function ScriptsOf(evs: seq<Event>, n: nat): (scripts: seq<seq<Vec>>)
    ensures |scripts| == n && forall i | 0 <= i < n :: scripts[i] == AsksOf(evs, i)
  {
    seq(n, i requires 0 <= i < n => AsksOf(evs, i))
  }

  lemma ScriptsOfOk(avoid: bool, lim: Limits, evs: seq<Event>)
    requires LimitsOk(lim) && LegalRun(avoid, BankerRuns.Start(lim), evs)
    ensures ScriptsOk(lim, ScriptsOf(evs, |lim.max|))
  {
    BankerRuns.StartInv(avoid, lim);
    forall i: nat | i < |lim.max|
      ensures Follows(Zeros(|lim.total|), lim.max[i], AsksOf(evs, i))
    {
      AsksFollow(avoid, lim, BankerRuns.Start(lim), evs, i);
    }
  }

  /** The master waits for the first message. */
  lemma FirstRest(avoid: bool, lim: Limits, scripts: seq<seq<Vec>>) returns (d: Program)
    requires ScriptsOk(lim, scripts)
    ensures Orderly(avoid, lim, d) && Leads(avoid, Launch(lim, scripts), d) && AtRest(d.h) && d.h.mpc == H.InReqB
    ensures |d.h.pc| == |lim.max| && Abstract(avoid, d) == Running(BankerRuns.Start(lim), scripts)
  {
    var c := Launch(lim, scripts);
    LaunchOrderly(avoid, lim, scripts);
    LeadsItself(avoid, c);
    LaunchAbstract(avoid, lim, scripts);
    d := MasterLeads(avoid, lim, c, c);
    MasterSame(avoid, lim, c);
  }

  lemma LaunchAbstract(avoid: bool, lim: Limits, scripts: seq<seq<Vec>>)
    requires ScriptsOk(lim, scripts)
    ensures var c := Launch(lim, scripts); Sized(c) && Abstract(avoid, c) == Running(BankerRuns.Start(lim), scripts)
  {
    var c := Launch(lim, scripts);
    assert forall i: nat | i < |scripts| :: Unsent(c, i) == scripts[i];
    assert Settled(avoid, c) == BankerRuns.Start(lim);
  }

  /** Every run of the banker is one of the whole program, with threads that ask what they ask in it. */
  lemma ProgramPlays(avoid: bool, lim: Limits, evs: seq<Event>) returns (scripts: seq<seq<Vec>>, d: Program)
    requires LimitsOk(lim) && LegalRun(avoid, BankerRuns.Start(lim), evs)
    ensures ScriptsOk(lim, scripts) && Leads(avoid, Launch(lim, scripts), d) && Orderly(avoid, lim, d) && AtRest(d.h)
    ensures Settled(avoid, d) == Run(avoid, BankerRuns.Start(lim), evs)
  {
    scripts := ScriptsOf(evs, |lim.max|);
    ScriptsOfOk(avoid, lim, evs);
    d := FirstRest(avoid, lim, scripts);
    d := Plays(avoid, lim, Launch(lim, scripts), d, evs);
  }

  // ----- and so it stops where the banker does

  /** At rest in a deadlock nobody is left who could ask. */
  lemma NobodyIdle(lim: Limits, d: Program, i: nat)
    requires Orderly(false, lim, d) && AtRest(d.h) && d.rest == [] && Deadlocked(State(d.sys, d.kept)) && i < |d.h.pc|
    ensures d.h.pc[i] == H.Gone || d.h.pc[i] == H.Waiting
  {
    assert d.rest + d.kept == d.kept;
    assert Linked(d, i);
    IdleIsLive(d.h, i);
  }

  lemma IdleIsLive(h: H.State, i: nat)
    requires H.Inv(h) && i < |h.pc|
    ensures h.pc[i] == H.Idle ==> i in h.live && i !in h.queue
  {
    assert H.Local(h, i);
  }

  /** While a thread is live the master waits for a message. */
  lemma LiveMeansWaiting(lim: Limits, d: Program)
    requires Orderly(false, lim, d) && AtRest(d.h) && !AllExited(Settled(false, d).sys)
    ensures d.h.mpc == H.InReqB
  {
    var h: nat :| h < |d.sys.alloc| && !Settled(false, d).sys.exited[h];
    assert Linked(d, h);
  }

  lemma RestIsLocked(lim: Limits, d: Program)
    requires LimitsOk(lim) && Orderly(false, lim, d) && AtRest(d.h) && Deadlocked(Settled(false, d))
    ensures Locked(lim, d)
  {
    DeadlockLocks(lim, Settled(false, d));
    LiveMeansWaiting(lim, d);
    RestSettled(false, lim, d);
    forall i: nat | i < |d.h.pc|
      ensures d.h.pc[i] == H.Gone || d.h.pc[i] == H.Waiting
    {
      NobodyIdle(lim, d, i);
    }
  }

  lemma LockedCannotMove(avoid: bool, lim: Limits, c: Program)
    requires Sized(c) && Locked(lim, c)
    ensures !CanMove(avoid, c) && !Through(lim, c)
  {
  }

  /** For some scripts and in some interleaving the program stops before it is through. */
  ghost predicate MayStop(avoid: bool, lim: Limits)
    requires LimitsOk(lim)
  {
    exists scripts, run :: ScriptsOk(lim, scripts) && RunOf(avoid, lim, scripts, run) && StopsShort(avoid, lim, run[|run| - 1])
  }

  ghost predicate StopsShort(avoid: bool, lim: Limits, c: Program) {
    Sized(c) && !CanMove(avoid, c) && !Through(lim, c)
  }

  lemma LocksStop(lim: Limits, f: map<nat, nat>)
    requires LimitsOk(lim) && CanLock(lim, f)
    ensures MayStop(false, lim)
  {
    LocksDeadlock(lim, f);
    var st :| Reaches(false, lim, st) && Deadlocked(st);
    var evs :| LegalRun(false, BankerRuns.Start(lim), evs) && Run(false, BankerRuns.Start(lim), evs) == st;
    var scripts, d := ProgramPlays(false, lim, evs);
    RestIsLocked(lim, d);
    LockedCannotMove(false, lim, d);
    LeadsTo(false, lim, scripts, d);
  }

  /** Without threads the master waits for a message that nobody sends. */
  lemma NobodySends(avoid: bool, lim: Limits)
    requires LimitsOk(lim) && |lim.max| == 0
    ensures MayStop(avoid, lim)
  {
    var d := FirstRest(avoid, lim, []);
    assert StopsShort(avoid, lim, d);
    LeadsTo(avoid, lim, [], d);
  }

  lemma LeadsTo(avoid: bool, lim: Limits, scripts: seq<seq<Vec>>, d: Program)
    requires ScriptsOk(lim, scripts) && Leads(avoid, Launch(lim, scripts), d) && StopsShort(avoid, lim, d)
    ensures MayStop(avoid, lim)
  {
    var run: seq<Program> :| Steps(avoid, run) && run[0] == Launch(lim, scripts) && run[|run| - 1] == d;
    assert RunOf(avoid, lim, scripts, run);
  }

  /** For some scripts and in some interleaving the whole program stops before it is through, exactly where
      there are no threads at all, or in the build without avoidance the limits let some threads lock each other. */
  lemma MayStopIff(avoid: bool, lim: Limits)
    requires LimitsOk(lim)
    ensures MayStop(avoid, lim) <==> |lim.max| == 0 || (!avoid && exists f :: CanLock(lim, f))
  {
    if |lim.max| == 0 {
      NobodySends(avoid, lim);
    } else if MayStop(avoid, lim) {
      var scripts, run :| ScriptsOk(lim, scripts) && RunOf(avoid, lim, scripts, run) && StopsShort(avoid, lim, run[|run| - 1]);
      EveryRunStops(avoid, lim, scripts, run, |run| - 1);
    }
    if f :| !avoid && CanLock(lim, f) {
      LocksStop(lim, f);
    }
  }
}
