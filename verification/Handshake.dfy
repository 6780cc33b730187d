/** How a thread hands its request to the master and is woken when it is granted:
    one mutex for the shared request, one mutex and condition variable per thread,
    one barrier for "request there" and one per thread for "request taken".

    Which pending request is granted, and when, is left open, so what is proved here
    holds under any granting policy.  Condition variables wake only when signalled. */
module Handshake {
  import opened Options

  datatype Kind = Quit | Release | Additional
  datatype Party = Thread(i: nat) | Master
  datatype Holder = Free | ByThread | ByMaster

  /** Where a thread stands; the kind is that of the request it is sending. */
  datatype ThreadPc =
    | Idle
    | WantR(k: Kind)      // about to lock rmtx
    | GotR(k: Kind)       // holds rmtx
    | GotC(k: Kind)       // holds rmtx and its own cmtx
    | Sending(k: Kind)    // the request is written; about to arrive at REQB
    | AtReqB(k: Kind)
    | Acking(k: Kind)     // past REQB, about to arrive at ACKB
    | AtAckB(k: Kind)
    | Unlocking(k: Kind)  // past ACKB, about to unlock rmtx
    | Parting(k: Kind)    // about to wait, or to unlock cmtx, or to exit
    | Waiting             // inside pthread_cond_wait
    | Woken               // signalled, about to relock cmtx
    | Leaving             // about to unlock cmtx
    | Gone

  datatype MasterPc =
    | ToReqB              // about to arrive at REQB
    | InReqB
    | Reading             // past REQB, about to read and register the request
    | ToAckB(i: nat)
    | InAckB(i: nat)
    | Serving             // in the sweep
    | Locking(i: nat)     // about to lock cmtx[i], to signal its grant
    | Signalling(i: nat)
    | Releasing(i: nat)   // about to unlock cmtx[i]
    | Done

  datatype State = State(
    pc: seq<ThreadPc>,
    mpc: MasterPc,
    rmtx: Option<nat>,
    cmtx: seq<Holder>,
    reqb: Option<Party>,         // who is blocked in REQB
    ackb: seq<Option<Party>>,    // who is blocked in ACKB[i]
    reqfrom: nat, reqkind: Kind, // the shared request
    queue: set<nat>,             // threads with a pending request
    live: set<nat>)              // threads the master has not seen quit

  predicate Sized(s: State) {
    |s.pc| == |s.cmtx| == |s.ackb|
  }

  function Start(n: nat): State {
    State(seq(n, _ => Idle), ToReqB, None, seq(n, _ => Free), None, seq(n, _ => None), 0, Quit, {}, set i: nat | i in Ids(n))
  }

  function Ids(n: nat): set<nat> {
    if n == 0 then {} else Ids(n - 1) + {n - 1}
  }

  // ----- the steps; None when the step is blocked

  /** The master's part of passing REQB, and a thread's. */
  function PassReqB(s: State, p: Party): State
    requires Sized(s)
  {
    match p
    case Master => s.(mpc := Reading)
    case Thread(i) => if i < |s.pc| && s.pc[i].AtReqB? then s.(pc := s.pc[i := Acking(s.pc[i].k)]) else s
  }

  /** Leaving ACKB[i]: a thread unlocks next; the master serves, or stops after the last quit. */
  function PassAckB(s: State, p: Party): State
    requires Sized(s)
  {
    match p
    case Master => s.(mpc := if s.live == {} then Done else Serving)
    case Thread(i) => if i < |s.pc| && s.pc[i].AtAckB? then s.(pc := s.pc[i := Unlocking(s.pc[i].k)]) else s
  }

  /** What thread i does next; k is the kind of request it picks when idle. */
  function ThreadStep(s: State, i: nat, k: Kind): Option<State>
    requires Sized(s) && i < |s.pc|
  {
    match s.pc[i]
    case Idle => Some(s.(pc := s.pc[i := WantR(k)]))
    case WantR(k) =>
      if s.rmtx == None then Some(s.(rmtx := Some(i), pc := s.pc[i := GotR(k)])) else None
    case GotR(Quit) =>
      Some(s.(reqfrom := i, reqkind := Quit, pc := s.pc[i := Sending(Quit)]))
    case GotR(k) =>
      if s.cmtx[i] == Free then Some(s.(cmtx := s.cmtx[i := ByThread], pc := s.pc[i := GotC(k)])) else None
    case GotC(k) =>
      Some(s.(reqfrom := i, reqkind := k, pc := s.pc[i := Sending(k)]))
    case Sending(k) =>
      if s.reqb == None then Some(s.(reqb := Some(Thread(i)), pc := s.pc[i := AtReqB(k)]))
      else Some(PassReqB(s.(reqb := None, pc := s.pc[i := Acking(k)]), s.reqb.value))
    case AtReqB(_) => None
    case Acking(k) =>
      if s.ackb[i] == None then Some(s.(ackb := s.ackb[i := Some(Thread(i))], pc := s.pc[i := AtAckB(k)]))
      else Some(PassAckB(s.(ackb := s.ackb[i := None], pc := s.pc[i := Unlocking(k)]), s.ackb[i].value))
    case AtAckB(_) => None
    case Unlocking(k) => Some(s.(rmtx := None, pc := s.pc[i := Parting(k)]))
    case Parting(Quit) => Some(s.(pc := s.pc[i := Gone]))
    case Parting(Release) => Some(s.(cmtx := s.cmtx[i := Free], pc := s.pc[i := Idle]))
    case Parting(Additional) => Some(s.(cmtx := s.cmtx[i := Free], pc := s.pc[i := Waiting]))
    case Waiting => None
    case Woken =>
      if s.cmtx[i] == Free then Some(s.(cmtx := s.cmtx[i := ByThread], pc := s.pc[i := Leaving])) else None
    case Leaving => Some(s.(cmtx := s.cmtx[i := Free], pc := s.pc[i := Idle]))
    case Gone => None
  }

  /** What the master does next; `pick` is the pending request it grants, if it grants one. */
  function MasterStep(s: State, pick: Option<nat>): Option<State>
    requires Sized(s)
  {
    match s.mpc
    case ToReqB =>
      if s.reqb == None then Some(s.(reqb := Some(Master), mpc := InReqB))
      else Some(PassReqB(s.(reqb := None, mpc := Reading), s.reqb.value))
    case InReqB => None
    case Reading =>
      var i := s.reqfrom;
      Some(s.(mpc := ToAckB(i),
              queue := if s.reqkind == Additional then s.queue + {i} else s.queue,
              live := if s.reqkind == Quit then s.live - {i} else s.live))
    case ToAckB(i) =>
      if i >= |s.ackb| then None
      else if s.ackb[i] == None then Some(s.(ackb := s.ackb[i := Some(Master)], mpc := InAckB(i)))
      else Some(PassAckB(PassAckB(s.(ackb := s.ackb[i := None]), Master), s.ackb[i].value))
    case InAckB(_) => None
    case Serving =>
      if pick == None then Some(s.(mpc := ToReqB))
      else if pick.value in s.queue then Some(s.(queue := s.queue - {pick.value}, mpc := Locking(pick.value)))
      else None
    case Locking(i) =>
      if i < |s.cmtx| && s.cmtx[i] == Free then Some(s.(cmtx := s.cmtx[i := ByMaster], mpc := Signalling(i))) else None
    case Signalling(i) =>
      // the signal wakes the thread if it waits, and is lost otherwise
      if i < |s.pc| && s.pc[i] == Waiting then Some(s.(pc := s.pc[i := Woken], mpc := Releasing(i)))
      else Some(s.(mpc := Releasing(i)))
    case Releasing(i) =>
      if i < |s.cmtx| then Some(s.(cmtx := s.cmtx[i := Free], mpc := Serving)) else None
    case Done => None
  }

  ghost predicate Next(s: State, t: State)
    requires Sized(s)
  {
    || (exists i: nat, k: Kind | i < |s.pc| :: ThreadStep(s, i, k) == Some(t))
    || (exists pick: Option<nat> :: MasterStep(s, pick) == Some(t))
  }

  // ----- the invariant

  predicate HoldsR(p: ThreadPc) {
    p.GotR? || p.GotC? || p.Sending? || p.AtReqB? || p.Acking? || p.AtAckB? || p.Unlocking?
  }

  predicate HoldsC(p: ThreadPc) {
    || p.Leaving?
    || p.GotC?
    || ((p.Sending? || p.AtReqB? || p.Acking? || p.AtAckB? || p.Unlocking? || p.Parting?) && p.k != Quit)
  }

  /** The request is written and not yet acknowledged. */
  predicate Presenting(p: ThreadPc) {
    p.Sending? || p.AtReqB? || p.Acking? || p.AtAckB?
  }

  /** Between REQB and ACKB. */
  predicate InHand(p: ThreadPc) {
    p.Acking? || p.AtAckB?
  }

  /** Past ACKB with an additional request that is not granted yet. */
  predicate Owed(p: ThreadPc) {
    p == Unlocking(Additional) || p == Parting(Additional) || p == Waiting
  }

  /** The master is busy with thread i's request. */
  predicate Handling(s: State, i: nat) {
    (s.mpc == Reading && s.reqfrom == i) || s.mpc == ToAckB(i) || s.mpc == InAckB(i)
  }

  predicate Granting(s: State, i: nat) {
    s.mpc == Locking(i) || s.mpc == Signalling(i)
  }

  predicate Local(s: State, i: nat)
    requires Sized(s) && i < |s.pc|
  {
    var p := s.pc[i];
    && (HoldsR(p) <==> s.rmtx == Some(i))
    && (HoldsC(p) <==> s.cmtx[i] == ByThread)
    && ((s.mpc == Signalling(i) || s.mpc == Releasing(i)) <==> s.cmtx[i] == ByMaster)
    && (p.AtReqB? <==> s.reqb == Some(Thread(i)))
    && (p.AtAckB? <==> s.ackb[i] == Some(Thread(i)))
    && (s.mpc == InAckB(i) <==> s.ackb[i] == Some(Master))
    && (s.ackb[i].Some? && s.ackb[i].value.Thread? ==> s.ackb[i].value.i == i)
    && (p.GotC? ==> p.k != Quit)
    && (Presenting(p) ==> s.reqfrom == i && s.reqkind == p.k)
    && (InHand(p) <==> Handling(s, i))
    && (i in s.queue ==> Owed(p) || (InHand(p) && p.k == Additional))
    && (InHand(p) && p.k == Additional && s.mpc != Reading ==> i in s.queue)
    && (s.mpc == Reading && s.reqfrom == i ==> i !in s.queue)
    && (Owed(p) ==> i in s.queue || Granting(s, i))
    && (Granting(s, i) ==> Owed(p) && i !in s.queue)
    && (s.mpc == Signalling(i) ==> p == Waiting)
    && (i !in s.live <==> p == Gone || p == Parting(Quit) || p == Unlocking(Quit)
                          || (InHand(p) && p.k == Quit && s.mpc != Reading))
  }

  predicate Global(s: State) {
    && (s.mpc == InReqB <==> s.reqb == Some(Master))
    && (s.reqb.Some? && s.reqb.value.Thread? ==> s.reqb.value.i < |s.pc|)
    && (s.rmtx.Some? ==> s.rmtx.value < |s.pc|)
    && (s.mpc == Reading ==> s.reqfrom < |s.pc|)
    && (s.mpc.ToAckB? || s.mpc.InAckB? || s.mpc.Locking? || s.mpc.Signalling? || s.mpc.Releasing? ==> s.mpc.i < |s.pc|)
    && (forall i | i in s.queue :: i < |s.pc|)
    && (forall i | i in s.live :: i < |s.pc|)
    && (s.mpc == Done ==> s.live == {})
    && (s.live == {} ==> s.mpc == Done || s.mpc.ToAckB? || s.mpc.InAckB? || |s.pc| == 0)
  }

  predicate Inv(s: State) {
    Sized(s) && Global(s) && forall i: nat | i < |s.pc| :: Local(s, i)
  }

  lemma {:induction false} IdsAre(n: nat)
    ensures forall i: nat :: i in Ids(n) <==> i < n
  {
    if n > 0 {
      IdsAre(n - 1);
    }
  }

  lemma StartInv(n: nat)
    ensures Inv(Start(n))
  {
    IdsAre(n);
    if n > 0 {
      assert 0 in Start(n).live;
    }
  }

  /** The party blocked in REQB is the master or the holder of rmtx. */
  lemma WhoIsInReqB(s: State)
    requires Inv(s) && s.reqb.Some? && s.reqb.value.Thread?
    ensures var j := s.reqb.value.i;
            j < |s.pc| && s.pc[j].AtReqB? && s.rmtx == Some(j) && s.reqfrom == j && s.reqkind == s.pc[j].k
  {
    assert Local(s, s.reqb.value.i);
  }

  lemma SendingGlobal(s: State, i: nat, k: Kind)
    requires Inv(s) && i < |s.pc| && ThreadStep(s, i, k).Some?
    requires s.pc[i].Idle? || s.pc[i].WantR? || s.pc[i].GotR? || s.pc[i].GotC? || s.pc[i].Sending?
    ensures var t := ThreadStep(s, i, k).value; Sized(t) && |t.pc| == |s.pc| && Global(t)
  {
    assert Local(s, i);
    if s.reqb.Some? && s.reqb.value.Thread? {
      WhoIsInReqB(s);
    }
  }

  lemma LeavingGlobal(s: State, i: nat, k: Kind)
    requires Inv(s) && i < |s.pc| && ThreadStep(s, i, k).Some?
    requires !(s.pc[i].Idle? || s.pc[i].WantR? || s.pc[i].GotR? || s.pc[i].GotC? || s.pc[i].Sending?)
    ensures var t := ThreadStep(s, i, k).value; Sized(t) && |t.pc| == |s.pc| && Global(t)
  {
    assert Local(s, i);
    if s.reqb.Some? && s.reqb.value.Thread? {
      WhoIsInReqB(s);
    }
  }

  lemma ThreadStepGlobal(s: State, i: nat, k: Kind)
    requires Inv(s) && i < |s.pc| && ThreadStep(s, i, k).Some?
    ensures var t := ThreadStep(s, i, k).value; Sized(t) && |t.pc| == |s.pc| && Global(t)
  {
    if s.pc[i].Idle? || s.pc[i].WantR? || s.pc[i].GotR? || s.pc[i].GotC? || s.pc[i].Sending? {
      SendingGlobal(s, i, k);
    } else {
      LeavingGlobal(s, i, k);
    }
  }

  /** The facts a step of thread i needs to keep thread j's part of the invariant. */
  predicate Around(s: State, i: nat, j: nat) {
    && Sized(s) && Global(s) && i < |s.pc| && j < |s.pc| && Local(s, i) && Local(s, j)
    && (s.reqb.Some? && s.reqb.value.Thread? ==>
          var h := s.reqb.value.i; s.pc[h].AtReqB? && s.rmtx == Some(h) && s.reqfrom == h && s.reqkind == s.pc[h].k)
    && (s.mpc == Reading ==> InHand(s.pc[s.reqfrom]) && s.rmtx == Some(s.reqfrom))
  }

  lemma SeenAround(s: State, i: nat, j: nat)
    requires Inv(s) && i < |s.pc| && j < |s.pc|
    ensures Around(s, i, j)
  {
    if s.reqb.Some? && s.reqb.value.Thread? {
      WhoIsInReqB(s);
    }
    if s.mpc == Reading {
      assert Local(s, s.reqfrom);
    }
  }

  lemma ThreadTakes(s: State, i: nat, k: Kind, j: nat)
    requires Around(s, i, j) && (s.pc[i].Idle? || s.pc[i].WantR?) && ThreadStep(s, i, k).Some?
    ensures var t := ThreadStep(s, i, k).value; Sized(t) && |t.pc| == |s.pc| && Local(t, j)
  {
  }

  lemma ThreadWrites(s: State, i: nat, k: Kind, j: nat)
    requires Around(s, i, j) && (s.pc[i].GotR? || s.pc[i].GotC?) && ThreadStep(s, i, k).Some?
    ensures var t := ThreadStep(s, i, k).value; Sized(t) && |t.pc| == |s.pc| && Local(t, j)
  {
    assert s.mpc != Reading;
  }

  lemma ThreadSendsFirst(s: State, i: nat, k: Kind, j: nat)
    requires Around(s, i, j) && s.pc[i].Sending? && s.reqb == None
    ensures var t := ThreadStep(s, i, k).value; Sized(t) && |t.pc| == |s.pc| && Local(t, j)
  {
  }

  lemma ThreadSendsSecond(s: State, i: nat, k: Kind, j: nat)
    requires Around(s, i, j) && s.pc[i].Sending? && s.reqb == Some(Master)
    ensures var t := ThreadStep(s, i, k).value; Sized(t) && |t.pc| == |s.pc| && Local(t, j)
  {
    var t := ThreadStep(s, i, k).value;
    assert t.mpc == Reading && t.reqfrom == i;
  }

  lemma ThreadAcks(s: State, i: nat, k: Kind, j: nat)
    requires Around(s, i, j) && (s.pc[i].Acking?) && ThreadStep(s, i, k).Some?
    ensures var t := ThreadStep(s, i, k).value; Sized(t) && |t.pc| == |s.pc| && Local(t, j)
  {
  }

  lemma ThreadUnlocks(s: State, i: nat, k: Kind, j: nat)
    requires Around(s, i, j) && s.pc[i].Unlocking?
    ensures var t := ThreadStep(s, i, k).value; Sized(t) && |t.pc| == |s.pc| && Local(t, j)
  {
  }

  lemma ThreadParts(s: State, i: nat, k: Kind, j: nat)
    requires Around(s, i, j) && s.pc[i].Parting?
    ensures var t := ThreadStep(s, i, k).value; Sized(t) && |t.pc| == |s.pc| && Local(t, j)
  {
  }

  lemma ThreadLeaves(s: State, i: nat, k: Kind, j: nat)
    requires Around(s, i, j) && (s.pc[i].Woken? || s.pc[i].Leaving?) && ThreadStep(s, i, k).Some?
    ensures var t := ThreadStep(s, i, k).value; Sized(t) && |t.pc| == |s.pc| && Local(t, j)
  {
  }

  lemma ThreadStepInv(s: State, i: nat, k: Kind)
    requires Inv(s) && i < |s.pc| && ThreadStep(s, i, k).Some?
    ensures Inv(ThreadStep(s, i, k).value)
  {
    var t := ThreadStep(s, i, k).value;
    ThreadStepGlobal(s, i, k);
    forall j: nat | j < |s.pc|
      ensures Local(t, j)
    {
      SeenAround(s, i, j);
      match s.pc[i]
      case Idle | WantR(_) => ThreadTakes(s, i, k, j);
      case GotR(_) | GotC(_) => ThreadWrites(s, i, k, j);
      case Sending(_) =>
        assert s.reqb.Some? ==> s.reqb.value == Master;
        if s.reqb == None { ThreadSendsFirst(s, i, k, j); } else { ThreadSendsSecond(s, i, k, j); }
      case Acking(_) => ThreadAcks(s, i, k, j);
      case Unlocking(_) => ThreadUnlocks(s, i, k, j);
      case Parting(_) => ThreadParts(s, i, k, j);
      case _ => ThreadLeaves(s, i, k, j);
    }
  }

  lemma MasterStepGlobal(s: State, pick: Option<nat>)
    requires Inv(s) && MasterStep(s, pick).Some?
    ensures var t := MasterStep(s, pick).value; Sized(t) && |t.pc| == |s.pc| && Global(t)
  {
    if s.reqb.Some? && s.reqb.value.Thread? {
      WhoIsInReqB(s);
    }
  }

  lemma MasterMeets(s: State, pick: Option<nat>, j: nat)
    requires Around(s, j, j) && (s.mpc == ToReqB || s.mpc == Reading) && MasterStep(s, pick).Some?
    ensures var t := MasterStep(s, pick).value; Sized(t) && |t.pc| == |s.pc| && Local(t, j)
  {
  }

  lemma MasterAcksFirst(s: State, pick: Option<nat>, j: nat)
    requires Around(s, j, j) && s.mpc.ToAckB? && s.ackb[s.mpc.i] == None
    ensures var t := MasterStep(s, pick).value; Sized(t) && |t.pc| == |s.pc| && Local(t, j)
  {
  }

  lemma MasterAcksSecond(s: State, pick: Option<nat>, j: nat)
    requires s.mpc.ToAckB? && Around(s, s.mpc.i, j) && s.ackb[s.mpc.i].Some?
    ensures var t := MasterStep(s, pick).value; Sized(t) && |t.pc| == |s.pc| && Local(t, j)
  {
    var i := s.mpc.i;
    assert s.ackb[i] != Some(Master);
    assert s.ackb[i].value == Thread(i);
    assert s.pc[i].AtAckB?;
  }

  lemma MasterGrants(s: State, pick: Option<nat>, j: nat)
    requires Around(s, j, j) && (s.mpc == Serving || s.mpc.Locking? || s.mpc.Signalling? || s.mpc.Releasing?) && MasterStep(s, pick).Some?
    ensures var t := MasterStep(s, pick).value; Sized(t) && |t.pc| == |s.pc| && Local(t, j)
  {
  }

  lemma MasterStepInv(s: State, pick: Option<nat>)
    requires Inv(s) && MasterStep(s, pick).Some?
    ensures Inv(MasterStep(s, pick).value)
  {
    var t := MasterStep(s, pick).value;
    MasterStepGlobal(s, pick);
    forall j: nat | j < |s.pc|
      ensures Local(t, j)
    {
      SeenAround(s, j, j);
      match s.mpc
      case ToReqB | Reading => MasterMeets(s, pick, j);
      case ToAckB(i) =>
        SeenAround(s, i, j);
        if s.ackb[i] == None { MasterAcksFirst(s, pick, j); } else { MasterAcksSecond(s, pick, j); }
      case _ => MasterGrants(s, pick, j);
    }
  }

  // ----- what every interleaving has

  lemma NextInv(s: State, t: State)
    requires Inv(s) && Next(s, t)
    ensures Inv(t) && |t.pc| == |s.pc|
  {
    if i: nat, k: Kind :| i < |s.pc| && ThreadStep(s, i, k) == Some(t) {
      ThreadStepInv(s, i, k);
      ThreadStepGlobal(s, i, k);
    } else {
      var pick: Option<nat> :| MasterStep(s, pick) == Some(t);
      MasterStepInv(s, pick);
      MasterStepGlobal(s, pick);
    }
  }

  /** A run of n threads and the master, in any interleaving. */
  ghost predicate Interleaving(n: nat, run: seq<State>) {
    && run != [] && run[0] == Start(n)
    && (forall k | 0 <= k < |run| :: Sized(run[k]) && |run[k].pc| == n)
    && (forall k | 0 <= k < |run| - 1 :: Next(run[k], run[k + 1]))
  }

  lemma {:induction false} InterleavingInv(n: nat, run: seq<State>, k: nat)
    requires Interleaving(n, run) && k < |run|
    ensures Inv(run[k])
  {
    if k == 0 {
      StartInv(n);
    } else {
      InterleavingInv(n, run, k - 1);
      NextInv(run[k - 1], run[k]);
    }
  }

  /** The shared request changes hands properly: it is written only by the holder of rmtx before
      REQB, while the master is not reading, and it stays as written until it is acknowledged. */
  lemma RequestHasOneOwner(n: nat, run: seq<State>, k: nat)
    requires Interleaving(n, run) && k + 1 < |run|
    ensures var s, t := run[k], run[k + 1];
            s.reqfrom != t.reqfrom || s.reqkind != t.reqkind ==> Unclaimed(s) && s.rmtx == Some(t.reqfrom)
    ensures run[k].mpc == Reading ==> Claimed(run[k])
  {
    InterleavingInv(n, run, k);
    var s, t := run[k], run[k + 1];
    if s.reqfrom != t.reqfrom || s.reqkind != t.reqkind {
      WriterOwns(s, t);
    }
    ReaderFindsClaimed(run[k]);
  }

  lemma WriterOwns(s: State, t: State)
    requires Inv(s) && Next(s, t) && (s.reqfrom != t.reqfrom || s.reqkind != t.reqkind)
    ensures Unclaimed(s) && s.rmtx == Some(t.reqfrom)
  {
    var i: nat, kind: Kind :| i < |s.pc| && ThreadStep(s, i, kind) == Some(t);
    assert Local(s, i) && HoldsR(s.pc[i]) && t.reqfrom == i;
    ReaderFindsClaimed(s);
    forall j: nat | j < |s.pc|
      ensures !Presenting(s.pc[j])
    {
      assert Local(s, j);
    }
  }

  lemma ReaderFindsClaimed(s: State)
    requires Inv(s)
    ensures s.mpc == Reading ==> Claimed(s)
  {
    if s.mpc == Reading {
      assert Local(s, s.reqfrom);
    }
  }

  /** Nobody relies on the shared request: no thread has written one the master is yet to acknowledge. */
  predicate Unclaimed(s: State) {
    s.mpc != Reading && forall i | 0 <= i < |s.pc| :: !Presenting(s.pc[i])
  }

  /** The shared request is what the holder of rmtx wrote, and the holder waits for its acknowledgement. */
  predicate Claimed(s: State) {
    && s.reqfrom < |s.pc| && s.rmtx == Some(s.reqfrom)
    && InHand(s.pc[s.reqfrom]) && s.reqkind == s.pc[s.reqfrom].k
  }

  /** No grant signal is lost: when the master signals a thread, the thread is waiting. */
  lemma NoSignalIsLost(n: nat, run: seq<State>, k: nat)
    requires Interleaving(n, run) && k < |run| && run[k].mpc.Signalling?
    ensures var s := run[k]; var i := s.mpc.i;
            i < n && s.pc[i] == Waiting && MasterStep(s, None) == Some(s.(pc := s.pc[i := Woken], mpc := Releasing(i)))
  {
    InterleavingInv(n, run, k);
    assert Local(run[k], run[k].mpc.i);
  }

  /** Nobody is forgotten, nobody is granted what it did not ask: a thread that waits for a grant is
      pending or being granted, never both, and only such threads are. */
  lemma WaitersAreRemembered(n: nat, run: seq<State>, k: nat, i: nat)
    requires Interleaving(n, run) && k < |run| && i < n
    ensures var s := run[k];
            && (s.pc[i] == Waiting ==> (i in s.queue) != Granting(s, i))
            && (Granting(s, i) ==> Owed(s.pc[i]))
            && (i in s.queue ==> Owed(s.pc[i]) || (InHand(s.pc[i]) && s.pc[i].k == Additional))
  {
    InterleavingInv(n, run, k);
    assert Local(run[k], i);
  }

  /** How far thread i still is from letting go of its cmtx. */
  function ToGo(s: State, i: nat): nat
    requires i < |s.pc|
  {
    match s.pc[i]
    case Unlocking(_) => 2
    case Parting(_) => 1
    case _ => 0
  }

  /** The master is never blocked for good on cmtx[i]: either it can lock it now, or thread i can move
      whatever the others do, and each of its (at most two) moves brings it nearer to releasing it. */
  lemma MasterGetsThrough(n: nat, run: seq<State>, k: nat)
    requires Interleaving(n, run) && k < |run| && run[k].mpc.Locking?
    ensures var s := run[k]; var i := s.mpc.i;
            && i < n
            && (ToGo(s, i) == 0 ==> MasterStep(s, None).Some?)
            && (ToGo(s, i) > 0 ==> forall kind: Kind :: ThreadStep(s, i, kind).Some?)
            && (k + 1 < |run| ==>
                  ToGo(run[k + 1], i) <= ToGo(s, i)
                  && (ToGo(s, i) > 0 ==> run[k + 1].mpc == s.mpc)
                  && ((exists kind: Kind :: ThreadStep(s, i, kind) == Some(run[k + 1])) ==> ToGo(run[k + 1], i) < ToGo(s, i)))
  {
    InterleavingInv(n, run, k);
    var s := run[k];
    var i := s.mpc.i;
    assert Local(s, i);
    if k + 1 < |run| {
      OthersLeaveAlone(s, run[k + 1], i);
    }
  }

  lemma OthersLeaveAlone(s: State, t: State, i: nat)
    requires Inv(s) && Next(s, t) && s.mpc == Locking(i) && i < |s.pc|
    ensures i < |t.pc| && ToGo(t, i) <= ToGo(s, i)
    ensures ToGo(s, i) > 0 ==> t.mpc == s.mpc
    ensures (exists kind: Kind :: ThreadStep(s, i, kind) == Some(t)) ==> ToGo(t, i) < ToGo(s, i)
  {
    assert Local(s, i);
    if h: nat, kind: Kind :| h < |s.pc| && ThreadStep(s, h, kind) == Some(t) {
      assert Local(s, h);
      OtherLeavesAlone(s, h, kind, i);
    }
    if kind: Kind :| ThreadStep(s, i, kind) == Some(t) {
      OtherLeavesAlone(s, i, kind, i);
    }
  }

  lemma OtherLeavesAlone(s: State, h: nat, kind: Kind, i: nat)
    requires Inv(s) && s.mpc == Locking(i) && i < |s.pc| && h < |s.pc| && ThreadStep(s, h, kind).Some?
    ensures var t := ThreadStep(s, h, kind).value;
            t.mpc == s.mpc && |t.pc| == |s.pc| && (if h == i then ToGo(t, i) < ToGo(s, i) else t.pc[i] == s.pc[i])
  {
    SeenAround(s, h, i);
  }

  // ----- nothing gets stuck

  /** Somebody can move who is not idle: that is, without sending another message. */
  ghost predicate Busy(s: State)
    requires Sized(s)
  {
    || (exists i: nat | i < |s.pc| && s.pc[i] != Idle :: ThreadStep(s, i, Quit).Some?)
    || MasterStep(s, None).Some?
  }

  ghost predicate CanMove(s: State)
    requires Sized(s)
  {
    || (exists i: nat | i < |s.pc| :: ThreadStep(s, i, Quit).Some?)
    || MasterStep(s, None).Some?
  }

  lemma IdleCanMove(s: State, i: nat)
    requires Sized(s) && i < |s.pc| && s.pc[i] == Idle
    ensures CanMove(s)
  {
    assert ThreadStep(s, i, Quit).Some?;
  }

  /** The master is only ever held up by a thread that can move, except when it waits for a message or is done. */
  lemma MasterBlocked(s: State)
    requires Inv(s)
    ensures Busy(s) || s.mpc == Done || s.mpc == InReqB
  {
    if s.mpc.InAckB? || s.mpc.Locking? {
      assert Local(s, s.mpc.i);
      assert (s.pc[s.mpc.i] != Idle && ThreadStep(s, s.mpc.i, Quit).Some?) || MasterStep(s, None).Some?;
    }
  }

  /** With the master in REQB or done, whoever holds rmtx can move. */
  lemma NobodyHoldsRmtx(s: State)
    requires Inv(s)
    ensures Busy(s) || s.rmtx == None
  {
    MasterBlocked(s);
    if s.rmtx.Some? {
      var j := s.rmtx.value;
      assert Local(s, j);
      assert (s.pc[j] != Idle && ThreadStep(s, j, Quit).Some?) || Busy(s);
    }
  }

  lemma ThreadBlocked(s: State, i: nat)
    requires Inv(s) && i < |s.pc| && !Busy(s)
    ensures s.pc[i] == Idle || s.pc[i] == Gone || (s.pc[i] == Waiting && i in s.queue && i in s.live)
  {
    MasterBlocked(s);
    NobodyHoldsRmtx(s);
    assert Local(s, i);
    assert s.pc[i] != Idle ==> ThreadStep(s, i, Quit) == None;
  }

  /** When no step is possible, either all threads are gone and the master is done, or the master waits for
      a message and every thread left waits for a grant. */
  lemma StoppedState(s: State)
    requires Inv(s) && !CanMove(s)
    ensures forall i: nat | i < |s.pc| :: s.pc[i] == Gone || (s.pc[i] == Waiting && i in s.queue && i in s.live)
    ensures s.mpc == Done || s.mpc == InReqB
    ensures s.mpc == Done ==> forall i: nat | i < |s.pc| :: s.pc[i] == Gone
    ensures s.mpc == InReqB ==> |s.pc| == 0 || exists i: nat :: i < |s.pc| && s.pc[i] == Waiting && i in s.queue
  {
    MasterBlocked(s);
    forall i: nat | i < |s.pc|
      ensures s.pc[i] == Gone || (s.pc[i] == Waiting && i in s.queue && i in s.live)
    {
      ThreadBlocked(s, i);
      if s.pc[i] == Idle {
        IdleCanMove(s, i);
      }
    }
    if s.mpc == InReqB && |s.pc| > 0 {
      var i :| i in s.live;
      assert Local(s, i);
    }
  }

  /** The handshake itself never gets stuck: that is all that can stop a run. */
  lemma OnlyWaitingStops(n: nat, run: seq<State>, k: nat)
    requires Interleaving(n, run) && k < |run| && !CanMove(run[k])
    ensures var s := run[k];
            && (forall i: nat | i < n :: s.pc[i] == Waiting || s.pc[i] == Gone)
            && (s.mpc == Done || s.mpc == InReqB)
            && (s.mpc == Done ==> forall i: nat | i < n :: s.pc[i] == Gone)
            && (s.mpc == InReqB ==> n == 0 || exists i: nat :: i < n && s.pc[i] == Waiting && i in s.queue)
  {
    InterleavingInv(n, run, k);
    StoppedState(run[k]);
  }
}
