/** The whole program: threads on their scripts, the handshake by which they hand over their requests, and
    the master with its tables and its pass over the pending requests, step by step in any interleaving. */
module BankerProgram {
  import opened Vectors
  import opened BankerSpec
  import opened BankerSweep
  import opened BankerRuns
  import opened BankerScripts
  import opened Options
  import H = Handshake

  /** The handshake, the tables, the requests refused so far and still to be seen in the master's pass, the
      lines each thread has not read, and the shared request vector. */
  datatype Program = Program(h: H.State, sys: Sys, kept: seq<Request>, rest: seq<Request>, left: seq<seq<Vec>>, REQ: Vec)

  function KindOf(line: Vec): H.Kind {
    if Additional(line) then H.Additional else H.Release
  }

  /** What a thread sends next. */
  function NextKind(lines: seq<Vec>): H.Kind {
    if lines == [] then H.Quit else KindOf(lines[0])
  }

  predicate Sized(c: Program) {
    && H.Sized(c.h) && |c.h.pc| == |c.left| == |c.sys.alloc|
    && AllFit(c.sys, c.rest) && AllFit(c.sys, c.kept)
  }

  // ----- steps; None when blocked

  /** Thread i; the shared vector is written, line by line of the script, by the holder of rmtx. */
  function ThreadMoves(c: Program, i: nat): Option<Program>
    requires Sized(c) && i < |c.h.pc|
  {
    match H.ThreadStep(c.h, i, NextKind(c.left[i]))
    case None => None
    case Some(h) =>
      if c.h.pc[i].GotC? && c.left[i] != [] then Some(c.(h := h, REQ := c.left[i][0], left := c.left[i := c.left[i][1..]]))
      else Some(c.(h := h))
  }

  /** The master has read the request in the shared vector, and goes to the acknowledgement. */
  function Registered(c: Program, h: H.State): Option<Program>
    requires Sized(c)
  {
    var i := c.h.reqfrom;
    if i >= |c.sys.alloc| then None
    else if c.h.reqkind == H.Quit then Some(c.(h := h, sys := Quit(c.sys, i), kept := [], rest := c.kept))
    else if |c.REQ| != |c.sys.avail| then None
    else
      var t := Register(State(c.sys, c.kept), i, c.REQ);
      Some(c.(h := h, sys := t.sys, kept := [], rest := t.queue))
  }

  ghost function MasterMoves(avoid: bool, c: Program): Option<Program>
    requires Sized(c)
  {
    if c.h.mpc == H.Serving && c.rest != [] then
      if CanServe(avoid, c.sys, c.rest[0]) then
        match H.MasterStep(c.h, Some(c.rest[0].from))
        case None => None
        case Some(h) => Some(c.(h := h, sys := Grant(c.sys, c.rest[0]), rest := c.rest[1..]))
      else Some(c.(kept := c.kept + [c.rest[0]], rest := c.rest[1..]))
    else
      match H.MasterStep(c.h, None)
      case None => None
      case Some(h) => if c.h.mpc == H.Reading then Registered(c, h) else Some(c.(h := h))
  }

  ghost predicate Next(avoid: bool, c: Program, d: Program) {
    Sized(c) && ((exists i: nat | i < |c.h.pc| :: ThreadMoves(c, i) == Some(d)) || MasterMoves(avoid, c) == Some(d))
  }

  function Launch(lim: Limits, scripts: seq<seq<Vec>>): Program
    requires LimitsOk(lim)
  {
    Program(H.Start(|lim.max|), BankerRuns.Start(lim).sys, [], [], scripts, [])
  }

  // ----- what it comes to between messages

  /** Thread i has written a request that the master has not read yet. */
  predicate Unread(h: H.State, i: nat)
    requires i < |h.pc|
  {
    H.Presenting(h.pc[i]) && (H.InHand(h.pc[i]) ==> h.mpc == H.Reading)
  }

  /** The lines of thread i that the master has not read. */
  function Unsent(c: Program, i: nat): seq<Vec>
    requires i < |c.h.pc| == |c.left|
  {
    if Unread(c.h, i) && c.h.reqkind != H.Quit then [c.REQ] + c.left[i] else c.left[i]
  }

  /** The state of the banker when the pass under way will be over. */
  ghost function Settled(avoid: bool, c: Program): State
    requires Sized(c)
  {
    var w := Sweep(avoid, c.sys, c.rest);
    State(w.sys, c.kept + w.left)
  }

  ghost function Abstract(avoid: bool, c: Program): Running
    requires Sized(c)
  {
    Running(Settled(avoid, c), seq(|c.left|, i requires 0 <= i < |c.left| => Unsent(c, i)))
  }

  // ----- the invariant

  /** What thread i is about to send, or has sent, is what its script says. */
  predicate KindOk(c: Program, i: nat)
    requires i < |c.h.pc| == |c.left|
  {
    var p := c.h.pc[i];
    && (p.WantR? || p.GotR? || p.GotC? ==> p.k == NextKind(c.left[i]))
    && (Unread(c.h, i) ==> if p.k == H.Quit then c.left[i] == [] else p.k == KindOf(c.REQ))
  }

  /** The handshake's books agree with the tables. */
  ghost predicate Linked(c: Program, i: nat)
    requires Sized(c) && i < |c.h.pc|
  {
    && (i in c.h.queue <==> Waiting(State(c.sys, c.rest + c.kept), i))
    && (c.sys.exited[i] <==> i !in c.h.live)
  }

  predicate BetweenTurns(m: H.MasterPc) {
    m == H.ToReqB || m == H.InReqB || m == H.Reading
  }

  ghost predicate Orderly(avoid: bool, lim: Limits, c: Program) {
    && Sized(c) && H.Inv(c.h)
    && OnScript(avoid, lim, Abstract(avoid, c))
    && Sound(avoid, lim, State(c.sys, c.rest + c.kept))
    && (forall i: nat | i < |c.h.pc| :: KindOk(c, i))
    && (forall i: nat | i < |c.h.pc| :: Linked(c, i))
    && (BetweenTurns(c.h.mpc) ==> c.rest == [])
  }

  // ----- a thread's step

  /** A step of thread i writes a request, or changes nothing about what is unread. */
  predicate Writes(h: H.State, i: nat)
    requires i < |h.pc|
  {
    h.pc[i].GotC? || h.pc[i] == H.GotR(H.Quit)
  }

  lemma NotWriting(h: H.State, i: nat, k: H.Kind, j: nat)
    requires H.Around(h, i, j) && H.ThreadStep(h, i, k).Some? && !Writes(h, i)
    ensures var t := H.ThreadStep(h, i, k).value;
      && |t.pc| == |h.pc| && t.reqkind == h.reqkind && t.queue == h.queue && t.live == h.live
  {
  }

  lemma NoneWritten(h: H.State, i: nat, k: H.Kind, j: nat)
    requires H.Around(h, i, j) && H.ThreadStep(h, i, k).Some? && !Writes(h, i)
    ensures var t := H.ThreadStep(h, i, k).value;
      |t.pc| == |h.pc| && (Unread(t, j) <==> Unread(h, j)) && (Unread(t, j) ==> t.pc[j].k == h.pc[j].k)
  {
    var t := H.ThreadStep(h, i, k).value;
    if h.pc[i].Sending? && h.reqb.Some? {
      assert h.reqb == Some(H.Master);
    }
  }

  lemma Writing(h: H.State, i: nat, k: H.Kind, j: nat)
    requires H.Around(h, i, j) && H.ThreadStep(h, i, k).Some? && Writes(h, i)
    ensures var t := H.ThreadStep(h, i, k).value;
      && |t.pc| == |h.pc| && t.reqkind == h.pc[i].k && t.queue == h.queue && t.live == h.live && t.mpc == h.mpc
      && t.pc == h.pc[i := H.Sending(h.pc[i].k)] && !Unread(h, j) && (Unread(t, j) <==> j == i)
  {
  }

  /** What a thread's step leaves as it was. */
  predicate SameBank(c: Program, d: Program) {
    && d.sys == c.sys && d.rest == c.rest && d.kept == c.kept
    && |d.h.pc| == |c.h.pc| && |d.left| == |c.left| && d.h.queue == c.h.queue && d.h.live == c.h.live
    && (BetweenTurns(d.h.mpc) ==> BetweenTurns(c.h.mpc))
  }

  lemma ThreadQuietly(c: Program, i: nat, j: nat, d: Program)
    requires Sized(c) && H.Inv(c.h) && i < |c.h.pc| && j < |c.h.pc| && ThreadMoves(c, i) == Some(d)
    requires KindOk(c, i) && KindOk(c, j) && !Writes(c.h, i)
    ensures SameBank(c, d) && Unsent(d, j) == Unsent(c, j) && KindOk(d, j)
  {
    H.SeenAround(c.h, i, j);
    NotWriting(c.h, i, NextKind(c.left[i]), j);
    NoneWritten(c.h, i, NextKind(c.left[i]), j);
    OthersStay(c.h, i, NextKind(c.left[i]), j);
  }

  /** Which thread a step moves on to asking, and that no other is moved to it. */
  lemma OthersStay(h: H.State, i: nat, k: H.Kind, j: nat)
    requires H.Around(h, i, j) && H.ThreadStep(h, i, k).Some?
    ensures var t := H.ThreadStep(h, i, k).value;
      && |t.pc| == |h.pc|
      && (t.pc[j].WantR? || t.pc[j].GotR? || t.pc[j].GotC? ==>
            (j == i && h.pc[j].Idle? && t.pc[j].k == k)
            || ((h.pc[j].WantR? || h.pc[j].GotR? || h.pc[j].GotC?) && t.pc[j].k == h.pc[j].k))
      && (BetweenTurns(t.mpc) ==> BetweenTurns(h.mpc))
  {
    var t := H.ThreadStep(h, i, k).value;
    if h.pc[i].Sending? && h.reqb.Some? {
      assert h.reqb == Some(H.Master);
    }
  }

  lemma ThreadWritesLine(c: Program, i: nat, j: nat, d: Program)
    requires Sized(c) && H.Inv(c.h) && i < |c.h.pc| && j < |c.h.pc| && ThreadMoves(c, i) == Some(d)
    requires KindOk(c, i) && KindOk(c, j) && Writes(c.h, i)
    ensures SameBank(c, d) && Unsent(d, j) == Unsent(c, j) && KindOk(d, j)
  {
    H.SeenAround(c.h, i, j);
    Writing(c.h, i, NextKind(c.left[i]), j);
    assert c.left[i] != [] ==> [c.left[i][0]] + c.left[i][1..] == c.left[i];
  }

  lemma ThreadOne(c: Program, i: nat, j: nat, d: Program)
    requires Sized(c) && H.Inv(c.h) && i < |c.h.pc| && j < |c.h.pc| && ThreadMoves(c, i) == Some(d)
    requires KindOk(c, i) && KindOk(c, j)
    ensures SameBank(c, d) && Unsent(d, j) == Unsent(c, j) && KindOk(d, j)
  {
    if Writes(c.h, i) {
      ThreadWritesLine(c, i, j, d);
    } else {
      ThreadQuietly(c, i, j, d);
    }
  }

  lemma SameAbstract(avoid: bool, c: Program, d: Program)
    requires Sized(c) && Sized(d) && SameBank(c, d)
    requires forall j: nat | j < |c.h.pc| :: Unsent(d, j) == Unsent(c, j)
    ensures Abstract(avoid, d) == Abstract(avoid, c)
  {
  }

  lemma ThreadOrderly(avoid: bool, lim: Limits, c: Program, i: nat)
    requires Orderly(avoid, lim, c) && i < |c.h.pc| && ThreadMoves(c, i).Some?
    ensures Orderly(avoid, lim, ThreadMoves(c, i).value)
  {
    var d := ThreadMoves(c, i).value;
    H.ThreadStepInv(c.h, i, NextKind(c.left[i]));
    ThreadOne(c, i, i, d);
    forall j: nat | j < |c.h.pc|
      ensures Unsent(d, j) == Unsent(c, j) && KindOk(d, j) && Linked(d, j)
    {
      assert Linked(c, j);
      ThreadOne(c, i, j, d);
    }
    SameAbstract(avoid, c, d);
  }

  // ----- the master's steps

  lemma MasterQuietly(h: H.State, j: nat)
    requires H.Around(h, j, j) && h.mpc != H.Reading && H.MasterStep(h, None).Some?
    ensures var t := H.MasterStep(h, None).value;
      && |t.pc| == |h.pc| && t.reqkind == h.reqkind && t.queue == h.queue && t.live == h.live
      && (Unread(t, j) <==> Unread(h, j)) && (Unread(t, j) ==> t.pc[j].k == h.pc[j].k)
      && (t.pc[j].WantR? || t.pc[j].GotR? || t.pc[j].GotC? ==> t.pc[j] == h.pc[j])
      && (BetweenTurns(t.mpc) ==> BetweenTurns(h.mpc) || h.mpc == H.Serving)
  {
  }

  lemma QuietAbstract(avoid: bool, lim: Limits, c: Program)
    requires Orderly(avoid, lim, c) && c.h.mpc != H.Reading && (c.h.mpc == H.Serving ==> c.rest == []) && MasterMoves(avoid, c).Some?
    ensures Sized(MasterMoves(avoid, c).value) && Abstract(avoid, MasterMoves(avoid, c).value) == Abstract(avoid, c)
  {
    var d := MasterMoves(avoid, c).value;
    H.MasterStepGlobal(c.h, None);
    forall j: nat | j < |c.h.pc|
      ensures Unsent(d, j) == Unsent(c, j)
    {
      assert KindOk(c, j);
      H.SeenAround(c.h, j, j);
      MasterQuietly(c.h, j);
    }
    assert Settled(avoid, d) == Settled(avoid, c);
  }

  lemma MasterQuiet(avoid: bool, lim: Limits, c: Program)
    requires Orderly(avoid, lim, c) && c.h.mpc != H.Reading && (c.h.mpc == H.Serving ==> c.rest == []) && MasterMoves(avoid, c).Some?
    ensures Orderly(avoid, lim, MasterMoves(avoid, c).value)
  {
    var d := MasterMoves(avoid, c).value;
    H.MasterStepInv(c.h, None);
    H.MasterStepGlobal(c.h, None);
    forall j: nat | j < |c.h.pc|
      ensures Unsent(d, j) == Unsent(c, j) && KindOk(d, j) && Linked(d, j)
      ensures BetweenTurns(d.h.mpc) ==> BetweenTurns(c.h.mpc) || c.h.mpc == H.Serving
    {
      assert Linked(c, j) && KindOk(c, j);
      H.SeenAround(c.h, j, j);
      MasterQuietly(c.h, j);
    }
    QuietAbstract(avoid, lim, c);
  }

  /** Refusing the first request of the pass changes nothing but where it stands. */
  lemma RefuseSettled(avoid: bool, c: Program)
    requires Sized(c) && c.rest != [] && !CanServe(avoid, c.sys, c.rest[0])
    ensures var d := c.(kept := c.kept + [c.rest[0]], rest := c.rest[1..]);
      Sized(d) && Settled(avoid, d) == Settled(avoid, c)
  {
    var w := Sweep(avoid, c.sys, c.rest[1..]);
    assert c.kept + [c.rest[0]] + w.left == c.kept + ([c.rest[0]] + w.left);
  }

  /** The queue with its first request moved to the end. */
  lemma RotatePending(s: Sys, r: Request, q: seq<Request>)
    requires Pending(s, [r] + q)
    ensures Pending(s, q + [r])
  {
    var a, b := [r] + q, q + [r];
    assert a[0] == r && b[|q|] == r;
    assert forall k | 0 <= k < |q| :: a[k + 1] == q[k] && b[k] == q[k];
  }

  lemma RotateWaiting(s: Sys, r: Request, q: seq<Request>, i: nat)
    ensures Waiting(State(s, [r] + q), i) <==> Waiting(State(s, q + [r]), i)
  {
    AppendWaiting(s, [r], q, i);
    AppendWaiting(s, q, [r], i);
  }

  lemma AppendWaiting(s: Sys, p: seq<Request>, q: seq<Request>, i: nat)
    ensures Waiting(State(s, p + q), i) <==> Waiting(State(s, p), i) || Waiting(State(s, q), i)
  {
    var a := p + q;
    if k :| 0 <= k < |p| && p[k].from == i {
      assert a[k].from == i;
    }
    if k :| 0 <= k < |q| && q[k].from == i {
      assert a[|p| + k].from == i;
    }
    if k :| 0 <= k < |a| && a[k].from == i {
      assert if k < |p| then a[k] == p[k] else a[k] == q[k - |p|];
    }
  }

  /** A step in which no thread goes on, nothing is written, and the master does not begin to read. */
  lemma SameKinds(avoid: bool, c: Program, d: Program)
    requires Sized(c) && Sized(d) && d.h.pc == c.h.pc && d.left == c.left && d.REQ == c.REQ && d.h.reqkind == c.h.reqkind
    requires c.h.mpc != H.Reading && d.h.mpc != H.Reading && Settled(avoid, d) == Settled(avoid, c)
    requires forall j: nat | j < |c.h.pc| :: KindOk(c, j)
    ensures (forall j: nat | j < |c.h.pc| :: KindOk(d, j)) && Abstract(avoid, d) == Abstract(avoid, c)
  {
    forall j: nat | j < |c.h.pc|
      ensures KindOk(d, j) && Unsent(d, j) == Unsent(c, j)
    {
      assert KindOk(c, j);
    }
  }

  lemma RefuseInv(avoid: bool, lim: Limits, c: Program)
    requires Orderly(avoid, lim, c) && c.h.mpc == H.Serving && c.rest != [] && !CanServe(avoid, c.sys, c.rest[0])
    ensures MasterMoves(avoid, c).Some? && Orderly(avoid, lim, MasterMoves(avoid, c).value)
  {
    var d := MasterMoves(avoid, c).value;
    RefuseSettled(avoid, c);
    RefusePending(c);
    forall j: nat | j < |c.h.pc|
      ensures Linked(d, j)
    {
      assert Linked(c, j);
    }
    SameKinds(avoid, c, d);
  }

  lemma RefuseAbstract(avoid: bool, c: Program)
    requires Sized(c) && c.h.mpc == H.Serving && c.rest != [] && !CanServe(avoid, c.sys, c.rest[0])
    ensures MasterMoves(avoid, c).Some? && Sized(MasterMoves(avoid, c).value) && Abstract(avoid, MasterMoves(avoid, c).value) == Abstract(avoid, c)
  {
    RefuseSettled(avoid, c);
    var d := MasterMoves(avoid, c).value;
    assert forall j: nat | j < |c.left| :: Unsent(d, j) == Unsent(c, j);
  }

  lemma RefusePending(c: Program)
    requires Sized(c) && c.rest != [] && Pending(c.sys, c.rest + c.kept)
    ensures var q := c.rest[1..] + (c.kept + [c.rest[0]]);
      && Pending(c.sys, q)
      && (forall i: nat :: Waiting(State(c.sys, q), i) <==> Waiting(State(c.sys, c.rest + c.kept), i))
  {
    var r, q := c.rest[0], c.rest[1..] + c.kept;
    assert c.rest + c.kept == [r] + q && c.rest[1..] + (c.kept + [r]) == q + [r];
    RotatePending(c.sys, r, q);
    forall i: nat
      ensures Waiting(State(c.sys, [r] + q), i) <==> Waiting(State(c.sys, q + [r]), i)
    {
      RotateWaiting(c.sys, r, q, i);
    }
  }

  lemma FirstWaiting(s: Sys, q: seq<Request>, i: nat)
    requires q != [] && Pending(s, q)
    ensures Waiting(State(s, q[1..]), i) <==> Waiting(State(s, q), i) && i != q[0].from
  {
    assert q == [q[0]] + q[1..];
    AppendWaiting(s, [q[0]], q[1..], i);
    OneWaiting(s, q[0], i);
    if i == q[0].from {
      forall k | 0 <= k < |q[1..]|
        ensures q[1..][k].from != i
      {
        assert q[0].from != q[k + 1].from;
      }
    }
  }

  lemma OneWaiting(s: Sys, r: Request, i: nat)
    ensures Waiting(State(s, [r]), i) <==> r.from == i
  {
    assert [r][0].from == r.from;
  }

  lemma GrantLinks(c: Program, d: Program, j: nat)
    requires Sized(c) && Sized(d) && c.rest != [] && j < |c.h.pc| == |d.h.pc| && Pending(c.sys, c.rest + c.kept) && Linked(c, j)
    requires d.h.queue == c.h.queue - {c.rest[0].from} && d.h.live == c.h.live
    requires d.sys.exited == c.sys.exited && d.rest == c.rest[1..] && d.kept == c.kept
    ensures Linked(d, j)
  {
    var q := c.rest + c.kept;
    assert q[1..] == c.rest[1..] + c.kept;
    FirstWaiting(c.sys, q, j);
  }

  lemma GrantMoves(avoid: bool, lim: Limits, c: Program)
    requires Orderly(avoid, lim, c) && c.h.mpc == H.Serving && c.rest != [] && CanServe(avoid, c.sys, c.rest[0])
    ensures H.MasterStep(c.h, Some(c.rest[0].from)).Some?
  {
    var i := c.rest[0].from;
    assert Linked(c, i);
    assert (c.rest + c.kept)[0].from == i;
  }

  /** Granting the first request of the pass is what the pass does with it. */
  lemma GrantSettled(avoid: bool, lim: Limits, c: Program)
    requires Sized(c) && c.rest != [] && CanServe(avoid, c.sys, c.rest[0]) && Sound(avoid, lim, State(c.sys, c.rest + c.kept))
    ensures var d := c.(sys := Grant(c.sys, c.rest[0]), rest := c.rest[1..]);
      && Sized(d) && Settled(avoid, d) == Settled(avoid, c) && Sound(avoid, lim, State(d.sys, d.rest + d.kept))
  {
    assert (c.rest + c.kept)[1..] == c.rest[1..] + c.kept;
    GrantKeepsSound(avoid, lim, c.sys, c.rest + c.kept);
  }

  lemma GrantAllLinks(c: Program, d: Program)
    requires Sized(c) && Sized(d) && c.rest != [] && |c.h.pc| == |d.h.pc| && Pending(c.sys, c.rest + c.kept)
    requires d.h.queue == c.h.queue - {c.rest[0].from} && d.h.live == c.h.live
    requires d.sys.exited == c.sys.exited && d.rest == c.rest[1..] && d.kept == c.kept
    requires forall j: nat | j < |c.h.pc| :: Linked(c, j)
    ensures forall j: nat | j < |c.h.pc| :: Linked(d, j)
  {
    forall j: nat | j < |c.h.pc|
      ensures Linked(d, j)
    {
      assert Linked(c, j);
      GrantLinks(c, d, j);
    }
  }

  /** The state after a grant: only the queue, the tables, the pass and the master's place differ. */
  lemma GrantTo(avoid: bool, lim: Limits, c: Program) returns (d: Program)
    requires Orderly(avoid, lim, c) && c.h.mpc == H.Serving && c.rest != [] && CanServe(avoid, c.sys, c.rest[0])
    ensures MasterMoves(avoid, c) == Some(d) && Sized(d) && H.Inv(d.h)
    ensures d.h.pc == c.h.pc && d.h.queue == c.h.queue - {c.rest[0].from} && d.h.live == c.h.live
    ensures d.h.reqkind == c.h.reqkind && d.h.mpc == H.Locking(c.rest[0].from)
    ensures d.sys == Grant(c.sys, c.rest[0]) && d.rest == c.rest[1..] && d.kept == c.kept && d.left == c.left && d.REQ == c.REQ
    ensures Settled(avoid, d) == Settled(avoid, c) && Sound(avoid, lim, State(d.sys, d.rest + d.kept))
  {
    GrantMoves(avoid, lim, c);
    GrantSettled(avoid, lim, c);
    H.MasterStepInv(c.h, Some(c.rest[0].from));
    var h := H.MasterStep(c.h, Some(c.rest[0].from)).value;
    d := c.(sys := Grant(c.sys, c.rest[0]), rest := c.rest[1..]).(h := h);
  }

  lemma GrantInv(avoid: bool, lim: Limits, c: Program)
    requires Orderly(avoid, lim, c) && c.h.mpc == H.Serving && c.rest != [] && CanServe(avoid, c.sys, c.rest[0])
    ensures MasterMoves(avoid, c).Some? && Orderly(avoid, lim, MasterMoves(avoid, c).value)
  {
    var d := GrantTo(avoid, lim, c);
    GrantAllLinks(c, d);
    SameKinds(avoid, c, d);
  }

  lemma GrantAbstract(avoid: bool, lim: Limits, c: Program)
    requires Orderly(avoid, lim, c) && c.h.mpc == H.Serving && c.rest != [] && CanServe(avoid, c.sys, c.rest[0])
    ensures MasterMoves(avoid, c).Some? && Sized(MasterMoves(avoid, c).value) && Abstract(avoid, MasterMoves(avoid, c).value) == Abstract(avoid, c)
  {
    var d := GrantTo(avoid, lim, c);
    SameKinds(avoid, c, d);
  }

  // ----- a message is read

  /** The message of the thread whose turn it is, as the banker sees it. */
  lemma ReadMessage(avoid: bool, lim: Limits, c: Program)
    requires Orderly(avoid, lim, c) && c.h.mpc == H.Reading
    ensures var i, r := c.h.reqfrom, Abstract(avoid, c);
      && i < |c.left| && Enabled(r, i) && r.st == State(c.sys, c.kept) && Legal(r.st, NextEvent(r, i))
      && NextEvent(r, i) == (if c.h.reqkind == H.Quit then Stop(i) else Ask(i, c.REQ))
      && (c.h.reqkind == H.Additional <==> c.h.reqkind != H.Quit && Additional(c.REQ))
      && Unsent(c, i) == (if c.h.reqkind == H.Quit then [] else [c.REQ] + c.left[i])
  {
    var i, r := c.h.reqfrom, Abstract(avoid, c);
    assert H.Local(c.h, i) && Linked(c, i) && KindOk(c, i);
    assert c.rest == [] && c.kept + [] == c.kept && [] + c.kept == c.kept;
    ScriptsAreLegal(avoid, lim, r, i);
  }

  lemma RegisterMoves(avoid: bool, lim: Limits, c: Program)
    requires Orderly(avoid, lim, c) && c.h.mpc == H.Reading
    ensures MasterMoves(avoid, c).Some?
  {
    ReadMessage(avoid, lim, c);
  }

  lemma RegisteredSettled(avoid: bool, lim: Limits, c: Program)
    requires Orderly(avoid, lim, c) && c.h.mpc == H.Reading && MasterMoves(avoid, c).Some?
    ensures var d, r, i := MasterMoves(avoid, c).value, Abstract(avoid, c), c.h.reqfrom;
      && Sized(d) && i < |c.left| && Enabled(r, i) && Possible(r.st, NextEvent(r, i))
      && Settled(avoid, d) == Step(avoid, r.st, NextEvent(r, i)) && Sound(avoid, lim, State(d.sys, d.rest + d.kept))
  {
    ReadMessage(avoid, lim, c);
    H.MasterStepGlobal(c.h, None);
    var d, r, i := MasterMoves(avoid, c).value, Abstract(avoid, c), c.h.reqfrom;
    var w := Sweep(avoid, d.sys, d.rest);
    assert d.rest + d.kept == d.rest && d.kept + w.left == w.left;
    assert Sound(avoid, lim, r.st);
    if c.h.reqkind == H.Quit {
      QuitKeepsSound(avoid, lim, r.st, i);
      PendingMeansLive(d.sys, d.rest);
    } else {
      RegisterKeepsSound(avoid, lim, r.st, i, c.REQ);
    }
  }

  lemma RegisteredUnread(h: H.State, j: nat)
    requires H.Around(h, j, j) && h.mpc == H.Reading && h.reqfrom < |h.pc| && H.Local(h, h.reqfrom)
    ensures var t := H.MasterStep(h, None).value;
      && |t.pc| == |h.pc| && t.pc == h.pc && t.reqkind == h.reqkind && (Unread(t, j) <==> Unread(h, j) && j != h.reqfrom)
      && !Unread(t, j)
  {
  }

  lemma RegisteredLines(avoid: bool, lim: Limits, c: Program)
    requires Orderly(avoid, lim, c) && c.h.mpc == H.Reading && MasterMoves(avoid, c).Some?
    ensures var d, r, i := MasterMoves(avoid, c).value, Abstract(avoid, c), c.h.reqfrom;
      && Sized(d) && i < |c.left| && Enabled(r, i) && Possible(r.st, NextEvent(r, i)) && Abstract(avoid, d) == Advance(avoid, r, i)
  {
    ReadMessage(avoid, lim, c);
    RegisteredSettled(avoid, lim, c);
    var d, r, i := MasterMoves(avoid, c).value, Abstract(avoid, c), c.h.reqfrom;
    var lines := Advance(avoid, r, i).left;
    forall j: nat | j < |c.left|
      ensures Unsent(d, j) == lines[j]
    {
      H.SeenAround(c.h, i, j);
      RegisteredUnread(c.h, j);
      H.SeenAround(c.h, j, j);
    }
    assert Abstract(avoid, d).left == lines;
  }

  /** Who waits once the request is registered. */
  lemma RegisteredWaiting(t: Sys, kept: seq<Request>, i: nat, req: Vec, j: nat)
    ensures var q := if Additional(req) then kept + [Request(i, Positives(req))] else kept;
      Waiting(State(t, q), j) <==> Waiting(State(t, kept), j) || (Additional(req) && i == j)
  {
    AppendWaiting(t, kept, [Request(i, Positives(req))], j);
    OneWaiting(t, Request(i, Positives(req)), j);
  }

  lemma RegisteredLinks(avoid: bool, lim: Limits, c: Program, j: nat)
    requires Orderly(avoid, lim, c) && c.h.mpc == H.Reading && MasterMoves(avoid, c).Some? && j < |c.h.pc|
    ensures var d := MasterMoves(avoid, c).value; Sized(d) && |d.h.pc| == |c.h.pc| && Linked(d, j)
  {
    ReadMessage(avoid, lim, c);
    RegisteredSettled(avoid, lim, c);
    var d, i := MasterMoves(avoid, c).value, c.h.reqfrom;
    RegisteredWaiting(d.sys, c.kept, i, c.REQ, j);
    assert c.rest + c.kept == c.kept && d.rest + d.kept == d.rest;
    assert Linked(c, j);
  }

  lemma RegisteredKinds(avoid: bool, lim: Limits, c: Program, j: nat)
    requires Orderly(avoid, lim, c) && c.h.mpc == H.Reading && MasterMoves(avoid, c).Some? && j < |c.h.pc|
    ensures var d := MasterMoves(avoid, c).value; |d.h.pc| == |c.h.pc| == |d.left| && KindOk(d, j)
  {
    assert KindOk(c, j) && H.Local(c.h, c.h.reqfrom);
    H.SeenAround(c.h, j, j);
    RegisteredUnread(c.h, j);
  }

  lemma RegisteredOnScript(avoid: bool, lim: Limits, c: Program)
    requires Orderly(avoid, lim, c) && c.h.mpc == H.Reading && MasterMoves(avoid, c).Some?
    ensures var d := MasterMoves(avoid, c).value; Sized(d) && OnScript(avoid, lim, Abstract(avoid, d)) && Sound(avoid, lim, State(d.sys, d.rest + d.kept))
  {
    ReadMessage(avoid, lim, c);
    RegisteredSettled(avoid, lim, c);
    RegisteredLines(avoid, lim, c);
    AdvanceOnScript(avoid, lim, Abstract(avoid, c), c.h.reqfrom);
  }

  lemma RegisterInv(avoid: bool, lim: Limits, c: Program)
    requires Orderly(avoid, lim, c) && c.h.mpc == H.Reading && MasterMoves(avoid, c).Some?
    ensures Orderly(avoid, lim, MasterMoves(avoid, c).value)
  {
    var d := MasterMoves(avoid, c).value;
    H.MasterStepInv(c.h, None);
    RegisteredOnScript(avoid, lim, c);
    forall j: nat | j < |c.h.pc|
      ensures KindOk(d, j) && Linked(d, j)
    {
      RegisteredKinds(avoid, lim, c, j);
      RegisteredLinks(avoid, lim, c, j);
    }
  }

  lemma MasterOrderly(avoid: bool, lim: Limits, c: Program)
    requires Orderly(avoid, lim, c) && MasterMoves(avoid, c).Some?
    ensures Orderly(avoid, lim, MasterMoves(avoid, c).value)
  {
    if c.h.mpc == H.Reading {
      RegisterInv(avoid, lim, c);
    } else if c.h.mpc == H.Serving && c.rest != [] {
      if CanServe(avoid, c.sys, c.rest[0]) {
        GrantInv(avoid, lim, c);
      } else {
        RefuseInv(avoid, lim, c);
      }
    } else {
      MasterQuiet(avoid, lim, c);
    }
  }

  /** Every step keeps the invariant: the handshake in order, the tables sound and safe, the threads on
      their scripts. */
  lemma NextOrderly(avoid: bool, lim: Limits, c: Program, d: Program)
    requires Orderly(avoid, lim, c) && Next(avoid, c, d)
    ensures Orderly(avoid, lim, d)
  {
    if i: nat :| i < |c.h.pc| && ThreadMoves(c, i) == Some(d) {
      ThreadOrderly(avoid, lim, c, i);
    } else {
      MasterOrderly(avoid, lim, c);
    }
  }

  lemma LaunchOrderly(avoid: bool, lim: Limits, scripts: seq<seq<Vec>>)
    requires LimitsOk(lim) && |scripts| == |lim.max|
    requires forall i | 0 <= i < |scripts| :: Follows(Zeros(|lim.total|), lim.max[i], scripts[i])
    ensures Orderly(avoid, lim, Launch(lim, scripts))
  {
    var c := Launch(lim, scripts);
    H.StartInv(|lim.max|);
    H.IdsAre(|lim.max|);
    BankerRuns.StartInv(avoid, lim);
    assert Settled(avoid, c) == BankerRuns.Start(lim);
    assert c.rest + c.kept == [];
    forall i: nat | i < |scripts|
      ensures Unsent(c, i) == scripts[i] && KindOk(c, i) && Linked(c, i)
    {
    }
  }
}
