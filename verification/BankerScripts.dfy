/** Scripts for the threads, as the generator writes them, and every way of running them. */
module BankerScripts {
  import opened Vectors
  import opened BankerSpec
  import opened BankerSweep
  import opened BankerRuns

  /** A line a thread holding `held` may send: no release beyond it, no request beyond its maximum. */
  predicate LineOk(held: Vec, max: Vec, line: Vec) {
    |held| == |max| == |line| && forall j | 0 <= j < |line| :: 0 <= held[j] + line[j] <= max[j]
  }

  predicate Follows(held: Vec, max: Vec, lines: seq<Vec>)
    decreases |lines|
  {
    lines != [] ==> LineOk(held, max, lines[0]) && Follows(Plus(held, lines[0]), max, lines[1..])
  }

  function Held(held: Vec, lines: seq<Vec>): Vec
    requires forall k | 0 <= k < |lines| :: |lines[k]| == |held|
    decreases |lines|
  {
    if lines == [] then held else Held(Plus(held, lines[0]), lines[1..])
  }

  lemma {:induction false} FollowsAppend(held: Vec, max: Vec, lines: seq<Vec>, line: Vec)
    requires forall k | 0 <= k < |lines| :: |lines[k]| == |held|
    requires Follows(held, max, lines) && LineOk(Held(held, lines), max, line)
    ensures Follows(held, max, lines + [line])
    ensures Held(held, lines + [line]) == Plus(Held(held, lines), line)
    decreases |lines|
  {
    if lines != [] {
      assert (lines + [line])[1..] == lines[1..] + [line];
      FollowsAppend(Plus(held, lines[0]), max, lines[1..], line);
    }
  }

  /** What thread i holds once its pending request, if any, is counted as granted. */
  function Owed(s: Sys, q: seq<Request>, i: nat): (v: Vec)
    requires AllFit(s, q) && i < |s.alloc|
    ensures |v| == |s.avail|
    decreases |q|
  {
    if q == [] then s.alloc[i]
    else
      var v := Owed(s, q[1..], i);
      if q[0].from == i then Plus(v, q[0].amt) else v
  }

  lemma {:induction false} OwedNotWaiting(s: Sys, q: seq<Request>, i: nat)
    requires AllFit(s, q) && i < |s.alloc|
    requires forall k | 0 <= k < |q| :: q[k].from != i
    ensures Owed(s, q, i) == s.alloc[i]
    decreases |q|
  {
    if q != [] {
      OwedNotWaiting(s, q[1..], i);
    }
  }

  lemma {:induction false} OwedAppend(s: Sys, q: seq<Request>, r: Request, i: nat)
    requires AllFit(s, q) && Fits(s, r) && i < |s.alloc|
    ensures Owed(s, q + [r], i) == if r.from == i then Plus(Owed(s, q, i), r.amt) else Owed(s, q, i)
    decreases |q|
  {
    if q == [] {
      assert (q + [r])[1..] == [];
    } else {
      assert (q + [r])[1..] == q[1..] + [r];
      OwedAppend(s, q[1..], r, i);
      if r.from == i && q[0].from == i {
        var v := Owed(s, q[1..], i);
        assert Plus(Plus(v, r.amt), q[0].amt) == Plus(Plus(v, q[0].amt), r.amt);
      }
    }
  }

  /** Moving d to a thread adds d to what it is owed, whatever is pending. */
  lemma {:induction false} OwedMove(s: Sys, q: seq<Request>, t: nat, d: Vec, i: nat)
    requires AllFit(s, q) && t < |s.alloc| && |d| == |s.avail| && i < |s.alloc|
    ensures AllFit(Move(s, t, d), q)
    ensures Owed(Move(s, t, d), q, i) == if i == t then Plus(Owed(s, q, i), d) else Owed(s, q, i)
    decreases |q|
  {
    if q != [] {
      OwedMove(s, q[1..], t, d, i);
      if i == t && q[0].from == i {
        var v := Owed(s, q[1..], i);
        assert Plus(Plus(v, d), q[0].amt) == Plus(Plus(v, q[0].amt), d);
      }
    }
  }

  /** A sweep pays what it grants: what each thread is owed in all does not change. */
  lemma {:induction false} SweepKeepsOwed(avoid: bool, s: Sys, q: seq<Request>, i: nat)
    requires AllFit(s, q) && i < |s.alloc|
    ensures var w := Sweep(avoid, s, q); Owed(w.sys, w.left, i) == Owed(s, q, i)
    decreases |q|
  {
    if q != [] {
      if CanServe(avoid, s, q[0]) {
        SweepKeepsOwed(avoid, Grant(s, q[0]), q[1..], i);
        OwedMove(s, q[1..], q[0].from, q[0].amt, i);
      } else {
        SweepKeepsOwed(avoid, s, q[1..], i);
        var w := Sweep(avoid, s, q[1..]);
        assert ([q[0]] + w.left)[1..] == w.left;
      }
    }
  }

  lemma RegisterOwed(st: State, i: nat, req: Vec, h: nat)
    requires QueueFits(st) && i < |st.sys.alloc| && |req| == |st.sys.avail| && h < |st.sys.alloc|
    ensures var t := Register(st, i, req);
            Owed(t.sys, t.queue, h) == if h == i then Plus(Owed(st.sys, st.queue, h), req) else Owed(st.sys, st.queue, h)
  {
    var s' := Move(st.sys, i, Negatives(req));
    OwedMove(st.sys, st.queue, i, Negatives(req), h);
    var v := Owed(st.sys, st.queue, h);
    if Additional(req) {
      OwedAppend(s', st.queue, Request(i, Positives(req)), h);
      assert Plus(Plus(v, Negatives(req)), Positives(req)) == Plus(v, req);
    } else {
      assert Negatives(req) == req;
    }
  }

  // ----- running scripts

  /** The system together with the lines each thread has not sent yet. */
  datatype Running = Running(st: State, left: seq<seq<Vec>>)

  ghost predicate OnScript(avoid: bool, lim: Limits, r: Running) {
    && Inv(avoid, lim, r.st)
    && |r.left| == |lim.max|
    && forall i | 0 <= i < |lim.max| && !r.st.sys.exited[i] ::
         Follows(Owed(r.st.sys, r.st.queue, i), lim.max[i], r.left[i])
  }

  predicate Enabled(r: Running, i: nat) {
    i < |r.left| == |r.st.sys.exited| && !r.st.sys.exited[i] && !Waiting(r.st, i)
  }

  /** What thread i sends next: its next line, or after the last one its end. */
  function NextEvent(r: Running, i: nat): Event
    requires Enabled(r, i)
  {
    if r.left[i] == [] then Stop(i) else Ask(i, r.left[i][0])
  }

  ghost function Advance(avoid: bool, r: Running, i: nat): Running
    requires QueueFits(r.st) && Enabled(r, i) && Possible(r.st, NextEvent(r, i))
  {
    Running(Step(avoid, r.st, NextEvent(r, i)), if r.left[i] == [] then r.left else r.left[i := r.left[i][1..]])
  }

  /** A thread on its script only sends what the master may rely on. */
  lemma ScriptsAreLegal(avoid: bool, lim: Limits, r: Running, i: nat)
    requires OnScript(avoid, lim, r) && Enabled(r, i)
    ensures Legal(r.st, NextEvent(r, i))
  {
    OwedNotWaiting(r.st.sys, r.st.queue, i);
    var s := r.st.sys;
    assert Plus(s.alloc[i], s.need[i]) == lim.max[i];
    if r.left[i] != [] {
      assert LineOk(s.alloc[i], lim.max[i], r.left[i][0]);
      forall j | 0 <= j < |s.avail|
        ensures -s.alloc[i][j] <= r.left[i][0][j] <= s.need[i][j]
      {
        assert lim.max[i][j] == s.alloc[i][j] + s.need[i][j];
      }
    }
  }

  lemma StepOwed(avoid: bool, st: State, e: Event, h: nat)
    requires QueueFits(st) && Legal(st, e) && h < |st.sys.alloc| && (e.Stop? ==> h != e.i)
    ensures var t := Step(avoid, st, e);
            Owed(t.sys, t.queue, h) == if e.Ask? && h == e.i then Plus(Owed(st.sys, st.queue, h), e.req)
                                                             else Owed(st.sys, st.queue, h)
  {
    match e
    case Ask(i, req) =>
      RegisterOwed(st, i, req, h);
      var t := Register(st, i, req);
      SweepKeepsOwed(avoid, t.sys, t.queue, h);
    case Stop(i) =>
      QuitOwed(st.sys, st.queue, i, h);
      SweepKeepsOwed(avoid, Quit(st.sys, i), st.queue, h);
  }

  lemma {:induction false} QuitOwed(s: Sys, q: seq<Request>, i: nat, h: nat)
    requires AllFit(s, q) && i < |s.alloc| && h < |s.alloc| && h != i
    ensures AllFit(Quit(s, i), q) && Owed(Quit(s, i), q, h) == Owed(s, q, h)
    decreases |q|
  {
    if q != [] {
      QuitOwed(s, q[1..], i, h);
    }
  }

  lemma AdvanceOnScript(avoid: bool, lim: Limits, r: Running, i: nat)
    requires OnScript(avoid, lim, r) && Enabled(r, i)
    ensures Possible(r.st, NextEvent(r, i)) && OnScript(avoid, lim, Advance(avoid, r, i))
  {
    ScriptsAreLegal(avoid, lim, r, i);
    var e := NextEvent(r, i);
    var t := Advance(avoid, r, i);
    StepInv(avoid, lim, r.st, e);
    forall h: nat | h < |lim.max| && !t.st.sys.exited[h]
      ensures Follows(Owed(t.st.sys, t.st.queue, h), lim.max[h], t.left[h])
    {
      assert !r.st.sys.exited[h] && (e.Stop? ==> h != i);
      StepOwed(avoid, r.st, e, h);
    }
  }

  function Lines(left: seq<seq<Vec>>): nat {
    if left == [] then 0 else |left[0]| + Lines(left[1..])
  }

  lemma {:induction false} LinesDrop(left: seq<seq<Vec>>, i: nat)
    requires i < |left| && left[i] != []
    ensures Lines(left[i := left[i][1..]]) == Lines(left) - 1
  {
    if i == 0 {
      assert left[i := left[i][1..]][1..] == left[1..];
    } else {
      assert left[i := left[i][1..]][1..] == left[1..][i - 1 := left[1..][i - 1][1..]];
      LinesDrop(left[1..], i - 1);
    }
  }

  /** Messages still to be sent: the lines left and one end for each live thread. */
  function ToSend(r: Running): int {
    Lines(r.left) + |r.st.sys.alloc| - |Exited(r.st.sys)|
  }

  lemma AdvanceSendsOne(avoid: bool, r: Running, i: nat)
    requires QueueFits(r.st) && Enabled(r, i) && Possible(r.st, NextEvent(r, i))
    ensures ToSend(Advance(avoid, r, i)) == ToSend(r) - 1
  {
    var t := Advance(avoid, r, i);
    StepExits(avoid, r.st, NextEvent(r, i));
    if r.left[i] == [] {
      assert Exited(t.st.sys) == Exited(r.st.sys) + {i};
    } else {
      assert Exited(t.st.sys) == Exited(r.st.sys);
      LinesDrop(r.left, i);
    }
  }

  /** A schedule picks, again and again, any thread that is neither waiting nor gone. */
  ghost predicate Schedule(avoid: bool, r: Running, picks: seq<nat>)
    requires QueueFits(r.st)
    decreases |picks|
  {
    picks != [] ==>
      && Enabled(r, picks[0]) && Possible(r.st, NextEvent(r, picks[0]))
      && Schedule(avoid, Advance(avoid, r, picks[0]), picks[1..])
  }

  ghost function Outcome(avoid: bool, r: Running, picks: seq<nat>): (t: Running)
    requires QueueFits(r.st) && Schedule(avoid, r, picks)
    ensures QueueFits(t.st)
    decreases |picks|
  {
    if picks == [] then r else Outcome(avoid, Advance(avoid, r, picks[0]), picks[1..])
  }

  lemma {:induction false} ScheduleOnScript(avoid: bool, lim: Limits, r: Running, picks: seq<nat>)
    requires OnScript(avoid, lim, r) && Schedule(avoid, r, picks)
    ensures OnScript(avoid, lim, Outcome(avoid, r, picks))
    ensures ToSend(Outcome(avoid, r, picks)) == ToSend(r) - |picks|
    decreases |picks|
  {
    if picks != [] {
      AdvanceOnScript(avoid, lim, r, picks[0]);
      AdvanceSendsOne(avoid, r, picks[0]);
      ScheduleOnScript(avoid, lim, Advance(avoid, r, picks[0]), picks[1..]);
    }
  }

  /** However the threads are interleaved, the scripts are played to their end: no schedule is longer
      than what there is to send, and one that cannot go on has every thread out and all resources back. */
  lemma EveryScheduleFinishes(lim: Limits, scripts: seq<seq<Vec>>, picks: seq<nat>)
    requires LimitsOk(lim) && |scripts| == |lim.max|
    requires forall i | 0 <= i < |scripts| :: Follows(Zeros(|lim.total|), lim.max[i], scripts[i])
    requires Schedule(true, Running(Start(lim), scripts), picks)
    ensures |picks| <= Lines(scripts) + |scripts|
    ensures var t := Outcome(true, Running(Start(lim), scripts), picks);
            (forall i: nat :: !Enabled(t, i)) ==> AllExited(t.st.sys) && t.st.sys.avail == lim.total
  {
    var r := Running(Start(lim), scripts);
    StartInv(true, lim);
    assert Exited(r.st.sys) == {};
    ScheduleOnScript(true, lim, r, picks);
    var t := Outcome(true, r, picks);
    ExitedBound(t.st.sys);
    if AllExited(t.st.sys) {
      AllReturned(true, lim, t.st);
    } else {
      NeverAllWaiting(lim, t.st);
      var i: nat :| i < |t.st.sys.alloc| && !t.st.sys.exited[i] && !Waiting(t.st, i);
      assert Enabled(t, i);
    }
  }

  // ----- the generator

  /** One line of a script: for each resource a release or a further request, at random. */
  method GenLine(MAX: array<int>, ALLOC: array<int>) returns (line: Vec)
    requires MAX != ALLOC && MAX.Length == ALLOC.Length
    requires forall j | 0 <= j < MAX.Length :: 0 <= ALLOC[j] <= MAX[j]
    modifies ALLOC
    ensures LineOk(old(ALLOC[..]), MAX[..], line)
    ensures ALLOC[..] == Plus(old(ALLOC[..]), line)
  {
    line := [];
    for j := 0 to MAX.Length
      invariant |line| == j
      invariant forall k | 0 <= k < MAX.Length :: 0 <= ALLOC[k] <= MAX[k]
      invariant forall k | 0 <= k < MAX.Length :: ALLOC[k] == old(ALLOC[k]) + (if k < j then line[k] else 0)
    {
      var rt: int;
      if ALLOC[j] == 0 {
        rt := 1;
      } else if ALLOC[j] == MAX[j] {
        rt := 0;
      } else {
        rt :| 0 <= rt < 2;
      }
      var req: int;
      if rt == 0 {
        var back: int :| 0 <= back < 1 + ALLOC[j];
        req := -back;
      } else {
        req :| 0 <= req < 1 + MAX[j] - ALLOC[j];
      }
      line := line + [req];
      ALLOC[j] := ALLOC[j] + req;
    }
  }

  /** A thread's maximum and its lines; they never take it below nothing or above its maximum. */
  method GenThread(TOTAL: array<int>) returns (max: Vec, lines: seq<Vec>)
    requires forall j | 0 <= j < TOTAL.Length :: 15 <= TOTAL[j] <= 30
    ensures |max| == TOTAL.Length && NonNeg(max) && Leq(max, TOTAL[..])
    ensures 5 <= |lines| <= 10 && Follows(Zeros(|max|), max, lines)
  {
    var m := TOTAL.Length;
    var MAX := new int[m];
    var ALLOC := new int[m];
    for j := 0 to m
      invariant forall k | 0 <= k < j :: 0 <= MAX[k] <= TOTAL[k] && ALLOC[k] == 0
      modifies MAX, ALLOC
    {
      var x: int :| 0 <= x < TOTAL[j] / 2;
      MAX[j] := x;
      ALLOC[j] := 0;
    }
    max := MAX[..];
    assert ALLOC[..] == Zeros(m);
    var nr: nat :| 5 <= nr < 11;
    lines := [];
    for k := 0 to nr
      invariant |lines| == k && MAX[..] == max
      invariant forall h | 0 <= h < k :: |lines[h]| == m
      invariant forall j | 0 <= j < m :: 0 <= ALLOC[j] <= MAX[j]
      invariant Follows(Zeros(m), max, lines) && ALLOC[..] == Held(Zeros(m), lines)
      modifies ALLOC
    {
      var line := GenLine(MAX, ALLOC);
      FollowsAppend(Zeros(m), max, lines, line);
      lines := lines + [line];
    }
  }

  /** The generator: its output is always a system and scripts that EveryScheduleFinishes covers. */
  method GenInput(m: nat, n: nat) returns (lim: Limits, scripts: seq<seq<Vec>>)
    ensures LimitsOk(lim) && |lim.total| == m && |scripts| == |lim.max| == n
    ensures forall i | 0 <= i < n :: Follows(Zeros(m), lim.max[i], scripts[i])
  {
    var TOTAL := new int[m];
    for j := 0 to m
      invariant forall k | 0 <= k < j :: 15 <= TOTAL[k] <= 30
    {
      var x: int :| 0 <= x < 16;
      TOTAL[j] := 15 + x;
    }
    lim := Limits(TOTAL[..], []);
    scripts := [];
    for i := 0 to n
      invariant forall j | 0 <= j < m :: 15 <= TOTAL[j] <= 30
      invariant lim.total == TOTAL[..] && LimitsOk(lim) && |scripts| == |lim.max| == i
      invariant forall h | 0 <= h < i :: Follows(Zeros(m), lim.max[h], scripts[h])
    {
      var max, lines := GenThread(TOTAL);
      lim := lim.(max := lim.max + [max]);
      scripts := scripts + [lines];
    }
  }
}
