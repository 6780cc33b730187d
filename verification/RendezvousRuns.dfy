/** Where the runs of boats and visitors lead: how long they are, when they end with everybody served, and
    when they come to a standstill. */
module RendezvousRuns {
  import opened Rendezvous
  import Pigeonhole

  ghost predicate Reaches(s: Pier, t: Pier) {
    exists acts :: RunsFrom(s, acts) && Outcome(s, acts) == t
  }

  lemma {:induction false} RunAppend(s: Pier, acts: seq<Action>, a: Action)
    requires RunsFrom(s, acts) && Legal(Outcome(s, acts), a)
    ensures RunsFrom(s, acts + [a]) && Outcome(s, acts + [a]) == Next(Outcome(s, acts), a)
    decreases |acts|
  {
    if acts == [] {
      assert acts + [a] == [a] && [a][1..] == [];
      assert RunsFrom(Next(s, a), []) && Outcome(Next(s, a), []) == Next(s, a);
    } else {
      RunAppend(Next(s, acts[0]), acts[1..], a);
      assert (acts + [a])[1..] == acts[1..] + [a];
    }
  }

  lemma Go(s: Pier, t: Pier, a: Action)
    requires Reaches(s, t) && Legal(t, a)
    ensures Reaches(s, Next(t, a))
  {
    var acts :| RunsFrom(s, acts) && Outcome(s, acts) == t;
    RunAppend(s, acts, a);
  }

  lemma Stay(s: Pier)
    ensures Reaches(s, s)
  {
    assert RunsFrom(s, []) && Outcome(s, []) == s;
  }

  /** No thread can take a step. */
  ghost predicate Stuck(s: Pier) {
    forall a: Action :: !Legal(s, a)
  }

  // ----- trips

  /** Every visitor past the first V has given one to the boats; every P of a boat is for a ride that has
      ended or is under way; and a visitor has left just when riding or back. */
  predicate Trips(s: Pier) {
    && s.boat.vs + At(s.visitors, Sightsee) + At(s.visitors, CallBoat) == |s.visitors|
    && s.boat.ps == |s.rides| + Of(s.boats, Called)
    && At(s.visitors, Left) == |s.rides| + Of(s.boats, Sailing)
  }

  lemma {:induction false} AllAt(vs: seq<Visitor>, pc: VisitorPc)
    requires forall v | 0 <= v < |vs| :: vs[v].pc == pc
    ensures At(vs, pc) == |vs|
  {
    if vs != [] {
      AllAt(vs[1..], pc);
    }
  }

  lemma InitialTrips(s: Pier)
    requires Initial(s)
    ensures Trips(s)
  {
    AllAt(s.visitors, Sightsee);
    NoVisitors(s.visitors, CallBoat);
    NoVisitors(s.visitors, Left);
    NoBoats(s.boats, Called);
    NoBoats(s.boats, Sailing);
  }

  lemma BoatTrips(bs: seq<Boat>, i: nat, b: Boat)
    requires i < |bs|
    ensures Of(bs[i := b], Called) == Of(bs, Called) - One(Is(Called, bs[i])) + One(Is(Called, b))
    ensures Of(bs[i := b], Sailing) == Of(bs, Sailing) - One(Is(Sailing, bs[i])) + One(Is(Sailing, b))
  {
    OfUpdate(bs, i, b, Called);
    OfUpdate(bs, i, b, Sailing);
  }

  lemma VisitorTrips(vs: seq<Visitor>, v: nat, x: Visitor)
    requires v < |vs|
    ensures var ws := vs[v := x];
      && At(ws, Sightsee) == At(vs, Sightsee) - One(vs[v].pc == Sightsee) + One(x.pc == Sightsee)
      && At(ws, CallBoat) == At(vs, CallBoat) - One(vs[v].pc == CallBoat) + One(x.pc == CallBoat)
      && At(ws, Left) == At(vs, Left) - One(vs[v].pc == Left) + One(x.pc == Left)
  {
    AtUpdate(vs, v, x, Sightsee);
    AtUpdate(vs, v, x, CallBoat);
    AtUpdate(vs, v, x, Left);
  }

  lemma BoatStepTrips(s: Pier, i: nat, w: nat)
    requires Placed(s) && Trips(s) && BoatCan(s, i, w)
    ensures Trips(BoatStep(s, i, w))
  {
    assert BoatOk(s, i);
    var t := BoatStep(s, i, w);
    BoatTrips(s.boats, i, t.boats[i]);
    if s.boats[i].pc == CallRider && s.rider.value < 0 {
      VisitorTrips(s.visitors, w, t.visitors[w]);
    }
  }

  lemma VisitorStepTrips(s: Pier, v: nat, w: nat)
    requires Trips(s) && VisitorCan(s, v, w)
    ensures Trips(VisitorStep(s, v, w))
  {
    var t := VisitorStep(s, v, w);
    VisitorTrips(s.visitors, v, t.visitors[v]);
    if s.visitors[v].pc == CallBoat && s.boat.value < 0 {
      BoatTrips(s.boats, w, t.boats[w]);
    }
    if s.visitors[v].pc == Scan {
      var k := Find(s.boats, 0);
      if k < |s.boats| {
        BoatTrips(s.boats, k, t.boats[k]);
      }
    }
  }

  lemma MeetTrips(s: Pier, i: nat, v: nat)
    requires Trips(s) && CanMeet(s, i, v)
    ensures Trips(Meet(s, i, v))
  {
    var t := Meet(s, i, v);
    BoatTrips(s.boats, i, t.boats[i]);
    VisitorTrips(s.visitors, v, t.visitors[v]);
  }

  /** Every step keeps both the invariant and the balance of trips. */
  ghost predicate Sound(s: Pier) {
    Inv(s) && Trips(s)
  }

  lemma NextSound(s: Pier, a: Action)
    requires Sound(s) && Legal(s, a)
    ensures Sound(Next(s, a))
  {
    NextInv(s, a);
    match a {
      case BoatMoves(i, w) => BoatStepTrips(s, i, w);
      case VisitorMoves(v, w) => VisitorStepTrips(s, v, w);
      case Meets(i, v) => MeetTrips(s, i, v);
    }
  }

  lemma {:induction false} RunSound(s: Pier, acts: seq<Action>)
    requires Sound(s) && RunsFrom(s, acts)
    ensures Sound(Outcome(s, acts))
    decreases |acts|
  {
    if acts != [] {
      NextSound(s, acts[0]);
      RunSound(Next(s, acts[0]), acts[1..]);
    }
  }

  lemma InitialSound(s: Pier)
    requires Initial(s)
    ensures Sound(s)
  {
    InitialInv(s);
    InitialTrips(s);
  }

  lemma ReachedSound(s: Pier, t: Pier)
    requires Sound(s) && Reaches(s, t)
    ensures Sound(t)
  {
    var acts :| RunsFrom(s, acts) && Outcome(s, acts) == t;
    RunSound(s, acts);
  }

  // ----- runs end

  /** How many steps a boat's thread is from the end of its loop. */
  function BoatRank(pc: BoatPc): nat {
    match pc
    case SetBA => 11
    case SetBC => 10
    case InitBB => 9
    case Reset => 8
    case CallRider => 7
    case AskBoat => 6
    case WaitBoat => 5
    case AtBB => 4
    case Depart => 3
    case Ride => 2
    case Return => 1
    case AtEos => 0
  }

  function VisitorRank(pc: VisitorPc): nat {
    match pc
    case Sightsee => 6
    case CallBoat => 5
    case AskRider => 4
    case WaitRider => 3
    case Scan => 2
    case AtBoat(_) => 1
    case Left => 0
  }

  function BoatRanks(bs: seq<Boat>): nat {
    if bs == [] then 0 else BoatRank(bs[0].pc) + BoatRanks(bs[1..])
  }

  function VisitorRanks(vs: seq<Visitor>): nat {
    if vs == [] then 0 else VisitorRank(vs[0].pc) + VisitorRanks(vs[1..])
  }

  /** A bound on the steps that can still be taken; a boat's loop is eight steps at most. */
  function Work(s: Pier): int {
    8 * s.n + BoatRanks(s.boats) + VisitorRanks(s.visitors)
  }

  lemma {:induction false} BoatRanksUpdate(bs: seq<Boat>, i: nat, b: Boat)
    requires i < |bs|
    ensures BoatRanks(bs[i := b]) == BoatRanks(bs) - BoatRank(bs[i].pc) + BoatRank(b.pc)
  {
    if i == 0 {
      assert bs[i := b][1..] == bs[1..];
    } else {
      assert bs[i := b][1..] == bs[1..][i - 1 := b];
      BoatRanksUpdate(bs[1..], i - 1, b);
    }
  }

  lemma {:induction false} VisitorRanksUpdate(vs: seq<Visitor>, v: nat, x: Visitor)
    requires v < |vs|
    ensures VisitorRanks(vs[v := x]) == VisitorRanks(vs) - VisitorRank(vs[v].pc) + VisitorRank(x.pc)
  {
    if v == 0 {
      assert vs[v := x][1..] == vs[1..];
    } else {
      assert vs[v := x][1..] == vs[1..][v - 1 := x];
      VisitorRanksUpdate(vs[1..], v - 1, x);
    }
  }

  lemma BoatStepWorks(s: Pier, i: nat, w: nat)
    requires BoatCan(s, i, w)
    ensures Work(BoatStep(s, i, w)) < Work(s)
  {
    var t := BoatStep(s, i, w);
    BoatRanksUpdate(s.boats, i, t.boats[i]);
    if s.boats[i].pc == CallRider && s.rider.value < 0 {
      VisitorRanksUpdate(s.visitors, w, t.visitors[w]);
    }
  }

  lemma VisitorStepWorks(s: Pier, v: nat, w: nat)
    requires Inv(s) && VisitorCan(s, v, w)
    ensures Work(VisitorStep(s, v, w)) < Work(s)
  {
    var t := VisitorStep(s, v, w);
    if s.visitors[v].pc == Scan {
      ScanFinds(s, v);
      var k := Find(s.boats, 0);
      BoatRanksUpdate(s.boats, k, t.boats[k]);
    }
    VisitorRanksUpdate(s.visitors, v, t.visitors[v]);
    if s.visitors[v].pc == CallBoat && s.boat.value < 0 {
      BoatRanksUpdate(s.boats, w, t.boats[w]);
    }
  }

  /** Every step leaves less to do. */
  lemma NextWorks(s: Pier, a: Action)
    requires Inv(s) && Legal(s, a)
    ensures Work(Next(s, a)) < Work(s)
  {
    match a {
      case BoatMoves(i, w) => BoatStepWorks(s, i, w);
      case VisitorMoves(v, w) => VisitorStepWorks(s, v, w);
      case Meets(i, v) =>
        BoatRanksUpdate(s.boats, i, s.boats[i].(pc := Depart));
        VisitorRanksUpdate(s.visitors, v, s.visitors[v].(pc := Left));
    }
  }

  lemma RidesLeft(s: Pier)
    requires Inv(s)
    ensures s.n >= 0
  {
    assert Rides(s);
    Pigeonhole.Crowd(s.rides, |s.visitors|);
  }

  lemma {:induction false} RunWorks(s: Pier, acts: seq<Action>)
    requires Inv(s) && RunsFrom(s, acts)
    ensures |acts| <= Work(s)
    decreases |acts|
  {
    RidesLeft(s);
    if acts != [] {
      NextInv(s, acts[0]);
      NextWorks(s, acts[0]);
      RunWorks(Next(s, acts[0]), acts[1..]);
    }
  }

  lemma {:induction false} FirstRanks(bs: seq<Boat>)
    ensures BoatRanks(bs) <= 11 * |bs|
  {
    if bs != [] {
      FirstRanks(bs[1..]);
    }
  }

  lemma {:induction false} MostRanks(vs: seq<Visitor>)
    ensures VisitorRanks(vs) <= 6 * |vs|
  {
    if vs != [] {
      MostRanks(vs[1..]);
    }
  }

  /** No run is longer than eleven steps for each boat and fourteen for each visitor, whatever the
      interleaving. */
  lemma RunsEnd(s: Pier, acts: seq<Action>)
    requires Initial(s) && RunsFrom(s, acts)
    ensures |acts| <= 11 * |s.boats| + 14 * |s.visitors|
  {
    InitialInv(s);
    RunWorks(s, acts);
    InitialWork(s);
  }

  lemma InitialWork(s: Pier)
    requires Initial(s)
    ensures Work(s) <= 11 * |s.boats| + 14 * |s.visitors|
  {
    FirstRanks(s.boats);
    MostRanks(s.visitors);
  }

  /** So every run can be continued until nobody can take a step. */
  lemma {:induction false} ToTheEnd(s: Pier, t: Pier) returns (u: Pier)
    requires Reaches(s, t) && Inv(t)
    ensures Reaches(s, u) && Reaches(t, u) && Stuck(u)
    decreases Work(t)
  {
    RidesLeft(t);
    Stay(t);
    u := t;
    if !Stuck(t) {
      var a: Action :| Legal(t, a);
      NextInv(t, a);
      NextWorks(t, a);
      RidesLeft(Next(t, a));
      Go(s, t, a);
      u := ToTheEnd(s, Next(t, a));
      Earlier(t, a, u);
    }
  }

  lemma Earlier(t: Pier, a: Action, u: Pier)
    requires Legal(t, a) && Reaches(Next(t, a), u)
    ensures Reaches(t, u)
  {
    var acts :| RunsFrom(Next(t, a), acts) && Outcome(Next(t, a), acts) == u;
    assert ([a] + acts)[1..] == acts;
    assert RunsFrom(t, [a] + acts) && Outcome(t, [a] + acts) == u;
  }

  // ----- how a run ends

  /** When nobody can take a step, no thread is where only a step of its own is needed. */
  lemma StuckPlaces(s: Pier)
    requires Inv(s) && Stuck(s)
    ensures forall i | 0 <= i < |s.boats| :: s.boats[i].pc == WaitBoat || s.boats[i].pc == AtBB || s.boats[i].pc == AtEos
    ensures forall v | 0 <= v < |s.visitors| ::
      s.visitors[v].pc == WaitRider || s.visitors[v].pc.AtBoat? || s.visitors[v].pc == Left
  {
    forall i: nat | i < |s.boats|
      ensures s.boats[i].pc == WaitBoat || s.boats[i].pc == AtBB || s.boats[i].pc == AtEos
    {
      BoatNotStuck(s, i);
    }
    forall v: nat | v < |s.visitors|
      ensures s.visitors[v].pc == WaitRider || s.visitors[v].pc.AtBoat? || s.visitors[v].pc == Left
    {
      VisitorNotStuck(s, v);
    }
  }

  lemma {:induction false} AtSome(vs: seq<Visitor>, pc: VisitorPc) returns (v: nat)
    requires At(vs, pc) > 0
    ensures v < |vs| && vs[v].pc == pc
  {
    if vs[0].pc == pc {
      v := 0;
    } else {
      v := AtSome(vs[1..], pc);
      v := v + 1;
    }
  }

  lemma BoatNotStuck(s: Pier, i: nat)
    requires Inv(s) && Stuck(s) && i < |s.boats|
    ensures s.boats[i].pc == WaitBoat || s.boats[i].pc == AtBB || s.boats[i].pc == AtEos
  {
    var w: nat := 0;
    if s.rider.value < 0 {
      assert At(s.visitors, WaitRider) == TallyOf(s).asking > 0;
      w := AtSome(s.visitors, WaitRider);
    }
    assert !Legal(s, BoatMoves(i, w));
  }

  lemma VisitorNotStuck(s: Pier, v: nat)
    requires Inv(s) && Stuck(s) && v < |s.visitors|
    ensures s.visitors[v].pc == WaitRider || s.visitors[v].pc.AtBoat? || s.visitors[v].pc == Left
  {
    var w: nat := 0;
    if s.boat.value < 0 {
      assert Of(s.boats, Waiting) == TallyOf(s).waiting > 0;
      OfSome(s.boats, Waiting);
      w :| w < |s.boats| && Is(Waiting, s.boats[w]);
    }
    assert !Legal(s, VisitorMoves(v, w));
  }

  /** A boat at its barrier when nobody can take a step is one that no visitor has claimed. */
  lemma StuckUnclaimed(s: Pier, i: nat)
    requires Inv(s) && Stuck(s) && i < |s.boats| && s.boats[i].pc == AtBB
    ensures Available(s.boats[i])
  {
    assert BoatOk(s, i);
    var v: nat := if s.boats[i].bc >= 1 then s.boats[i].bc - 1 else 0;
    assert !Legal(s, Meets(i, v));
  }

  lemma {:induction false} OfOne(bs: seq<Boat>, k: Kind, i: nat)
    requires i < |bs| && Is(k, bs[i])
    ensures Of(bs, k) > 0
  {
    if i > 0 {
      OfOne(bs[1..], k, i - 1);
    }
  }

  /** All have given their V when nobody can take a step. */
  lemma StuckCalls(s: Pier)
    requires Sound(s) && Stuck(s)
    ensures s.boat.vs == |s.visitors| && Of(s.boats, Sailing) == 0
  {
    StuckPlaces(s);
    NoVisitors(s.visitors, Sightsee);
    NoVisitors(s.visitors, CallBoat);
    NoBoats(s.boats, Sailing);
  }

  /** A run that has come to its end has rides left exactly if a boat stands at its barrier, waiting for a
      visitor who will never come. */
  lemma StandstillShape(s: Pier)
    requires Sound(s) && Stuck(s) && s.boats != []
    ensures s.n >= 1 <==> exists i :: 0 <= i < |s.boats| && s.boats[i].pc == AtBB
  {
    StuckCalls(s);
    PsWithinVs(s);
    if i :| 0 <= i < |s.boats| && s.boats[i].pc == AtBB {
      OfOne(s.boats, Called, i);
      assert s.boat.ps <= s.boat.vs;
    } else {
      NobodyCalled(s);
    }
  }

  lemma NobodyCalled(s: Pier)
    requires Sound(s) && Stuck(s) && s.boats != [] && s.boat.vs == |s.visitors|
    requires forall i | 0 <= i < |s.boats| :: s.boats[i].pc != AtBB
    ensures s.n == 0
  {
    StuckPlaces(s);
    NoBoats(s.boats, Called);
    assert BoatOk(s, 0);
    if s.boats[0].pc == WaitBoat {
      OfOne(s.boats, Waiting, 0);
      PsWithinVs(s);
    }
  }

  /** With one boat, nobody can take a step only when all rides are over. */
  lemma OneBoatGoesOn(s: Pier)
    requires Sound(s) && Stuck(s) && |s.boats| == 1
    ensures s.n == 0
  {
    RidesLeft(s);
    if s.n >= 1 {
      StandstillShape(s);
      StuckUnclaimed(s, 0);
      StuckCalls(s);
      OneBoatLeft(s);
    }
  }

  lemma OneBoatLeft(s: Pier)
    requires Sound(s) && Stuck(s) && |s.boats| == 1 && s.boats[0].pc == AtBB && Available(s.boats[0])
    ensures At(s.visitors, Left) == |s.visitors|
  {
    StuckPlaces(s);
    NoVisitors(s.visitors, Scan);
    NoBoats(s.boats, Owing);
    OfOne(s.boats, Free, 0);
    assert s.rider.value > 0 && At(s.visitors, WaitRider) == TallyOf(s).asking == 0;
    forall v: nat | v < |s.visitors|
      ensures s.visitors[v].pc == Left
    {
      assert VisitorOk(s, v);
      if s.visitors[v].pc == WaitRider {
        AtOne(s.visitors, WaitRider, v);
      }
    }
    AllAt(s.visitors, Left);
  }

  /** What is reached from the initial state is sound, and has the same boats and visitors. */
  lemma Reached(s: Pier, t: Pier)
    requires Initial(s) && Reaches(s, t)
    ensures Sound(t) && t.variant == s.variant && |t.boats| == |s.boats| && |t.visitors| == |s.visitors|
  {
    InitialSound(s);
    ReachedSound(s, t);
    ReachedCrew(s, t);
  }

  lemma ReachedCrew(s: Pier, t: Pier)
    requires Reaches(s, t)
    ensures t.variant == s.variant && |t.boats| == |s.boats| && |t.visitors| == |s.visitors|
  {
    var acts :| RunsFrom(s, acts) && Outcome(s, acts) == t;
    SameCrew(s, acts);
  }

  /** One boat serves everybody: wherever a run can go no further, every visitor has ridden, once. */
  lemma OneBoatServesAll(s: Pier, t: Pier)
    requires Initial(s) && |s.boats| == 1 && Reaches(s, t) && Stuck(t)
    ensures t.n == 0 && |t.rides| == |t.visitors| && forall v: nat | v < |t.visitors| :: v in t.rides && t.visitors[v].pc == Left
  {
    Reached(s, t);
    OneBoatGoesOn(t);
    AllRidden(t);
  }

  lemma {:induction false} SameCrew(s: Pier, acts: seq<Action>)
    requires RunsFrom(s, acts)
    ensures var t := Outcome(s, acts);
      t.variant == s.variant && |t.boats| == |s.boats| && |t.visitors| == |s.visitors|
    decreases |acts|
  {
    if acts != [] {
      SameCrew(Next(s, acts[0]), acts[1..]);
    }
  }

  lemma AllRidden(s: Pier)
    requires Inv(s) && s.n == 0
    ensures |s.rides| == |s.visitors| && forall v: nat | v < |s.visitors| :: v in s.rides && s.visitors[v].pc == Left
  {
    assert Rides(s);
    forall v: nat | v < |s.visitors|
      ensures v in s.rides && s.visitors[v].pc == Left
    {
      if v !in s.rides {
        Pigeonhole.Crowd(s.rides + [v], |s.visitors|);
      }
      HasRidden(s, v);
    }
  }

  lemma HasRidden(s: Pier, v: nat)
    requires Rides(s) && v < |s.visitors|
    ensures v in s.rides ==> s.visitors[v].pc == Left
  {
    if v in s.rides {
      var k :| 0 <= k < |s.rides| && s.rides[k] == v;
    }
  }

  // ----- standstills

  /** Every visitor has claimed a boat, and a boat that none of them claimed is at its barrier. */
  predicate Doomed(s: Pier, i: nat) {
    && i < |s.boats| && s.boats[i].pc == AtBB && Available(s.boats[i])
    && forall v | 0 <= v < |s.visitors| :: s.visitors[v].pc.AtBoat? || s.visitors[v].pc == Left
  }

  lemma DoomedStays(s: Pier, i: nat, a: Action)
    requires Inv(s) && Doomed(s, i) && Legal(s, a)
    ensures Doomed(Next(s, a), i)
  {
    if a.Meets? {
      assert VisitorOk(s, a.v);
    }
    NoVisitors(s.visitors, WaitRider);
    assert TallyOf(s).asking == 0 && s.rider.value >= 0;
  }

  lemma {:induction false} DoomedForEver(s: Pier, i: nat, acts: seq<Action>)
    requires Inv(s) && Doomed(s, i) && RunsFrom(s, acts)
    ensures Doomed(Outcome(s, acts), i)
    decreases |acts|
  {
    if acts != [] {
      DoomedStays(s, i, acts[0]);
      NextInv(s, acts[0]);
      DoomedForEver(Next(s, acts[0]), i, acts[1..]);
    }
  }

  lemma DoomedRides(s: Pier, i: nat)
    requires Sound(s) && Doomed(s, i)
    ensures s.n >= 1
  {
    OfOne(s.boats, Called, i);
    PsWithinVs(s);
  }

  /** From there every way leads to a standstill with a ride to come. */
  lemma DoomedStandstill(s: Pier, t: Pier, i: nat)
    requires Reaches(s, t) && Sound(t) && Doomed(t, i)
    ensures exists u :: Reaches(s, u) && Stuck(u) && u.n >= 1
  {
    var u := ToTheEnd(s, t);
    var acts :| RunsFrom(t, acts) && Outcome(t, acts) == u;
    DoomedForEver(t, i, acts);
    RunSound(t, acts);
    DoomedRides(u, i);
  }

  // ----- the way to a standstill

  /** A boat before P(boat), free or about to make itself so. */
  predicate Idle(variant: Variant, b: Boat) {
    match b.pc
    case SetBA => variant == AtEnd
    case SetBC => variant == AtEnd && b.ba == 1
    case InitBB => variant == AtEnd ==> Available(b)
    case Reset => variant == AtHead
    case CallRider => Available(b)
    case AskBoat => Available(b)
    case _ => false
  }

  /** Such a boat, moving alone, gets to wait at the semaphore. */
  lemma {:induction false} Settle(s: Pier, t: Pier, i: nat) returns (u: Pier)
    requires Reaches(s, t) && i < |t.boats| && Idle(t.variant, t.boats[i])
    requires t.boat.value <= 0 && t.rider.value >= 0
    ensures Reaches(s, u) && |u.boats| == |t.boats| && u.boats == t.boats[i := u.boats[i]]
    ensures u.boats[i].pc == WaitBoat && Available(u.boats[i])
    ensures u.boat.value == t.boat.value - 1
    ensures u.rider.value == t.rider.value + if t.boats[i].pc == AskBoat then 0 else 1
    ensures u.variant == t.variant && u.visitors == t.visitors && u.n == t.n
    decreases BoatRank(t.boats[i].pc)
  {
    Go(s, t, BoatMoves(i, 0));
    u := Next(t, BoatMoves(i, 0));
    if t.boats[i].pc != AskBoat {
      u := Settle(s, u, i);
    }
  }

  /** Boat 0 waits for the k-th visitor; those before have ridden, those after have not called, and boat 1
      has not begun. */
  predicate Next0(s: Pier, t: Pier, k: nat) {
    && t.variant == s.variant && |t.boats| == |s.boats| >= 2 && |t.visitors| == |s.visitors|
    && t.boat.value == -1 && t.rider.value == 1 && t.n == |s.visitors| - k
    && t.boats[0].pc == WaitBoat && Available(t.boats[0]) && t.boats[1] == FirstBoat(s.variant)
    && (forall v | 0 <= v < k && v < |t.visitors| :: t.visitors[v].pc == Left)
    && (forall v | k <= v < |t.visitors| :: t.visitors[v].pc == Sightsee)
  }

  /** The k-th visitor wakes boat w, and scans. */
  lemma Comes(s: Pier, t: Pier, k: nat, w: nat) returns (u: Pier)
    requires Reaches(s, t) && k < |t.visitors| && t.visitors[k].pc == Sightsee
    requires w < |t.boats| && t.boats[w].pc == WaitBoat && t.boat.value < 0 && t.rider.value > 0
    ensures Reaches(s, u)
    ensures u.variant == t.variant && u.boats == t.boats[w := t.boats[w].(pc := AtBB)] && u.n == t.n
    ensures u.visitors == t.visitors[k := t.visitors[k].(pc := Scan)]
    ensures u.boat.value == t.boat.value + 1 && u.rider.value == t.rider.value - 1
  {
    Go(s, t, VisitorMoves(k, w));
    var t1 := Next(t, VisitorMoves(k, w));
    Go(s, t1, VisitorMoves(k, w));
    var t2 := Next(t1, VisitorMoves(k, w));
    Go(s, t2, VisitorMoves(k, w));
    u := Next(t2, VisitorMoves(k, w));
  }

  /** It claims boat 0, which is free. */
  lemma Claims(s: Pier, t: Pier, k: nat) returns (u: Pier)
    requires Reaches(s, t) && k < |t.visitors| && t.visitors[k].pc == Scan && t.boats != [] && Available(t.boats[0])
    ensures Reaches(s, u)
    ensures u == t.(boats := t.boats[0 := t.boats[0].(bc := k + 1, bt := t.visitors[k].rtime)],
                    visitors := t.visitors[k := t.visitors[k].(pc := AtBoat(0))])
  {
    Go(s, t, VisitorMoves(k, 0));
    u := Next(t, VisitorMoves(k, 0));
  }

  /** They meet and ride. */
  lemma RidesWith0(s: Pier, t: Pier, k: nat) returns (u: Pier)
    requires Reaches(s, t) && k < |t.visitors| && t.visitors[k].pc == AtBoat(0) && t.n >= 2
    requires t.boats != [] && t.boats[0].pc == AtBB && t.boats[0].bc == k + 1
    ensures Reaches(s, u)
    ensures u.variant == t.variant && |u.boats| == |t.boats| && u.boats == t.boats[0 := u.boats[0]] && Idle(u.variant, u.boats[0])
    ensures u.boats[0].pc != AskBoat && u.n == t.n - 1 && u.boat == t.boat && u.rider == t.rider
    ensures u.visitors == t.visitors[k := t.visitors[k].(pc := Left)]
  {
    Go(s, t, Meets(0, k));
    var t1 := Next(t, Meets(0, k));
    Go(s, t1, BoatMoves(0, 0));
    var t2 := Next(t1, BoatMoves(0, 0));
    Go(s, t2, BoatMoves(0, 0));
    var t3 := Next(t2, BoatMoves(0, 0));
    Go(s, t3, BoatMoves(0, 0));
    u := Next(t3, BoatMoves(0, 0));
  }

  lemma Serves(s: Pier, t: Pier, k: nat) returns (u: Pier)
    requires Reaches(s, t) && Next0(s, t, k) && k + 1 < |s.visitors|
    ensures Reaches(s, u) && Next0(s, u, k + 1)
  {
    var t1 := Comes(s, t, k, 0);
    var t2 := Claims(s, t1, k);
    var t3 := RidesWith0(s, t2, k);
    u := Settle(s, t3, 0);
  }

  /** All but the last visitor ride with boat 0. */
  lemma {:induction false} ServesAllButOne(s: Pier, t: Pier, k: nat) returns (u: Pier)
    requires Reaches(s, t) && Next0(s, t, k) && k < |s.visitors|
    ensures Reaches(s, u) && Next0(s, u, |s.visitors| - 1)
    decreases |s.visitors| - k
  {
    u := t;
    if k + 1 < |s.visitors| {
      var t1 := Serves(s, t, k);
      u := ServesAllButOne(s, t1, k + 1);
    }
  }

  /** The last one's V wakes boat 1, but its scan claims boat 0. */
  lemma LastMismatch(s: Pier, t: Pier) returns (u: Pier)
    requires Reaches(s, t) && s.visitors != [] && Next0(s, t, |s.visitors| - 1)
    ensures Reaches(s, u) && Doomed(u, 1)
  {
    var t1 := Settle(s, t, 1);
    var t2 := Comes(s, t1, |s.visitors| - 1, 1);
    u := Claims(s, t2, |s.visitors| - 1);
  }

  /** Two boats are enough for a standstill before the last ride, in either program and however many
      visitors there are. */
  lemma MayGetStuck(s: Pier)
    requires Initial(s) && |s.boats| >= 2
    ensures exists t :: Reaches(s, t) && Stuck(t) && t.n >= 1
  {
    var t := GetsDoomed(s);
    Reached(s, t);
    DoomedStandstill(s, t, 1);
  }

  lemma GetsDoomed(s: Pier) returns (t: Pier)
    requires Initial(s) && |s.boats| >= 2
    ensures Reaches(s, t) && Doomed(t, 1)
  {
    Stay(s);
    t := Settle(s, s, 0);
    t := ServesAllButOne(s, t, 0);
    t := LastMismatch(s, t);
  }

  /** Without boats nobody ever rides. */
  lemma {:induction false} NoBoatsNoRides(s: Pier, acts: seq<Action>)
    requires RunsFrom(s, acts) && s.boats == []
    ensures Outcome(s, acts).n == s.n
    decreases |acts|
  {
    if acts != [] {
      NoBoatsNoRides(Next(s, acts[0]), acts[1..]);
    }
  }

  lemma NoBoatsStandstill(s: Pier)
    requires Initial(s) && s.boats == []
    ensures exists t :: Reaches(s, t) && Stuck(t) && t.n >= 1
  {
    var t := SomeEnd(s);
    var acts :| RunsFrom(s, acts) && Outcome(s, acts) == t;
    NoBoatsNoRides(s, acts);
  }

  lemma SomeEnd(s: Pier) returns (t: Pier)
    requires Initial(s)
    ensures Reaches(s, t) && Stuck(t)
  {
    Stay(s);
    InitialInv(s);
    t := ToTheEnd(s, s);
  }

  /** Either program can come to a standstill with rides to come exactly when there is not one boat, no
      more and no less. */
  lemma StandstillIff(s: Pier)
    requires Initial(s)
    ensures (exists t :: Reaches(s, t) && Stuck(t) && t.n >= 1) <==> |s.boats| != 1
  {
    if |s.boats| == 1 {
      forall t | Reaches(s, t) && Stuck(t)
        ensures t.n < 1
      {
        OneBoatServesAll(s, t);
      }
    } else if s.boats == [] {
      NoBoatsStandstill(s);
    } else {
      MayGetStuck(s);
    }
  }

  // ----- barriers not yet initialised

  /** A visitor is at the barrier of a boat that has not initialised it. */
  predicate TooEarly(s: Pier, v: nat) {
    && v < |s.visitors| && s.visitors[v].pc.AtBoat?
    && s.visitors[v].pc.i < |s.boats| && s.boats[s.visitors[v].pc.i].pc == InitBB
  }

  /** Never in the variant that makes boats available at the loop head. */
  lemma BarrierIsReady(s: Pier, v: nat)
    requires Inv(s) && s.variant == AtHead
    ensures !TooEarly(s, v)
  {
    if v < |s.visitors| && s.visitors[v].pc.AtBoat? {
      assert VisitorOk(s, v) && BoatOk(s, s.visitors[v].pc.i);
    }
  }

  /** Nor with a single boat: it is not yet announced, so nobody can have found it. */
  lemma OneBarrierIsReady(s: Pier, v: nat)
    requires Inv(s) && |s.boats| == 1
    ensures !TooEarly(s, v)
  {
    if v < |s.visitors| && s.visitors[v].pc.AtBoat? {
      assert VisitorOk(s, v) && BoatOk(s, 0);
      UnannouncedIsFree(s);
    }
  }

  lemma UnannouncedIsFree(s: Pier)
    requires Counted(s) && |s.boats| == 1
    ensures Unannounced(s.boats[0]) ==> Available(s.boats[0])
  {
    OneBoatCounts(s.boats);
    assert TallyOf(s).free >= TallyOf(s).owing;
  }

  lemma OneBoatCounts(bs: seq<Boat>)
    requires |bs| == 1
    ensures Of(bs, Free) == One(Available(bs[0])) && Of(bs, Owing) == One(Unannounced(bs[0]))
  {
    assert bs[1..] == [];
  }

  /** Boat 1 announces itself, and the first visitor finds boat 0, which is not ready. */
  lemma BarrierMayNotBeReady(s: Pier)
    requires Initial(s) && s.variant == AtEnd && |s.boats| >= 2
    ensures exists t :: Reaches(s, t) && TooEarly(t, 0)
  {
    Stay(s);
    Go(s, s, BoatMoves(0, 0));
    var t := Next(s, BoatMoves(0, 0));
    Go(s, t, BoatMoves(0, 0));
    t := Next(t, BoatMoves(0, 0));
    t := Settle(s, t, 1);
    t := Comes(s, t, 0, 1);
    t := Claims(s, t, 0);
    assert TooEarly(t, 0);
  }

  /** A visitor can come to a barrier that has not been initialised exactly in the other variant with two
      boats or more. */
  lemma TooEarlyIff(s: Pier)
    requires Initial(s)
    ensures (exists t, v: nat :: Reaches(s, t) && TooEarly(t, v)) <==> s.variant == AtEnd && |s.boats| >= 2
  {
    if s.variant == AtEnd && |s.boats| >= 2 {
      BarrierMayNotBeReady(s);
    } else {
      forall t, v: nat | Reaches(s, t)
        ensures !TooEarly(t, v)
      {
        NeverTooEarly(s, t, v);
      }
    }
  }

  lemma NeverTooEarly(s: Pier, t: Pier, v: nat)
    requires Initial(s) && Reaches(s, t) && (s.variant == AtHead || |s.boats| < 2)
    ensures !TooEarly(t, v)
  {
    Reached(s, t);
    if t.variant == AtHead {
      BarrierIsReady(t, v);
    } else if |t.boats| == 1 {
      OneBarrierIsReady(t, v);
    }
  }
}
