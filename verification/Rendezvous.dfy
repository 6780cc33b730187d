/** Boats and visitors meeting through two counting semaphores, a mutex and a barrier for each boat: both
    programs, as steps taken in any interleaving.  What is done under a mutex is one step; a thread waiting
    on a condition variable goes on only when signalled. */
module Rendezvous {
  import opened Pigeonhole

  /** Whether a boat makes itself available again at the end of its loop, or at the head of it. */
  datatype Variant = AtEnd | AtHead

  datatype BoatPc = SetBA | SetBC | InitBB | Reset | CallRider | AskBoat | WaitBoat | AtBB | Depart | Ride | Return | AtEos

  /** A boat's thread with its cells BA, BC and BT. */
  datatype Boat = Boat(pc: BoatPc, ba: int, bc: int, bt: int)

  datatype VisitorPc = Sightsee | CallBoat | AskRider | WaitRider | Scan | AtBoat(i: nat) | Left

  datatype Visitor = Visitor(pc: VisitorPc, rtime: int)

  /** A semaphore: its value, and how many V's and completed P's there have been. */
  datatype Semaphore = Semaphore(value: int, vs: nat, ps: nat)

  /** n counts the rides to come; rides lists the visitors whose rides have ended. */
  datatype Pier = Pier(variant: Variant, n: int, boat: Semaphore, rider: Semaphore,
                       boats: seq<Boat>, visitors: seq<Visitor>, rides: seq<nat>)

  function FirstBoat(variant: Variant): Boat {
    if variant == AtEnd then Boat(SetBA, 0, 0, 0) else Boat(InitBB, 0, -1, 0)
  }

  /** Before any thread has taken a step. */
  predicate Initial(s: Pier) {
    && s.n == |s.visitors| > 0 && s.rides == []
    && s.boat == Semaphore(0, 0, 0) && s.rider == Semaphore(0, 0, 0)
    && (forall i | 0 <= i < |s.boats| :: s.boats[i] == FirstBoat(s.variant))
    && (forall v | 0 <= v < |s.visitors| :: s.visitors[v].pc == Sightsee)
  }

  predicate Available(b: Boat) {
    b.ba == 1 && b.bc == -1
  }

  // ----- steps

  /** P when the value stays at 0 or above; otherwise the thread will wait. */
  function Took(m: Semaphore): Semaphore {
    Semaphore(m.value - 1, m.vs, if m.value > 0 then m.ps + 1 else m.ps)
  }

  /** V; a waiting thread completes its P if there is one. */
  function Gave(m: Semaphore): Semaphore {
    Semaphore(m.value + 1, m.vs + 1, if m.value < 0 then m.ps + 1 else m.ps)
  }

  function SetBoat(s: Pier, i: nat, b: Boat): Pier
    requires i < |s.boats|
  {
    s.(boats := s.boats[i := b])
  }

  function SetVisitor(s: Pier, v: nat, pc: VisitorPc): Pier
    requires v < |s.visitors|
  {
    s.(visitors := s.visitors[v := s.visitors[v].(pc := pc)])
  }

  /** V on the rider semaphore signals a waiting visitor w, if the value was negative. */
  predicate CanWakeVisitor(s: Pier, w: nat) {
    s.rider.value < 0 ==> w < |s.visitors| && s.visitors[w].pc == WaitRider
  }

  predicate CanWakeBoat(s: Pier, w: nat) {
    s.boat.value < 0 ==> w < |s.boats| && s.boats[w].pc == WaitBoat
  }

  predicate BoatCan(s: Pier, i: nat, w: nat) {
    && i < |s.boats|
    && match s.boats[i].pc
       case CallRider => CanWakeVisitor(s, w)
       case WaitBoat => false
       case AtBB => false
       case AtEos => false
       case _ => true
  }

  /** The next step of boat i's thread. */
  function BoatStep(s: Pier, i: nat, w: nat): Pier
    requires BoatCan(s, i, w)
  {
    var b := s.boats[i];
    match b.pc
    case SetBA => SetBoat(s, i, b.(ba := 1, pc := SetBC))
    case SetBC => SetBoat(s, i, b.(bc := -1, pc := InitBB))
    case InitBB => SetBoat(s, i, b.(pc := if s.variant == AtEnd then CallRider else Reset))
    case Reset => SetBoat(s, i, b.(ba := 1, bc := -1, pc := CallRider))
    case CallRider =>
      var t := SetBoat(s, i, b.(pc := AskBoat)).(rider := Gave(s.rider));
      if s.rider.value < 0 then SetVisitor(t, w, Scan) else t
    case AskBoat => SetBoat(s, i, b.(pc := if s.boat.value > 0 then AtBB else WaitBoat)).(boat := Took(s.boat))
    case Depart => SetBoat(s, i, b.(ba := 0, pc := Ride))
    case Ride => SetBoat(s, i, b.(pc := Return))
    case Return =>
      var done := if s.n - 1 <= 0 then AtEos else if s.variant == AtEnd then CallRider else Reset;
      var after := if s.variant == AtEnd then Boat(done, 1, -1, b.bt) else b.(pc := done);
      SetBoat(s, i, after).(n := s.n - 1, rides := s.rides + if b.bc > 0 then [(b.bc - 1) as nat] else [])
  }

  predicate VisitorCan(s: Pier, v: nat, w: nat) {
    && v < |s.visitors|
    && match s.visitors[v].pc
       case CallBoat => CanWakeBoat(s, w)
       case WaitRider => false
       case AtBoat(_) => false
       case Left => false
       case _ => true
  }

  /** The first boat, from the i-th on, that is available; the number of boats if there is none. */
  function Find(boats: seq<Boat>, i: nat): (k: nat)
    requires i <= |boats|
    ensures i <= k <= |boats| && (forall j | i <= j < k :: !Available(boats[j])) && (k < |boats| ==> Available(boats[k]))
    decreases |boats| - i
  {
    if i == |boats| || Available(boats[i]) then i else Find(boats, i + 1)
  }

  /** The next step of visitor v's thread. */
  function VisitorStep(s: Pier, v: nat, w: nat): Pier
    requires VisitorCan(s, v, w)
  {
    match s.visitors[v].pc
    case Sightsee => SetVisitor(s, v, CallBoat)
    case CallBoat =>
      var t := SetVisitor(s, v, AskRider).(boat := Gave(s.boat));
      if s.boat.value < 0 then SetBoat(t, w, s.boats[w].(pc := AtBB)) else t
    case AskRider => SetVisitor(s, v, if s.rider.value > 0 then Scan else WaitRider).(rider := Took(s.rider))
    case Scan =>
      var k := Find(s.boats, 0);
      if k == |s.boats| then s
      else SetBoat(SetVisitor(s, v, AtBoat(k)), k, s.boats[k].(bc := v + 1, bt := s.visitors[v].rtime))
  }

  /** The barrier of boat i, of two, opens for the boat and a visitor waiting at it. */
  predicate CanMeet(s: Pier, i: nat, v: nat) {
    i < |s.boats| && v < |s.visitors| && s.boats[i].pc == AtBB && s.visitors[v].pc == AtBoat(i)
  }

  function Meet(s: Pier, i: nat, v: nat): Pier
    requires CanMeet(s, i, v)
  {
    SetVisitor(SetBoat(s, i, s.boats[i].(pc := Depart)), v, Left)
  }

  // ----- counting

  /** How many visitors are at a point of their thread. */
  function At(vs: seq<Visitor>, pc: VisitorPc): nat {
    if vs == [] then 0 else (if vs[0].pc == pc then 1 else 0) + At(vs[1..], pc)
  }

  lemma {:induction false} AtUpdate(vs: seq<Visitor>, v: nat, x: Visitor, pc: VisitorPc)
    requires v < |vs|
    ensures At(vs[v := x], pc) == At(vs, pc) - (if vs[v].pc == pc then 1 else 0) + (if x.pc == pc then 1 else 0)
  {
    if v == 0 {
      assert vs[v := x][1..] == vs[1..];
    } else {
      assert vs[v := x][1..] == vs[1..][v - 1 := x];
      AtUpdate(vs[1..], v - 1, x, pc);
    }
  }

  datatype Kind = Free | Waiting | Owing | Sailing | Called

  predicate Is(k: Kind, b: Boat) {
    match k
    case Free => Available(b)
    case Waiting => b.pc == WaitBoat
    case Owing => Unannounced(b)
    case Sailing => Sails(b)
    case Called => b.pc == AtBB || Sails(b)
  }

  /** How many boats are of a kind. */
  function Of(bs: seq<Boat>, k: Kind): nat {
    if bs == [] then 0 else (if Is(k, bs[0]) then 1 else 0) + Of(bs[1..], k)
  }

  lemma {:induction false} OfUpdate(bs: seq<Boat>, i: nat, b: Boat, k: Kind)
    requires i < |bs|
    ensures Of(bs[i := b], k) == Of(bs, k) - (if Is(k, bs[i]) then 1 else 0) + (if Is(k, b) then 1 else 0)
  {
    if i == 0 {
      assert bs[i := b][1..] == bs[1..];
    } else {
      assert bs[i := b][1..] == bs[1..][i - 1 := b];
      OfUpdate(bs[1..], i - 1, b, k);
    }
  }

  lemma {:induction false} OfSome(bs: seq<Boat>, k: Kind)
    requires Of(bs, k) > 0
    ensures exists i :: 0 <= i < |bs| && Is(k, bs[i])
  {
    if !Is(k, bs[0]) {
      OfSome(bs[1..], k);
      var i :| 0 <= i < |bs[1..]| && Is(k, bs[1..][i]);
      assert Is(k, bs[i + 1]);
    }
  }

  lemma {:induction false} AtOne(vs: seq<Visitor>, pc: VisitorPc, v: nat)
    requires v < |vs| && vs[v].pc == pc
    ensures At(vs, pc) > 0
  {
    if v > 0 {
      AtOne(vs[1..], pc, v - 1);
    }
  }

  /** Available, or taken already, but not yet announced; or through with the last ride. */
  predicate Unannounced(b: Boat) {
    b.pc == CallRider || (b.ba == 1 && (b.pc == InitBB || b.pc == AtEos))
  }

  /** Threads wait just when the value is negative, as many as it says; otherwise it says by how much the
      V's exceed the completed P's. */
  predicate Balanced(m: Semaphore, waiting: int) {
    if m.value < 0 then waiting == -m.value && m.vs == m.ps
    else waiting == 0 && m.vs == m.ps + m.value
  }

  // ----- the invariant

  /** Boat i is free, or held by a visitor on the way to its barrier, whose ride time it has. */
  predicate FreeOrHeld(s: Pier, i: nat)
    requires i < |s.boats|
  {
    var b := s.boats[i];
    b.bc == -1 || (1 <= b.bc <= |s.visitors| && s.visitors[b.bc - 1] == Visitor(AtBoat(i), b.bt))
  }

  /** Boat i is with a visitor who met it, and whose ride is not over. */
  predicate Taken(s: Pier, i: nat)
    requires i < |s.boats|
  {
    var b := s.boats[i];
    1 <= b.bc <= |s.visitors| && s.visitors[b.bc - 1] == Visitor(Left, b.bt) && b.bc - 1 !in s.rides
  }

  predicate Sails(b: Boat) {
    b.pc == Depart || b.pc == Ride || b.pc == Return
  }

  predicate Lies(b: Boat) {
    b.pc == CallRider || b.pc == AskBoat || b.pc == WaitBoat || b.pc == AtBB || (b.pc == InitBB && b.ba == 1)
  }

  predicate BoatOk(s: Pier, i: nat)
    requires i < |s.boats|
  {
    var b := s.boats[i];
    && (b.ba == 0 || b.ba == 1)
    && (Lies(b) ==> b.ba == 1 && FreeOrHeld(s, i))
    && (Sails(b) ==> Taken(s, i) && (b.ba == 1 <==> b.pc == Depart))
    && match b.pc
       case SetBA => s.variant == AtEnd && b.ba == 0 && b.bc == 0
       case SetBC => s.variant == AtEnd && b.ba == 1 && b.bc == 0
       case InitBB => b.ba == if s.variant == AtEnd then 1 else 0
       case Reset => s.variant == AtHead && b.ba == 0
       case AtEos => s.n == 0 && (if s.variant == AtEnd then b.ba == 1 && b.bc == -1 else b.ba == 0)
       case _ => true
  }

  predicate VisitorOk(s: Pier, v: nat)
    requires v < |s.visitors|
  {
    var x := s.visitors[v];
    x.pc.AtBoat? ==> x.pc.i < |s.boats| && Lies(s.boats[x.pc.i]) && s.boats[x.pc.i].bc == v + 1
  }

  predicate Rides(s: Pier) {
    && s.n == |s.visitors| - |s.rides|
    && (forall k | 0 <= k < |s.rides| :: s.rides[k] < |s.visitors| && s.visitors[s.rides[k]].pc == Left)
    && (forall j, k | 0 <= j < k < |s.rides| :: s.rides[j] != s.rides[k])
    && (forall i, j | 0 <= i < j < |s.boats| && Sails(s.boats[i]) && Sails(s.boats[j]) :: s.boats[i].bc != s.boats[j].bc)
  }

  /** How many visitors wait and scan; how many boats are free, wait, and are not announced. */
  datatype Tally = Tally(asking: int, scanning: int, free: int, waiting: int, owing: int)

  /** Threads wait just when the value is negative, as many as it says; and the free boats are those of
      which a scanning visitor is assured, those not yet announced, and those announced for which no
      visitor has asked. */
  predicate Adds(boat: Semaphore, rider: Semaphore, c: Tally) {
    && Balanced(rider, c.asking)
    && Balanced(boat, c.waiting)
    && c.free == c.scanning + c.owing + if rider.value > 0 then rider.value else 0
  }

  function TallyOf(s: Pier): Tally {
    Tally(At(s.visitors, WaitRider), At(s.visitors, Scan), Of(s.boats, Free), Of(s.boats, Waiting), Of(s.boats, Owing))
  }

  predicate Counted(s: Pier) {
    Adds(s.boat, s.rider, TallyOf(s))
  }

  /** Every boat and visitor is where its cells say. */
  predicate Placed(s: Pier) {
    && (forall i: nat | i < |s.boats| :: BoatOk(s, i))
    && (forall v: nat | v < |s.visitors| :: VisitorOk(s, v))
    && Rides(s)
  }

  ghost predicate Inv(s: Pier) {
    Placed(s) && Counted(s)
  }

  lemma InitialPlaced(s: Pier)
    requires Initial(s)
    ensures Placed(s)
  {
  }

  lemma {:induction false} NoVisitors(vs: seq<Visitor>, pc: VisitorPc)
    requires forall v | 0 <= v < |vs| :: vs[v].pc != pc
    ensures At(vs, pc) == 0
  {
    if vs != [] {
      NoVisitors(vs[1..], pc);
    }
  }

  lemma {:induction false} NoBoats(bs: seq<Boat>, k: Kind)
    requires forall i | 0 <= i < |bs| :: !Is(k, bs[i])
    ensures Of(bs, k) == 0
  {
    if bs != [] {
      NoBoats(bs[1..], k);
    }
  }

  lemma InitialInv(s: Pier)
    requires Initial(s)
    ensures Inv(s)
  {
    InitialPlaced(s);
    NoVisitors(s.visitors, WaitRider);
    NoVisitors(s.visitors, Scan);
    NoBoats(s.boats, Free);
    NoBoats(s.boats, Waiting);
    NoBoats(s.boats, Owing);
    assert TallyOf(s) == Tally(0, 0, 0, 0, 0);
  }

  // ----- the counts

  function One(b: bool): int {
    if b then 1 else 0
  }

  /** The tally when a boat changes. */
  function BoatTally(c: Tally, x: Boat, y: Boat): Tally {
    c.(free := c.free - One(Available(x)) + One(Available(y)),
       waiting := c.waiting - One(x.pc == WaitBoat) + One(y.pc == WaitBoat),
       owing := c.owing - One(Unannounced(x)) + One(Unannounced(y)))
  }

  /** The tally when a visitor goes on. */
  function VisitorTally(c: Tally, x: VisitorPc, y: VisitorPc): Tally {
    c.(asking := c.asking - One(x == WaitRider) + One(y == WaitRider),
       scanning := c.scanning - One(x == Scan) + One(y == Scan))
  }

  lemma BoatCounts(s: Pier, i: nat, b: Boat)
    requires i < |s.boats|
    ensures TallyOf(SetBoat(s, i, b)) == BoatTally(TallyOf(s), s.boats[i], b)
  {
    OfUpdate(s.boats, i, b, Free);
    OfUpdate(s.boats, i, b, Waiting);
    OfUpdate(s.boats, i, b, Owing);
  }

  lemma VisitorCounts(s: Pier, v: nat, pc: VisitorPc)
    requires v < |s.visitors|
    ensures TallyOf(SetVisitor(s, v, pc)) == VisitorTally(TallyOf(s), s.visitors[v].pc, pc)
  {
    AtUpdate(s.visitors, v, s.visitors[v].(pc := pc), WaitRider);
    AtUpdate(s.visitors, v, s.visitors[v].(pc := pc), Scan);
  }

  /** How the step of a boat changes the tally. */
  lemma BoatStepTally(s: Pier, i: nat, w: nat)
    requires BoatCan(s, i, w)
    ensures var t := BoatStep(s, i, w);
      && |t.boats| == |s.boats|
      && TallyOf(t) == (var c := BoatTally(TallyOf(s), s.boats[i], t.boats[i]);
                        if s.boats[i].pc == CallRider && s.rider.value < 0 then VisitorTally(c, WaitRider, Scan) else c)
  {
    var t := BoatStep(s, i, w);
    BoatCounts(s, i, t.boats[i]);
    if s.boats[i].pc == CallRider && s.rider.value < 0 {
      VisitorCounts(SetBoat(s, i, t.boats[i]), w, Scan);
    }
  }

  lemma BoatStepCounted(s: Pier, i: nat, w: nat)
    requires Counted(s) && BoatCan(s, i, w) && BoatOk(s, i)
    ensures Counted(BoatStep(s, i, w))
  {
    BoatStepTally(s, i, w);
  }

  /** How the step of a visitor changes the tally. */
  lemma VisitorStepTally(s: Pier, v: nat, w: nat)
    requires VisitorCan(s, v, w)
    ensures var t := VisitorStep(s, v, w); var k := Find(s.boats, 0);
      && |t.visitors| == |s.visitors| && |t.boats| == |s.boats|
      && TallyOf(t) == (var c := VisitorTally(TallyOf(s), s.visitors[v].pc, t.visitors[v].pc);
                        if s.visitors[v].pc == CallBoat && s.boat.value < 0 then BoatTally(c, s.boats[w], t.boats[w])
                        else if s.visitors[v].pc == Scan && k < |s.boats| then BoatTally(c, s.boats[k], t.boats[k])
                        else c)
  {
    var t := VisitorStep(s, v, w);
    var u := SetVisitor(s, v, t.visitors[v].pc);
    var k := Find(s.boats, 0);
    VisitorCounts(s, v, t.visitors[v].pc);
    if s.visitors[v].pc == CallBoat && s.boat.value < 0 {
      BoatCounts(u, w, t.boats[w]);
    } else if s.visitors[v].pc == Scan && k < |s.boats| {
      BoatCounts(u, k, t.boats[k]);
    }
  }

  lemma VisitorStepCounted(s: Pier, v: nat, w: nat)
    requires Placed(s) && Counted(s) && VisitorCan(s, v, w)
    ensures Counted(VisitorStep(s, v, w))
  {
    VisitorStepTally(s, v, w);
    var k := Find(s.boats, 0);
    assert k < |s.boats| ==> BoatOk(s, k);
    assert w < |s.boats| ==> BoatOk(s, w);
  }

  lemma MeetCounted(s: Pier, i: nat, v: nat)
    requires Counted(s) && CanMeet(s, i, v)
    ensures Counted(Meet(s, i, v))
  {
    var b := s.boats[i].(pc := Depart);
    BoatCounts(s, i, b);
    VisitorCounts(SetBoat(s, i, b), v, Left);
  }

  // ----- places

  /** The ride counted off is one of a visitor not counted before, so n was above 0. */
  lemma RidesToCome(s: Pier, i: nat)
    requires Placed(s) && i < |s.boats| && Sails(s.boats[i])
    ensures s.n >= 1
  {
    assert BoatOk(s, i);
    var all := s.rides + [(s.boats[i].bc - 1) as nat];
    Crowd(all, |s.visitors|);
  }

  /** A visitor who has not left has a ride to come. */
  lemma RideAhead(s: Pier, v: nat)
    requires Placed(s) && v < |s.visitors| && s.visitors[v].pc != Left
    ensures s.n >= 1
  {
    Crowd(s.rides + [v], |s.visitors|);
  }

  /** Changing one boat, not its visitor, and no more. */
  lemma BoatPlaced(s: Pier, i: nat, b: Boat)
    requires Placed(s) && i < |s.boats|
    requires var t := SetBoat(s, i, b);
      && BoatOk(t, i)
      && b.bc == s.boats[i].bc && (Lies(s.boats[i]) ==> Lies(b)) && (Sails(b) ==> Sails(s.boats[i]))
    ensures Placed(SetBoat(s, i, b))
  {
    var t := SetBoat(s, i, b);
    forall j: nat | j < |t.boats|
      ensures BoatOk(t, j)
    {
      assert BoatOk(s, j);
    }
    forall v: nat | v < |t.visitors|
      ensures VisitorOk(t, v)
    {
      assert VisitorOk(s, v);
    }
  }

  /** Clearing the claim of a boat that is not lying at its place. */
  lemma BoatFreed(s: Pier, i: nat, b: Boat)
    requires Placed(s) && i < |s.boats|
    requires BoatOk(SetBoat(s, i, b), i) && !Lies(s.boats[i]) && !Sails(b)
    ensures Placed(SetBoat(s, i, b))
  {
    var t := SetBoat(s, i, b);
    forall j: nat | j < |t.boats|
      ensures BoatOk(t, j)
    {
      assert BoatOk(s, j);
    }
    forall v: nat | v < |t.visitors|
      ensures VisitorOk(t, v)
    {
      assert VisitorOk(s, v);
    }
  }

  /** A visitor going on who has no boat before or after. */
  lemma VisitorPlaced(s: Pier, v: nat, pc: VisitorPc)
    requires Placed(s) && v < |s.visitors|
    requires !s.visitors[v].pc.AtBoat? && s.visitors[v].pc != Left && !pc.AtBoat?
    ensures Placed(SetVisitor(s, v, pc))
  {
    var t := SetVisitor(s, v, pc);
    forall j: nat | j < |t.boats|
      ensures BoatOk(t, j)
    {
      assert BoatOk(s, j);
    }
    forall x: nat | x < |t.visitors|
      ensures VisitorOk(t, x)
    {
      assert VisitorOk(s, x);
    }
  }

  lemma Semaphores(s: Pier, boat: Semaphore, rider: Semaphore)
    requires Placed(s)
    ensures Placed(s.(boat := boat, rider := rider))
  {
    var t := s.(boat := boat, rider := rider);
    forall j: nat | j < |t.boats|
      ensures BoatOk(t, j)
    {
      assert BoatOk(s, j);
    }
    forall x: nat | x < |t.visitors|
      ensures VisitorOk(t, x)
    {
      assert VisitorOk(s, x);
    }
  }

  lemma CallPlaced(s: Pier, i: nat, w: nat)
    requires Placed(s) && BoatCan(s, i, w) && s.boats[i].pc == CallRider
    ensures Placed(BoatStep(s, i, w))
  {
    var b := s.boats[i].(pc := AskBoat);
    assert BoatOk(s, i);
    BoatPlaced(s, i, b);
    var t := SetBoat(s, i, b);
    Semaphores(t, t.boat, Gave(s.rider));
    if s.rider.value < 0 {
      VisitorPlaced(t.(rider := Gave(s.rider)), w, Scan);
    }
  }

  lemma BoatStepPlaced(s: Pier, i: nat, w: nat)
    requires Placed(s) && BoatCan(s, i, w) && s.boats[i].pc != Return
    ensures Placed(BoatStep(s, i, w))
  {
    var b := s.boats[i];
    assert BoatOk(s, i);
    if b.pc == SetBC {
      BoatFreed(s, i, b.(bc := -1, pc := InitBB));
    } else if b.pc == Reset {
      BoatFreed(s, i, b.(ba := 1, bc := -1, pc := CallRider));
    } else if b.pc == CallRider {
      CallPlaced(s, i, w);
    } else if b.pc == AskBoat {
      var c := b.(pc := if s.boat.value > 0 then AtBB else WaitBoat);
      BoatPlaced(s, i, c);
      Semaphores(SetBoat(s, i, c), Took(s.boat), s.rider);
    } else {
      BoatPlaced(s, i, BoatStep(s, i, w).boats[i]);
    }
  }

  lemma ReturnPlaced(s: Pier, i: nat, w: nat)
    requires Placed(s) && BoatCan(s, i, w) && s.boats[i].pc == Return
    ensures Placed(BoatStep(s, i, w))
  {
    assert BoatOk(s, i);
    RidesToCome(s, i);
    var t := BoatStep(s, i, w);
    forall j: nat | j < |t.boats|
      ensures BoatOk(t, j)
    {
      assert BoatOk(s, j);
    }
    forall v: nat | v < |t.visitors|
      ensures VisitorOk(t, v)
    {
      assert VisitorOk(s, v);
    }
  }

  lemma ClaimPlaced(s: Pier, v: nat, k: nat)
    requires Placed(s) && v < |s.visitors| && s.visitors[v].pc == Scan && k < |s.boats| && Available(s.boats[k])
    ensures Placed(SetBoat(SetVisitor(s, v, AtBoat(k)), k, s.boats[k].(bc := v + 1, bt := s.visitors[v].rtime)))
  {
    RideAhead(s, v);
    assert BoatOk(s, k);
    assert Lies(s.boats[k]);
    var t := SetBoat(SetVisitor(s, v, AtBoat(k)), k, s.boats[k].(bc := v + 1, bt := s.visitors[v].rtime));
    forall j: nat | j < |t.boats|
      ensures BoatOk(t, j)
    {
      assert BoatOk(s, j);
    }
    forall x: nat | x < |t.visitors|
      ensures VisitorOk(t, x)
    {
      assert VisitorOk(s, x);
    }
  }

  lemma VisitorStepPlaced(s: Pier, v: nat, w: nat)
    requires Placed(s) && VisitorCan(s, v, w)
    ensures Placed(VisitorStep(s, v, w))
  {
    match s.visitors[v].pc {
      case Sightsee => VisitorPlaced(s, v, CallBoat);
      case CallBoat =>
        VisitorPlaced(s, v, AskRider);
        var t := SetVisitor(s, v, AskRider);
        Semaphores(t, Gave(s.boat), t.rider);
        if s.boat.value < 0 {
          assert BoatOk(s, w);
          BoatPlaced(t.(boat := Gave(s.boat)), w, s.boats[w].(pc := AtBB));
        }
      case AskRider =>
        var pc := if s.rider.value > 0 then Scan else WaitRider;
        VisitorPlaced(s, v, pc);
        Semaphores(SetVisitor(s, v, pc), s.boat, Took(s.rider));
      case Scan =>
        var k := Find(s.boats, 0);
        if k < |s.boats| {
          ClaimPlaced(s, v, k);
        }
    }
  }

  lemma MeetPlaced(s: Pier, i: nat, v: nat)
    requires Placed(s) && CanMeet(s, i, v)
    ensures Placed(Meet(s, i, v))
  {
    assert BoatOk(s, i) && VisitorOk(s, v);
    var t := Meet(s, i, v);
    forall j: nat | j < |t.boats|
      ensures BoatOk(t, j) && (j != i && Sails(t.boats[j]) ==> t.boats[j].bc != t.boats[i].bc)
    {
      assert BoatOk(s, j);
    }
    forall x: nat | x < |t.visitors|
      ensures VisitorOk(t, x)
    {
      assert VisitorOk(s, x);
    }
  }

  // ----- whole runs

  datatype Action = BoatMoves(i: nat, w: nat) | VisitorMoves(v: nat, w: nat) | Meets(i: nat, v: nat)

  predicate Legal(s: Pier, a: Action) {
    match a
    case BoatMoves(i, w) => BoatCan(s, i, w)
    case VisitorMoves(v, w) => VisitorCan(s, v, w)
    case Meets(i, v) => CanMeet(s, i, v)
  }

  function Next(s: Pier, a: Action): Pier
    requires Legal(s, a)
  {
    match a
    case BoatMoves(i, w) => BoatStep(s, i, w)
    case VisitorMoves(v, w) => VisitorStep(s, v, w)
    case Meets(i, v) => Meet(s, i, v)
  }

  lemma NextInv(s: Pier, a: Action)
    requires Inv(s) && Legal(s, a)
    ensures Inv(Next(s, a))
  {
    match a {
      case BoatMoves(i, w) =>
        assert BoatOk(s, i);
        BoatStepCounted(s, i, w);
        if s.boats[i].pc == Return {
          ReturnPlaced(s, i, w);
        } else {
          BoatStepPlaced(s, i, w);
        }
      case VisitorMoves(v, w) =>
        VisitorStepCounted(s, v, w);
        VisitorStepPlaced(s, v, w);
      case Meets(i, v) =>
        MeetCounted(s, i, v);
        MeetPlaced(s, i, v);
    }
  }

  predicate RunsFrom(s: Pier, acts: seq<Action>)
    decreases |acts|
  {
    acts != [] ==> Legal(s, acts[0]) && RunsFrom(Next(s, acts[0]), acts[1..])
  }

  function Outcome(s: Pier, acts: seq<Action>): Pier
    requires RunsFrom(s, acts)
    decreases |acts|
  {
    if acts == [] then s else Outcome(Next(s, acts[0]), acts[1..])
  }

  /** Every run of either program keeps the invariant. */
  lemma {:induction false} RunInv(s: Pier, acts: seq<Action>)
    requires Inv(s) && RunsFrom(s, acts)
    ensures Inv(Outcome(s, acts))
    decreases |acts|
  {
    if acts != [] {
      NextInv(s, acts[0]);
      RunInv(Next(s, acts[0]), acts[1..]);
    }
  }

  // ----- what holds in every state

  /** The first scan finds a boat. */
  lemma ScanFinds(s: Pier, v: nat)
    requires Inv(s) && v < |s.visitors| && s.visitors[v].pc == Scan
    ensures Find(s.boats, 0) < |s.boats|
    ensures VisitorCan(s, v, 0) && VisitorStep(s, v, 0).visitors[v].pc.AtBoat?
  {
    AtOne(s.visitors, Scan, v);
    OfSome(s.boats, Free);
  }

  /** There are never fewer free boats than visitors who have passed P(rider) and not claimed one. */
  lemma EnoughBoats(s: Pier)
    requires Inv(s)
    ensures At(s.visitors, Scan) <= Of(s.boats, Free)
  {
    assert TallyOf(s).scanning <= TallyOf(s).free;
  }

  /** Completed P's never exceed V's; a thread waits only when there is no V to spare. */
  lemma PsWithinVs(s: Pier)
    requires Inv(s)
    ensures s.rider.ps <= s.rider.vs && s.boat.ps <= s.boat.vs
    ensures At(s.visitors, WaitRider) > 0 ==> s.rider.ps == s.rider.vs
    ensures Of(s.boats, Waiting) > 0 ==> s.boat.ps == s.boat.vs
  {
    var c := TallyOf(s);
    assert Balanced(s.rider, c.asking) && Balanced(s.boat, c.waiting);
  }

  /** At the barrier of boat i there is never more than one visitor, the one who claimed it; and the boat
      that comes there is the one claimed. */
  lemma PairsMeet(s: Pier, i: nat, v: nat)
    requires Inv(s) && v < |s.visitors| && s.visitors[v].pc == AtBoat(i)
    ensures i < |s.boats| && s.boats[i].bc == v + 1 && s.boats[i].bt == s.visitors[v].rtime
    ensures forall w | 0 <= w < |s.visitors| && s.visitors[w].pc == AtBoat(i) :: w == v
  {
    assert VisitorOk(s, v) && BoatOk(s, i);
    forall w: nat | w < |s.visitors| && s.visitors[w].pc == AtBoat(i)
      ensures w == v
    {
      assert VisitorOk(s, w);
    }
  }

  /** A boat that has left its barrier rides with the visitor it met there, for that visitor's ride time,
      and no other boat rides with the same visitor. */
  lemma RightRider(s: Pier, i: nat, v: nat)
    requires Inv(s) && CanMeet(s, i, v)
    ensures var t := Meet(s, i, v);
            t.boats[i].pc == Depart && t.boats[i].bc == v + 1 && t.boats[i].bt == s.visitors[v].rtime
    ensures forall j | 0 <= j < |s.boats| && Sails(s.boats[j]) :: s.boats[j].bc != v + 1
    ensures v !in s.rides
  {
    assert BoatOk(s, i) && VisitorOk(s, v);
    forall j: nat | j < |s.boats| && Sails(s.boats[j])
      ensures s.boats[j].bc != v + 1
    {
      assert BoatOk(s, j);
    }
  }

  /** A boat is claimed only when free, and is not free again until its own thread has ended the ride. */
  lemma OneClaimEach(s: Pier, a: Action, i: nat)
    requires Inv(s) && Legal(s, a) && i < |s.boats| && s.boats[i].bc != -1
    ensures i < |Next(s, a).boats|
    ensures Next(s, a).boats[i].bc == s.boats[i].bc
         || (a.BoatMoves? && a.i == i && (s.boats[i].pc == SetBC || s.boats[i].pc == Reset || s.boats[i].pc == Return))
  {
    if a.VisitorMoves? && s.visitors[a.v].pc == Scan {
      var k := Find(s.boats, 0);
    }
  }

  /** The end of the session comes after every visitor has ridden, each once; and before that no boat
      stops. */
  lemma EosAfterAllRides(s: Pier, i: nat)
    requires Inv(s) && i < |s.boats|
    ensures s.boats[i].pc == AtEos ==>
      |s.rides| == |s.visitors| && (forall v: nat | v < |s.visitors| :: v in s.rides && s.visitors[v].pc == Left)
    ensures s.n >= 0 && (s.n == 0 ==> !Sails(s.boats[i]))
  {
    Crowd(s.rides, |s.visitors|);
    assert BoatOk(s, i);
    if Sails(s.boats[i]) {
      RidesToCome(s, i);
    }
    forall v: nat | v < |s.visitors| && s.n == 0
      ensures v in s.rides
    {
      if v !in s.rides {
        Crowd(s.rides + [v], |s.visitors|);
      }
    }
  }
}
