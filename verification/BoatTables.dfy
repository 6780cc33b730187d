/** The tables BA, BC and BT that boats and visitors share, and what is done to them under the mutex. */
module BoatTables {
  import opened Rendezvous

  class Tables {
    const b: nat
    const BA: array<int>
    const BC: array<int>
    const BT: array<int>
    var n: int

    ghost predicate Valid()
      reads this
    {
      BA.Length == BC.Length == BT.Length == b + 1 && BA != BC && BA != BT && BC != BT
    }

    /** The cells are those of the boats of the protocol; boat i has number i+1 here. */
    ghost predicate Mirrors(boats: seq<Boat>)
      reads this, BA, BC, BT
    {
      && Valid() && |boats| == b
      && forall i | 0 <= i < b :: BA[i + 1] == boats[i].ba && BC[i + 1] == boats[i].bc && BT[i + 1] == boats[i].bt
    }

    /** Nothing is available at first: all cells are 0, but in the program that makes boats available at the
        loop head no boat is claimed from the start. */
    constructor (variant: Variant, b: nat, n: int)
      ensures Valid() && this.b == b && this.n == n && fresh(BA) && fresh(BC) && fresh(BT)
      ensures Mirrors(seq(b, _ => FirstBoat(variant)))
    {
      this.b, this.n := b, n;
      BA := new int[b + 1](_ => 0);
      BC := new int[b + 1](i => if variant == AtHead && i >= 1 then -1 else 0);
      BT := new int[b + 1](_ => 0);
    }

    /** Visitor rno looks for a boat, from the first on, and claims the first that is available; -1 when
        there is none. */
    method Claim(rno: int, rtime: int, ghost boats: seq<Boat>) returns (bno: int)
      requires Mirrors(boats)
      modifies BC, BT
      ensures Valid()
      ensures var k := Find(boats, 0);
        if k == b then bno == -1 && Mirrors(boats)
        else bno == k + 1 && Mirrors(boats[k := boats[k].(bc := rno, bt := rtime)])
    {
      var i := 1;
      while i <= b
        invariant 1 <= i <= b + 1 && Mirrors(boats) && Find(boats, 0) == Find(boats, i - 1)
      {
        if BA[i] == 1 && BC[i] == -1 {
          BC[i], BT[i] := rno, rtime;
          return i;
        }
        i := i + 1;
      }
      bno := -1;
    }

    /** Boat bno, past its barrier, reads who its rider is, and is not available any more. */
    method SetOff(bno: nat, ghost boats: seq<Boat>) returns (rno: int, rtime: int)
      requires Mirrors(boats) && 1 <= bno <= b
      modifies BA
      ensures rno == boats[bno - 1].bc && rtime == boats[bno - 1].bt
      ensures Mirrors(boats[bno - 1 := boats[bno - 1].(ba := 0)])
    {
      rno, rtime := BC[bno], BT[bno];
      BA[bno] := 0;
    }

    /** Boat bno is back: it is available again, and one ride fewer is to come. */
    method ComeBack(bno: nat, ghost boats: seq<Boat>) returns (over: bool)
      requires Mirrors(boats) && 1 <= bno <= b
      modifies `n, BA, BC
      ensures Mirrors(boats[bno - 1 := boats[bno - 1].(ba := 1, bc := -1)])
      ensures n == old(n) - 1 && (over <==> n == 0)
    {
      BA[bno], BC[bno] := 1, -1;
      n := n - 1;
      over := n == 0;
    }
  }

  /** The claim is the scanning step of the protocol, and in a state of the protocol it never fails. */
  lemma ClaimIsScan(s: Pier, v: nat)
    requires Inv(s) && v < |s.visitors| && s.visitors[v].pc == Scan
    ensures var k := Find(s.boats, 0);
      && k < |s.boats| && VisitorCan(s, v, 0)
      && VisitorStep(s, v, 0).boats == s.boats[k := s.boats[k].(bc := v + 1, bt := s.visitors[v].rtime)]
  {
    ScanFinds(s, v);
  }
}
