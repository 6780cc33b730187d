/** The pending-request list: singly linked behind a dummy head F, with a pointer B to the last node. */
module RequestList {
  import opened BankerSpec

  class Node {
    const item: Request
    var next: Node?

    constructor (item: Request)
      ensures this.item == item && next == null
    {
      this.item := item;
      next := null;
    }
  }

  ghost function Items(nodes: seq<Node>): seq<Request> {
    seq(|nodes|, k requires 0 <= k < |nodes| => nodes[k].item)
  }

  /** These nodes, in this order, are all that is reached from the first. */
  ghost predicate Linked(nodes: seq<Node>)
    reads nodes
  {
    && nodes != []
    && (forall k | 0 <= k < |nodes| - 1 :: nodes[k].next == nodes[k + 1])
    && nodes[|nodes| - 1].next == null
    && (forall a, b | 0 <= a < b < |nodes| :: nodes[a] != nodes[b])
  }

  lemma OnlyLastEnds(nodes: seq<Node>, k: nat)
    requires Linked(nodes) && k < |nodes|
    ensures nodes[k].next == null <==> k == |nodes| - 1
    ensures k < |nodes| - 1 ==> nodes[k].next == nodes[k + 1]
  {
  }

  class RQ {
    var F: Node
    var B: Node?
    ghost var chain: seq<Node>
    ghost var owned: set<Node>

    /** The chain from the dummy on is well linked and made of the list's own nodes. */
    ghost predicate Whole()
      reads this, owned
    {
      && (forall k | 0 <= k < |chain| :: chain[k] in owned)
      && Linked(chain) && chain[0] == F
    }

    ghost predicate Valid()
      reads this, owned
    {
      && Whole()
      && B == if |chain| == 1 then null else chain[|chain| - 1]
    }

    /** The pending requests, oldest first. */
    ghost function Contents(): seq<Request>
      reads this
      requires chain != []
    {
      Items(chain[1..])
    }

    constructor ()
      ensures Valid() && Contents() == [] && fresh(owned)
    {
      F := new Node(Request(0, []));
      B := null;
      new;
      chain, owned := [F], {F};
    }

    method Empty() returns (b: bool)
      requires Valid()
      ensures b <==> Contents() == []
    {
      b := B == null;
    }

    method Front() returns (p: Node?)
      requires Valid()
      ensures Contents() == [] ==> p == null
      ensures Contents() != [] ==> p != null && p.item == Contents()[0]
    {
      if B == null {
        return null;
      }
      assert chain[0].next == chain[1];
      p := F.next;
    }

    method Enqueue(r: Request)
      requires Valid()
      modifies this, owned
      ensures Valid() && fresh(owned - old(owned))
      ensures Contents() == old(Contents()) + [r]
    {
      var p := new Node(r);
      if B == null {
        F.next := p;
      } else {
        B.next := p;
      }
      B := p;
      chain, owned := chain + [p], owned + {p};
    }

    /** Takes the node after p out of the list; B is put right afterwards by RepairTail. */
    method Unlink(p: Node, ghost k: nat)
      requires Whole() && k + 1 < |chain| && p == chain[k]
      modifies p, this`chain
      ensures chain == old(chain[..k + 1] + chain[k + 2..])
      ensures Whole()
      ensures p.next == if k + 1 < |chain| then chain[k + 1] else null
    {
      assert p.next == chain[k + 1] && (k + 2 < |chain| ==> chain[k + 1].next == chain[k + 2]);
      p.next := p.next.next;
      chain := chain[..k + 1] + chain[k + 2..];
    }

    method RepairTail()
      requires Whole()
      modifies this`B
      ensures Valid()
    {
      OnlyLastEnds(chain, 0);
      if F.next == null {
        B := null;
      } else {
        B := F.next;
        ghost var at := 1;
        while B.next != null
          invariant 1 <= at < |chain| && B == chain[at] && Linked(chain)
          decreases |chain| - at
        {
          OnlyLastEnds(chain, at);
          B := B.next;
          at := at + 1;
        }
        OnlyLastEnds(chain, at);
      }
    }

    method Dequeue()
      requires Valid()
      modifies this, owned
      ensures Valid() && owned == old(owned)
      ensures Contents() == if old(Contents()) == [] then [] else old(Contents())[1..]
    {
      if B == null {
        return;
      }
      assert chain[0].next == chain[1] && (|chain| > 2 ==> chain[1].next == chain[2]);
      F.next := F.next.next;
      if F.next == null {
        B := null;
      }
      chain := [F] + chain[2..];
    }
  }
}
