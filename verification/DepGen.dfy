/** The generator of dependency files: a random permutation, random edges upwards in it, sorted lists. */
module DepGen {
  import opened DepGraph
  import opened Pigeonhole

  // ----- bubble sort

  predicate Sorted(s: seq<nat>) {
    forall i, k | 0 <= i < k < |s| :: s[i] <= s[k]
  }

  /** From m on, every element is as great as all before it. */
  predicate SortedFrom(s: seq<nat>, m: nat) {
    forall i, k | m <= i < |s| && 0 <= k <= i :: s[k] <= s[i]
  }

  /** The element at i is as great as all before it. */
  predicate Top(s: seq<nat>, i: nat)
    requires i < |s|
  {
    forall k | 0 <= k < i :: s[k] <= s[i]
  }

  /** s with elements i and i+1 in order. */
  function Ordered(s: seq<nat>, i: nat): (t: seq<nat>)
    requires i + 1 < |s|
    ensures |t| == |s|
  {
    if s[i] > s[i + 1] then s[i := s[i + 1]][i + 1 := s[i]] else s
  }

  lemma OrderedStep(s: seq<nat>, i: nat, m: nat)
    requires i + 1 < |s| && i + 1 < m && SortedFrom(s, m) && Top(s, i)
    ensures var t := Ordered(s, i); SortedFrom(t, m) && Top(t, i + 1) && multiset(t) == multiset(s)
  {
  }

  method Exchange(A: array<nat>, i: nat, n: nat)
    requires i + 1 < n <= A.Length
    modifies A
    ensures A[n..] == old(A[n..]) && A[..n] == Ordered(old(A[..n]), i)
  {
    ghost var s := A[..n];
    if A[i] > A[i + 1] {
      var t := A[i];
      A[i] := A[i + 1];
      A[i + 1] := t;
    }
    assert A[..n] == Ordered(s, i);
  }

  /** One pass: the greatest of the first j+2 elements comes last among them. */
  method Pass(A: array<nat>, j: nat, n: nat)
    requires j + 1 < n <= A.Length && SortedFrom(A[..n], j + 2)
    modifies A
    ensures multiset(A[..n]) == multiset(old(A[..n])) && A[n..] == old(A[n..])
    ensures SortedFrom(A[..n], j + 1)
  {
    var i := 0;
    while i <= j
      invariant 0 <= i <= j + 1
      invariant multiset(A[..n]) == multiset(old(A[..n])) && A[n..] == old(A[n..])
      invariant Top(A[..n], i) && SortedFrom(A[..n], j + 2)
    {
      OrderedStep(A[..n], i, j + 2);
      Exchange(A, i, n);
      i := i + 1;
    }
  }

  /** Sorts the first n elements. */
  method BSort(A: array<nat>, n: nat)
    requires n <= A.Length
    modifies A
    ensures Sorted(A[..n]) && multiset(A[..n]) == multiset(old(A[..n])) && A[n..] == old(A[n..])
  {
    if n <= 1 {
      return;
    }
    var j := n - 2;
    while j >= 0
      invariant -1 <= j <= n - 2
      invariant multiset(A[..n]) == multiset(old(A[..n])) && A[n..] == old(A[n..])
      invariant SortedFrom(A[..n], j + 2)
    {
      Pass(A, j, n);
      j := j - 1;
    }
  }

  // ----- the permutation

  /** P has each of 1 to n once. */
  predicate Permutation(P: seq<nat>) {
    && (forall i | 0 <= i < |P| :: 1 <= P[i] <= |P|)
    && (forall i, k | 0 <= i < k < |P| :: P[i] != P[k])
  }

  /** The numbers from 1 up, shuffled. */
  method Shuffle(n: nat) returns (P: array<nat>)
    ensures fresh(P) && P.Length == n && Permutation(P[..])
  {
    P := new nat[n](i => i + 1);
    var i := n - 1;
    while i > 0
      invariant i <= n - 1 && Permutation(P[..])
    {
      var j: nat :| j < i + 1;
      P[i], P[j] := P[j], P[i];
      i := i - 1;
    }
  }

  /** R[P[i]] == i for every i. */
  predicate Inverse(P: seq<nat>, R: seq<nat>) {
    && |R| == |P| + 1
    && (forall i | 0 <= i < |P| :: P[i] < |R| && R[P[i]] == i)
  }

  method Invert(P: array<nat>) returns (R: array<nat>)
    requires Permutation(P[..])
    ensures fresh(R) && Inverse(P[..], R[..])
  {
    R := new nat[P.Length + 1];
    var i := 0;
    while i < P.Length
      invariant 0 <= i <= P.Length && forall k | 0 <= k < i :: R[P[k]] == k
    {
      assert forall k | 0 <= k < i :: P[..][k] != P[..][i];
      R[P[i]] := i;
      i := i + 1;
    }
  }

  /** A permutation reaches every number, so its inverse inverts on both sides. */
  lemma EveryNumber(P: seq<nat>, R: seq<nat>, v: nat)
    requires Permutation(P) && Inverse(P, R) && 1 <= v <= |P|
    ensures R[v] < |P| && P[R[v]] == v
  {
    if v !in P {
      var a := seq(|P| + 1, i requires 0 <= i <= |P| => if i < |P| then (P[i] - 1) as nat else (v - 1) as nat);
      Crowd(a, |P|);
    }
    var i :| 0 <= i < |P| && P[i] == v;
  }

  // ----- the file

  /** Edges go upwards only. */
  predicate Upper(A: array2<bool>)
    reads A
  {
    A.Length0 == A.Length1 && forall i, j | 0 <= i < A.Length0 && 0 <= j < A.Length1 && A[i, j] :: i < j
  }

  method RandomEdges(n: nat) returns (A: array2<bool>)
    ensures fresh(A) && A.Length0 == n && Upper(A)
  {
    A := new bool[n, n]((_, _) => false);
    var i := 0;
    while i < n
      invariant 0 <= i <= n && Upper(A)
    {
      var j := i + 1;
      while j < n
        invariant i < j <= n && Upper(A)
      {
        var r: nat :| r < 3;
        if r == 0 {
          A[i, j] := true;
        }
        j := j + 1;
      }
      i := i + 1;
    }
  }

  predicate Distinct(s: seq<nat>) {
    forall i, k | 0 <= i < k < |s| :: s[i] != s[k]
  }

  lemma {:induction false} DistinctOnce(s: seq<nat>, x: nat)
    requires Distinct(s)
    ensures multiset(s)[x] <= 1
  {
    if s != [] {
      var last := |s| - 1;
      DistinctOnce(s[..last], x);
      assert s == s[..last] + [s[last]];
      assert s[last] !in s[..last];
    }
  }

  lemma CountedTwice(d: seq<nat>, i: nat, k: nat)
    requires i < k < |d| && d[i] == d[k]
    ensures multiset(d)[d[i]] >= 2
  {
    assert d == d[..k] + d[k..];
    assert d[i] in d[..k] && d[k] in d[k..];
  }

  /** Rearranging keeps elements distinct. */
  lemma StillDistinct(s: seq<nat>, d: seq<nat>)
    requires Distinct(s) && multiset(s) == multiset(d)
    ensures Distinct(d)
  {
    forall i, k | 0 <= i < k < |d|
      ensures d[i] != d[k]
    {
      DistinctOnce(s, d[i]);
      if d[i] == d[k] {
        CountedTwice(d, i, k);
      }
    }
  }

  /** The foodules that the one at position t depends on, of those before position upto. */
  function Collected(A: array2<bool>, P: seq<nat>, t: nat, upto: nat): seq<nat>
    requires t < A.Length0 == A.Length1 == |P| && upto <= |P|
    reads A
  {
    if upto == 0 then []
    else Collected(A, P, t, upto - 1) + if A[t, upto - 1] then [P[upto - 1]] else []
  }

  /** Each is the foodule of some position to which there is an edge. */
  lemma {:induction false} CollectedFrom(A: array2<bool>, P: seq<nat>, t: nat, upto: nat, v: nat) returns (j: nat)
    requires t < A.Length0 == A.Length1 == |P| && upto <= |P| && v in Collected(A, P, t, upto)
    ensures j < upto && A[t, j] && P[j] == v
  {
    if v in Collected(A, P, t, upto - 1) {
      j := CollectedFrom(A, P, t, upto - 1, v);
    } else {
      j := upto - 1;
    }
  }

  /** And each of these is collected. */
  lemma {:induction false} CollectedAll(A: array2<bool>, P: seq<nat>, t: nat, upto: nat, j: nat)
    requires t < A.Length0 == A.Length1 == |P| && j < upto <= |P| && A[t, j]
    ensures P[j] in Collected(A, P, t, upto)
  {
    if j < upto - 1 {
      CollectedAll(A, P, t, upto - 1, j);
    }
  }

  lemma {:induction false} CollectedDistinct(A: array2<bool>, P: seq<nat>, t: nat, upto: nat)
    requires t < A.Length0 == A.Length1 == |P| && upto <= |P| && Permutation(P)
    ensures Distinct(Collected(A, P, t, upto)) && |Collected(A, P, t, upto)| <= upto
  {
    if upto > 0 {
      CollectedDistinct(A, P, t, upto - 1);
      if P[upto - 1] in Collected(A, P, t, upto - 1) {
        var j := CollectedFrom(A, P, t, upto - 1, P[upto - 1]);
      }
    }
  }

  /** Collects the dependencies of the foodule at position t in B. */
  method Collect(A: array2<bool>, P: array<nat>, t: nat, B: array<nat>) returns (k: nat)
    requires t < A.Length0 == A.Length1 == P.Length == B.Length && B != P
    modifies B
    ensures k <= B.Length && B[..k] == Collected(A, P[..], t, P.Length)
  {
    k := 0;
    ghost var p := P[..];
    var j := 0;
    while j < P.Length
      invariant 0 <= k <= j <= P.Length && P[..] == p
      invariant B[..k] == Collected(A, p, t, j)
    {
      if A[t, j] {
        B[k] := P[j];
        k := k + 1;
      }
      j := j + 1;
    }
  }

  /** The sorted dependencies of the foodule at position t. */
  method Row(A: array2<bool>, P: array<nat>, t: nat, B: array<nat>) returns (deps: seq<nat>)
    requires t < A.Length0 == A.Length1 == P.Length == B.Length && B != P
    modifies B
    ensures Sorted(deps) && multiset(deps) == multiset(Collected(A, P[..], t, P.Length))
  {
    var k := Collect(A, P, t, B);
    BSort(B, k);
    deps := B[..k];
  }

  /** The ranking that shows the file to be without cycles: positions in the permutation. */
  function Rank(R: seq<nat>): seq<nat> {
    if R == [] then [] else R[1..]
  }

  /** There is an edge from position t to that of foodule v. */
  predicate Edge(A: array2<bool>, P: seq<nat>, t: nat, v: nat)
    reads A
    requires t < A.Length0 == A.Length1 == |P|
  {
    exists j | 0 <= j < |P| :: A[t, j] && P[j] == v
  }

  /** The line of foodule i: it lists v exactly if there is an edge to v. */
  method MakeLine(i: nat, P: array<nat>, R: array<nat>, A: array2<bool>, B: array<nat>) returns (line: Line)
    requires 1 <= i <= P.Length && Permutation(P[..]) && Inverse(P[..], R[..])
    requires A.Length0 == P.Length == B.Length && Upper(A) && B != P && B != R
    modifies B
    ensures LineOk(line, i - 1, R[..], P.Length)
    ensures R[i] < P.Length && forall v: nat :: v in line.deps <==> Edge(A, P[..], R[i], v)
  {
    EveryNumber(P[..], R[..], i);
    var t := R[i];
    var deps := Row(A, P, t, B);
    RowIsLine(deps, A, P[..], R[..], i);
    RowHasEdges(deps, A, P[..], t);
    line := Line(P[t], deps);
  }

  lemma RowHasEdges(deps: seq<nat>, A: array2<bool>, P: seq<nat>, t: nat)
    requires t < A.Length0 == A.Length1 == |P| && multiset(deps) == multiset(Collected(A, P, t, |P|))
    ensures forall v: nat :: v in deps <==> Edge(A, P, t, v)
  {
    var row := Collected(A, P, t, |P|);
    forall v: nat
      ensures v in deps <==> Edge(A, P, t, v)
    {
      assert v in deps <==> v in multiset(row);
      if v in row {
        var j := CollectedFrom(A, P, t, |P|, v);
      }
      if Edge(A, P, t, v) {
        var j :| 0 <= j < |P| && A[t, j] && P[j] == v;
        CollectedAll(A, P, t, |P|, j);
      }
    }
  }

  /** The positions joined by an edge. */
  ghost function EdgesOf(A: array2<bool>): set<(nat, nat)>
    reads A
  {
    set i: nat, j: nat | i < A.Length0 && j < A.Length1 && A[i, j] :: (i, j)
  }

  /** The line lists v exactly if an edge goes from the position of its foodule to that of v. */
  ghost predicate ListsEdges(l: Line, P: seq<nat>, edges: set<(nat, nat)>) {
    forall v: nat :: v in l.deps <==> Joined(P, edges, l.foodule, v)
  }

  ghost predicate Joined(P: seq<nat>, edges: set<(nat, nat)>, u: nat, v: nat) {
    exists t: nat, j: nat :: t < |P| && j < |P| && (t, j) in edges && P[t] == u && P[j] == v
  }

  lemma LineListsEdges(l: Line, A: array2<bool>, P: seq<nat>, R: seq<nat>, i: nat)
    requires Permutation(P) && Inverse(P, R) && 1 <= i <= |P| && A.Length0 == A.Length1 == |P|
    requires R[i] < |P| && l.foodule == i && forall v: nat :: v in l.deps <==> Edge(A, P, R[i], v)
    ensures ListsEdges(l, P, EdgesOf(A))
  {
    EveryNumber(P, R, i);
    forall v: nat
      ensures Edge(A, P, R[i], v) <==> Joined(P, EdgesOf(A), i, v)
    {
      if Edge(A, P, R[i], v) {
        var j: nat :| j < |P| && A[R[i], j] && P[j] == v;
        assert (R[i], j) in EdgesOf(A);
      }
    }
  }

  /** A line for each foodule in order, its dependencies sorted and all of higher rank; the file has the
      edges drawn, between the foodules that the permutation puts at their ends, and no other. */
  method GenDep(n: nat) returns (file: seq<Line>, ghost rank: seq<nat>, ghost places: seq<nat>, ghost edges: set<(nat, nat)>)
    ensures |file| == n && Ranked(file, rank)
    ensures forall i | 0 <= i < n :: Sorted(file[i].deps) && Distinct(file[i].deps)
    ensures |places| == n && Permutation(places) && forall e | e in edges :: e.0 < e.1 < n
    ensures forall i | 0 <= i < n :: ListsEdges(file[i], places, edges)
  {
    var P := Shuffle(n);
    var R := Invert(P);
    var A := RandomEdges(n);
    var B := new nat[n];
    places, edges := P[..], EdgesOf(A);
    file := [];
    var i := 1;
    while i <= n
      invariant 1 <= i <= n + 1 && |file| == i - 1
      invariant P[..] == places && Permutation(places) && Inverse(places, R[..]) && Upper(A) && edges == EdgesOf(A)
      invariant forall k | 0 <= k < |file| :: LineOk(file[k], k, R[..], n)
      invariant forall k | 0 <= k < |file| :: ListsEdges(file[k], places, edges)
    {
      var line := MakeLine(i, P, R, A, B);
      LineListsEdges(line, A, places, R[..], i);
      file := file + [line];
      i := i + 1;
    }
    rank := Rank(R[..]);
    LinesAreRanked(file, places, R[..]);
  }

  /** The line of foodule k+1. */
  predicate LineOk(l: Line, k: nat, R: seq<nat>, n: nat)
    requires |R| == n + 1 && k < n
  {
    && l.foodule == k + 1 && Sorted(l.deps) && Distinct(l.deps)
    && forall i | 0 <= i < |l.deps| :: 1 <= l.deps[i] <= n && R[k + 1] < R[l.deps[i]]
  }

  lemma RowIsLine(deps: seq<nat>, A: array2<bool>, P: seq<nat>, R: seq<nat>, i: nat)
    requires Permutation(P) && Inverse(P, R) && 1 <= i <= |P| && A.Length0 == A.Length1 == |P| && Upper(A)
    requires R[i] < |P| && P[R[i]] == i && Sorted(deps) && multiset(deps) == multiset(Collected(A, P, R[i], |P|))
    ensures LineOk(Line(P[R[i]], deps), i - 1, R, |P|)
  {
    var row := Collected(A, P, R[i], |P|);
    CollectedDistinct(A, P, R[i], |P|);
    StillDistinct(row, deps);
    forall k | 0 <= k < |deps|
      ensures 1 <= deps[k] <= |P| && R[i] < R[deps[k]]
    {
      assert deps[k] in multiset(row);
      var j := CollectedFrom(A, P, R[i], |P|, deps[k]);
    }
  }

  lemma LinesAreRanked(file: seq<Line>, P: seq<nat>, R: seq<nat>)
    requires Permutation(P) && Inverse(P, R) && |file| == |P|
    requires forall k | 0 <= k < |file| :: LineOk(file[k], k, R, |P|)
    ensures Ranked(file, Rank(R))
  {
    forall i | 0 <= i < |file|
      ensures Rank(R)[i] < |file|
    {
      EveryNumber(P, R, i + 1);
    }
  }
}
