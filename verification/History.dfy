/** The 16-bit ageing history of a page, and the record of reference bits it stands for. */
module History {
  const FULL: nat := 0xFFFF
  const TOP: nat := 0x8000
  const WIDTH: nat := 16

  /** The number whose binary digits are these bits, the first the most significant. */
  function Value(bits: seq<bool>): nat {
    if bits == [] then 0
    else 2 * Value(bits[..|bits| - 1]) + (if bits[|bits| - 1] then 1 else 0)
  }

  function Power(n: nat): nat {
    if n == 0 then 1 else 2 * Power(n - 1)
  }

  /** The last sixteen searches, most recent first, padded with ones from before the page was loaded. */
  function Window(record: seq<bool>): (w: seq<bool>)
    ensures |w| == WIDTH
  {
    seq(WIDTH, k requires 0 <= k => if k < |record| then record[k] else true)
  }

  /** Ageing: shift right, and the reference bit becomes the top bit. */
  function Aged(hist: nat, ref: bool): nat {
    hist / 2 + (if ref then TOP else 0)
  }

  /** On 16-bit histories the shift and the mask are this division and sum. */
  lemma AgedMasks(h: bv16)
    ensures h >> 1 == h / 2
    ensures (h >> 1) | 0x8000 == h / 2 + 0x8000
  {
  }

  lemma {:induction false} PrependValue(b: bool, bits: seq<bool>)
    ensures Value([b] + bits) == (if b then Power(|bits|) else 0) + Value(bits)
  {
    var all := [b] + bits;
    if bits == [] {
      assert all[..0] == [];
    } else {
      var most := bits[..|bits| - 1];
      assert all[..|all| - 1] == [b] + most;
      PrependValue(b, most);
    }
  }

  lemma {:induction false} ValueBound(bits: seq<bool>)
    ensures Value(bits) < Power(|bits|)
  {
    if bits != [] {
      ValueBound(bits[..|bits| - 1]);
    }
  }

  lemma Power15()
    ensures Power(15) == TOP
  {
    assert Power(5) == 32;
    assert Power(10) == 1024;
  }

  /** The history is the value of the window, and ageing it records one more search. */
  lemma AgedIsRecorded(record: seq<bool>, ref: bool)
    ensures Aged(Value(Window(record)), ref) == Value(Window([ref] + record))
  {
    var w := Window(record);
    var kept := w[..WIDTH - 1];
    assert Window([ref] + record) == [ref] + kept;
    PrependValue(ref, kept);
    Power15();
    assert Value(w) / 2 == Value(kept);
  }

  lemma {:induction false} AllOnes(bits: seq<bool>)
    ensures Value(bits) + 1 == Power(|bits|) <==> forall k | 0 <= k < |bits| :: bits[k]
  {
    if bits != [] {
      var most := bits[..|bits| - 1];
      AllOnes(most);
      ValueBound(most);
      if forall k | 0 <= k < |most| :: most[k] {
        assert forall k | 0 <= k < |most| :: bits[k] == most[k];
      } else {
        var k :| 0 <= k < |most| && !most[k];
        assert !bits[k];
      }
    }
  }

  /** A freshly loaded page has a full history; so has one referenced in each of the last sixteen searches since. */
  lemma FullHistory(record: seq<bool>)
    ensures Value(Window(record)) == FULL <==> forall k | 0 <= k < |record| && k < WIDTH :: record[k]
  {
    var w := Window(record);
    AllOnes(w);
    Power15();
    assert Power(16) == 2 * Power(15);
    assert forall k | 0 <= k < |record| && k < WIDTH :: record[k] == w[k];
  }

  lemma HistoryInRange(record: seq<bool>)
    ensures Value(Window(record)) <= FULL
  {
    ValueBound(Window(record));
    Power15();
    assert Power(16) == 2 * Power(15);
  }

  /** Less used: at the first search back where they differ, a was not referenced and b was. */
  ghost predicate LessUsed(a: seq<bool>, b: seq<bool>)
    requires |a| == |b|
  {
    exists k :: 0 <= k < |a| && a[..k] == b[..k] && !a[k] && b[k]
  }

  /** Numeric order of histories is most-recent-first lexicographic order of the records. */
  lemma {:induction false} OrderIsLexicographic(a: seq<bool>, b: seq<bool>)
    requires |a| == |b|
    ensures Value(a) < Value(b) <==> LessUsed(a, b)
    decreases |a|
  {
    if a != [] {
      var a', b' := a[1..], b[1..];
      assert a == [a[0]] + a' && b == [b[0]] + b';
      PrependValue(a[0], a');
      PrependValue(b[0], b');
      ValueBound(a');
      ValueBound(b');
      if a[0] == b[0] {
        OrderIsLexicographic(a', b');
        if LessUsed(a', b') {
          var k :| 0 <= k < |a'| && a'[..k] == b'[..k] && !a'[k] && b'[k];
          assert a[..k + 1] == [a[0]] + a'[..k] && b[..k + 1] == [b[0]] + b'[..k];
          assert LessUsed(a, b);
        }
        if LessUsed(a, b) {
          var k :| 0 <= k < |a| && a[..k] == b[..k] && !a[k] && b[k];
          assert a'[..k - 1] == a[..k][1..] && b'[..k - 1] == b[..k][1..];
          assert LessUsed(a', b');
        }
      } else if b[0] {
        assert a[..0] == b[..0];
      } else {
        assert forall k | 0 < k < |a| :: a[..k][0] == a[0] && b[..k][0] == b[0];
      }
    }
  }

  lemma {:induction false} ValueInjective(a: seq<bool>, b: seq<bool>)
    requires |a| == |b| && Value(a) == Value(b)
    ensures a == b
  {
    if a != [] {
      ValueInjective(a[..|a| - 1], b[..|b| - 1]);
      assert a == a[..|a| - 1] + [a[|a| - 1]] && b == b[..|b| - 1] + [b[|b| - 1]];
    }
  }
}
