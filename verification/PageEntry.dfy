/** Page-table entries of 16 bits: a valid bit, in the LRU simulator a reference bit, and a frame number.
    The simulations below work on the entries as numbers; the lemmas tie that to the masks. */
module PageEntry {
  const VALID: nat := 0x8000
  const REF: nat := 0x4000

  predicate IsValid(e: nat) {
    e >= VALID
  }

  /** The entry without its valid bit. */
  function Rest(e: nat): nat {
    if e >= VALID then e - VALID else e
  }

  /** Testing the valid bit. */
  lemma ValidBit(e: bv16)
    ensures (e & 0x8000 != 0) <==> IsValid(e as nat)
  {
    assert (e & 0x8000 != 0) <==> e >= 0x8000;
  }

  /** Setting the valid bit over a frame number. */
  lemma SetValid(f: bv16)
    requires f < 0x8000
    ensures (0x8000 | f) as nat == VALID + f as nat
  {
    assert 0x8000 | f == 0x8000 + f;
  }

  lemma Masked(e: bv16)
    ensures e & 0x7FFF < 0x8000
  {
  }

  lemma MaskedValid(e: bv16)
    requires e >= 0x8000
    ensures e == 0x8000 | (e & 0x7FFF)
  {
  }

  lemma MaskedInvalid(e: bv16)
    requires e < 0x8000
    ensures e == e & 0x7FFF
  {
  }

  /** Clearing the valid bit, and reading the frame under it. */
  lemma ClearValid(e: bv16)
    ensures (e & 0x7FFF) as nat == Rest(e as nat)
  {
    Masked(e);
    if e >= 0x8000 {
      MaskedValid(e);
      SetValid(e & 0x7FFF);
    } else {
      MaskedInvalid(e);
    }
  }

  // ----- with a reference bit

  predicate HasRef(e: nat) {
    Rest(e) >= REF
  }

  /** The low fourteen bits. */
  function Frame14(e: nat): nat {
    if Rest(e) >= REF then Rest(e) - REF else Rest(e)
  }

  function Pack(frame: nat, ref: bool): nat {
    VALID + (if ref then REF else 0) + frame
  }

  lemma PackFacts(frame: nat, ref: bool)
    requires frame < REF
    ensures var e := Pack(frame, ref); IsValid(e) && (HasRef(e) <==> ref) && Frame14(e) == frame && e < 0x10000
  {
  }

  lemma Masked14(e: bv16)
    ensures e & 0x3FFF < 0x4000
    ensures e & 0x3FFF == (e & 0x7FFF) & 0x3FFF
  {
  }

  lemma SetRef(f: bv16)
    requires f < 0x4000
    ensures (0x4000 | f) as nat == REF + f as nat
  {
    assert 0x4000 | f == 0x4000 + f;
  }

  lemma MaskedRef(r: bv16)
    requires 0x4000 <= r < 0x8000
    ensures r == 0x4000 | (r & 0x3FFF)
  {
  }

  lemma MaskedNoRef(r: bv16)
    requires r < 0x4000
    ensures r == r & 0x3FFF
  {
  }

  /** Reading the frame number under both bits. */
  lemma FrameMask(e: bv16)
    ensures (e & 0x3FFF) as nat == Frame14(e as nat)
  {
    Masked(e);
    ClearValid(e);
    Masked14(e);
    var r := e & 0x7FFF;
    if r >= 0x4000 {
      MaskedRef(r);
      SetRef(r & 0x3FFF);
    } else {
      MaskedNoRef(r);
    }
  }

  lemma RefOfRest(e: bv16)
    ensures e & 0x4000 == (e & 0x7FFF) & 0x4000
    ensures ((e & 0x7FFF) & 0x4000 != 0) <==> e & 0x7FFF >= 0x4000
  {
  }

  lemma RefAsNumber(r: bv16)
    ensures r >= 0x4000 <==> r as nat >= REF
  {
  }

  /** Testing the reference bit. */
  lemma RefBit(e: bv16)
    ensures (e & 0x4000 != 0) <==> HasRef(e as nat)
  {
    ClearValid(e);
    var r := e & 0x7FFF;
    RefAsNumber(r);
    RefOfRest(e);
    assert HasRef(e as nat) <==> r as nat >= REF;
  }
}
