/** The event-category flag set `JanusEventType`: a bitflags type over `u32`
    defined by the janus crate. Which bits are flags is fixed there and not
    part of this model, so the union of all flags, `KNOWN`, is a constant
    whose value is left unspecified; everything proved holds for any value. */
module EventFlags {
  import opened Uint32

  /** A set of event categories, one bit per category. */
  type EventMask = U32

  /** `JanusEventType::all().bits()`: every flag the crate defines. */
  const KNOWN: U32

  /** Every flag of `m` is also in `n` (bitflags' `n.contains(m)`). */
  predicate Subset(m: nat, n: nat) {
    And(m, n) == m
  }

  /** The mask holds no bit outside the known flag set. */
  predicate IsKnown(m: EventMask) {
    Subset(m, KNOWN)
  }

  /** `JanusEventType::all()`. */
  function All(): (m: EventMask)
    ensures IsKnown(m)
  {
    AndIdempotent(KNOWN);
    KNOWN
  }

  /** `JanusEventType::empty()`. */
  function Empty(): (m: EventMask)
    ensures IsKnown(m)
  {
    0
  }

  /** `JanusEventType::from_bits_truncate`: keep the known flags of a raw
      integer and silently drop every other bit. */
  function FromBitsTruncate(bits: U32): (m: EventMask)
    ensures IsKnown(m)
    ensures Subset(m, bits)
  {
    AndAssociative(bits, KNOWN, KNOWN);
    AndIdempotent(KNOWN);
    AndAssociative(bits, KNOWN, bits);
    AndCommutative(KNOWN, bits);
    AndAssociative(bits, bits, KNOWN);
    AndIdempotent(bits);
    And(bits, KNOWN)
  }

  /** Truncation keeps every known flag of the raw value: it is the largest
      known mask within `bits`. */
  lemma TruncateIsLargestKnownSubset(bits: U32, n: EventMask)
    requires IsKnown(n) && Subset(n, bits)
    ensures Subset(n, FromBitsTruncate(bits))
  {
    AndAssociative(n, bits, KNOWN);
  }

  /** Inclusion of masks is antisymmetric: two masks each within the other
      are equal. */
  lemma SubsetAntisymmetric(m: nat, n: nat)
    requires Subset(m, n) && Subset(n, m)
    ensures m == n
  {
    AndCommutative(m, n);
  }

  /** `from_bits_truncate(bits)` is characterised without reference to how it
      is computed: it is the one known mask within `bits` that holds every
      known mask within `bits`. */
  lemma TruncateIsUnique(bits: U32, t: EventMask)
    ensures t == FromBitsTruncate(bits) <==>
      IsKnown(t) && Subset(t, bits) &&
      forall n: EventMask :: IsKnown(n) && Subset(n, bits) ==> Subset(n, t)
  {
    var r := FromBitsTruncate(bits);
    if t == r {
      forall n: EventMask | IsKnown(n) && Subset(n, bits)
        ensures Subset(n, t)
      {
        TruncateIsLargestKnownSubset(bits, n);
      }
    } else if IsKnown(t) && Subset(t, bits) {
      TruncateIsLargestKnownSubset(bits, t);
      if Subset(r, t) {
        SubsetAntisymmetric(t, r);
        assert false;
      }
    }
  }

  /** Truncating twice is truncating once. */
  lemma TruncateIdempotent(bits: U32)
    ensures FromBitsTruncate(FromBitsTruncate(bits)) == FromBitsTruncate(bits)
  {
  }

  /** The extremes of the raw value: zero gives the empty mask, and
      4294967295 (all 32 bits) gives every known flag. */
  lemma TruncateExtremes()
    ensures FromBitsTruncate(0) == Empty()
    ensures FromBitsTruncate(U32_MAX) == All()
  {
    AndMax(KNOWN);
  }
}
