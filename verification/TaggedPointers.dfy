/** The two tag bits kept in the low bits of aligned pointers. The other modules write a
    tagged pointer as a node and its tags; this module justifies that reading. */
module TaggedPointers {

  // ---------------------------------------------------------------- words

  function Or(p: bv64, q: bv64): bv64 {
    p | q
  }

  function And(p: bv64, q: bv64): bv64 {
    p & q
  }

  function Minus(p: bv64, q: bv64): bv64 {
    p & !q
  }

  predicate Aligned(p: bv64) {
    And(p, 3) == 0
  }

  lemma OrIs(p: bv64, q: bv64)
    ensures Or(p, q) == p | q
  {
  }

  lemma MinusIs(p: bv64, q: bv64)
    ensures Minus(p, q) == p & !q
  {
  }

  lemma AlignedIs(p: bv64)
    ensures Aligned(p) <==> p & 3 == 0
  {
  }

  lemma SetBitWord(p: bv64, tags: bv64, bit: bv64)
    ensures (p | tags) | bit == p | (tags | bit)
  {
  }

  lemma ClearBitWord(p: bv64, tags: bv64, bit: bv64)
    requires p & 3 == 0 && bit <= 3
    ensures (p | tags) & !bit == p | (tags & !bit)
  {
  }

  /** The tag bits of an aligned word are read, set and cleared apart from the address. */
  lemma ReadBit(p: bv64, tags: bv64, bit: bv64)
    requires Aligned(p) && bit <= 3
    ensures And(Or(p, tags), bit) == And(tags, bit)
  {
  }

  lemma SetBit(p: bv64, tags: bv64, bit: bv64)
    ensures Or(Or(p, tags), bit) == Or(p, Or(tags, bit))
  {
    calc {
      Or(Or(p, tags), bit);
      { hide *; OrIs(Or(p, tags), bit); }
      Or(p, tags) | bit;
      { hide *; OrIs(p, tags); }
      (p | tags) | bit;
      { hide *; SetBitWord(p, tags, bit); }
      p | (tags | bit);
      { hide *; OrIs(tags, bit); }
      p | Or(tags, bit);
      { hide *; OrIs(p, Or(tags, bit)); }
      Or(p, Or(tags, bit));
    }
  }

  lemma ClearBit(p: bv64, tags: bv64, bit: bv64)
    requires Aligned(p) && bit <= 3
    ensures Minus(Or(p, tags), bit) == Or(p, Minus(tags, bit))
  {
    calc {
      Minus(Or(p, tags), bit);
      { hide *; MinusIs(Or(p, tags), bit); }
      Or(p, tags) & !bit;
      { hide *; OrIs(p, tags); }
      (p | tags) & !bit;
      { AlignedIs(p); hide *; ClearBitWord(p, tags, bit); }
      p | (tags & !bit);
      { hide *; MinusIs(tags, bit); }
      p | Minus(tags, bit);
      { hide *; OrIs(p, Minus(tags, bit)); }
      Or(p, Minus(tags, bit));
    }
  }

  lemma ZeroOr(p: bv64)
    ensures Or(p, 0) == p && Or(0, p) == p
  {
  }

  // ---------------------------------------------------------------- the helpers

  function TagBit(bit: nat): bv64
    requires bit == 1 || bit == 2
  {
    if bit == 1 then 1 else 2
  }

  function CorruptNode(p: bv64, bit: nat): bv64
    requires bit == 1 || bit == 2
  {
    Or(p, TagBit(bit))
  }

  predicate IsTagged(p: bv64, bit: nat)
    requires bit == 1 || bit == 2
  {
    And(p, TagBit(bit)) != 0
  }

  /** The second of the pair clear_tag returns; the first is IsTagged. */
  function ClearTag(p: bv64, bit: nat): bv64
    requires bit == 1 || bit == 2
  {
    if IsTagged(p, bit) then Minus(p, TagBit(bit)) else p
  }

  function ClearNodeTag(p: bv64): bv64 {
    ClearTag(ClearTag(p, 1), 2)
  }

  function ConcatPtr(p: bv64, q: bv64): bv64 {
    Or(p, q)
  }

  // ---------------------------------------------------------------- an address and two tags

  function Tags(retired: bool, inactive: bool): bv64 {
    if retired then (if inactive then 3 else 1) else (if inactive then 2 else 0)
  }

  /** The tagged pointer with this address and these tags. */
  function Tagged(p: bv64, retired: bool, inactive: bool): bv64 {
    Or(p, Tags(retired, inactive))
  }

  /** The tags with this one set or cleared. */
  function TagsWith(bit: nat, on: bool, a: bool, b: bool): bv64 {
    if bit == 1 then Tags(on, b) else Tags(a, on)
  }

  function TaggedWith(p: bv64, bit: nat, on: bool, a: bool, b: bool): bv64 {
    if bit == 1 then Tagged(p, on, b) else Tagged(p, a, on)
  }

  function HasTag(bit: nat, a: bool, b: bool): bool {
    if bit == 1 then a else b
  }

  lemma TagBitSmall(bit: nat)
    requires bit == 1 || bit == 2
    ensures TagBit(bit) <= 3
  {
  }

  lemma TagsRead(a: bool, b: bool, bit: nat)
    requires bit == 1 || bit == 2
    ensures And(Tags(a, b), TagBit(bit)) != 0 <==> HasTag(bit, a, b)
  {
  }

  lemma TagsSet(a: bool, b: bool, bit: nat)
    requires bit == 1 || bit == 2
    ensures Or(Tags(a, b), TagBit(bit)) == TagsWith(bit, true, a, b)
  {
  }

  lemma TagsClear(a: bool, b: bool, bit: nat)
    requires bit == 1 || bit == 2
    ensures Minus(Tags(a, b), TagBit(bit)) == TagsWith(bit, false, a, b)
  {
  }

  lemma TaggedWithTags(p: bv64, bit: nat, on: bool, a: bool, b: bool)
    ensures TaggedWith(p, bit, on, a, b) == Or(p, TagsWith(bit, on, a, b))
    ensures HasTag(bit, a, b) == on ==> TaggedWith(p, bit, on, a, b) == Tagged(p, a, b)
  {
    hide Or, Tags;
  }

  // ---------------------------------------------------------------- what the helpers do

  /** is_tagged reads one tag. */
  lemma ReadsTag(p: bv64, a: bool, b: bool, bit: nat)
    requires Aligned(p) && (bit == 1 || bit == 2)
    ensures IsTagged(Tagged(p, a, b), bit) <==> HasTag(bit, a, b)
  {
    hide Or, And, Tags, Aligned, TagBit, HasTag;
    TagBitSmall(bit);
    ReadBit(p, Tags(a, b), TagBit(bit));
    TagsRead(a, b, bit);
  }

  /** corrupt_node sets one tag and keeps the other and the address. */
  lemma CorruptSetsTag(p: bv64, a: bool, b: bool, bit: nat)
    requires bit == 1 || bit == 2
    ensures CorruptNode(Tagged(p, a, b), bit) == TaggedWith(p, bit, true, a, b)
  {
    hide Or, Tags, TagBit, TagsWith, TaggedWith;
    SetBit(p, Tags(a, b), TagBit(bit));
    TagsSet(a, b, bit);
    TaggedWithTags(p, bit, true, a, b);
  }

  /** clear_tag clears one tag and keeps the other and the address. */
  lemma ClearClearsTag(p: bv64, a: bool, b: bool, bit: nat)
    requires Aligned(p) && (bit == 1 || bit == 2)
    ensures ClearTag(Tagged(p, a, b), bit) == TaggedWith(p, bit, false, a, b)
  {
    hide Or, And, Minus, Tags, Aligned, TagBit, TagsWith, TaggedWith, HasTag, IsTagged;
    ReadsTag(p, a, b, bit);
    TaggedWithTags(p, bit, false, a, b);
    if HasTag(bit, a, b) {
      TagBitSmall(bit);
      ClearBit(p, Tags(a, b), TagBit(bit));
      TagsClear(a, b, bit);
    }
  }

  /** clear_node_tag clears both and gives the address back. */
  lemma ClearClearsBoth(p: bv64, a: bool, b: bool)
    requires Aligned(p)
    ensures ClearNodeTag(Tagged(p, a, b)) == p
  {
    hide Or, Aligned, ClearTag;
    ClearClearsTag(p, a, b, 1);
    ClearClearsTag(p, false, b, 2);
    ZeroOr(p);
  }

  /** Joining a fresh address to the tags of a null pointer keeps both. */
  lemma ConcatKeepsTags(p: bv64, a: bool, b: bool)
    ensures ConcatPtr(p, Tagged(0, a, b)) == Tagged(p, a, b)
  {
    hide Or, Tags;
    ZeroOr(Tags(a, b));
  }
}
