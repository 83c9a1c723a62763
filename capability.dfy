/**
 * The capability test that classifies an input device as a multi-touch
 * touchscreen: the device's absolute-axis capability bitmask (an array of
 * `unsigned long` words filled by the EVIOCGBIT query) must have the bits of
 * ABS_MT_SLOT, ABS_MT_TRACKING_ID, ABS_MT_POSITION_X and ABS_MT_POSITION_Y.
 */
module Capability {
  import opened Options
  import opened TouchTypes
  import opened InputEvents

  /** A bit position: the `unsigned int` argument of the bit test. */
  type BitIndex = bv32

  /** Bit positions at or beyond sizeof(unsigned long) * kEvByteSize read as unset. */
  const BitLimit: BitIndex := (LongBytes * KEvByteSize) as BitIndex

  /** Index of the word that holds bit `bit`. */
  function WordIndex(bit: BitIndex): nat
  {
    (bit / 64) as int
  }

  /** Offset of bit `bit` within its word, as a shift amount. */
  function Offset(bit: BitIndex): (k: bv7)
    ensures k < 64
  {
    (bit % 64) as bv7
  }

  /** Bit `k` of a word, the shift-right formulation: shift right and take the lowest bit. */
  predicate WordBit(w: bv64, k: bv7)
    requires k < 64
  {
    (w >> k) & 1 == 1
  }

  /** The single-bit mask `1UL << k`. */
  function Mask(k: bv7): bv64
    requires k < 64
  {
    1 << k
  }

  /** Bit `bit` of a bitmask: bit `bit % 64` of word `bit / 64`. */
  predicate BitSet(arr: seq<bv64>, bit: BitIndex)
    requires WordIndex(bit) < |arr|
  {
    WordBit(arr[WordIndex(bit)], Offset(bit))
  }

  /** A word has bit `k` exactly when masking it with `1UL << k` leaves something. */
  lemma MaskedWord(w: bv64, k: bv7)
    requires k < 64
    ensures w & Mask(k) != 0 <==> WordBit(w, k)
  {
  }

  /**
   * The bounds-checked bit test. A bit at or beyond the limit is unset and
   * the array is not read; any other bit is read from word `bit / 64`.
   */
  function CheckKeyBit(bit: BitIndex, arr: seq<bv64>): (r: bool)
    requires bit < BitLimit ==> WordIndex(bit) < |arr|
    ensures r <==> bit < BitLimit && BitSet(arr, bit)
  {
    if bit >= BitLimit then false
    else
      var mask := Mask(Offset(bit));
      MaskedWord(arr[WordIndex(bit)], Offset(bit));
      arr[WordIndex(bit)] & mask != 0
  }

  /**
   * The four axis bits a multi-touch touchscreen must report, at the
   * positions given by the event codes ABS_MT_SLOT (0x2f),
   * ABS_MT_TRACKING_ID (0x39), ABS_MT_POSITION_X (0x35) and
   * ABS_MT_POSITION_Y (0x36), written as bit-vector literals.
   */
  const SlotBit: BitIndex := 0x2f
  const TrackingIdBit: BitIndex := 0x39
  const PositionXBit: BitIndex := 0x35
  const PositionYBit: BitIndex := 0x36

  /**
   * The multi-touch test. `query` is the outcome of the capability query:
   * None when it failed, otherwise the kEvByteSize words it filled in.
   */
  function CheckIsTouchDevice(query: Option<seq<bv64>>): (r: bool)
    requires query.Some? ==> |query.value| == KEvByteSize
    ensures r <==> query.Some?
                   && BitSet(query.value, SlotBit) && BitSet(query.value, TrackingIdBit)
                   && BitSet(query.value, PositionXBit) && BitSet(query.value, PositionYBit)
  {
    match query
    case None => false
    case Some(absBits) =>
      var hasSlot := CheckKeyBit(SlotBit, absBits);
      var hasTrackingId := CheckKeyBit(TrackingIdBit, absBits);
      var hasPosX := CheckKeyBit(PositionXBit, absBits);
      var hasPosY := CheckKeyBit(PositionYBit, absBits);
      hasSlot && hasTrackingId && hasPosX && hasPosY
  }

  /** Word 0 of a bitmask that reports exactly the four multi-touch axes. */
  const TouchAxesWord: bv64 := 0x0260_8000_0000_0000

  lemma TouchAxesWordHasTheFourBits()
    ensures TouchAxesWord == Mask(47) | Mask(53) | Mask(54) | Mask(57)
  {
  }

  /** A capability bitmask whose word 0 is `word` and whose other words are zero. */
  function SyntheticMask(word: bv64): (r: seq<bv64>)
    ensures |r| == KEvByteSize && r[0] == word
    ensures forall i :: 1 <= i < |r| ==> r[i] == 0
  {
    [word] + seq(KEvByteSize - 1, _ => 0)
  }

  /** The bitmask with the four axis bits classifies as a touch device. */
  lemma SyntheticTouchMaskClassifies()
    ensures CheckIsTouchDevice(Some(SyntheticMask(TouchAxesWord)))
  {
  }

  /** Clearing any one of the four axis bits makes it not classify. */
  lemma SyntheticMaskMissingAxisRejected()
    ensures !CheckIsTouchDevice(Some(SyntheticMask(TouchAxesWord & !Mask(47))))
    ensures !CheckIsTouchDevice(Some(SyntheticMask(TouchAxesWord & !Mask(53))))
    ensures !CheckIsTouchDevice(Some(SyntheticMask(TouchAxesWord & !Mask(54))))
    ensures !CheckIsTouchDevice(Some(SyntheticMask(TouchAxesWord & !Mask(57))))
  {
  }

  /** A failed capability query never classifies. */
  lemma FailedQueryRejects()
    ensures !CheckIsTouchDevice(None)
  {
  }
}
