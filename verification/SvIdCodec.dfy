/** The satellite blacklist in its two forms: a list of (constellation, satellite id) entries, and one 64-bit
    mask per constellation. The list form is what is kept, and what is encoded again after a modem restart. */
module SvIdCodec {
  import opened Words

  datatype SvType = Unknown | Gps | Sbas | Glonass | Qzss | Beidou | Galileo | Navic
  datatype SvIdSource = SvIdSource(constellation: SvType, svId: nat)
  datatype SvIdConfig = SvIdConfig(glo: uint64, bds: uint64, qzss: uint64, gal: uint64, sbas: uint64, navic: uint64)

  const CLEARED := SvIdConfig(0, 0, 0, 0, 0, 0)
  const GLO_INITIAL: nat := 65
  const BDS_INITIAL: nat := 201
  const QZSS_INITIAL: nat := 193
  const GAL_INITIAL: nat := 301
  const NAVIC_INITIAL: nat := 401
  const SBAS_INITIAL: nat := 120
  const SBAS_LENGTH: nat := 39
  const SBAS_INITIAL2: nat := 183

  predicate Supported(t: SvType) {
    t != Unknown && t != Gps
  }

  function MaskOf(c: SvIdConfig, t: SvType): uint64
    requires Supported(t)
  {
    match t
    case Glonass => c.glo case Beidou => c.bds case Qzss => c.qzss
    case Galileo => c.gal case Sbas => c.sbas case Navic => c.navic
  }

  function WithMask(c: SvIdConfig, t: SvType, m: uint64): SvIdConfig
    requires Supported(t)
  {
    match t
    case Glonass => c.(glo := m) case Beidou => c.(bds := m) case Qzss => c.(qzss := m)
    case Galileo => c.(gal := m) case Sbas => c.(sbas := m) case Navic => c.(navic := m)
  }

  function InitialSvId(t: SvType): nat
    requires Supported(t)
  {
    match t
    case Glonass => GLO_INITIAL case Beidou => BDS_INITIAL case Qzss => QZSS_INITIAL
    case Galileo => GAL_INITIAL case Sbas => SBAS_INITIAL case Navic => NAVIC_INITIAL
  }

  // ---- List to masks --------------------------------------------------------------------------

  datatype Target = Nowhere | Everything | One(bit: nat)

  /** What one entry blacklists in the mask of its constellation. */
  function TargetOf(s: SvIdSource): Target {
    if !Supported(s.constellation) then Nowhere
    else if s.svId == 0 then Everything
    else if s.constellation == Sbas then
      if SBAS_INITIAL2 <= s.svId < SBAS_INITIAL2 + 64 then One(s.svId + SBAS_LENGTH - SBAS_INITIAL2)
      else if SBAS_INITIAL <= s.svId < SBAS_INITIAL + SBAS_LENGTH then One(s.svId - SBAS_INITIAL)
      else Nowhere
    else if InitialSvId(s.constellation) <= s.svId < InitialSvId(s.constellation) + 64
    then One(s.svId - InitialSvId(s.constellation))
    else Nowhere
  }

  /** For the SBAS ids 208 to 246 the code would shift a 64-bit word by 64 or more. */
  predicate Encodable(s: SvIdSource) {
    TargetOf(s).One? ==> TargetOf(s).bit < 64
  }

  function Mark(m: uint64, t: Target): uint64
    requires t.One? ==> t.bit < 64
  {
    match t
    case Nowhere => m
    case Everything => ALL_ONES
    case One(k) => SetBitBounded(m, k, 64); SetBit(m, k)
  }

  function EncodeOne(c: SvIdConfig, s: SvIdSource): SvIdConfig
    requires Encodable(s)
  {
    if Supported(s.constellation)
    then WithMask(c, s.constellation, Mark(MaskOf(c, s.constellation), TargetOf(s))) else c
  }

  ghost predicate AllEncodable(list: seq<SvIdSource>) {
    forall s | s in list :: Encodable(s)
  }

  function EncodeAll(c: SvIdConfig, list: seq<SvIdSource>): SvIdConfig
    requires AllEncodable(list)
  {
    if list == [] then c else EncodeOne(EncodeAll(c, list[..|list| - 1]), list[|list| - 1])
  }

  function Encode(previous: SvIdConfig, list: seq<SvIdSource>): SvIdConfig
    requires AllEncodable(list)
  {
    if list == [] then CLEARED else EncodeAll(previous, list)
  }

  method ConvertToGnssSvIdConfig(blacklisted: seq<SvIdSource>, previous: SvIdConfig)
    returns (valid: bool, config: SvIdConfig)
    requires AllEncodable(blacklisted)
    ensures config == Encode(previous, blacklisted)
    ensures valid <==> blacklisted == [] || config != CLEARED
  {
    config := previous;
    if |blacklisted| == 0 {
      return true, CLEARED;
    }
    for i := 0 to |blacklisted|
      invariant config == EncodeAll(previous, blacklisted[..i])
    {
      assert blacklisted[..i + 1][..i] == blacklisted[..i];
      config := MarkSource(config, blacklisted[i]);
    }
    assert blacklisted[..|blacklisted|] == blacklisted;
    valid := config.glo != 0 || config.bds != 0 || config.gal != 0 || config.qzss != 0
             || config.sbas != 0 || config.navic != 0;
  }

  /** The body of the loop: pick the mask and its offsets, then set all bits, one bit, or none. */
  method MarkSource(previous: SvIdConfig, source: SvIdSource) returns (config: SvIdConfig)
    requires Encodable(source)
    ensures config == EncodeOne(previous, source)
  {
    config := previous;
    var t := source.constellation;
    var initialSvId, svIndexOffset, reachable := 0, 0, Supported(t);
    if t == Sbas {
      if source.svId == 0 {
      } else if source.svId >= SBAS_INITIAL2 {
        initialSvId, svIndexOffset := SBAS_INITIAL2, SBAS_LENGTH;
      } else if SBAS_INITIAL <= source.svId < SBAS_INITIAL + SBAS_LENGTH {
        initialSvId := SBAS_INITIAL;
      } else {
        reachable := false;
      }
    } else if reachable {
      initialSvId := InitialSvId(t);
    }
    if reachable {
      if source.svId == 0 {
        config := WithMask(config, t, ALL_ONES);
      } else if source.svId < initialSvId || source.svId >= initialSvId + 64 {
      } else {
        var shiftCnt := source.svId + svIndexOffset - initialSvId;
        SetBitBounded(MaskOf(config, t), shiftCnt, 64);
        config := WithMask(config, t, SetBit(MaskOf(config, t), shiftCnt));
      }
    }
  }

  // ---- Masks to list --------------------------------------------------------------------------

  function SvIdAt(t: SvType, bitNumber: nat, initial: nat): nat {
    if t == Sbas && bitNumber >= SBAS_LENGTH then bitNumber - SBAS_LENGTH + SBAS_INITIAL2 else bitNumber + initial
  }

  /** The bits of m, lowest first, numbered from bitNumber on. */
  function DecodeBits(m: nat, bitNumber: nat, initial: nat, t: SvType): seq<SvIdSource>
    decreases m
  {
    if m == 0 then []
    else (if m % 2 == 1 then [SvIdSource(t, SvIdAt(t, bitNumber, initial))] else [])
         + DecodeBits(m / 2, bitNumber + 1, initial, t)
  }

  function DecodeMask(m: uint64, initial: nat, t: SvType): seq<SvIdSource> {
    if m == ALL_ONES then [SvIdSource(t, 0)] else DecodeBits(m, 0, initial, t)
  }

  function SbasLow(m: uint64): uint64 {
    ShiftRightBits(ShiftLeft(m, 64 - SBAS_LENGTH), 64 - SBAS_LENGTH, 0);
    ShiftRight(ShiftLeft(m, 64 - SBAS_LENGTH), 64 - SBAS_LENGTH)
  }

  function SbasHigh(m: uint64): uint64 {
    ShiftRightBits(m, SBAS_LENGTH, 0);
    ShiftRight(m, SBAS_LENGTH)
  }

  function DecodeType(c: SvIdConfig, t: SvType): seq<SvIdSource>
    requires Supported(t)
  {
    if t == Sbas then DecodeMask(SbasLow(c.sbas), SBAS_INITIAL, Sbas) + DecodeMask(SbasHigh(c.sbas), SBAS_INITIAL2, Sbas)
    else DecodeMask(MaskOf(c, t), InitialSvId(t), t)
  }

  function Decode(c: SvIdConfig): seq<SvIdSource> {
    DecodeType(c, Beidou) + DecodeType(c, Galileo) + DecodeType(c, Glonass)
    + DecodeType(c, Qzss) + DecodeType(c, Sbas) + DecodeType(c, Navic)
  }

  method ConvertGnssSvIdMaskToList(mask: uint64, svIds: seq<SvIdSource>, initial: nat, t: SvType)
    returns (list: seq<SvIdSource>)
    ensures list == svIds + DecodeMask(mask, initial, t)
  {
    list := svIds;
    if mask == ALL_ONES {
      list := list + [SvIdSource(t, 0)];
      return;
    }
    var svIdMask, bitNumber := mask, 0;
    while svIdMask > 0
      invariant list + DecodeBits(svIdMask, bitNumber, initial, t) == svIds + DecodeBits(mask, 0, initial, t)
      decreases svIdMask
    {
      LowestBitFirst(svIdMask, bitNumber, initial, t, list);
      if svIdMask % 2 == 1 {
        var svId := bitNumber + initial;
        if t == Sbas && bitNumber >= SBAS_LENGTH {
          svId := bitNumber - SBAS_LENGTH + SBAS_INITIAL2;
        }
        list := list + [SvIdSource(t, svId)];
      }
      bitNumber := bitNumber + 1;
      svIdMask := svIdMask / 2;
    }
  }

  lemma LowestBitFirst(m: nat, bitNumber: nat, initial: nat, t: SvType, list: seq<SvIdSource>)
    requires m > 0
    ensures list + DecodeBits(m, bitNumber, initial, t)
         == (if m % 2 == 1 then list + [SvIdSource(t, SvIdAt(t, bitNumber, initial))] else list)
            + DecodeBits(m / 2, bitNumber + 1, initial, t)
  {
  }

  /** One constellation of convertFromGnssSvIdConfig: nothing for an empty mask, two ranges for SBAS. */
  method AppendType(c: SvIdConfig, t: SvType, svIds: seq<SvIdSource>) returns (list: seq<SvIdSource>)
    requires Supported(t)
    ensures list == svIds + DecodeType(c, t)
  {
    list := svIds;
    if MaskOf(c, t) == 0 {
      EmptyMask(c, t);
    } else if t == Sbas {
      list := ConvertGnssSvIdMaskToList(SbasLow(c.sbas), list, SBAS_INITIAL, Sbas);
      list := ConvertGnssSvIdMaskToList(SbasHigh(c.sbas), list, SBAS_INITIAL2, Sbas);
    } else {
      list := ConvertGnssSvIdMaskToList(MaskOf(c, t), list, InitialSvId(t), t);
    }
  }

  method ConvertFromGnssSvIdConfig(c: SvIdConfig) returns (list: seq<SvIdSource>)
    ensures list == Decode(c)
  {
    list := AppendType(c, Beidou, []);
    assert list == DecodeType(c, Beidou);
    list := AppendType(c, Galileo, list);
    list := AppendType(c, Glonass, list);
    list := AppendType(c, Qzss, list);
    list := AppendType(c, Sbas, list);
    list := AppendType(c, Navic, list);
  }

  lemma EmptyMask(c: SvIdConfig, t: SvType)
    requires Supported(t) && MaskOf(c, t) == 0
    ensures DecodeType(c, t) == []
  {
    ZeroStays(25);
    ShiftRightBits(0, 25, 0);
    ShiftRightBits(0, 39, 0);
  }

  lemma {:induction false} ZeroStays(k: nat)
    ensures ShiftLeft(0, k) == 0
    decreases k
  {
    if k > 0 {
      Wraps(0, Pow2(64));
      ZeroStays(k - 1);
    }
  }

  // ---- What the two directions mean ------------------------------------------------------------

  predicate Marks(s: SvIdSource, t: SvType, k: nat) {
    s.constellation == t && (TargetOf(s) == Everything || TargetOf(s) == One(k))
  }

  /** The list blacklists bit k of constellation t. */
  ghost predicate Blacklists(list: seq<SvIdSource>, t: SvType, k: nat) {
    exists s :: s in list && Marks(s, t, k)
  }

  /** A bit is set exactly when it was set before or some entry maps to it. */
  lemma {:induction false} EncodeSetsExactly(c: SvIdConfig, list: seq<SvIdSource>, t: SvType, k: nat)
    requires AllEncodable(list) && Supported(t) && k < 64
    ensures Bit(MaskOf(EncodeAll(c, list), t), k) <==> Bit(MaskOf(c, t), k) || Blacklists(list, t, k)
  {
    if list != [] {
      var init, s := list[..|list| - 1], list[|list| - 1];
      EncodeSetsExactly(c, init, t, k);
      assert list == init + [s];
      assert Blacklists(list, t, k) <==> Blacklists(init, t, k) || Marks(s, t, k);
      OneEntrySetsExactly(EncodeAll(c, init), s, t, k);
    }
  }

  lemma OneEntrySetsExactly(c: SvIdConfig, s: SvIdSource, t: SvType, k: nat)
    requires Encodable(s) && Supported(t) && k < 64
    ensures Bit(MaskOf(EncodeOne(c, s), t), k) <==> Bit(MaskOf(c, t), k) || Marks(s, t, k)
  {
    if s.constellation == t {
      AllOnesBits(64, k);
      if TargetOf(s).One? { SetBitSetsOne(MaskOf(c, t), TargetOf(s).bit, k); }
    }
  }

  predicate Stands(m: nat, j: nat, s: SvIdSource, b: nat, initial: nat) {
    Bit(m, j) && s.svId == SvIdAt(s.constellation, b + j, initial)
  }

  /** The decoded entries are exactly the set bits. */
  lemma {:induction false} DecodeBitsMembers(m: nat, b: nat, initial: nat, t: SvType, s: SvIdSource)
    ensures s in DecodeBits(m, b, initial, t) <==> s.constellation == t && exists j: nat :: Stands(m, j, s, b, initial)
    decreases m
  {
    if m == 0 {
      forall j: nat ensures !Bit(m, j) { BitsBelow(0, 0, j); }
    } else {
      var half, next := m / 2, b + 1;
      DecodeBitsMembers(half, next, initial, t, s);
      if j: nat :| Stands(half, j, s, next, initial) {
        assert Stands(m, j + 1, s, b, initial);
      }
      if m % 2 == 1 && s == SvIdSource(t, SvIdAt(t, b, initial)) {
        assert Stands(m, 0, s, b, initial);
      }
      if j: nat :| Stands(m, j, s, b, initial) {
        assert j > 0 ==> Stands(m / 2, j - 1, s, b + 1, initial);
      }
    }
  }

  /** The entry that stands for one bit. */
  function SourceOf(t: SvType, k: nat): SvIdSource
    requires Supported(t)
  {
    SvIdSource(t, SvIdAt(t, k, InitialSvId(t)))
  }

  lemma SourceOfMarksOne(t: SvType, k: nat)
    requires Supported(t) && k < 64
    ensures TargetOf(SourceOf(t, k)) == One(k)
  {
  }

  lemma SbasPartBits(m: uint64, k: nat)
    requires k < 64
    ensures Bit(SbasLow(m), k) <==> k < 39 && Bit(m, k)
    ensures Bit(SbasHigh(m), k) <==> k < 25 && Bit(m, k + 39)
    ensures SbasLow(m) != ALL_ONES && SbasHigh(m) != ALL_ONES
  {
    LowPart(m, k);
    LowPart(m, 63);
    ShiftRightBits(m, 39, k);
    ShiftRightBits(m, 39, 63);
    if k + 39 >= 64 { BitsBelow(m, 64, k + 39); }
    BitsBelow(m, 64, 63 + 39);
    AllOnesBits(64, 63);
  }

  lemma LowPart(m: uint64, k: nat)
    requires k < 64
    ensures Bit(SbasLow(m), k) <==> k < 39 && Bit(m, k)
  {
    var shifted := ShiftLeft(m, 25);
    ShiftRightBits(shifted, 25, k);
    if k < 39 { ShiftLeftBits(m, 25, k + 25); } else { BitsBelow(shifted, 64, k + 25); }
  }

  /** A constellation decodes to one entry per set bit, or to "all" when every bit is set and it is not SBAS. */
  lemma DecodeTypeMembers(c: SvIdConfig, t: SvType, s: SvIdSource)
    requires Supported(t)
    ensures s in DecodeType(c, t) <==>
            if t != Sbas && MaskOf(c, t) == ALL_ONES then s == SvIdSource(t, 0)
            else exists k :: 0 <= k < 64 && Bit(MaskOf(c, t), k) && s == SourceOf(t, k)
  {
    var m := MaskOf(c, t);
    if t == Sbas {
      SbasMembers(m, s);
    } else if m != ALL_ONES {
      DecodeBitsMembers(m, 0, InitialSvId(t), t, s);
      if j: nat :| s.constellation == t && Stands(m, j, s, 0, InitialSvId(t)) {
        if j >= 64 { BitsBelow(m, 64, j); }
        assert s == SourceOf(t, j);
      }
      if k :| 0 <= k < 64 && Bit(m, k) && s == SourceOf(t, k) {
        assert Stands(m, k, s, 0, InitialSvId(t));
      }
    }
  }

  lemma SbasMembers(m: uint64, s: SvIdSource)
    ensures s in DecodeMask(SbasLow(m), SBAS_INITIAL, Sbas) + DecodeMask(SbasHigh(m), SBAS_INITIAL2, Sbas) <==>
            exists k :: 0 <= k < 64 && Bit(m, k) && s == SourceOf(Sbas, k)
  {
    var low, high := SbasLow(m), SbasHigh(m);
    SbasPartBits(m, 0);
    DecodeBitsMembers(low, 0, SBAS_INITIAL, Sbas, s);
    DecodeBitsMembers(high, 0, SBAS_INITIAL2, Sbas, s);
    if j: nat :| s.constellation == Sbas && Stands(low, j, s, 0, SBAS_INITIAL) {
      if j >= 64 { BitsBelow(low, 64, j); } else { SbasPartBits(m, j); }
      assert s == SourceOf(Sbas, j);
    }
    if j: nat :| s.constellation == Sbas && Stands(high, j, s, 0, SBAS_INITIAL2) {
      if j >= 64 { BitsBelow(high, 64, j); } else { SbasPartBits(m, j); }
      assert s == SourceOf(Sbas, j + 39);
    }
    if k :| 0 <= k < 64 && Bit(m, k) && s == SourceOf(Sbas, k) {
      if k < 39 {
        SbasPartBits(m, k);
        assert Stands(low, k, s, 0, SBAS_INITIAL);
      } else {
        SbasPartBits(m, k - 39);
        assert Stands(high, k - 39, s, 0, SBAS_INITIAL2);
      }
    }
  }

  lemma DecodeMembers(c: SvIdConfig, s: SvIdSource)
    ensures s in Decode(c) <==> Supported(s.constellation) && s in DecodeType(c, s.constellation)
  {
    forall t | Supported(t) && s in DecodeType(c, t) ensures s.constellation == t {
      DecodeTypeMembers(c, t, s);
    }
  }

  lemma DecodedEntry(c: SvIdConfig, s: SvIdSource)
    requires s in Decode(c)
    ensures Encodable(s)
    ensures forall k | 0 <= k < 64 && Marks(s, s.constellation, k) :: Bit(MaskOf(c, s.constellation), k)
  {
    DecodeMembers(c, s);
    var t := s.constellation;
    DecodeTypeMembers(c, t, s);
    if t != Sbas && MaskOf(c, t) == ALL_ONES {
      forall k | 0 <= k < 64 ensures Bit(ALL_ONES, k) { AllOnesBits(64, k); }
    } else {
      var j :| 0 <= j < 64 && Bit(MaskOf(c, t), j) && s == SourceOf(t, j);
      SourceOfMarksOne(t, j);
    }
  }

  /** The decoded list can be encoded, and blacklists exactly the set bits. */
  lemma DecodeBlacklistsExactly(c: SvIdConfig, t: SvType, k: nat)
    requires Supported(t) && k < 64
    ensures AllEncodable(Decode(c))
    ensures Blacklists(Decode(c), t, k) <==> Bit(MaskOf(c, t), k)
  {
    forall s | s in Decode(c) ensures Encodable(s) && (Marks(s, t, k) ==> Bit(MaskOf(c, t), k)) {
      DecodedEntry(c, s);
    }
    if Bit(MaskOf(c, t), k) {
      var s := if t != Sbas && MaskOf(c, t) == ALL_ONES then SvIdSource(t, 0) else SourceOf(t, k);
      DecodeTypeMembers(c, t, s);
      DecodeMembers(c, s);
      SourceOfMarksOne(t, k);
      assert s in Decode(c) && Marks(s, t, k);
    }
  }

  // ---- Round trips ------------------------------------------------------------------------------

  lemma SameMasks(c: SvIdConfig, d: SvIdConfig)
    requires forall t, k | Supported(t) && 0 <= k < 64 :: Bit(MaskOf(c, t), k) == Bit(MaskOf(d, t), k)
    ensures c == d
  {
    forall t | Supported(t) ensures MaskOf(c, t) == MaskOf(d, t) {
      SameBits(MaskOf(c, t), MaskOf(d, t), 64);
    }
    assert MaskOf(c, Glonass) == MaskOf(d, Glonass) && MaskOf(c, Beidou) == MaskOf(d, Beidou)
           && MaskOf(c, Qzss) == MaskOf(d, Qzss) && MaskOf(c, Galileo) == MaskOf(d, Galileo)
           && MaskOf(c, Sbas) == MaskOf(d, Sbas) && MaskOf(c, Navic) == MaskOf(d, Navic);
  }

  lemma EncodeClearedSetsExactly(list: seq<SvIdSource>, t: SvType, k: nat)
    requires AllEncodable(list) && Supported(t) && k < 64
    ensures Bit(MaskOf(Encode(CLEARED, list), t), k) <==> Blacklists(list, t, k)
  {
    EncodeSetsExactly(CLEARED, list, t, k);
    BitsBelow(0, 0, k);
  }

  /** Masks first: for all six masks, encoding the decoded list gives the masks back. */
  lemma MasksRoundTrip(c: SvIdConfig)
    ensures AllEncodable(Decode(c)) && Encode(CLEARED, Decode(c)) == c
  {
    DecodeBlacklistsExactly(c, Sbas, 0);
    forall t, k | Supported(t) && 0 <= k < 64
      ensures Bit(MaskOf(Encode(CLEARED, Decode(c)), t), k) == Bit(MaskOf(c, t), k)
    {
      DecodeBlacklistsExactly(c, t, k);
      EncodeClearedSetsExactly(Decode(c), t, k);
    }
    SameMasks(Encode(CLEARED, Decode(c)), c);
  }

  /** Lists first: whatever the list, the decoded one blacklists the same satellites. */
  lemma ListsRoundTrip(list: seq<SvIdSource>, t: SvType, k: nat)
    requires AllEncodable(list) && Supported(t) && k < 64
    ensures Blacklists(Decode(Encode(CLEARED, list)), t, k) <==> Blacklists(list, t, k)
  {
    EncodeClearedSetsExactly(list, t, k);
    DecodeBlacklistsExactly(Encode(CLEARED, list), t, k);
  }

  /** For entries naming one satellite each, and no constellation but SBAS fully covered, the decoded list
      holds the very same entries. */
  lemma EntriesRoundTrip(list: seq<SvIdSource>, s: SvIdSource)
    requires AllEncodable(list) && forall x | x in list :: TargetOf(x).One?
    requires forall t | Supported(t) && t != Sbas :: exists k :: 0 <= k < 64 && !Blacklists(list, t, k)
    ensures s in Decode(Encode(CLEARED, list)) <==> s in list
  {
    var c := Encode(CLEARED, list);
    var t := s.constellation;
    DecodeMembers(c, s);
    if Supported(t) {
      DecodeTypeMembers(c, t, s);
      if t != Sbas { NotFullyCovered(list, t); }
      if s in list {
        var k := TargetOf(s).bit;
        assert Marks(s, t, k) && s == SourceOf(t, k);
        EncodeClearedSetsExactly(list, t, k);
      }
      if k :| 0 <= k < 64 && Bit(MaskOf(c, t), k) && s == SourceOf(t, k) { MarkedByItsSource(list, t, k); }
    }
  }

  lemma NotFullyCovered(list: seq<SvIdSource>, t: SvType)
    requires AllEncodable(list) && Supported(t)
    requires exists k :: 0 <= k < 64 && !Blacklists(list, t, k)
    ensures MaskOf(Encode(CLEARED, list), t) != ALL_ONES
  {
    var k :| 0 <= k < 64 && !Blacklists(list, t, k);
    EncodeClearedSetsExactly(list, t, k);
    AllOnesBits(64, k);
  }

  lemma MarkedByItsSource(list: seq<SvIdSource>, t: SvType, k: nat)
    requires AllEncodable(list) && Supported(t) && k < 64 && forall x | x in list :: TargetOf(x).One?
    requires Bit(MaskOf(Encode(CLEARED, list), t), k)
    ensures SourceOf(t, k) in list
  {
    EncodeClearedSetsExactly(list, t, k);
    var x :| x in list && Marks(x, t, k);
    MarksOnlySource(x, t, k);
  }

  lemma MarksOnlySource(x: SvIdSource, t: SvType, k: nat)
    requires Supported(t) && k < 64 && Marks(x, t, k) && TargetOf(x).One?
    ensures x == SourceOf(t, k)
  {
  }

  // ---- The numbers themselves -------------------------------------------------------------------

  /** The satellite that a bit stands for, by its id in the interface. */
  function SatelliteNumber(t: SvType, k: nat): nat
    requires Supported(t)
  {
    match t
    case Glonass => 65 + k case Beidou => 201 + k case Qzss => 193 + k case Galileo => 301 + k case Navic => 401 + k
    case Sbas => if k < 39 then 120 + k else 144 + k
  }

  lemma MarksByNumber(s: SvIdSource, t: SvType, k: nat)
    requires Supported(t) && k < 64 && Encodable(s)
    ensures Marks(s, t, k) <==> s.constellation == t && (s.svId == 0 || s.svId == SatelliteNumber(t, k))
  {
  }

  /** In a list of encodable entries, a satellite's bit is set exactly if the list names that satellite or, by 0, its
      whole constellation. */
  lemma BitsAreSatellites(list: seq<SvIdSource>, t: SvType, k: nat)
    requires AllEncodable(list) && Supported(t) && k < 64
    ensures Bit(MaskOf(Encode(CLEARED, list), t), k)
            <==> SvIdSource(t, 0) in list || SvIdSource(t, SatelliteNumber(t, k)) in list
  {
    EncodeClearedSetsExactly(list, t, k);
    forall s | s in list
      ensures Marks(s, t, k) <==> s == SvIdSource(t, 0) || s == SvIdSource(t, SatelliteNumber(t, k))
    {
      MarksByNumber(s, t, k);
    }
  }

  /** The masks name exactly the satellites of their set bits; a full mask but that of SBAS names none but 0. */
  lemma SatellitesAreBits(c: SvIdConfig, s: SvIdSource)
    requires Supported(s.constellation)
    ensures var t := s.constellation;
            s in Decode(c) <==>
              if t != Sbas && MaskOf(c, t) == ALL_ONES then s.svId == 0
              else exists k :: 0 <= k < 64 && Bit(MaskOf(c, t), k) && s.svId == SatelliteNumber(t, k)
  {
    var t := s.constellation;
    DecodeMembers(c, s);
    DecodeTypeMembers(c, t, s);
    forall k | 0 <= k < 64 ensures s == SourceOf(t, k) <==> s.svId == SatelliteNumber(t, k) { }
  }

  /** The two forms as GnssAdapter keeps them: a modem restart encodes the kept list again. */
  class BlacklistSettings {
    var mGnssSvIdConfig: SvIdConfig
    var mBlacklistedSvIds: seq<SvIdSource>

    constructor ()
      ensures mGnssSvIdConfig == CLEARED && mBlacklistedSvIds == []
    {
      mGnssSvIdConfig, mBlacklistedSvIds := CLEARED, [];
    }

    method GnssUpdateSvConfig(config: SvIdConfig)
      modifies this
      ensures mGnssSvIdConfig == config && mBlacklistedSvIds == Decode(config)
    {
      mGnssSvIdConfig := config;
      mBlacklistedSvIds := ConvertFromGnssSvIdConfig(config);
    }

    method GnssSvIdConfigUpdateSync(list: seq<SvIdSource>)
      requires AllEncodable(list)
      modifies this`mGnssSvIdConfig
      ensures mGnssSvIdConfig == Encode(CLEARED, list)
    {
      mGnssSvIdConfig := CLEARED;
      var _, config := ConvertToGnssSvIdConfig(list, mGnssSvIdConfig);
      mGnssSvIdConfig := config;
    }

    /** After a restart the modem is sent the very masks it was last given. */
    method ResendAfterRestart(config: SvIdConfig)
      requires mBlacklistedSvIds == Decode(config)
      modifies this`mGnssSvIdConfig
      ensures mGnssSvIdConfig == config
    {
      MasksRoundTrip(config);
      GnssSvIdConfigUpdateSync(mBlacklistedSvIds);
    }
  }

  // ---- No duplicates ----------------------------------------------------------------------------

  ghost predicate Distinct(list: seq<SvIdSource>) {
    forall i, j | 0 <= i < j < |list| :: list[i] != list[j]
  }

  lemma DistinctConcat(a: seq<SvIdSource>, b: seq<SvIdSource>)
    requires Distinct(a) && Distinct(b) && forall s | s in a :: s !in b
    ensures Distinct(a + b)
  {
    assert forall i | |a| <= i < |a + b| :: (a + b)[i] == b[i - |a|];
    assert forall i | 0 <= i < |b| :: b[i] in b;
  }

  lemma {:induction false} DecodeBitsDistinct(m: nat, b: nat, initial: nat, t: SvType)
    requires t == Sbas && initial != SBAS_INITIAL ==> forall j | j >= 0 && Bit(m, j) :: b + j < SBAS_LENGTH
    ensures Distinct(DecodeBits(m, b, initial, t))
    decreases m
  {
    if m > 0 {
      forall j | j >= 0 && Bit(m / 2, j) ensures Bit(m, j + 1) {}
      DecodeBitsDistinct(m / 2, b + 1, initial, t);
      var first, rest := SvIdSource(t, SvIdAt(t, b, initial)), DecodeBits(m / 2, b + 1, initial, t);
      if m % 2 == 1 {
        DecodeBitsMembers(m / 2, b + 1, initial, t, first);
        assert Bit(m, 0);
        assert first !in rest;
        DistinctConcat([first], rest);
      }
    }
  }

  lemma DecodeTypeDistinct(c: SvIdConfig, t: SvType)
    requires Supported(t)
    ensures Distinct(DecodeType(c, t))
  {
    if t == Sbas {
      var low, high := SbasLow(c.sbas), SbasHigh(c.sbas);
      SbasPartBits(c.sbas, 0);
      forall j | j >= 0 && Bit(high, j) ensures j < SBAS_LENGTH {
        if j >= 64 { BitsBelow(high, 64, j); } else { SbasPartBits(c.sbas, j); }
      }
      DecodeBitsDistinct(low, 0, SBAS_INITIAL, Sbas);
      DecodeBitsDistinct(high, 0, SBAS_INITIAL2, Sbas);
      forall s | s in DecodeBits(low, 0, SBAS_INITIAL, Sbas) ensures s !in DecodeBits(high, 0, SBAS_INITIAL2, Sbas) {
        DecodeBitsMembers(low, 0, SBAS_INITIAL, Sbas, s);
        DecodeBitsMembers(high, 0, SBAS_INITIAL2, Sbas, s);
        var j: nat :| Stands(low, j, s, 0, SBAS_INITIAL);
        if j >= 64 { BitsBelow(low, 64, j); } else { SbasPartBits(c.sbas, j); }
      }
      DistinctConcat(DecodeBits(low, 0, SBAS_INITIAL, Sbas), DecodeBits(high, 0, SBAS_INITIAL2, Sbas));
    } else if MaskOf(c, t) != ALL_ONES {
      DecodeBitsDistinct(MaskOf(c, t), 0, InitialSvId(t), t);
    }
  }

  ghost predicate OfType(list: seq<SvIdSource>, t: SvType) {
    forall s | s in list :: s.constellation == t
  }

  /** No entry is ever decoded twice. */
  lemma DecodeDistinct(c: SvIdConfig)
    ensures Distinct(Decode(c))
  {
    forall t | Supported(t) ensures Distinct(DecodeType(c, t)) && OfType(DecodeType(c, t), t) {
      DecodeTypeDistinct(c, t);
      forall s | s in DecodeType(c, t) ensures s.constellation == t { DecodeTypeMembers(c, t, s); }
    }
    var list := DecodeType(c, Beidou);
    DistinctConcat(list, DecodeType(c, Galileo));
    list := list + DecodeType(c, Galileo);
    DistinctConcat(list, DecodeType(c, Glonass));
    list := list + DecodeType(c, Glonass);
    DistinctConcat(list, DecodeType(c, Qzss));
    list := list + DecodeType(c, Qzss);
    DistinctConcat(list, DecodeType(c, Sbas));
    list := list + DecodeType(c, Sbas);
    DistinctConcat(list, DecodeType(c, Navic));
  }
}
