/** The byte layout of stored records and of their keys. */
module Records {
  import opened Types
  import opened Wire

  // ---------------------------------------------------------------------------------------------
  // Asset records

  datatype AssetFields = AssetFields(
    symbol: Bytes, decimals: uint8, metadata: Bytes, supply: uint64, owner: Bytes, warp: bool)

  /** Where the field after `symbol` and `metadata` of these lengths ends. */
  function RecordSize(symbolLen: nat, metadataLen: nat): nat {
    2 + symbolLen + 1 + 2 + metadataLen + 8 + ADDRESS_LEN + 1
  }

  /** The first `k` fields of a record. */
  function Fields(a: AssetFields, k: nat): Bytes
    requires k <= 8
  {
    if k == 0 then [] else Fields(a, k - 1) + Field(a, k - 1)
  }

  function Field(a: AssetFields, k: nat): Bytes
    requires k < 8
  {
    if k == 0 then ToBytes(|a.symbol|, 2)
    else if k == 1 then a.symbol
    else if k == 2 then [a.decimals]
    else if k == 3 then ToBytes(|a.metadata|, 2)
    else if k == 4 then a.metadata
    else if k == 5 then ToBytes(a.supply, 8)
    else if k == 6 then a.owner
    else [if a.warp then 1 else 0]
  }

  function EncodeAsset(a: AssetFields): Bytes {
    Fields(a, 8)
  }

  /** An index computed in 16 bits. */
  function Index16(i: nat): nat {
    if i < 0x1_0000 then i else i % 0x1_0000
  }

  /** A number at an index, or nothing if it does not lie within the bytes. */
  function NumberAt(v: Bytes, i: nat, width: nat): Option<nat> {
    if i + width <= |v| then Some(FromBytes(v[i..i + width])) else None
  }

  /** Where symbol and metadata lie; all indices are computed in 16 bits. */
  function Bounds(v: Bytes): Option<(nat, nat, nat)> {
    match NumberAt(v, 0, 2)
    case None => None
    case Some(symbolLen) =>
      var symbolEnd := Index16(2 + symbolLen);
      match NumberAt(v, Index16(symbolEnd + 1), 2)
      case None => None
      case Some(metadataLen) =>
        var start := Index16(symbolEnd + 3);
        Some((symbolEnd, start, Index16(start + metadataLen)))
  }

  /** Read a record; nothing is returned where the program would run out of the bytes it was given. */
  function DecodeAsset(v: Bytes): Option<AssetFields> {
    match Bounds(v)
    case None => None
    case Some((symbolEnd, start, end)) =>
      var ownerAt := Index16(end + 8);
      var warpAt := Index16(ownerAt + ADDRESS_LEN);
      if !(2 <= symbolEnd < |v|) || !(start <= end <= |v|) || ownerAt + ADDRESS_LEN > |v| || warpAt >= |v| then None
      else
        match NumberAt(v, end, 8)
        case None => None
        case Some(supply) =>
          if supply > MAX_UINT64 then None
          else Some(AssetFields(v[2..symbolEnd], v[symbolEnd], v[start..end], supply,
                                v[ownerAt..ownerAt + ADDRESS_LEN], v[warpAt] == 1))
  }

  /** Where each field starts. */
  function Offset(a: AssetFields, k: nat): nat
    requires k <= 8
  {
    if k == 0 then 0 else Offset(a, k - 1) + |Field(a, k - 1)|
  }

  lemma {:induction false} FieldsLength(a: AssetFields, k: nat)
    requires k <= 8
    ensures |Fields(a, k)| == Offset(a, k)
    decreases k
  {
    if k > 0 {
      FieldsLength(a, k - 1);
    }
  }

  /** Field `k` is where its offset says. */
  lemma {:induction false} FieldAt(a: AssetFields, k: nat, n: nat)
    requires k < n <= 8
    ensures Offset(a, k + 1) <= Offset(a, n) && |Fields(a, n)| == Offset(a, n)
    ensures Fields(a, n)[Offset(a, k)..Offset(a, k + 1)] == Field(a, k)
    decreases n
  {
    hide Field;
    FieldsLength(a, n);
    FieldsLength(a, n - 1);
    var before, last := Fields(a, n - 1), Field(a, n - 1);
    assert Fields(a, n) == before + last;
    if k == n - 1 {
      assert (before + last)[|before|..|before| + |last|] == last;
    } else {
      FieldAt(a, k, n - 1);
      SliceOfPrefix(before, last, Offset(a, k), Offset(a, k + 1));
    }
  }

  lemma SliceOfPrefix(b: Bytes, c: Bytes, i: nat, j: nat)
    requires i <= j <= |b|
    ensures (b + c)[i..j] == b[i..j]
  {
  }

  lemma Offsets(a: AssetFields)
    requires |a.owner| == ADDRESS_LEN
    ensures var m, n := |a.symbol|, |a.metadata|;
            && Offset(a, 0) == 0 && Offset(a, 1) == 2 && Offset(a, 2) == 2 + m && Offset(a, 3) == 3 + m
            && Offset(a, 4) == 5 + m && Offset(a, 5) == 5 + m + n && Offset(a, 6) == 13 + m + n
            && Offset(a, 7) == 46 + m + n && Offset(a, 8) == 47 + m + n == RecordSize(m, n)
  {
    assert Offset(a, 1) == 2;
    assert Offset(a, 2) == 2 + |a.symbol|;
    assert Offset(a, 3) == 3 + |a.symbol|;
    assert Offset(a, 4) == 5 + |a.symbol|;
    assert Offset(a, 5) == 5 + |a.symbol| + |a.metadata|;
    assert Offset(a, 6) == 13 + |a.symbol| + |a.metadata|;
    assert Offset(a, 7) == 46 + |a.symbol| + |a.metadata|;
  }

  /** Field `k` lies at its offset. */
  predicate SliceIs(v: Bytes, a: AssetFields, k: nat)
    requires k < 8
  {
    Offset(a, k + 1) <= |v| && v[Offset(a, k)..Offset(a, k + 1)] == Field(a, k)
  }

  lemma SlicesOfRecord(a: AssetFields)
    ensures |EncodeAsset(a)| == Offset(a, 8)
    ensures forall k: nat :: k < 8 ==> SliceIs(EncodeAsset(a), a, k)
  {
    FieldsLength(a, 8);
    forall k: nat | k < 8 ensures SliceIs(EncodeAsset(a), a, k) {
      FieldAt(a, k, 8);
    }
  }

  lemma FrontLayout(v: Bytes, a: AssetFields)
    requires |a.owner| == ADDRESS_LEN && |v| == Offset(a, 8)
    requires forall k: nat :: k < 8 ==> SliceIs(v, a, k)
    ensures var m := |a.symbol|;
            5 + m <= |v| && v[0..2] == ToBytes(m, 2) && v[2..2 + m] == a.symbol && v[2 + m..3 + m] == [a.decimals]
            && v[3 + m..5 + m] == ToBytes(|a.metadata|, 2)
  {
    Offsets(a);
    assert SliceIs(v, a, 0) && SliceIs(v, a, 1) && SliceIs(v, a, 2) && SliceIs(v, a, 3);
  }

  lemma BackLayout(v: Bytes, a: AssetFields)
    requires |a.owner| == ADDRESS_LEN && |v| == Offset(a, 8)
    requires forall k: nat :: k < 8 ==> SliceIs(v, a, k)
    ensures var e := 5 + |a.symbol| + |a.metadata|;
            e + 42 == |v| && v[5 + |a.symbol|..e] == a.metadata && v[e..e + 8] == ToBytes(a.supply, 8)
            && v[e + 8..e + 41] == a.owner && v[e + 41..e + 42] == [if a.warp then 1 else 0]
  {
    Offsets(a);
    assert SliceIs(v, a, 4) && SliceIs(v, a, 5) && SliceIs(v, a, 6) && SliceIs(v, a, 7);
  }

  lemma AssetLayout(a: AssetFields)
    requires |a.owner| == ADDRESS_LEN
    ensures HasLayout(EncodeAsset(a), a)
  {
    SlicesOfRecord(a);
    FrontLayout(EncodeAsset(a), a);
    BackLayout(EncodeAsset(a), a);
  }

  /** The fields lie where unbounded indices would find them. */
  predicate HasLayout(v: Bytes, a: AssetFields) {
    var m, n := |a.symbol|, |a.metadata|;
    && |v| == RecordSize(m, n)
    && v[0..2] == ToBytes(m, 2) && v[2..2 + m] == a.symbol && v[2 + m..3 + m] == [a.decimals]
    && v[3 + m..5 + m] == ToBytes(n, 2) && v[5 + m..5 + m + n] == a.metadata
    && v[5 + m + n..13 + m + n] == ToBytes(a.supply, 8) && v[13 + m + n..46 + m + n] == a.owner
    && v[46 + m + n..47 + m + n] == [if a.warp then 1 else 0]
  }

  lemma LayoutBounds(v: Bytes, a: AssetFields)
    requires HasLayout(v, a) && RecordSize(|a.symbol|, |a.metadata|) <= 0x1_0000
    ensures Bounds(v) == Some((2 + |a.symbol|, 5 + |a.symbol|, 5 + |a.symbol| + |a.metadata|))
  {
    PowersOf256();
    NumberRoundTrip(|a.symbol|, 2);
    NumberRoundTrip(|a.metadata|, 2);
  }

  lemma LayoutDecodes(v: Bytes, a: AssetFields)
    requires |a.owner| == ADDRESS_LEN && HasLayout(v, a)
    requires RecordSize(|a.symbol|, |a.metadata|) <= 0x1_0000
    ensures DecodeAsset(v) == Some(a)
  {
    var m, n := |a.symbol|, |a.metadata|;
    LayoutBounds(v, a);
    PowersOf256();
    NumberRoundTrip(a.supply, 8);
    assert NumberAt(v, 5 + m + n, 8) == Some(a.supply);
    assert v[2 + m] == v[2 + m..3 + m][0] && v[46 + m + n] == v[46 + m + n..47 + m + n][0];
  }

  /** Decoding what was stored returns every field, as long as all indices fit into 16 bits. */
  lemma AssetRoundTrip(a: AssetFields)
    requires |a.owner| == ADDRESS_LEN
    requires RecordSize(|a.symbol|, |a.metadata|) <= 0x1_0000
    ensures DecodeAsset(EncodeAsset(a)) == Some(a)
  {
    AssetLayout(a);
    LayoutDecodes(EncodeAsset(a), a);
  }

  /** The limits on created and imported assets keep every index far below 2^16. */
  lemma LimitsSuffice(symbolLen: nat, metadataLen: nat)
    requires symbolLen <= 8 && metadataLen <= 256
    ensures RecordSize(symbolLen, metadataLen) <= 0x1_0000
  {
  }

  /** The same record with the other warp flag. */
  function Twin(a: AssetFields): AssetFields {
    a.(warp := !a.warp)
  }

  lemma {:induction false} TwinFields(a: AssetFields, k: nat)
    requires k <= 7
    ensures Fields(Twin(a), k) == Fields(a, k)
    decreases k
  {
    if k > 0 {
      TwinFields(a, k - 1);
    }
  }

  /** What reads back as `a` was found at indices that only depend on the lengths. */
  lemma FoundAt(v: Bytes, a: AssetFields)
    requires DecodeAsset(v) == Some(a)
    ensures var start := Index16(|a.symbol| + 5);
            var warpAt := Index16(Index16(start + |a.metadata| + 8) + ADDRESS_LEN);
            warpAt < |v| && a.warp == (v[warpAt] == 1)
  {
    var (symbolEnd, start, end) := Bounds(v).value;
    assert symbolEnd == |a.symbol| + 2 && start == Index16(symbolEnd + 3) && end == start + |a.metadata|;
  }

  /** A record and its twin both survive storage exactly when all indices fit into 16 bits: beyond that
      the flag is read at an index below 2^16, where the two have the same byte. */
  lemma RoundTripIff(a: AssetFields)
    requires |a.owner| == ADDRESS_LEN
    ensures DecodeAsset(EncodeAsset(a)) == Some(a) && DecodeAsset(EncodeAsset(Twin(a))) == Some(Twin(a))
            <==> RecordSize(|a.symbol|, |a.metadata|) <= 0x1_0000
  {
    hide DecodeAsset, Field;
    if RecordSize(|a.symbol|, |a.metadata|) <= 0x1_0000 {
      AssetRoundTrip(a);
      AssetRoundTrip(Twin(a));
    } else if DecodeAsset(EncodeAsset(a)) == Some(a) && DecodeAsset(EncodeAsset(Twin(a))) == Some(Twin(a)) {
      FoundAt(EncodeAsset(a), a);
      FoundAt(EncodeAsset(Twin(a)), Twin(a));
      TwinFields(a, 7);
      Offsets(a);
      FieldsLength(a, 7);
      assert false;
    }
  }

  /** Beyond that the round trip fails: with 65533 bytes of symbol the index of the metadata length wraps
      around to the length of the symbol, so no other length of metadata can come back. */
  lemma LongSymbolIsMisread(a: AssetFields)
    requires |a.owner| == ADDRESS_LEN && |a.symbol| == 65533 && |a.metadata| != 65533
    ensures DecodeAsset(EncodeAsset(a)) != Some(a)
  {
    var v, m := EncodeAsset(a), |a.symbol|;
    PowersOf256();
    NumberRoundTrip(m, 2);
    Offsets(a);
    SlicesOfRecord(a);
    FrontLayout(v, a);
    WrappedLength(v, m);
  }

  lemma WrappedLength(v: Bytes, m: nat)
    requires m == 65533 && NumberAt(v, 0, 2) == Some(m)
    ensures var r := DecodeAsset(v); r.Some? ==> |r.value.metadata| == m
  {
    assert Index16(m + 2) == 65535 && Index16(65536) == 0 && Index16(65538) == 2;
  }

  // ---------------------------------------------------------------------------------------------
  // Writing into a buffer

  method PutUint(v: array<uint8>, offset: nat, x: nat, width: nat)
    requires offset + width <= v.Length
    modifies v
    ensures v[..offset + width] == old(v[..offset]) + ToBytes(x, width)
  {
    var rest, i := x, width;
    while i > 0
      invariant 0 <= i <= width
      invariant v[..offset] == old(v[..offset])
      invariant ToBytes(rest, i) + v[offset + i..offset + width] == ToBytes(x, width)
    {
      ghost var before := v[offset + i..offset + width];
      v[offset + i - 1] := rest % 256;
      assert v[offset + i - 1..offset + width] == [rest % 256] + before;
      assert ToBytes(rest, i) + before == ToBytes(rest / 256, i - 1) + ([rest % 256] + before);
      rest := rest / 256;
      i := i - 1;
    }
    assert v[..offset + width] == v[..offset] + v[offset..offset + width];
  }

  method Copy(v: array<uint8>, offset: nat, src: Bytes)
    requires offset + |src| <= v.Length
    modifies v
    ensures v[..offset + |src|] == old(v[..offset]) + src
  {
    for i := 0 to |src|
      invariant v[..offset + i] == old(v[..offset]) + src[..i]
    {
      v[offset + i] := src[i];
      assert v[..offset + i + 1] == v[..offset + i] + [src[i]];
    }
  }

  /** Write the next field of a record, a number. */
  method PutField(v: array<uint8>, offset: nat, x: nat, width: nat, ghost a: AssetFields, ghost k: nat)
    requires offset + width <= v.Length && k < 8
    requires v[..offset] == Fields(a, k) && Field(a, k) == ToBytes(x, width)
    modifies v
    ensures v[..offset + width] == Fields(a, k + 1)
  {
    PutUint(v, offset, x, width);
  }

  /** Write the next field of a record, a string of bytes. */
  method CopyField(v: array<uint8>, offset: nat, src: Bytes, ghost a: AssetFields, ghost k: nat)
    requires offset + |src| <= v.Length && k < 8
    requires v[..offset] == Fields(a, k) && Field(a, k) == src
    modifies v
    ensures v[..offset + |src|] == Fields(a, k + 1)
  {
    Copy(v, offset, src);
  }

  lemma FieldsInOrder(a: AssetFields)
    ensures Fields(a, 0) == []
    ensures Field(a, 0) == ToBytes(|a.symbol|, 2) && Field(a, 1) == a.symbol && Field(a, 2) == [a.decimals]
    ensures Field(a, 3) == ToBytes(|a.metadata|, 2) && Field(a, 4) == a.metadata && Field(a, 5) == ToBytes(a.supply, 8)
    ensures Field(a, 6) == a.owner && Field(a, 7) == [if a.warp then 1 else 0]
  {
  }

  /** Fill the buffer of an asset record front to back. */
  method StoreAsset(a: AssetFields) returns (v: array<uint8>)
    requires |a.owner| == ADDRESS_LEN
    ensures fresh(v) && v[..] == EncodeAsset(a)
  {
    hide Fields, Field, ToBytes;
    var symbolLen, metadataLen := |a.symbol|, |a.metadata|;
    FieldsInOrder(a);
    v := new uint8[RecordSize(symbolLen, metadataLen)](_ => 0);
    PutField(v, 0, symbolLen, 2, a, 0);
    CopyField(v, 2, a.symbol, a, 1);
    CopyField(v, 2 + symbolLen, [a.decimals], a, 2);
    PutField(v, 2 + symbolLen + 1, metadataLen, 2, a, 3);
    CopyField(v, 2 + symbolLen + 1 + 2, a.metadata, a, 4);
    PutField(v, 2 + symbolLen + 1 + 2 + metadataLen, a.supply, 8, a, 5);
    CopyField(v, 2 + symbolLen + 1 + 2 + metadataLen + 8, a.owner, a, 6);
    CopyField(v, 2 + symbolLen + 1 + 2 + metadataLen + 8 + ADDRESS_LEN, [if a.warp then 1 else 0], a, 7);
    assert v[..] == v[..v.Length];
  }

  // ---------------------------------------------------------------------------------------------
  // Stake records: numbers, then two addresses

  datatype StakeFields = StakeFields(numbers: seq<uint64>, rewardAddress: Bytes, owner: Bytes)

  function EncodeNumbers(xs: seq<uint64>): (b: Bytes)
    ensures |b| == 8 * |xs|
  {
    if xs == [] then [] else EncodeNumbers(xs[..|xs| - 1]) + ToBytes(xs[|xs| - 1], 8)
  }

  function DecodeNumbers(b: Bytes, count: nat): (xs: seq<uint64>)
    requires |b| == 8 * count
    ensures |xs| == count
  {
    if count == 0 then []
    else
      var last := FromBytes(b[8 * (count - 1)..]);
      DecodeNumbers(b[..8 * (count - 1)], count - 1) + [if last <= MAX_UINT64 then last else 0]
  }

  function EncodeStake(s: StakeFields): Bytes {
    EncodeNumbers(s.numbers) + s.rewardAddress + s.owner
  }

  /** A stake record with `count` numbers: four for a validator, three for a delegation. */
  function DecodeStake(v: Bytes, count: nat): Option<StakeFields> {
    var k := 8 * count;
    if |v| < k + 2 * ADDRESS_LEN then None
    else Some(StakeFields(DecodeNumbers(v[..k], count), v[k..k + ADDRESS_LEN], v[k + ADDRESS_LEN..k + 2 * ADDRESS_LEN]))
  }

  /** Fill the buffer of a stake record, advancing an offset from field to field. */
  method StoreStake(s: StakeFields) returns (v: array<uint8>)
    requires |s.rewardAddress| == ADDRESS_LEN && |s.owner| == ADDRESS_LEN
    ensures fresh(v) && v[..] == EncodeStake(s)
  {
    v := new uint8[8 * |s.numbers| + 2 * ADDRESS_LEN](_ => 0);
    var offset := 0;
    for i := 0 to |s.numbers|
      invariant offset == 8 * i
      invariant v[..offset] == EncodeNumbers(s.numbers[..i])
    {
      assert s.numbers[..i + 1][..i] == s.numbers[..i];
      PutUint(v, offset, s.numbers[i], 8);
      offset := offset + 8;
    }
    assert s.numbers[..|s.numbers|] == s.numbers;
    Copy(v, offset, s.rewardAddress);
    offset := offset + ADDRESS_LEN;
    Copy(v, offset, s.owner);
    assert v[..] == v[..v.Length];
  }

  lemma {:induction false} NumbersRoundTrip(xs: seq<uint64>)
    ensures DecodeNumbers(EncodeNumbers(xs), |xs|) == xs
    decreases |xs|
  {
    if xs != [] {
      var init, last := xs[..|xs| - 1], xs[|xs| - 1];
      var b := EncodeNumbers(xs);
      NumbersRoundTrip(init);
      assert b[..8 * |init|] == EncodeNumbers(init) && b[8 * |init|..] == ToBytes(last, 8);
      PowersOf256();
      FixedWidth(last, 8, ToBytes(last, 8));
    }
  }

  lemma StakeRoundTrip(s: StakeFields)
    requires |s.rewardAddress| == ADDRESS_LEN && |s.owner| == ADDRESS_LEN
    ensures DecodeStake(EncodeStake(s), |s.numbers|) == Some(s)
  {
    hide EncodeNumbers, DecodeNumbers;
    var v, k := EncodeStake(s), 8 * |s.numbers|;
    NumbersRoundTrip(s.numbers);
    assert v[..k] == EncodeNumbers(s.numbers);
    assert v[k..k + ADDRESS_LEN] == s.rewardAddress;
    assert v[k + ADDRESS_LEN..k + 2 * ADDRESS_LEN] == s.owner;
  }

  // ---------------------------------------------------------------------------------------------
  // Keys

  datatype RawKey =
    | Balance(addr: Bytes, asset: Bytes)
    | Asset(asset: Bytes)
    | Loan(asset: Bytes, chain: Bytes)
    | ValidatorStake(node: Bytes)
    | UserStake(addr: Bytes, node: Bytes)
    | Height
    | Timestamp
    | Fee
    | IncomingWarp(chain: Bytes, message: Bytes)
    | OutgoingWarp(tx: Bytes)

  predicate WellSized(k: RawKey) {
    match k
    case Balance(addr, asset) => |addr| == ADDRESS_LEN && |asset| == ID_LEN
    case Asset(asset) => |asset| == ID_LEN
    case Loan(asset, chain) => |asset| == ID_LEN && |chain| == ID_LEN
    case ValidatorStake(node) => |node| == NODE_ID_LEN
    case UserStake(addr, node) => |addr| == ADDRESS_LEN && |node| == NODE_ID_LEN
    case IncomingWarp(chain, message) => |chain| == ID_LEN && |message| == ID_LEN
    case OutgoingWarp(tx) => |tx| == ID_LEN
    case _ => true
  }

  /** Prefix byte, parts, and the number of chunks the value may take. */
  function KeyBytes(k: RawKey): Bytes {
    match k
    case Balance(addr, asset) => [0] + addr + asset + ToBytes(1, 2)
    case Asset(asset) => [6] + asset + ToBytes(5, 2)
    case Loan(asset, chain) => [7] + asset + chain + ToBytes(1, 2)
    case ValidatorStake(node) => [8] + node + ToBytes(5, 2)
    case UserStake(addr, node) => [9] + addr + node + ToBytes(3, 2)
    case Height => [1]
    case Timestamp => [2]
    case Fee => [3]
    case IncomingWarp(chain, message) => [4] + chain + message
    case OutgoingWarp(tx) => [5] + tx
  }

  /** Two parts of known lengths between the prefix and the rest. */
  lemma SplitParts(p: uint8, a: Bytes, b: Bytes, c: Bytes, a': Bytes, b': Bytes, c': Bytes)
    requires [p] + a + b + c == [p] + a' + b' + c' && |a| == |a'| && |b| == |b'|
    ensures a == a' && b == b'
  {
    var x, y := [p] + a + b + c, [p] + a' + b' + c';
    assert x[1..1 + |a|] == a && y[1..1 + |a|] == a';
    assert x[1 + |a|..1 + |a| + |b|] == b && y[1 + |a|..1 + |a| + |b|] == b';
  }

  lemma SplitOne(p: uint8, a: Bytes, c: Bytes, a': Bytes, c': Bytes)
    requires [p] + a + c == [p] + a' + c' && |a| == |a'|
    ensures a == a'
  {
    assert ([p] + a + c)[1..1 + |a|] == a && ([p] + a' + c')[1..1 + |a|] == a';
  }

  /** Different keys have different bytes. */
  lemma KeysAreInjective(j: RawKey, k: RawKey)
    requires WellSized(j) && WellSized(k) && KeyBytes(j) == KeyBytes(k)
    ensures j == k
  {
    assert KeyBytes(j)[0] == KeyBytes(k)[0];
    match j
    case Balance(a, b) => SplitParts(0, a, b, ToBytes(1, 2), k.addr, k.asset, ToBytes(1, 2));
    case Asset(a) => SplitOne(6, a, ToBytes(5, 2), k.asset, ToBytes(5, 2));
    case Loan(a, b) => SplitParts(7, a, b, ToBytes(1, 2), k.asset, k.chain, ToBytes(1, 2));
    case ValidatorStake(a) => SplitOne(8, a, ToBytes(5, 2), k.node, ToBytes(5, 2));
    case UserStake(a, b) => SplitParts(9, a, b, ToBytes(3, 2), k.addr, k.node, ToBytes(3, 2));
    case IncomingWarp(a, b) => SplitParts(4, a, b, [], k.chain, k.message, []);
    case OutgoingWarp(a) => SplitParts(5, a, [], [], k.tx, [], []);
    case _ =>
  }
}
