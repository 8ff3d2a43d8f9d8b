/** The bytes of a cross-chain payload: decoding accepts exactly what encoding produces. */
module Payload {
  import opened Types
  import opened Wire
  import opened Actions

  const TWO_TO_63: nat := 0x8000_0000_0000_0000

  /** A payload with identifiers and addresses as the bytes they are. */
  datatype WireTransfer = WireTransfer(head: Head, options: Options, tx: Bytes, destination: Bytes)

  datatype Head = Head(to: Bytes, symbol: Bytes, decimals: uint8, asset: Bytes, value: uint64, isReturn: bool)

  datatype Options = Options(reward: uint64, swapIn: uint64, assetOut: Bytes, swapOut: uint64, swapExpiry: nat)

  function EmptyId(): (b: Bytes)
    ensures |b| == ID_LEN
  {
    seq(ID_LEN, _ => 0)
  }

  /** Largest payload: every optional field present and a symbol of full length. */
  const MAX_PAYLOAD: nat := ADDRESS_LEN + (4 + MAX_SYMBOL_SIZE) + 1 + ID_LEN + 8 + 1 + 8 + 8 + 8 + ID_LEN + 8 + 8 + ID_LEN + ID_LEN

  predicate ValidHead(h: Head) {
    && |h.to| == ADDRESS_LEN
    && 0 < |h.symbol| <= MAX_SYMBOL_SIZE
    && |h.asset| == ID_LEN
    && h.value != 0
  }

  predicate ValidOptions(o: Options) {
    |o.assetOut| == ID_LEN && o.swapExpiry < TWO_TO_63
  }

  predicate ValidSwap(value: uint64, o: Options) {
    o.swapExpiry < TWO_TO_63 && ValidSwapParams(value, o.swapIn, o.assetOut, EmptyId(), o.swapOut, o.swapExpiry)
  }

  predicate ValidTransfer(t: WireTransfer) {
    && ValidHead(t.head) && ValidOptions(t.options) && ValidSwap(t.head.value, t.options)
    && |t.tx| == ID_LEN && t.tx != EmptyId()
    && |t.destination| == ID_LEN && t.destination != EmptyId()
  }

  // ---------------------------------------------------------------------------------------------
  // Encoding

  function EncodeHead(h: Head): Bytes {
    h.to + (ToBytes(|h.symbol|, 4) + (h.symbol + ([h.decimals] + (h.asset + (ToBytes(h.value, 8) + [if h.isReturn then 1 else 0])))))
  }

  function Bit(b: bool, weight: nat): nat {
    if b then weight else 0
  }

  /** One bit for each optional field that is not zero, the first field lowest. */
  function Mask(o: Options): nat {
    Bit(o.reward != 0, 1) + Bit(o.swapIn != 0, 2) + Bit(o.assetOut != EmptyId(), 4)
    + Bit(o.swapOut != 0, 8) + Bit(o.swapExpiry != 0, 16)
  }

  function OptNumber(x: nat): Bytes {
    if x != 0 then ToBytes(x, 8) else []
  }

  function OptId(id: Bytes): Bytes {
    if id != EmptyId() then id else []
  }

  function EncodeOptions(o: Options): Bytes {
    ToBytes(Mask(o), 8) + (OptNumber(o.reward) + (OptNumber(o.swapIn) + (OptId(o.assetOut)
    + (OptNumber(o.swapOut) + OptNumber(o.swapExpiry)))))
  }

  function Encode(t: WireTransfer): Bytes {
    EncodeHead(t.head) + (EncodeOptions(t.options) + (t.tx + t.destination))
  }

  // ---------------------------------------------------------------------------------------------
  // Decoding: every reader returns what it read and what is left

  function Take(b: Bytes, n: nat): Option<(Bytes, Bytes)> {
    if n <= |b| then Some((b[..n], b[n..])) else None
  }

  /** A number that may be required not to be zero. */
  function TakeNumber(b: Bytes, n: nat, required: bool): Option<(nat, Bytes)> {
    match Take(b, n)
    case None => None
    case Some((x, rest)) => if required && FromBytes(x) == 0 then None else Some((FromBytes(x), rest))
  }

  function TakeId(b: Bytes, required: bool): Option<(Bytes, Bytes)> {
    match Take(b, ID_LEN)
    case None => None
    case Some((id, rest)) => if required && id == EmptyId() then None else Some((id, rest))
  }

  /** A non-empty string of at most `limit` bytes, preceded by its length. */
  function TakeString(b: Bytes, limit: nat): Option<(Bytes, Bytes)> {
    match TakeNumber(b, 4, false)
    case None => None
    case Some((n, rest)) => if n == 0 || n > limit then None else Take(rest, n)
  }

  function TakeBool(b: Bytes): Option<(bool, Bytes)> {
    if b == [] || b[0] > 1 then None else Some((b[0] == 1, b[1..]))
  }

  function TakeByte(b: Bytes): Option<(uint8, Bytes)> {
    if b == [] then None else Some((b[0], b[1..]))
  }

  function DecodeHead(b: Bytes): Option<(Head, Bytes)> {
    match Take(b, ADDRESS_LEN)
    case None => None
    case Some((to, b1)) =>
      match TakeString(b1, MAX_SYMBOL_SIZE)
      case None => None
      case Some((symbol, b2)) =>
        match TakeByte(b2)
        case None => None
        case Some((decimals, b3)) =>
          match TakeId(b3, false)
          case None => None
          case Some((asset, b4)) =>
            match TakeNumber(b4, 8, true)
            case None => None
            case Some((value, b5)) =>
              match TakeBool(b5)
              case None => None
              case Some((isReturn, b6)) =>
                if value > MAX_UINT64 then None else Some((Head(to, symbol, decimals, asset, value, isReturn), b6))
  }

  /** An optional number: absent and zero, or present and not zero. */
  function TakeOptNumber(b: Bytes, present: bool): Option<(nat, Bytes)> {
    if present then TakeNumber(b, 8, true) else Some((0, b))
  }

  function TakeOptId(b: Bytes, present: bool): Option<(Bytes, Bytes)> {
    if present then TakeId(b, true) else Some((EmptyId(), b))
  }

  predicate Marked(mask: nat, i: nat) {
    if i == 0 then mask % 2 == 1
    else if i == 1 then mask / 2 % 2 == 1
    else if i == 2 then mask / 4 % 2 == 1
    else if i == 3 then mask / 8 % 2 == 1
    else mask / 16 % 2 == 1
  }

  function DecodeOptions(b: Bytes): Option<(Options, Bytes)> {
    match TakeNumber(b, 8, false)
    case None => None
    case Some((mask, b1)) =>
      if mask >= 32 then None
      else
        match TakeOptNumber(b1, Marked(mask, 0))
        case None => None
        case Some((reward, b2)) =>
          match TakeOptNumber(b2, Marked(mask, 1))
          case None => None
          case Some((swapIn, b3)) =>
            match TakeOptId(b3, Marked(mask, 2))
            case None => None
            case Some((assetOut, b4)) =>
              match TakeOptNumber(b4, Marked(mask, 3))
              case None => None
              case Some((swapOut, b5)) =>
                match TakeOptNumber(b5, Marked(mask, 4))
                case None => None
                case Some((expiry, b6)) =>
                  if reward > MAX_UINT64 || swapIn > MAX_UINT64 || swapOut > MAX_UINT64 then None
                  // an expiry of 2^63 or more is a negative one, which no swap may have
                  else if expiry >= TWO_TO_63 then None
                  else Some((Options(reward, swapIn, assetOut, swapOut, expiry), b6))
  }

  function Decode(b: Bytes): Option<WireTransfer> {
    if |b| > MAX_PAYLOAD then None
    else
      match DecodeHead(b)
      case None => None
      case Some((head, b1)) =>
        match DecodeOptions(b1)
        case None => None
        case Some((options, b2)) =>
          match TakeId(b2, true)
          case None => None
          case Some((tx, b3)) =>
            match TakeId(b3, true)
            case None => None
            case Some((destination, b4)) =>
              if b4 != [] || !ValidSwap(head.value, options) then None
              else Some(WireTransfer(head, options, tx, destination))
  }

  // ---------------------------------------------------------------------------------------------
  // Readers are exact

  lemma TakeIff(b: Bytes, n: nat, x: Bytes, rest: Bytes)
    ensures Take(b, n) == Some((x, rest)) <==> |x| == n && b == x + rest
  {
    if |x| == n && b == x + rest {
      assert b[..n] == x && b[n..] == rest;
    }
    if n <= |b| {
      assert b == b[..n] + b[n..];
    }
  }

  lemma TakeNumberIff(b: Bytes, n: nat, required: bool, x: nat, rest: Bytes)
    ensures TakeNumber(b, n, required) == Some((x, rest))
            <==> x < Pow256(n) && (required ==> x != 0) && b == ToBytes(x, n) + rest
  {
    TakeIff(b, n, ToBytes(x, n), rest);
    if x < Pow256(n) {
      NumberRoundTrip(x, n);
    }
    if n <= |b| {
      BytesRoundTrip(b[..n]);
      TakeIff(b, n, b[..n], b[n..]);
    }
  }

  lemma TakeIdIff(b: Bytes, required: bool, id: Bytes, rest: Bytes)
    ensures TakeId(b, required) == Some((id, rest))
            <==> |id| == ID_LEN && (required ==> id != EmptyId()) && b == id + rest
  {
    TakeIff(b, ID_LEN, id, rest);
  }

  lemma TakeStringIff(b: Bytes, limit: nat, s: Bytes, rest: Bytes)
    requires limit < 0x1_0000_0000
    ensures TakeString(b, limit) == Some((s, rest))
            <==> 0 < |s| <= limit && b == ToBytes(|s|, 4) + (s + rest)
  {
    PowersOf256();
    TakeNumberIff(b, 4, false, |s|, s + rest);
    TakeIff(s + rest, |s|, s, rest);
    var r := TakeNumber(b, 4, false);
    if r.Some? {
      TakeNumberIff(b, 4, false, r.value.0, r.value.1);
      TakeIff(r.value.1, r.value.0, s, rest);
    }
  }

  lemma TakeOptNumberIff(b: Bytes, present: bool, x: nat, rest: Bytes)
    ensures TakeOptNumber(b, present) == Some((x, rest))
            <==> x < TWO_TO_64 && (present <==> x != 0) && b == OptNumber(x) + rest
  {
    PowersOf256();
    TakeNumberIff(b, 8, true, x, rest);
    assert [] + rest == rest;
  }

  lemma TakeOptIdIff(b: Bytes, present: bool, id: Bytes, rest: Bytes)
    ensures TakeOptId(b, present) == Some((id, rest))
            <==> |id| == ID_LEN && (present <==> id != EmptyId()) && b == OptId(id) + rest
  {
    TakeIdIff(b, true, id, rest);
    assert [] + rest == rest;
  }

  /** Right-nested concatenation: the bytes of a head with `rest` after them. */
  function HeadThen(h: Head, rest: Bytes): Bytes {
    h.to + (ToBytes(|h.symbol|, 4) + (h.symbol + ([h.decimals] + UnitsThen(h, rest))))
  }

  function UnitsThen(h: Head, rest: Bytes): Bytes {
    h.asset + (ToBytes(h.value, 8) + ([if h.isReturn then 1 else 0] + rest))
  }

  lemma HeadThenIs(h: Head, rest: Bytes)
    ensures EncodeHead(h) + rest == HeadThen(h, rest)
  {
    var r := [if h.isReturn then 1 else 0];
    var value, size := ToBytes(h.value, 8), ToBytes(|h.symbol|, 4);
    assert (value + r) + rest == value + (r + rest);
    assert (h.asset + (value + r)) + rest == UnitsThen(h, rest);
    var units := h.asset + (value + r);
    assert ([h.decimals] + units) + rest == [h.decimals] + UnitsThen(h, rest);
    assert (h.symbol + ([h.decimals] + units)) + rest == h.symbol + ([h.decimals] + UnitsThen(h, rest));
    assert (size + (h.symbol + ([h.decimals] + units))) + rest == size + (h.symbol + ([h.decimals] + UnitsThen(h, rest)));
  }

  lemma TakeByteIff(b: Bytes, x: uint8, rest: Bytes)
    ensures TakeByte(b) == Some((x, rest)) <==> b == [x] + rest
  {
    if b != [] {
      assert b == [b[0]] + b[1..];
    }
  }

  lemma TakeBoolIff(b: Bytes, x: bool, rest: Bytes)
    ensures TakeBool(b) == Some((x, rest)) <==> b == [if x then 1 else 0] + rest
  {
    if b != [] {
      assert b == [b[0]] + b[1..];
    }
  }

  /** Encoding and then decoding a head leaves what follows it. */
  lemma HeadReads(h: Head, rest: Bytes)
    requires ValidHead(h)
    ensures DecodeHead(HeadThen(h, rest)) == Some((h, rest))
  {
    PowersOf256();
    var b5 := [if h.isReturn then 1 else 0] + rest;
    var b4 := ToBytes(h.value, 8) + b5;
    var b3 := UnitsThen(h, rest);
    var b2 := [h.decimals] + b3;
    var b1 := ToBytes(|h.symbol|, 4) + (h.symbol + b2);
    TakeIff(HeadThen(h, rest), ADDRESS_LEN, h.to, b1);
    TakeStringIff(b1, MAX_SYMBOL_SIZE, h.symbol, b2);
    TakeByteIff(b2, h.decimals, b3);
    TakeIdIff(b3, false, h.asset, b4);
    TakeNumberIff(b4, 8, true, h.value, b5);
    TakeBoolIff(b5, h.isReturn, rest);
  }

  /** A head that decodes is valid and was encoded. */
  lemma HeadWasEncoded(b: Bytes)
    ensures var r := DecodeHead(b);
            r.Some? ==> ValidHead(r.value.0) && b == HeadThen(r.value.0, r.value.1)
  {
    PowersOf256();
    var r := DecodeHead(b);
    if r.Some? {
      var (h, rest) := r.value;
      var b1 := Take(b, ADDRESS_LEN).value.1;
      TakeIff(b, ADDRESS_LEN, h.to, b1);
      var b2 := TakeString(b1, MAX_SYMBOL_SIZE).value.1;
      TakeStringIff(b1, MAX_SYMBOL_SIZE, h.symbol, b2);
      var b3 := TakeByte(b2).value.1;
      TakeByteIff(b2, h.decimals, b3);
      var b4 := TakeId(b3, false).value.1;
      TakeIdIff(b3, false, h.asset, b4);
      var b5 := TakeNumber(b4, 8, true).value.1;
      TakeNumberIff(b4, 8, true, h.value, b5);
      TakeBoolIff(b5, h.isReturn, rest);
    }
  }

  lemma MaskBits(o: Options)
    ensures Mask(o) < 32
    ensures Marked(Mask(o), 0) <==> o.reward != 0
    ensures Marked(Mask(o), 1) <==> o.swapIn != 0
    ensures Marked(Mask(o), 2) <==> o.assetOut != EmptyId()
    ensures Marked(Mask(o), 3) <==> o.swapOut != 0
    ensures Marked(Mask(o), 4) <==> o.swapExpiry != 0
  {
  }

  /** Five bits make up every mask below 32. */
  lemma MaskFromBits(mask: nat, o: Options)
    requires mask < 32
    requires Marked(mask, 0) <==> o.reward != 0
    requires Marked(mask, 1) <==> o.swapIn != 0
    requires Marked(mask, 2) <==> o.assetOut != EmptyId()
    requires Marked(mask, 3) <==> o.swapOut != 0
    requires Marked(mask, 4) <==> o.swapExpiry != 0
    ensures mask == Mask(o)
  {
    assert mask == mask % 2 + 2 * (mask / 2 % 2) + 4 * (mask / 4 % 2) + 8 * (mask / 8 % 2) + 16 * (mask / 16 % 2);
  }

  /** Right-nested concatenation of the optional fields that are present. */
  function OptionsThen(o: Options, rest: Bytes): Bytes {
    OptNumber(o.reward) + (OptNumber(o.swapIn) + (OptId(o.assetOut) + (OptNumber(o.swapOut) + (OptNumber(o.swapExpiry) + rest))))
  }

  lemma OptionsThenIs(o: Options, rest: Bytes)
    ensures EncodeOptions(o) + rest == ToBytes(Mask(o), 8) + OptionsThen(o, rest)
  {
    var a, b, c, d, e := OptNumber(o.reward), OptNumber(o.swapIn), OptId(o.assetOut), OptNumber(o.swapOut), OptNumber(o.swapExpiry);
    assert (d + e) + rest == d + (e + rest);
    assert (c + (d + e)) + rest == c + (d + (e + rest));
    assert (b + (c + (d + e))) + rest == b + (c + (d + (e + rest)));
    assert (a + (b + (c + (d + e)))) + rest == OptionsThen(o, rest);
  }

  /** For every pattern of zero and non-zero fields. */
  lemma OptionsRead(o: Options, mask: nat, rest: Bytes)
    requires ValidOptions(o) && mask == Mask(o)
    ensures DecodeOptions(ToBytes(mask, 8) + OptionsThen(o, rest)) == Some((o, rest))
  {
    PowersOf256();
    MaskBits(o);
    var b5 := OptNumber(o.swapExpiry) + rest;
    var b4 := OptNumber(o.swapOut) + b5;
    var b3 := OptId(o.assetOut) + b4;
    var b2 := OptNumber(o.swapIn) + b3;
    var b1 := OptNumber(o.reward) + b2;
    TakeNumberIff(ToBytes(mask, 8) + b1, 8, false, mask, b1);
    TakeOptNumberIff(b1, Marked(mask, 0), o.reward, b2);
    TakeOptNumberIff(b2, Marked(mask, 1), o.swapIn, b3);
    TakeOptIdIff(b3, Marked(mask, 2), o.assetOut, b4);
    TakeOptNumberIff(b4, Marked(mask, 3), o.swapOut, b5);
    TakeOptNumberIff(b5, Marked(mask, 4), o.swapExpiry, rest);
  }

  lemma OptionsWereEncoded(b: Bytes)
    ensures var r := DecodeOptions(b);
            r.Some? ==> ValidOptions(r.value.0) && b == ToBytes(Mask(r.value.0), 8) + OptionsThen(r.value.0, r.value.1)
  {
    PowersOf256();
    var r := DecodeOptions(b);
    if r.Some? {
      var (o, rest) := r.value;
      var (mask, b1) := TakeNumber(b, 8, false).value;
      TakeNumberIff(b, 8, false, mask, b1);
      var b2 := TakeOptNumber(b1, Marked(mask, 0)).value.1;
      TakeOptNumberIff(b1, Marked(mask, 0), o.reward, b2);
      var b3 := TakeOptNumber(b2, Marked(mask, 1)).value.1;
      TakeOptNumberIff(b2, Marked(mask, 1), o.swapIn, b3);
      var b4 := TakeOptId(b3, Marked(mask, 2)).value.1;
      TakeOptIdIff(b3, Marked(mask, 2), o.assetOut, b4);
      var b5 := TakeOptNumber(b4, Marked(mask, 3)).value.1;
      TakeOptNumberIff(b4, Marked(mask, 3), o.swapOut, b5);
      TakeOptNumberIff(b5, Marked(mask, 4), o.swapExpiry, rest);
      MaskFromBits(mask, o);
    }
  }

  lemma EncodedFits(t: WireTransfer)
    requires ValidTransfer(t)
    ensures |Encode(t)| <= MAX_PAYLOAD
  {
  }

  lemma EncodeIs(t: WireTransfer, b1: Bytes, b2: Bytes)
    requires b2 == t.tx + t.destination && b1 == ToBytes(Mask(t.options), 8) + OptionsThen(t.options, b2)
    ensures Encode(t) == HeadThen(t.head, b1)
  {
    OptionsThenIs(t.options, b2);
    HeadThenIs(t.head, b1);
  }

  /** Every valid payload survives, with no bytes left over. */
  lemma PayloadRoundTrip(t: WireTransfer)
    requires ValidTransfer(t)
    ensures Decode(Encode(t)) == Some(t)
  {
    var ids := t.tx + t.destination;
    var b1 := ToBytes(Mask(t.options), 8) + OptionsThen(t.options, ids);
    EncodedFits(t);
    EncodeIs(t, b1, ids);
    HeadReads(t.head, b1);
    OptionsRead(t.options, Mask(t.options), ids);
    TakeIdIff(ids, true, t.tx, t.destination);
    assert t.destination + [] == t.destination;
    TakeIdIff(t.destination, true, t.destination, []);
  }

  lemma DecodedWasEncoded(b: Bytes, t: WireTransfer)
    requires Decode(b) == Some(t)
    ensures ValidTransfer(t) && b == Encode(t)
  {
    HeadWasEncoded(b);
    var b1 := DecodeHead(b).value.1;
    OptionsWereEncoded(b1);
    var b2 := DecodeOptions(b1).value.1;
    var b3 := TakeId(b2, true).value.1;
    TakeIdIff(b2, true, t.tx, b3);
    TakeIdIff(b3, true, t.destination, []);
    assert t.destination + [] == t.destination;
    EncodeIs(t, b1, b2);
  }

  /** Decoding returns a payload exactly when it is a valid one and the bytes are its encoding. */
  lemma DecodeIff(b: Bytes, t: WireTransfer)
    ensures Decode(b) == Some(t) <==> ValidTransfer(t) && b == Encode(t)
  {
    if Decode(b) == Some(t) {
      DecodedWasEncoded(b, t);
    }
    if ValidTransfer(t) && b == Encode(t) {
      PayloadRoundTrip(t);
    }
  }

  /** Different payloads have different bytes. */
  lemma EncodingIsInjective(t: WireTransfer, u: WireTransfer)
    requires ValidTransfer(t) && ValidTransfer(u) && Encode(t) == Encode(u)
    ensures t == u
  {
    DecodeIff(Encode(t), t);
    DecodeIff(Encode(t), u);
  }
}
