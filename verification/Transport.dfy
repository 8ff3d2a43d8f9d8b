/** From payloads to bytes: identifiers get fixed-width names, and what an honest chain sends is exactly
    what the receiver decodes. */
module Transport {
  import opened Types
  import opened Wire
  import opened Actions
  import opened Network
  import P = Payload

  /** The bytes that stand for the identifiers in use. */
  datatype Naming = Naming(
    address: map<Address, Bytes>, asset: map<AssetId, Bytes>, chain: map<ChainId, Bytes>, tx: map<TxId, Bytes>)

  ghost predicate Distinguishes<K>(m: map<K, Bytes>, size: nat) {
    && (forall k | k in m :: |m[k]| == size)
    && (forall j, k | j in m && k in m :: m[j] == m[k] ==> j == k)
  }

  /** Names are of full width, no two identifiers share one, and the empty name stands for the empty identifier. */
  ghost predicate Proper(n: Naming) {
    && Distinguishes(n.address, ADDRESS_LEN) && Distinguishes(n.asset, ID_LEN)
    && Distinguishes(n.chain, ID_LEN) && Distinguishes(n.tx, ID_LEN)
    && Native in n.asset && n.asset[Native] == P.EmptyId()
    && EMPTY_CHAIN in n.chain && n.chain[EMPTY_CHAIN] == P.EmptyId()
    && (forall t | t in n.tx :: n.tx[t] != P.EmptyId())
  }

  predicate Named(n: Naming, t: WarpTransfer) {
    && t.to in n.address && t.asset in n.asset && t.assetOut in n.asset
    && t.tx in n.tx && t.destination in n.chain
  }

  /** A signed number as the unsigned one with the same 64 bits. */
  function Unsigned(x: int64): nat {
    if x < 0 then x + TWO_TO_64 else x
  }

  function ToWire(n: Naming, t: WarpTransfer): P.WireTransfer
    requires Named(n, t)
  {
    P.WireTransfer(P.Head(n.address[t.to], t.symbol, t.decimals, n.asset[t.asset], t.value, t.isReturn),
                   P.Options(t.reward, t.swapIn, n.asset[t.assetOut], t.swapOut, Unsigned(t.swapExpiry)),
                   n.tx[t.tx], n.chain[t.destination])
  }

  /** A payload is well formed exactly when its bytes decode, and then they decode to it. */
  lemma WellFormedIffDecodes(n: Naming, t: WarpTransfer)
    requires Proper(n) && Named(n, t)
    ensures WellFormedTransfer(t) <==> P.Decode(P.Encode(ToWire(n, t))) == Some(ToWire(n, t))
  {
    hide P.Decode, P.Encode;
    WellFormedIffValid(n, t);
    P.DecodeIff(P.Encode(ToWire(n, t)), ToWire(n, t));
  }

  lemma WellFormedIffValid(n: Naming, t: WarpTransfer)
    requires Proper(n) && Named(n, t)
    ensures WellFormedTransfer(t) <==> P.ValidTransfer(ToWire(n, t))
  {
  }

  /** Well-formed payloads with the same bytes are the same. */
  lemma BytesIdentify(n: Naming, t: WarpTransfer, u: WarpTransfer)
    requires Proper(n) && Named(n, t) && Named(n, u) && WellFormedTransfer(t) && WellFormedTransfer(u)
    requires P.Encode(ToWire(n, t)) == P.Encode(ToWire(n, u))
    ensures t == u
  {
    hide P.Encode;
    WellFormedIffValid(n, t);
    WellFormedIffValid(n, u);
    P.EncodingIsInjective(ToWire(n, t), ToWire(n, u));
  }

  /** Whatever a chain of the network sent, in any run: its bytes decode to exactly that message, and no other
      well-formed payload has the same bytes. */
  lemma {:induction false} SentMessagesDecode(net: Network, evs: seq<Event>, i: nat, n: Naming, u: WarpTransfer)
    requires Initial(net) && Proper(n)
    requires var now := Run(net, evs);
             i < |now.flight| && now.flight[i].source in now.ledgers && Named(n, now.flight[i].transfer)
    requires Named(n, u) && WellFormedTransfer(u)
    ensures var t := Run(net, evs).flight[i].transfer;
            && P.Decode(P.Encode(ToWire(n, t))) == Some(ToWire(n, t))
            && (P.Encode(ToWire(n, u)) == P.Encode(ToWire(n, t)) ==> u == t)
  {
    hide P.Decode, P.Encode;
    RunKeepsInvariant(net, evs);
    var now := Run(net, evs);
    var t := now.flight[i].transfer;
    assert HonestMessage(now, now.flight[i]);
    WellFormedIffDecodes(n, t);
    if P.Encode(ToWire(n, u)) == P.Encode(ToWire(n, t)) {
      BytesIdentify(n, t, u);
    }
  }
}
