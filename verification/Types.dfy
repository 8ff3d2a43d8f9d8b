/** Identifiers, fixed-width integers and result types shared by the whole model. */
module Types {

  const MAX_UINT64: nat := 0xFFFF_FFFF_FFFF_FFFF
  const TWO_TO_64: nat := 0x1_0000_0000_0000_0000

  type uint64 = x: int | 0 <= x <= MAX_UINT64
  type uint8 = x: int | 0 <= x <= 255
  type Bytes = seq<uint8>

  type Address = nat
  type ChainId = nat
  type NodeId = nat
  type TxId = nat

  const EMPTY_ADDRESS: Address := 0
  const EMPTY_CHAIN: ChainId := 0

  /** Asset identifiers. The source hashes; distinct preimages are assumed to have distinct hashes,
      so an identifier is its own preimage: the empty identifier, the transaction that created the
      asset, or the pair (origin asset, origin chain) of an imported one. */
  datatype AssetId =
    | Native
    | Created(tx: TxId)
    | Imported(origin: AssetId, chain: ChainId)

  datatype Option<+T> = None | Some(value: T)

  datatype Result<+T, +E> = Ok(value: T) | Err(error: E)

  function Min(a: int, b: int): int {
    if a <= b then a else b
  }
}
