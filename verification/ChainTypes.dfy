/** Identifiers and headers shared by the archive, the state and the drivers. */
module ChainTypes {
  import opened Wrappers

  // Hashes are opaque identifiers; a stored header determines its hash and conversely.
  datatype BlockHash = BlockHash(id: int)
  datatype MainHash = MainHash(id: int)
  datatype Txid = Txid(id: int)

  /** The all-zeros mainchain hash: the parent of the mainchain genesis. */
  const ZERO_HASH: MainHash := MainHash(0)

  datatype Header = Header(
    hash: BlockHash,
    merkleRoot: int,
    prevSide: Option<BlockHash>,
    prevMain: MainHash,
    coinbaseTxid: Txid)

  datatype MainHeader = MainHeader(hash: MainHash, prev: MainHash, height: nat, work: nat)

  /** A sidechain block together with the mainchain block that commits to it. */
  datatype Tip = Tip(block: BlockHash, main: MainHash)

  datatype Address = Address(id: int)

  datatype BitAssetId = BitAssetId(nameHash: int)

  datatype AssetId = Bitcoin | BitAsset(asset: BitAssetId) | BitAssetControl(controlled: BitAssetId)
}
