/** Transactions, outputs, and what a transaction says about the outputs it spends. */
module Transactions {
  import opened Wrappers
  import opened ChainTypes
  import DutchAuction
  import BitAssets

  datatype OutPoint =
    | Regular(txid: Txid, vout: nat)
    | Coinbase(coinbase: Txid, vout: nat)
    | Deposit(main: Txid, vout: nat)

  datatype InPoint = RegularIn(txid: Txid, vin: nat) | WithdrawalIn(bundle: int)

  datatype OutputContent =
    | BitcoinOut(value: nat) | WithdrawalOut(value: nat) | AmmLpTokenOut(amount: nat) | BitAssetOut(units: nat)
    | BitAssetControlOut | BitAssetReservationOut | DutchAuctionReceiptOut

  datatype Output = Output(address: Address, content: OutputContent, memo: int)

  datatype FilledContent =
    | FilledBitcoin(value: nat) | FilledWithdrawal(value: nat)
    | FilledBitAsset(asset: BitAssetId, units: nat) | FilledControl(controlled: BitAssetId)
    | FilledReservation(txid: Txid, commitment: int)
    | FilledLpToken(asset0: AssetId, asset1: AssetId, amount: nat)
    | FilledReceipt(auction: Txid)

  datatype FilledOutput = FilledOutput(address: Address, content: FilledContent, memo: int)

  datatype SpentOutput = SpentOutput(output: FilledOutput, inpoint: InPoint)

  datatype TxData =
    | AmmBurn(burnAmount0: nat, burnAmount1: nat, lpTokenBurn: nat)
    | AmmMint(mintAmount0: nat, mintAmount1: nat, lpTokenMint: nat)
    | AmmSwap(amountSpent: nat, amountReceive: nat, pairAsset: AssetId)
    | BitAssetReservation(commitment: int)
    | BitAssetRegistration(nameHash: int, revealedNonce: int, initial: BitAssets.PlainData, initialSupply: nat)
    | BitAssetMint(mintAmount: nat)
    | BitAssetUpdate(updates: BitAssets.Updates)
    | DutchAuctionBid(auctionId: Txid, receiveAsset: AssetId, quantity: nat, bidSize: nat)
    | DutchAuctionCreate(params: DutchAuction.Params)
    | DutchAuctionCollect(assetOffered: AssetId, assetReceive: AssetId, offeredRemaining: nat, received: nat)

  datatype Transaction = Transaction(txid: Txid, inputs: seq<OutPoint>, outputs: seq<Output>, data: Option<TxData>)

  /** A block body; each authorization is the address that signed. */
  datatype Body = Body(coinbase: seq<Output>, transactions: seq<Transaction>, authorizations: seq<Address>)

  datatype Block = Block(header: Header, body: Body)

  /** The bitcoin that an output holds. */
  function BitcoinValue(o: Output): nat {
    match o.content
    case BitcoinOut(v) => v
    case WithdrawalOut(v) => v
    case _ => 0
  }

  /** A transaction with the outputs its inputs spend, in order. */
  datatype FilledTransaction = FilledTransaction(tx: Transaction, spent: seq<FilledOutput>) {

    /** Distinct assets among the spent outputs, in order of first occurrence. */
    function UniqueSpentAssets(): seq<AssetId> {
      UniqueAssets(spent)
    }

    function FirstSpentAsset(): Option<AssetId> {
      if UniqueSpentAssets() == [] then None else Some(UniqueSpentAssets()[0])
    }

    function FirstLpToken(): Option<(AssetId, AssetId)> {
      FirstLpTokenIn(spent)
    }

    function FirstReceipt(): Option<Txid> {
      FirstReceiptIn(spent)
    }

    function LastBitAsset(): Option<BitAssetId> {
      LastBitAssetIn(spent)
    }

    function LastControl(): Option<BitAssetId> {
      LastControlIn(spent)
    }

    function SpentReservations(): seq<(Txid, int)> {
      ReservationsIn(spent)
    }
  }

  function AssetOf(c: FilledContent): Option<AssetId> {
    match c
    case FilledBitcoin(_) => Some(Bitcoin)
    case FilledBitAsset(a, _) => Some(BitAsset(a))
    case FilledControl(a) => Some(BitAssetControl(a))
    case _ => None
  }

  function UniqueAssets(spent: seq<FilledOutput>): (r: seq<AssetId>)
    ensures forall i, j | 0 <= i < j < |r| :: r[i] != r[j]
  {
    if spent == [] then []
    else
      var before := UniqueAssets(spent[..|spent| - 1]);
      var a := AssetOf(spent[|spent| - 1].content);
      if a.Some? && a.value !in before then before + [a.value] else before
  }

  function FirstLpTokenIn(spent: seq<FilledOutput>): Option<(AssetId, AssetId)> {
    if spent == [] then None
    else if spent[0].content.FilledLpToken? then Some((spent[0].content.asset0, spent[0].content.asset1))
    else FirstLpTokenIn(spent[1..])
  }

  function FirstReceiptIn(spent: seq<FilledOutput>): Option<Txid> {
    if spent == [] then None
    else if spent[0].content.FilledReceipt? then Some(spent[0].content.auction)
    else FirstReceiptIn(spent[1..])
  }

  function LastBitAssetIn(spent: seq<FilledOutput>): Option<BitAssetId> {
    if spent == [] then None
    else if spent[|spent| - 1].content.FilledBitAsset? then Some(spent[|spent| - 1].content.asset)
    else LastBitAssetIn(spent[..|spent| - 1])
  }

  function LastControlIn(spent: seq<FilledOutput>): Option<BitAssetId> {
    if spent == [] then None
    else if spent[|spent| - 1].content.FilledControl? then Some(spent[|spent| - 1].content.controlled)
    else LastControlIn(spent[..|spent| - 1])
  }

  function ReservationsIn(spent: seq<FilledOutput>): (r: seq<(Txid, int)>)
    ensures forall x | x in r :: exists i :: 0 <= i < |spent| && spent[i].content == FilledReservation(x.0, x.1)
  {
    if spent == [] then []
    else
      var rest := ReservationsIn(spent[1..]);
      assert forall i | 0 <= i < |spent[1..]| :: spent[1..][i] == spent[i + 1];
      var c := spent[0].content;
      if c.FilledReservation? then [(c.txid, c.commitment)] + rest else rest
  }
}
