/** The rows of the two tables, the writes the handlers make to them, and what a write does. */
module Records {
  import opened Bytes

  datatype Swap = Swap(swapID: string, chain: string, asset: string, initiator: string, redeemer: string,
                       timeLock: int, filledAmount: int, amount: int, secretHash: seq<byte>, secret: seq<byte>,
                       initiateTxHash: string, redeemTxHash: string, refundTxHash: string,
                       initiateBlockNumber: int, redeemBlockNumber: int, refundBlockNumber: int)

  datatype CreateOrder = CreateOrder(createID: string, blockNumber: int, sourceChain: string,
                                     destinationChain: string, sourceAsset: string, destinationAsset: string,
                                     initiatorSourceAddress: string, initiatorDestinationAddress: string,
                                     sourceAmount: int, destinationAmount: int, fee: int, nonce: int,
                                     minDestinationConfirmations: int, timeLock: int, secretHash: seq<byte>)

  datatype Kind = Initiate | Redeem | Refund

  /** The columns one status update writes together. */
  datatype Group =
    | InitiateGroup(initiateTxHash: string, filledAmount: int, initiateBlock: int)
    | RedeemGroup(redeemTxHash: string, secret: seq<byte>, redeemBlock: int)
    | RefundGroup(refundTxHash: string, refundBlock: int)
  {
    function Kind(): Kind {
      match this case InitiateGroup(_, _, _) => Initiate case RedeemGroup(_, _, _) => Redeem case RefundGroup(_, _) => Refund
    }
  }

  /** What an UPDATE of one group leaves in a row. */
  function Put(row: Swap, g: Group): Swap {
    match g
    case InitiateGroup(tx, amount, block) =>
      row.(initiateTxHash := tx, filledAmount := amount, initiateBlockNumber := block)
    case RedeemGroup(tx, secret, block) =>
      row.(redeemTxHash := tx, secret := secret, redeemBlockNumber := block)
    case RefundGroup(tx, block) =>
      row.(refundTxHash := tx, refundBlockNumber := block)
  }

  function Get(row: Swap, kind: Kind): Group {
    match kind
    case Initiate => InitiateGroup(row.initiateTxHash, row.filledAmount, row.initiateBlockNumber)
    case Redeem => RedeemGroup(row.redeemTxHash, row.secret, row.redeemBlockNumber)
    case Refund => RefundGroup(row.refundTxHash, row.refundBlockNumber)
  }

  /** The columns no status update writes, read off a row whose status groups are blanked. */
  function Identity(row: Swap): Swap {
    Put(Put(Put(row, InitiateGroup("", 0, 0)), RedeemGroup("", [], 0)), RefundGroup("", 0))
  }

  /** The three groups are disjoint and, with the identity columns, make up the row. */
  lemma RowLaws(row: Swap, other: Swap, g: Group, kind: Kind)
    ensures Get(Put(row, g), kind) == (if g.Kind() == kind then g else Get(row, kind))
    ensures Identity(Put(row, g)) == Identity(row)
    ensures row == other <==> Identity(row) == Identity(other) && (forall k: Kind :: Get(row, k) == Get(other, k))
  {
    if Identity(row) == Identity(other) && forall k: Kind :: Get(row, k) == Get(other, k) {
      assert Get(row, Initiate) == Get(other, Initiate);
      assert Get(row, Redeem) == Get(other, Redeem);
      assert Get(row, Refund) == Get(other, Refund);
    }
  }

  /** The two tables, by primary key. */
  datatype Db = Db(swaps: map<string, Swap>, orders: map<string, CreateOrder>)

  /** What a handler asks of the store. */
  datatype Write = Update(swapID: string, group: Group) | Insert(order: CreateOrder)

  /** One SQL statement: an update of the row with that key, if there is one, or an insert unless the
      primary key is taken. */
  function Apply(db: Db, w: Write): Db {
    match w
    case Update(id, g) => if id in db.swaps then db.(swaps := db.swaps[id := Put(db.swaps[id], g)]) else db
    case Insert(order) => if order.createID in db.orders then db else db.(orders := db.orders[order.createID := order])
  }

  /** ReadCreateOrder's SELECT. */
  function ReadOrder(db: Db, id: string): Option<CreateOrder> {
    if id in db.orders then Some(db.orders[id]) else None
  }

  /** CreateSwap's INSERT. */
  function Create(db: Db, swap: Swap): Db {
    if swap.swapID in db.swaps then db else db.(swaps := db.swaps[swap.swapID := swap])
  }

  /** Creating a row and updating it commute exactly when the row was there before, or the update
      says nothing new: an event handled before its row exists is lost. */
  lemma CreationRace(db: Db, swap: Swap, g: Group)
    ensures Create(Apply(db, Update(swap.swapID, g)), swap) == Apply(Create(db, swap), Update(swap.swapID, g))
            <==> swap.swapID in db.swaps || Put(swap, g) == swap
  {
  }

  function Replay(db: Db, ws: seq<Write>): Db {
    if ws == [] then db else Apply(Replay(db, ws[..|ws| - 1]), ws[|ws| - 1])
  }
}
