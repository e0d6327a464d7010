/** The store: two tables changed in place, one SQL statement a method. */
module Store {
  import opened Bytes
  import opened Records

  datatype StoreError = NoError | NotFound | DuplicateKey

  class Store {
    var swaps: map<string, Swap>
    var orders: map<string, CreateOrder>

    function Tables(): Db
      reads this
    {
      Db(swaps, orders)
    }

    constructor (initial: Db)
      ensures Tables() == initial
    {
      swaps, orders := initial.swaps, initial.orders;
    }

    method CreateSwap(swap: Swap) returns (err: StoreError)
      modifies this`swaps
      ensures err == if swap.swapID in old(swaps) then DuplicateKey else NoError
      ensures Tables() == Create(old(Tables()), swap)
      ensures swaps == if swap.swapID in old(swaps) then old(swaps) else old(swaps)[swap.swapID := swap]
    {
      if swap.swapID in swaps {
        return DuplicateKey;
      }
      swaps := swaps[swap.swapID := swap];
      return NoError;
    }

    method UpdateSwapInitiate(orderID: string, txHash: string, filledAmount: int, block: int) returns (err: StoreError)
      modifies this`swaps
      ensures Tables() == Apply(old(Tables()), Update(orderID, InitiateGroup(txHash, filledAmount, block)))
      ensures orderID !in old(swaps) ==> swaps == old(swaps)
      ensures orderID in old(swaps) ==>
                swaps == old(swaps)[orderID := old(swaps)[orderID].(initiateTxHash := txHash, filledAmount := filledAmount,
                                                                    initiateBlockNumber := block)]
      ensures err == if orderID in old(swaps) then NoError else NotFound
    {
      var rowsAffected := 0;
      if orderID in swaps {
        var row := swaps[orderID];
        swaps := swaps[orderID := row.(initiateTxHash := txHash, filledAmount := filledAmount, initiateBlockNumber := block)];
        rowsAffected := 1;
      }
      return if rowsAffected == 0 then NotFound else NoError;
    }

    method UpdateSwapRedeem(orderID: string, txHash: string, secret: seq<byte>, block: int) returns (err: StoreError)
      modifies this`swaps
      ensures Tables() == Apply(old(Tables()), Update(orderID, RedeemGroup(txHash, secret, block)))
      ensures orderID !in old(swaps) ==> swaps == old(swaps)
      ensures orderID in old(swaps) ==>
                swaps == old(swaps)[orderID := old(swaps)[orderID].(redeemTxHash := txHash, secret := secret,
                                                                    redeemBlockNumber := block)]
      ensures err == if orderID in old(swaps) then NoError else NotFound
    {
      var rowsAffected := 0;
      if orderID in swaps {
        var row := swaps[orderID];
        swaps := swaps[orderID := row.(redeemTxHash := txHash, secret := secret, redeemBlockNumber := block)];
        rowsAffected := 1;
      }
      return if rowsAffected == 0 then NotFound else NoError;
    }

    method UpdateSwapRefund(orderID: string, txHash: string, block: int) returns (err: StoreError)
      modifies this`swaps
      ensures Tables() == Apply(old(Tables()), Update(orderID, RefundGroup(txHash, block)))
      ensures orderID !in old(swaps) ==> swaps == old(swaps)
      ensures orderID in old(swaps) ==>
                swaps == old(swaps)[orderID := old(swaps)[orderID].(refundTxHash := txHash, refundBlockNumber := block)]
      ensures err == if orderID in old(swaps) then NoError else NotFound
    {
      var rowsAffected := 0;
      if orderID in swaps {
        var row := swaps[orderID];
        swaps := swaps[orderID := row.(refundTxHash := txHash, refundBlockNumber := block)];
        rowsAffected := 1;
      }
      return if rowsAffected == 0 then NotFound else NoError;
    }

    method WriteCreateOrder(order: CreateOrder) returns (err: StoreError)
      modifies this`orders
      ensures Tables() == Apply(old(Tables()), Insert(order))
      ensures orders == if order.createID in old(orders) then old(orders) else old(orders)[order.createID := order]
      ensures err == if order.createID in old(orders) then DuplicateKey else NoError
    {
      if order.createID in orders {
        return DuplicateKey;
      }
      orders := orders[order.createID := order];
      return NoError;
    }

    method ReadCreateOrder(createId: string) returns (order: Option<CreateOrder>)
      ensures order == ReadOrder(Tables(), createId)
      ensures order.Some? <==> createId in orders
      ensures order.Some? ==> order.value == orders[createId]
    {
      return if createId in orders then Some(orders[createId]) else None;
    }
  }
}
