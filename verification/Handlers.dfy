/** The five event handlers: from a log to at most one write of the shared store. */
module Handlers {
  import opened Bytes
  import opened Chain
  import opened Routing
  import opened Records
  import opened Replays
  import S = Store

  datatype InitiatedEvent = InitiatedEvent(orderID: Hash, amount: int)
  datatype RedeemedEvent = RedeemedEvent(orderID: Hash, secret: seq<byte>)
  datatype RefundedEvent = RefundedEvent(orderID: Hash)

  datatype OrderData = OrderData(sourceChain: string, destinationChain: string, sourceAsset: string,
                                 destinationAsset: string, initiatorSourceAddress: string,
                                 initiatorDestinationAddress: string, sourceAmount: int, destinationAmount: int,
                                 fee: int, nonce: int, minDestinationConfirmations: int, timeLock: int,
                                 secretHash: Hash)

  /** The contract bindings, each total or in error, and SHA-256. */
  datatype Abi = Abi(parseInitiated: Log -> Option<InitiatedEvent>, parseRedeemed: Log -> Option<RedeemedEvent>,
                     parseRefunded: Log -> Option<RefundedEvent>, unpackCreateOrder: seq<byte> -> Option<OrderData>,
                     sha256: seq<byte> -> Hash)

  /** Hash.String(): hexadecimal with a 0x prefix. */
  function HashText(h: Hash): string { "0x" + HexEncode(h) }

  /** big.Int.Uint64(): the low 64 bits of the magnitude. */
  function Low64(x: int): u64 { (if x < 0 then -x else x) % TWO_64 }

  function CreateID(abi: Abi, txHash: Hash, secretHash: Hash): string {
    HexEncode(abi.sha256(txHash + secretHash))
  }

  function OrderOf(abi: Abi, log: Log, o: OrderData): CreateOrder {
    CreateOrder(CreateID(abi, log.txHash, o.secretHash), log.blockNumber, o.sourceChain, o.destinationChain,
                o.sourceAsset, o.destinationAsset, o.initiatorSourceAddress, o.initiatorDestinationAddress,
                o.sourceAmount, o.destinationAmount, o.fee, o.nonce,
                Low64(o.minDestinationConfirmations), Low64(o.timeLock), o.secretHash)
  }

  /** What the log of a Created event unpacks to; the payload starts after three words. */
  function Unpack(abi: Abi, log: Log): Option<OrderData> {
    if |log.data| < 96 then None else abi.unpackCreateOrder(log.data[96..])
  }

  /** What an event is about: one status of one swap, or one created order. */
  datatype Key = SwapKey(orderID: Hash, kind: Kind) | OrderKey(txHash: Hash, secretHash: Hash)

  function KeyOf(abi: Abi, job: EventJob): Option<Key> {
    match job.handler
    case HandleInitiated =>
      (match abi.parseInitiated(job.event) case None => None case Some(e) => Some(SwapKey(e.orderID, Initiate)))
    case HandleRedeemed =>
      (match abi.parseRedeemed(job.event) case None => None case Some(e) => Some(SwapKey(e.orderID, Redeem)))
    case HandleRefunded =>
      (match abi.parseRefunded(job.event) case None => None case Some(e) => Some(SwapKey(e.orderID, Refund)))
    case HandleCreated =>
      (match Unpack(abi, job.event) case None => None case Some(o) => Some(OrderKey(job.event.txHash, o.secretHash)))
    case HandleFilled => None
  }

  /** The write a job's handler issues, if its log parses. */
  function WriteOf(abi: Abi, job: EventJob): Option<Write> {
    var log := job.event;
    match job.handler
    case HandleInitiated =>
      (match abi.parseInitiated(log)
       case None => None
       case Some(e) => Some(Update(HexEncode(e.orderID), InitiateGroup(HashText(log.txHash), e.amount, log.blockNumber))))
    case HandleRedeemed =>
      (match abi.parseRedeemed(log)
       case None => None
       case Some(e) => Some(Update(HexEncode(e.orderID), RedeemGroup(HashText(log.txHash), e.secret, log.blockNumber))))
    case HandleRefunded =>
      (match abi.parseRefunded(log)
       case None => None
       case Some(e) => Some(Update(HexEncode(e.orderID), RefundGroup(HashText(log.txHash), log.blockNumber))))
    case HandleCreated =>
      (match Unpack(abi, log)
       case None => None
       case Some(o) => Some(Insert(OrderOf(abi, log, o))))
    case HandleFilled => None
  }

  function ApplyJob(abi: Abi, db: Db, job: EventJob): Db {
    match WriteOf(abi, job) case None => db case Some(w) => Apply(db, w)
  }

  function WritesOf(abi: Abi, jobs: seq<EventJob>): seq<Write> {
    if jobs == [] then []
    else
      var n := |jobs| - 1;
      WritesOf(abi, jobs[..n]) + (match WriteOf(abi, jobs[n]) case None => [] case Some(w) => [w])
  }

  lemma {:induction false} WritesMembers(abi: Abi, jobs: seq<EventJob>, w: Write)
    ensures w in WritesOf(abi, jobs) <==> exists j :: j in jobs && WriteOf(abi, j) == Some(w)
  {
    hide WriteOf;
    if jobs != [] {
      var n := |jobs| - 1;
      WritesMembers(abi, jobs[..n], w);
      assert jobs == jobs[..n] + [jobs[n]];
    }
  }

  /** Applying one more job is replaying one more write. */
  lemma ReplayJob(abi: Abi, db: Db, jobs: seq<EventJob>, job: EventJob)
    ensures Replay(db, WritesOf(abi, jobs + [job])) == ApplyJob(abi, Replay(db, WritesOf(abi, jobs)), job)
  {
    var before := WritesOf(abi, jobs);
    assert (jobs + [job])[..|jobs|] == jobs;
    if WriteOf(abi, job).Some? {
      assert (before + [WriteOf(abi, job).value])[..|before|] == before;
    } else {
      assert before + [] == before;
    }
  }

  /** Two distinct inputs with one digest. SHA-256 maps all byte strings to 32 bytes, so some collide. */
  ghost predicate Collide(abi: Abi, a: seq<byte>, b: seq<byte>) {
    a != b && abi.sha256(a) == abi.sha256(b)
  }

  /** Two (transaction hash, secret hash) pairs get the same order id exactly when they are the same
      pair or their concatenations collide. */
  lemma SameCreateID(abi: Abi, tx: Hash, secretHash: Hash, tx': Hash, secretHash': Hash)
    ensures CreateID(abi, tx, secretHash) == CreateID(abi, tx', secretHash') <==>
            (tx == tx' && secretHash == secretHash') || Collide(abi, tx + secretHash, tx' + secretHash')
  {
    var a, b := tx + secretHash, tx' + secretHash';
    if abi.sha256(a) == abi.sha256(b) && a == b {
      assert tx == a[..32] == b[..32] == tx';
      assert secretHash == a[32..] == b[32..] == secretHash';
    }
    if CreateID(abi, tx, secretHash) == CreateID(abi, tx', secretHash') {
      HexInjective(abi.sha256(a), abi.sha256(b));
    }
  }

  /** The pair behind a Created job's id. */
  function Preimage(abi: Abi, job: EventJob): seq<byte> {
    match Unpack(abi, job.event) case None => [] case Some(o) => job.event.txHash + o.secretHash
  }

  /** Two writes go to the same columns of a row, or to the same order. */
  ghost predicate SamePlace(v: Write, w: Write) {
    match (v, w)
    case (Update(i, g), Update(j, h)) => i == j && g.Kind() == h.Kind()
    case (Insert(o), Insert(p)) => o.createID == p.createID
    case _ => false
  }

  /** Two jobs write to the same place exactly when they are about the same thing, or are about two
      pairs that collide. */
  lemma KeysArePlaces(abi: Abi, a: EventJob, b: EventJob)
    requires WriteOf(abi, a).Some? && WriteOf(abi, b).Some?
    ensures SamePlace(WriteOf(abi, a).value, WriteOf(abi, b).value) <==>
            KeyOf(abi, a) == KeyOf(abi, b) ||
            (a.handler == b.handler == HandleCreated && Collide(abi, Preimage(abi, a), Preimage(abi, b)))
    ensures KeyOf(abi, a).Some? && KeyOf(abi, b).Some?
  {
    hide HexEncode, HashText, Low64;
    match (KeyOf(abi, a), KeyOf(abi, b))
    case (Some(SwapKey(o, _)), Some(SwapKey(p, _))) =>
      if HexEncode(o) == HexEncode(p) {
        HexInjective(o, p);
      }
    case (Some(OrderKey(t, h)), Some(OrderKey(t', h'))) =>
      SameCreateID(abi, t, h, t', h');
    case _ =>
  }

  /** At most one event a key: one Initiated, Redeemed and Refunded an order id, one Created a pair. */
  ghost predicate OnePerKey(abi: Abi, jobs: seq<EventJob>) {
    forall a, b :: a in jobs && b in jobs && KeyOf(abi, a).Some? && KeyOf(abi, a) == KeyOf(abi, b) ==> a == b
  }

  /** No two Created jobs of the list are about pairs that collide. */
  ghost predicate NoCollision(abi: Abi, jobs: seq<EventJob>) {
    forall a, b :: a in jobs && b in jobs && a.handler == b.handler == HandleCreated ==>
      !Collide(abi, Preimage(abi, a), Preimage(abi, b))
  }

  /** Events that occur once never race for a row, and for an order only by a collision. */
  lemma OnePerKeyAgrees(abi: Abi, db: Db, jobs: seq<EventJob>)
    requires OnePerKey(abi, jobs)
    ensures AgreeOnSwaps(db, WritesOf(abi, jobs))
    ensures NoCollision(abi, jobs) ==> AgreeOnOrders(db, WritesOf(abi, jobs))
  {
    var ws := WritesOf(abi, jobs);
    forall v, w | v in ws && w in ws
      ensures !UpdateConflict(db, v, w)
      ensures NoCollision(abi, jobs) ==> !InsertConflict(db, v, w)
    {
      WritesMembers(abi, jobs, v);
      WritesMembers(abi, jobs, w);
      var a :| a in jobs && WriteOf(abi, a) == Some(v);
      var b :| b in jobs && WriteOf(abi, b) == Some(w);
      KeysArePlaces(abi, a, b);
    }
  }

  // ---- The handler maps ----

  function ZeroHash(): Hash { seq(32, i => 0) }

  /** The id of an event of a contract ABI; Go gives a missing map entry the zero value. */
  function EventID(events: map<string, Hash>, name: string): Hash {
    if name in events then events[name] else ZeroHash()
  }

  /** htlc.constructHandlers: each event id gets its handler, unless a later one has the same id; a
      name the ABI lacks contributes the zero hash. */
  method ConstructHtlcHandlers(events: map<string, Hash>) returns (handlers: map<Hash, Handler>)
    ensures var zero := seq(32, i => 0);
            var initiated := if "Initiated" in events then events["Initiated"] else zero;
            var redeemed := if "Redeemed" in events then events["Redeemed"] else zero;
            var refunded := if "Refunded" in events then events["Refunded"] else zero;
            && handlers.Keys == {initiated, redeemed, refunded}
            && (handlers[initiated] == HandleInitiated <==> initiated != redeemed && initiated != refunded)
            && (handlers[redeemed] == HandleRedeemed <==> redeemed != refunded)
            && handlers[refunded] == HandleRefunded
    ensures "Initiated" in events && "Redeemed" in events && "Refunded" in events
            && events["Initiated"] != events["Redeemed"] && events["Initiated"] != events["Refunded"] && events["Redeemed"] != events["Refunded"]
            ==> handlers == map[events["Initiated"] := HandleInitiated, events["Redeemed"] := HandleRedeemed,
                                events["Refunded"] := HandleRefunded]
  {
    handlers := map[];
    handlers := handlers[EventID(events, "Initiated") := HandleInitiated];
    handlers := handlers[EventID(events, "Redeemed") := HandleRedeemed];
    handlers := handlers[EventID(events, "Refunded") := HandleRefunded];
  }

  /** orderbook.constructHandlers. */
  method ConstructOrderbookHandlers(events: map<string, Hash>) returns (handlers: map<Hash, Handler>)
    ensures var zero := seq(32, i => 0);
            var created := if "Created" in events then events["Created"] else zero;
            var filled := if "Filled" in events then events["Filled"] else zero;
            && handlers.Keys == {created, filled}
            && (handlers[created] == HandleCreated <==> created != filled)
            && handlers[filled] == HandleFilled
    ensures "Created" in events && "Filled" in events && events["Created"] != events["Filled"]
            ==> handlers == map[events["Created"] := HandleCreated, events["Filled"] := HandleFilled]
  {
    handlers := map[];
    handlers := handlers[EventID(events, "Created") := HandleCreated];
    handlers := handlers[EventID(events, "Filled") := HandleFilled];
  }

  // ---- The handlers as they run ----

  datatype HandlerError = Handled | NoStore | ParseFailed | Panicked | StoreFailed(error: S.StoreError)

  function Outcome(error: S.StoreError): HandlerError {
    if error.NoError? then Handled else StoreFailed(error)
  }

  /** The database a handler leaves, given the store its context carries. */
  twostate predicate RanJob(db: S.Store?, abi: Abi, job: EventJob)
    reads db
  {
    db != null ==> db.Tables() == ApplyJob(abi, old(db.Tables()), job)
  }

  /** The tables of the store a context carries, if any. */
  function Carried(db: S.Store?): Option<Db>
    reads db
  {
    if db == null then None else Some(db.Tables())
  }

  /** The handler of such a job slices its data out of range. */
  predicate Panics(job: EventJob) { job.handler == HandleCreated && |job.event.data| < 96 }

  lemma PanicWritesNothing(abi: Abi, job: EventJob)
    requires Panics(job)
    ensures WriteOf(abi, job).None?
  {
  }

  /** What a job's handler reports over those tables. */
  function Verdict(abi: Abi, tables: Option<Db>, job: EventJob): HandlerError {
    if job.handler == HandleFilled then Handled
    else if tables.None? then NoStore
    else if Panics(job) then Panicked
    else match WriteOf(abi, job)
      case None => ParseFailed
      case Some(Update(id, _)) => if id in tables.value.swaps then Handled else StoreFailed(S.NotFound)
      case Some(Insert(o)) => if o.createID in tables.value.orders then StoreFailed(S.DuplicateKey) else Handled
  }

  method HandleInitiatedEvent(db: S.Store?, abi: Abi, log: Log) returns (err: HandlerError)
    modifies db
    ensures RanJob(db, abi, EventJob(log, HandleInitiated))
    ensures err == Verdict(abi, old(Carried(db)), EventJob(log, HandleInitiated))
    ensures err == NoStore <==> db == null
    ensures err == ParseFailed <==> db != null && abi.parseInitiated(log).None?
    ensures db != null && abi.parseInitiated(log).Some? ==>
              var e := abi.parseInitiated(log).value;
              var id := HexEncode(e.orderID);
              && db.orders == old(db.orders)
              && (id !in old(db.swaps) ==> err == StoreFailed(S.NotFound) && db.swaps == old(db.swaps))
              && (id in old(db.swaps) ==>
                    && err == Handled
                    && db.swaps == old(db.swaps)[id := old(db.swaps)[id].(
                         initiateTxHash := "0x" + HexEncode(log.txHash), filledAmount := e.amount,
                         initiateBlockNumber := log.blockNumber)])
    ensures err in {NoStore, ParseFailed} && db != null ==> db.Tables() == old(db.Tables())
  {
    if db == null { return NoStore; }
    var event := abi.parseInitiated(log);
    if event.None? { return ParseFailed; }
    var e := db.UpdateSwapInitiate(HexEncode(event.value.orderID), HashText(log.txHash), event.value.amount, log.blockNumber);
    return Outcome(e);
  }

  method HandleRedeemedEvent(db: S.Store?, abi: Abi, log: Log) returns (err: HandlerError)
    modifies db
    ensures RanJob(db, abi, EventJob(log, HandleRedeemed))
    ensures err == Verdict(abi, old(Carried(db)), EventJob(log, HandleRedeemed))
    ensures err == NoStore <==> db == null
    ensures err == ParseFailed <==> db != null && abi.parseRedeemed(log).None?
    ensures db != null && abi.parseRedeemed(log).Some? ==>
              var e := abi.parseRedeemed(log).value;
              var id := HexEncode(e.orderID);
              && db.orders == old(db.orders)
              && (id !in old(db.swaps) ==> err == StoreFailed(S.NotFound) && db.swaps == old(db.swaps))
              && (id in old(db.swaps) ==>
                    && err == Handled
                    && db.swaps == old(db.swaps)[id := old(db.swaps)[id].(
                         redeemTxHash := "0x" + HexEncode(log.txHash), secret := e.secret,
                         redeemBlockNumber := log.blockNumber)])
    ensures err in {NoStore, ParseFailed} && db != null ==> db.Tables() == old(db.Tables())
  {
    if db == null { return NoStore; }
    var event := abi.parseRedeemed(log);
    if event.None? { return ParseFailed; }
    var e := db.UpdateSwapRedeem(HexEncode(event.value.orderID), HashText(log.txHash), event.value.secret, log.blockNumber);
    return Outcome(e);
  }

  method HandleRefundedEvent(db: S.Store?, abi: Abi, log: Log) returns (err: HandlerError)
    modifies db
    ensures RanJob(db, abi, EventJob(log, HandleRefunded))
    ensures err == Verdict(abi, old(Carried(db)), EventJob(log, HandleRefunded))
    ensures err == NoStore <==> db == null
    ensures err == ParseFailed <==> db != null && abi.parseRefunded(log).None?
    ensures db != null && abi.parseRefunded(log).Some? ==>
              var e := abi.parseRefunded(log).value;
              var id := HexEncode(e.orderID);
              && db.orders == old(db.orders)
              && (id !in old(db.swaps) ==> err == StoreFailed(S.NotFound) && db.swaps == old(db.swaps))
              && (id in old(db.swaps) ==>
                    && err == Handled
                    && db.swaps == old(db.swaps)[id := old(db.swaps)[id].(
                         refundTxHash := "0x" + HexEncode(log.txHash), refundBlockNumber := log.blockNumber)])
    ensures err in {NoStore, ParseFailed} && db != null ==> db.Tables() == old(db.Tables())
  {
    if db == null { return NoStore; }
    var event := abi.parseRefunded(log);
    if event.None? { return ParseFailed; }
    var e := db.UpdateSwapRefund(HexEncode(event.value.orderID), HashText(log.txHash), log.blockNumber);
    return Outcome(e);
  }

  method HandleCreatedEvent(db: S.Store?, abi: Abi, log: Log) returns (err: HandlerError)
    modifies db
    ensures RanJob(db, abi, EventJob(log, HandleCreated))
    ensures err == Verdict(abi, old(Carried(db)), EventJob(log, HandleCreated))
    ensures err == NoStore <==> db == null
    ensures err == Panicked <==> db != null && |log.data| < 96
    ensures err == ParseFailed <==> db != null && |log.data| >= 96 && abi.unpackCreateOrder(log.data[96..]).None?
    ensures db != null && |log.data| >= 96 && abi.unpackCreateOrder(log.data[96..]).Some? ==>
              var o := abi.unpackCreateOrder(log.data[96..]).value;
              var id := HexEncode(abi.sha256(log.txHash + o.secretHash));
              && db.swaps == old(db.swaps)
              && (id in old(db.orders) ==> err == StoreFailed(S.DuplicateKey) && db.orders == old(db.orders))
              && (id !in old(db.orders) ==>
                    && err == Handled && id in db.orders && db.orders == old(db.orders)[id := db.orders[id]]
                    && var row := db.orders[id];
                    && row.createID == id && row.blockNumber == log.blockNumber
                    && row.sourceChain == o.sourceChain && row.destinationChain == o.destinationChain
                    && row.sourceAsset == o.sourceAsset && row.destinationAsset == o.destinationAsset
                    && row.initiatorSourceAddress == o.initiatorSourceAddress
                    && row.initiatorDestinationAddress == o.initiatorDestinationAddress
                    && row.sourceAmount == o.sourceAmount && row.destinationAmount == o.destinationAmount
                    && row.fee == o.fee && row.nonce == o.nonce && row.secretHash == o.secretHash
                    && (0 <= o.minDestinationConfirmations < TWO_64 ==> row.minDestinationConfirmations == o.minDestinationConfirmations)
                    && (0 <= o.timeLock < TWO_64 ==> row.timeLock == o.timeLock))
    ensures err in {NoStore, Panicked, ParseFailed} && db != null ==> db.Tables() == old(db.Tables())
  {
    if db == null { return NoStore; }
    if |log.data| < 96 { return Panicked; }
    var order := abi.unpackCreateOrder(log.data[96..]);
    if order.None? { return ParseFailed; }
    var o := order.value;
    var cid := abi.sha256(log.txHash + o.secretHash);
    var e := db.WriteCreateOrder(
      CreateOrder(
        createID := HexEncode(cid),
        blockNumber := log.blockNumber,
        sourceChain := o.sourceChain,
        destinationChain := o.destinationChain,
        sourceAsset := o.sourceAsset,
        destinationAsset := o.destinationAsset,
        initiatorSourceAddress := o.initiatorSourceAddress,
        initiatorDestinationAddress := o.initiatorDestinationAddress,
        sourceAmount := o.sourceAmount,
        destinationAmount := o.destinationAmount,
        fee := o.fee,
        nonce := o.nonce,
        minDestinationConfirmations := Low64(o.minDestinationConfirmations),
        timeLock := Low64(o.timeLock),
        secretHash := o.secretHash));
    return Outcome(e);
  }

  /** A worker's call of a job's handler. */
  method RunHandler(db: S.Store?, abi: Abi, job: EventJob) returns (err: HandlerError)
    modifies db
    ensures RanJob(db, abi, job) && err == Verdict(abi, old(Carried(db)), job)
    ensures job.handler == HandleFilled ==> err == Handled && (db != null ==> db.Tables() == old(db.Tables()))
  {
    match job.handler
    case HandleInitiated => err := HandleInitiatedEvent(db, abi, job.event);
    case HandleRedeemed => err := HandleRedeemedEvent(db, abi, job.event);
    case HandleRefunded => err := HandleRefundedEvent(db, abi, job.event);
    case HandleCreated => err := HandleCreatedEvent(db, abi, job.event);
    case HandleFilled => err := Handled;
  }
}
