/** The chain a watcher reads, and the log filter its node answers queries with. */
module Chain {
  import opened Bytes

  const TWO_63 := 0x8000_0000_0000_0000
  const TWO_64 := 0x1_0000_0000_0000_0000

  type u64 = x: int | 0 <= x < TWO_64

  /** types.Log, with the position (blockNumber, index) that identifies it. */
  datatype Log = Log(address: Address, topics: seq<Hash>, data: seq<byte>, txHash: Hash,
                     blockNumber: u64, index: nat)

  /** An append-only chain: the logs of each block, in order. */
  type Ledger = nat -> seq<Log>

  /** Every log carries the block and the position it is found at. */
  ghost predicate Numbered(chain: Ledger) {
    forall b: nat, i: nat :: i < |chain(b)| ==> chain(b)[i].blockNumber == b && chain(b)[i].index == i
  }

  /** All logs of blocks first..last, in chain order. */
  function Blocks(chain: Ledger, first: nat, last: int): seq<Log>
    decreases last + 1 - first
  {
    if last < first then [] else Blocks(chain, first, last - 1) + chain(last)
  }

  lemma {:induction false} BlocksSplit(chain: Ledger, first: nat, mid: int, last: int)
    requires first - 1 <= mid <= last
    ensures Blocks(chain, first, last) == Blocks(chain, first, mid) + Blocks(chain, mid + 1, last)
    decreases last - mid
  {
    if mid < last {
      BlocksSplit(chain, first, mid, last - 1);
    }
  }

  lemma {:induction false} BlocksRange(chain: Ledger, first: nat, last: int, log: Log)
    requires Numbered(chain) && log in Blocks(chain, first, last)
    ensures first <= log.blockNumber <= last
    ensures log in chain(log.blockNumber)
    decreases last + 1 - first
  {
    if log in chain(last) {
      var i :| 0 <= i < |chain(last)| && chain(last)[i] == log;
    } else {
      BlocksRange(chain, first, last - 1, log);
    }
  }

  /** a comes before b on the chain. */
  ghost predicate Precedes(a: Log, b: Log) {
    a.blockNumber < b.blockNumber || (a.blockNumber == b.blockNumber && a.index < b.index)
  }

  /** The logs are in chain order, so no position occurs twice. */
  ghost predicate InChainOrder(logs: seq<Log>) {
    forall i, j :: 0 <= i < j < |logs| ==> Precedes(logs[i], logs[j])
  }

  lemma {:induction false} BlocksInOrder(chain: Ledger, first: nat, last: int)
    requires Numbered(chain)
    ensures InChainOrder(Blocks(chain, first, last))
    decreases last + 1 - first
  {
    if first <= last {
      var before := Blocks(chain, first, last - 1);
      BlocksInOrder(chain, first, last - 1);
      forall i, j | 0 <= i < j < |before + chain(last)|
        ensures Precedes((before + chain(last))[i], (before + chain(last))[j])
      {
        if i < |before| <= j {
          BlocksRange(chain, first, last - 1, before[i]);
        }
      }
    }
  }

  /** Blocks holds the logs of its blocks and no others. */
  lemma {:induction false} BlocksMembers(chain: Ledger, first: nat, last: int, log: Log)
    ensures log in Blocks(chain, first, last) <==> exists b: nat :: first <= b <= last && log in chain(b)
    decreases last + 1 - first
  {
    if first <= last {
      BlocksMembers(chain, first, last - 1, log);
    }
  }

  /** eth_getLogs: an empty address list or an empty topic position matches everything, and
      a query with one topic position only returns logs that have a first topic. */
  predicate Passes(addresses: seq<Address>, topics: seq<Hash>, log: Log) {
    && (addresses == [] || log.address in addresses)
    && log.topics != []
    && (topics == [] || log.topics[0] in topics)
  }

  function Filter(addresses: seq<Address>, topics: seq<Hash>, logs: seq<Log>): (r: seq<Log>)
    ensures forall l :: l in r ==> l in logs && Passes(addresses, topics, l)
  {
    if logs == [] then []
    else (if Passes(addresses, topics, logs[0]) then [logs[0]] else [])
         + Filter(addresses, topics, logs[1..])
  }

  /** A node: the chain it serves, and whatever it offers for bounds that are not block numbers. */
  datatype Node = Node(chain: Ledger, odd: (int, int) -> seq<Log>)

  /** The answer to FilterLogs for the signed bounds that reach the wire. */
  function FilterLogs(node: Node, first: int, last: int, addresses: seq<Address>, topics: seq<Hash>): seq<Log> {
    Filter(addresses, topics,
           if 0 <= first && 0 <= last then Blocks(node.chain, first, last) else node.odd(first, last))
  }
}
