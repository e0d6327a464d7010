/** The two-level handler index of a watcher, against the plain scan it stands for. */
module Routing {
  import opened Bytes
  import opened Chain

  /** The handlers this repository registers; a handler value names one of them. */
  datatype Handler = HandleInitiated | HandleRedeemed | HandleRefunded | HandleCreated | HandleFilled

  datatype ContractConfig = ContractConfig(address: Address, eventHandlers: map<Hash, Handler>)

  datatype EventJob = EventJob(event: Log, handler: Handler)

  datatype Index = Index(addresses: seq<Address>, topics: seq<Hash>,
                         addressToHandlers: map<Address, map<Hash, Handler>>)

  /** The handlers of the last contract configured at an address. */
  function LastAt(contracts: seq<ContractConfig>, a: Address): Option<map<Hash, Handler>> {
    if contracts == [] then None
    else
      var last := contracts[|contracts| - 1];
      if last.address == a then Some(last.eventHandlers) else LastAt(contracts[..|contracts| - 1], a)
  }

  ghost predicate Distinct<T(!new)>(s: seq<T>) {
    forall i, j :: 0 <= i < j < |s| ==> s[i] != s[j]
  }

  /** Some contract handles event id t. */
  ghost predicate Handled(contracts: seq<ContractConfig>, t: Hash) {
    exists i :: 0 <= i < |contracts| && t in contracts[i].eventHandlers
  }

  /** What NewWatcher's loop establishes: one query address per contract, the last contract at an
      address owns it, and topics list the union of the event ids without repetition. */
  ghost predicate Indexes(contracts: seq<ContractConfig>, ix: Index) {
    && |ix.addresses| == |contracts|
    && (forall i :: 0 <= i < |contracts| ==> ix.addresses[i] == contracts[i].address)
    && (forall a: Address :: a in ix.addressToHandlers <==> LastAt(contracts, a).Some?)
    && (forall a: Address :: a in ix.addressToHandlers ==> LastAt(contracts, a) == Some(ix.addressToHandlers[a]))
    && Distinct(ix.topics)
    && (forall t: Hash :: t in ix.topics <==> Handled(contracts, t))
  }

  /** The body of the dispatch loop: two map lookups. */
  function Lookup(ix: Index, log: Log): Option<EventJob> {
    if log.address in ix.addressToHandlers && log.topics != [] && log.topics[0] in ix.addressToHandlers[log.address]
    then Some(EventJob(log, ix.addressToHandlers[log.address][log.topics[0]]))
    else None
  }

  function AsList(o: Option<EventJob>): seq<EventJob> {
    if o.Some? then [o.value] else []
  }

  function Route(ix: Index, logs: seq<Log>): seq<EventJob> {
    if logs == [] then [] else AsList(Lookup(ix, logs[0])) + Route(ix, logs[1..])
  }

  /** The reference: does the last contract configured at the log's address handle topic 0? */
  function NaiveJob(contracts: seq<ContractConfig>, log: Log): Option<EventJob> {
    match LastAt(contracts, log.address)
    case None => None
    case Some(handlers) =>
      if log.topics != [] && log.topics[0] in handlers then Some(EventJob(log, handlers[log.topics[0]])) else None
  }

  function NaiveRoute(contracts: seq<ContractConfig>, logs: seq<Log>): seq<EventJob> {
    if logs == [] then [] else AsList(NaiveJob(contracts, logs[0])) + NaiveRoute(contracts, logs[1..])
  }

  lemma {:induction false} LastAtFound(contracts: seq<ContractConfig>, a: Address)
    requires LastAt(contracts, a).Some?
    ensures exists i :: 0 <= i < |contracts| && contracts[i] == ContractConfig(a, LastAt(contracts, a).value)
  {
    var n := |contracts| - 1;
    if contracts[n].address != a {
      LastAtFound(contracts[..n], a);
      var i :| 0 <= i < n && contracts[..n][i] == ContractConfig(a, LastAt(contracts, a).value);
      assert contracts[i] == contracts[..n][i];
    }
  }

  /** The position of the last contract at an address that has one. */
  lemma {:induction false} LastIndex(contracts: seq<ContractConfig>, a: Address) returns (i: nat)
    requires exists j :: 0 <= j < |contracts| && contracts[j].address == a
    ensures i < |contracts| && contracts[i].address == a && forall j :: i < j < |contracts| ==> contracts[j].address != a
  {
    i := |contracts| - 1;
    if contracts[i].address != a {
      var j :| 0 <= j < |contracts| && contracts[j].address == a;
      assert contracts[..i][j] == contracts[j];
      var n := i;
      i := LastIndex(contracts[..n], a);
      assert forall j :: i < j < n ==> contracts[j] == contracts[..n][j];
    }
  }

  /** LastAt finds handlers exactly where a contract is, and those of the contract no later one is at
      the address of. */
  lemma {:induction false} LastAtMeans(contracts: seq<ContractConfig>, a: Address)
    ensures LastAt(contracts, a).None? <==> forall i :: 0 <= i < |contracts| ==> contracts[i].address != a
    ensures forall i :: 0 <= i < |contracts| && contracts[i].address == a
                        && (forall j :: i < j < |contracts| ==> contracts[j].address != a)
                        ==> LastAt(contracts, a) == Some(contracts[i].eventHandlers)
  {
    if contracts != [] {
      var n := |contracts| - 1;
      LastAtMeans(contracts[..n], a);
      assert forall i :: 0 <= i < n ==> contracts[..n][i] == contracts[i];
    }
  }

  /** The job of a log: the handler that the last contract at its address names for its first topic,
      and none without such a contract, topic or handler. */
  lemma NaiveJobMeans(contracts: seq<ContractConfig>, log: Log, i: nat)
    requires i < |contracts| && contracts[i].address == log.address
    requires forall j :: i < j < |contracts| ==> contracts[j].address != log.address
    ensures NaiveJob(contracts, log)
            == if log.topics != [] && log.topics[0] in contracts[i].eventHandlers
               then Some(EventJob(log, contracts[i].eventHandlers[log.topics[0]])) else None
  {
    LastAtMeans(contracts, log.address);
  }

  lemma NoContractNoJob(contracts: seq<ContractConfig>, log: Log)
    requires forall i :: 0 <= i < |contracts| ==> contracts[i].address != log.address
    ensures NaiveJob(contracts, log) == None
  {
    LastAtMeans(contracts, log.address);
  }

  /** A log the scan wants is one the query returns, and the two lookups give it the same handler. */
  lemma LookupIsNaiveJob(contracts: seq<ContractConfig>, ix: Index, log: Log)
    requires Indexes(contracts, ix)
    ensures Lookup(ix, log) == NaiveJob(contracts, log)
    ensures NaiveJob(contracts, log).Some? ==> Passes(ix.addresses, ix.topics, log)
  {
    if NaiveJob(contracts, log).Some? {
      LastAtFound(contracts, log.address);
      var i :| 0 <= i < |contracts| && contracts[i] == ContractConfig(log.address, LastAt(contracts, log.address).value);
      assert ix.addresses[i] == log.address;
      assert Handled(contracts, log.topics[0]);
    }
  }

  lemma RouteCons(ix: Index, log: Log, logs: seq<Log>)
    ensures Route(ix, [log] + logs) == AsList(Lookup(ix, log)) + Route(ix, logs)
  {
    assert ([log] + logs)[1..] == logs;
  }

  /** Query then two-level lookup is the plain scan: same jobs, same order. */
  lemma {:induction false} IndexRefinesNaive(contracts: seq<ContractConfig>, ix: Index, logs: seq<Log>)
    requires Indexes(contracts, ix)
    ensures Route(ix, Filter(ix.addresses, ix.topics, logs)) == NaiveRoute(contracts, logs)
  {
    if logs != [] {
      IndexRefinesNaive(contracts, ix, logs[1..]);
      LookupIsNaiveJob(contracts, ix, logs[0]);
      var rest := Filter(ix.addresses, ix.topics, logs[1..]);
      RouteCons(ix, logs[0], rest);
      assert [] + rest == rest;
      assert AsList(None) + NaiveRoute(contracts, logs[1..]) == NaiveRoute(contracts, logs[1..]);
    }
  }

  /** What the model assumes of a node: as eth_getLogs promises for a query with one topic position, no
      log of an answer lacks a first topic, which the dispatch loop reads unchecked. */
  lemma AnswerHasTopic(node: Node, first: int, last: int, addresses: seq<Address>, topics: seq<Hash>, log: Log)
    requires log in FilterLogs(node, first, last, addresses, topics)
    ensures log.topics != []
  {
  }

  lemma {:induction false} NaiveRouteConcat(contracts: seq<ContractConfig>, a: seq<Log>, b: seq<Log>)
    ensures NaiveRoute(contracts, a + b) == NaiveRoute(contracts, a) + NaiveRoute(contracts, b)
  {
    if a == [] {
      assert a + b == b;
    } else {
      assert (a + b)[1..] == a[1..] + b;
      NaiveRouteConcat(contracts, a[1..], b);
    }
  }

  function Events(jobs: seq<EventJob>): (r: seq<Log>)
    ensures |r| == |jobs|
  {
    seq(|jobs|, i requires 0 <= i < |jobs| => jobs[i].event)
  }

  /** The scan finds the jobs of its logs and no others. */
  lemma {:induction false} NaiveRouteMembers(contracts: seq<ContractConfig>, logs: seq<Log>, job: EventJob)
    ensures job in NaiveRoute(contracts, logs) <==> job.event in logs && NaiveJob(contracts, job.event) == Some(job)
  {
    if logs != [] {
      NaiveRouteMembers(contracts, logs[1..], job);
      assert logs == [logs[0]] + logs[1..];
    }
  }

  lemma {:induction false} NaiveRouteFrom(contracts: seq<ContractConfig>, logs: seq<Log>, job: EventJob)
    requires job in NaiveRoute(contracts, logs)
    ensures job.event in logs && NaiveJob(contracts, job.event) == Some(job)
  {
    if NaiveJob(contracts, logs[0]) != Some(job) {
      NaiveRouteFrom(contracts, logs[1..], job);
    }
  }

  lemma {:induction false} NaiveRouteInOrder(contracts: seq<ContractConfig>, logs: seq<Log>)
    requires InChainOrder(logs)
    ensures InChainOrder(Events(NaiveRoute(contracts, logs)))
  {
    if logs != [] {
      var rest := NaiveRoute(contracts, logs[1..]);
      NaiveRouteInOrder(contracts, logs[1..]);
      if NaiveJob(contracts, logs[0]).Some? {
        var all := Events(NaiveRoute(contracts, logs));
        assert NaiveRoute(contracts, logs) == [EventJob(logs[0], NaiveJob(contracts, logs[0]).value.handler)] + rest;
        forall i, j | 0 <= i < j < |all| ensures Precedes(all[i], all[j]) {
          assert all[j] == Events(rest)[j - 1] == rest[j - 1].event;
          if i == 0 {
            NaiveRouteFrom(contracts, logs[1..], rest[j - 1]);
            var k :| 0 <= k < |logs[1..]| && logs[1..][k] == rest[j - 1].event;
            assert logs[k + 1] == all[j] && all[0] == logs[0];
          } else {
            assert all[i] == Events(rest)[i - 1];
          }
        }
      } else {
        assert NaiveRoute(contracts, logs) == rest;
      }
    }
  }
}
