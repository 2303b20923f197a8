/** The notifier: one block's processing and the scan loop, as the program performs them. */
module Notifier {
  import opened Chain
  import opened Transactions
  import opened BlockPass
  import opened Publisher

  // ---- Events of the matched extrinsics ----
  /** The events emitted by one of the given extrinsics. */
  function RelevantEvents(events: seq<EventRecord>, indices: seq<nat>): seq<EventRecord> {
    if events == [] then []
    else
      var r := events[|events| - 1];
      RelevantEvents(events[..|events| - 1], indices)
      + (if r.phase.ApplyExtrinsic? && r.phase.index in indices then [r] else [])
  }

  function TotalWithdrawn(events: seq<EventRecord>): nat {
    if events == [] then 0
    else
      var e := events[|events| - 1].event;
      TotalWithdrawn(events[..|events| - 1]) + (if e.CapacityWithdrawn? then e.amount else 0)
  }

  /** Filtering first by all matched extrinsics and then by one of them is filtering by the one. */
  lemma {:induction false} EventsOfRelevant(events: seq<EventRecord>, indices: seq<nat>, i: nat)
    requires i in indices
    ensures EventsOf(RelevantEvents(events, indices), i) == EventsOf(events, i)
  {
    if events == [] {
    } else {
      var init := events[..|events| - 1];
      EventsOfRelevant(init, indices, i);
      var before := RelevantEvents(init, indices);
      var all := RelevantEvents(events, indices);
      assert all == before || all[..|all| - 1] == before;
    }
  }

  function Contribution(r: EventRecord, indices: seq<nat>): nat {
    if r.phase.ApplyExtrinsic? && r.phase.index in indices && r.event.CapacityWithdrawn? then r.event.amount else 0
  }

  lemma TotalOfOneMore(events: seq<EventRecord>, r: EventRecord)
    ensures TotalWithdrawn(events + [r])
         == TotalWithdrawn(events) + if r.event.CapacityWithdrawn? then r.event.amount else 0
  {
    assert (events + [r])[..|events|] == events;
  }

  lemma RelevantStep(events: seq<EventRecord>, indices: seq<nat>)
    requires events != []
    ensures TotalWithdrawn(RelevantEvents(events, indices))
         == TotalWithdrawn(RelevantEvents(events[..|events| - 1], indices))
            + Contribution(events[|events| - 1], indices)
  {
    var before := RelevantEvents(events[..|events| - 1], indices);
    var r := events[|events| - 1];
    TotalOfOneMore(before, r);
    assert RelevantEvents(events, indices)
        == if r.phase.ApplyExtrinsic? && r.phase.index in indices then before + [r] else before;
  }

  /** The total that goes into the epoch counter is what the watched extrinsics withdrew: each
      event counts once, however many transactions are watched. */
  lemma {:induction false} TotalOfRelevant(b: Block, events: seq<EventRecord>, pending: set<Hash>)
    ensures TotalWithdrawn(RelevantEvents(events, Matches(b.extrinsics, pending))) == SumWithdrawals(b, events, pending)
  {
    if events == [] {
    } else {
      TotalOfRelevant(b, events[..|events| - 1], pending);
      RelevantStep(events, Matches(b.extrinsics, pending));
      var r := events[|events| - 1];
      if r.phase.ApplyExtrinsic? {
        MatchesExactly(b.extrinsics, pending, r.phase.index);
      }
    }
  }

  // ---- Deliveries ----
  /** One run of the retry loop: what was posted, and how each attempt ended. */
  datatype Delivery = Delivery(pass: Pass, attempts: seq<bool>)

  function PassesOf(deliveries: seq<Delivery>): seq<Pass> {
    if deliveries == [] then []
    else PassesOf(deliveries[..|deliveries| - 1]) + [deliveries[|deliveries| - 1].pass]
  }

  /** Attempts stop at the first that succeeds, and otherwise number exactly the maximum. */
  ghost predicate Attempted(attempts: seq<bool>, maxRetries: nat) {
    && (forall i :: 0 <= i < |attempts| - 1 ==> !attempts[i])
    && |attempts| <= maxRetries
    && (|attempts| < maxRetries ==> attempts != [] && attempts[|attempts| - 1])
  }

  /** A body is posted at least once iff retries are allowed at all, and delivered at most once;
      it is given up only after the maximum number of failures. */
  lemma AttemptedMeaning(attempts: seq<bool>, maxRetries: nat)
    requires Attempted(attempts, maxRetries)
    ensures attempts == [] <==> maxRetries == 0
    ensures forall i, j :: 0 <= i < |attempts| && 0 <= j < |attempts| && attempts[i] && attempts[j] ==> i == j
    ensures (forall i :: 0 <= i < |attempts| ==> !attempts[i]) ==> |attempts| == maxRetries
  {}

  ghost predicate AllAttempted(deliveries: seq<Delivery>, maxRetries: nat) {
    forall m :: 0 <= m < |deliveries| ==> Attempted(deliveries[m].attempts, maxRetries)
  }

  lemma AllMatchedPasses(b: Block, n: nat, watch: WatchList)
    ensures PassesAt(b, n, watch, Matches(b.extrinsics, watch.Keys)) == BlockPasses(b, n, watch)
  {
    MatchedPasses(b, n, watch, |b.extrinsics|);
    assert b.extrinsics[..|b.extrinsics|] == b.extrinsics;
  }

  lemma NoneMatched(b: Block, pending: set<Hash>)
    ensures Matches(b.extrinsics, pending) == [] <==> PendingAmong(b.extrinsics, pending) == {}
  {
    MatchedHashes(b.extrinsics, pending);
    var indices := Matches(b.extrinsics, pending);
    if indices != [] {
      MatchesExactly(b.extrinsics, pending, indices[0]);
      assert b.extrinsics[indices[0]] in PendingAmong(b.extrinsics, pending);
    }
  }

  /** What the loop over the matched positions must come to. */
  lemma MatchFacts(b: Block, n: nat, watch: WatchList)
    ensures var indices := Matches(b.extrinsics, watch.Keys);
            && (indices == [] <==> PendingAmong(b.extrinsics, watch.Keys) == {})
            && HashesAt(b.extrinsics, indices) == PendingAmong(b.extrinsics, watch.Keys)
            && PassesAt(b, n, watch, indices) == BlockPasses(b, n, watch)
  {
    NoneMatched(b, watch.Keys);
    MatchedHashes(b.extrinsics, watch.Keys);
    AllMatchedPasses(b, n, watch);
  }

  lemma OneMatchMore(b: Block, n: nat, watch: WatchList, indices: seq<nat>, j: nat)
    requires j < |indices|
    ensures PassesAt(b, n, watch, indices[..j + 1])
         == PassesAt(b, n, watch, indices[..j]) + PassAt(b, n, watch, indices[j])
    ensures HashesAt(b.extrinsics, indices[..j + 1])
         == HashesAt(b.extrinsics, indices[..j])
            + (if indices[j] < |b.extrinsics| then {b.extrinsics[indices[j]]} else {})
  {
    assert indices[..j + 1][..j] == indices[..j];
  }

  /** While the list is not empty, a scan that has processed a block is below the latest death. */
  lemma AliveBeforeLatest(env: Env, l: Ledger, from: nat, to: nat, latest: nat)
    requires from < to && DeadBy(l.watch, latest) && Scanned(env, l, from, to).watch != map[]
    ensures to < latest
  {
    if latest <= to {
      ExpiryEmptiesList(env, l, from, to);
    }
  }

  /** For the scan the chain ends before block `n`: the node has no such block, or it is not
      finalized and only finalized blocks count. */
  predicate ChainEnds(env: Env, onlyFinalized: bool, n: nat) {
    !env.available(n) || (onlyFinalized && env.finalized(n) < n)
  }

  // ---- The service ----
  class TxnNotifier {
    const redis: Redis

    const onlyFinalized: bool

    const healthCheckMaxRetries: nat

    var deliveries: seq<Delivery>
    var scanInProgress: bool

    constructor (redis: Redis, onlyFinalized: bool, healthCheckMaxRetries: nat)
      ensures this.redis == redis && this.onlyFinalized == onlyFinalized && deliveries == [] && !scanInProgress
      ensures this.healthCheckMaxRetries == healthCheckMaxRetries
    {
      this.redis, this.onlyFinalized, this.healthCheckMaxRetries := redis, onlyFinalized, healthCheckMaxRetries;
      deliveries, scanInProgress := [], false;
    }

    ghost predicate Valid()
      reads this, redis
    {
      WellKeyed(redis.watchList) && AllAttempted(deliveries, healthCheckMaxRetries)
    }

    function State(): Ledger
      reads this, redis
    {
      Ledger(redis.watchList, redis.epochCapacity, PassesOf(deliveries))
    }

    /** The entries of the watch list, in whatever order Redis has them. */
    method Hvals() returns (values: seq<TxStatus>)
      requires WellKeyed(redis.watchList)
      ensures forall v :: v in values ==> v.txHash in redis.watchList && redis.watchList[v.txHash] == v
      ensures forall h :: h in redis.watchList ==> redis.watchList[h] in values
    {
      values := [];
      var rest := redis.watchList.Keys;
      while rest != {}
        invariant rest <= redis.watchList.Keys
        invariant forall v :: v in values ==> v.txHash in redis.watchList && redis.watchList[v.txHash] == v
        invariant forall h :: h in redis.watchList && h !in rest ==> redis.watchList[h] in values
        decreases rest
      {
        var h :| h in rest;
        values := values + [redis.watchList[h]];
        rest := rest - {h};
      }
    }

    /** The stored number, or the smallest birth on the list if that is larger. */
    method GetLastSeenBlockNumber() returns (n: nat)
      requires WellKeyed(redis.watchList)
      ensures redis.watchList == map[] ==> n == redis.lastSeen
      ensures redis.watchList != map[] ==>
                exists m: nat :: IsMinBirth(redis.watchList, m) && n == Max(redis.lastSeen, m)
    {
      n := redis.lastSeen;
      var pending := Hvals();
      if pending != [] {
        var startingBlock := pending[0].birth;
        for i := 1 to |pending|
          invariant exists j :: 0 <= j < i && pending[j].birth == startingBlock
          invariant forall j :: 0 <= j < i ==> startingBlock <= pending[j].birth
        {
          if pending[i].birth < startingBlock { startingBlock := pending[i].birth; }
        }
        assert IsMinBirth(redis.watchList, startingBlock) by {
          var j :| 0 <= j < |pending| && pending[j].birth == startingBlock;
          assert pending[j] in pending;
        }
        if n < startingBlock { n := startingBlock; }
      } else {
        assert redis.watchList == map[];
      }
    }

    method SetEpochCapacity(epoch: nat, capacityWithdrawn: nat, fails: bool)
      modifies redis`epochCapacity
      ensures redis.epochCapacity ==
              if fails then old(redis.epochCapacity)
              else old(redis.epochCapacity)[epoch := Counter(old(redis.epochCapacity), epoch) + capacityWithdrawn]
    {
      if fails { return; } // the error is logged and swallowed
      var savedCapacity := Counter(redis.epochCapacity, epoch);
      redis.epochCapacity := redis.epochCapacity[epoch := savedCapacity + capacityWithdrawn];
    }

    /** The body of a notification. */
    method BuildResponse(status: TxStatus, success: Event, events: seq<Event>) returns (rsp: WebhookRsp)
      ensures rsp == Response(status, success, events)
    {
      rsp := WebhookRsp(None, None, status.referenceId, None, None, None, None);
      match status.txType {
        case CreateHandle =>
          rsp := rsp.(transactionType := Some(CreateHandle), providerId := Some(status.providerId));
          rsp := HandleResponse(rsp, success);
        case ChangeHandle =>
          rsp := rsp.(transactionType := Some(ChangeHandle), providerId := Some(status.providerId));
          rsp := HandleResponse(rsp, success);
        case SiwfSignup =>
          var values := HandleSiwfTxnResult(events);
          rsp := WebhookRsp(Some(SiwfSignup), Some(status.providerId), status.referenceId,
                            values.msaId, values.address, values.handle, None);
        case AddKey =>
          rsp := rsp.(transactionType := Some(AddKey), providerId := Some(status.providerId));
          if success.PublicKeyAdded? {
            rsp := rsp.(msaId := Some(success.keyOwner), newPublicKey := Some(success.newKey));
          }
        case SiwfSignin => // an unknown type is logged
      }
    }

    /** The retry loop; each post may fail or not. */
    method Notify(pass: Pass)
      modifies this`deliveries
      ensures exists attempts :: && Attempted(attempts, healthCheckMaxRetries)
                                 && deliveries == old(deliveries) + [Delivery(pass, attempts)]
    {
      var retries := 0;
      var attempts: seq<bool> := [];
      while retries < healthCheckMaxRetries
        invariant |attempts| == retries <= healthCheckMaxRetries
        invariant forall i :: 0 <= i < |attempts| ==> !attempts[i]
      {
        var delivered: bool := *;
        attempts := attempts + [delivered];
        if delivered { break; }
        retries := retries + 1;
      }
      deliveries := deliveries + [Delivery(pass, attempts)];
    }

    /** One matched extrinsic: classify its events, and notify if it succeeded. */
    method HandleMatch(b: Block, n: nat, events: seq<EventRecord>, i: nat, indices: seq<nat>)
      requires Valid() && i < |b.extrinsics| && b.extrinsics[i] in redis.watchList
      requires i in indices && events == RelevantEvents(b.events, indices)
      modifies this`deliveries
      ensures Valid()
      ensures PassesOf(deliveries) == old(PassesOf(deliveries)) + PassAt(b, n, redis.watchList, i)
    {
      var txHash := b.extrinsics[i];
      var extrinsicEvents := EventsOf(events, i);
      EventsOfRelevant(b.events, indices, i);
      var txStatus := redis.watchList[txHash];
      var successEvent := FindEvent(extrinsicEvents, txStatus.successEvent);
      var failureEvent := FindEvent(extrinsicEvents, SystemExtrinsicFailed);
      if failureEvent.Some? {
        // logged
      } else if successEvent.Some? {
        var rsp := BuildResponse(txStatus, successEvent.value, extrinsicEvents);
        Notify(Pass(n, txHash, rsp));
        assert deliveries[..|deliveries| - 1] == old(deliveries);
      }
    }

    /** The counter update of a block with matches. */
    method CountWithdrawn(b: Block, events: seq<EventRecord>, ghost indices: seq<nat>, fails: bool)
      requires indices == Matches(b.extrinsics, redis.watchList.Keys) != []
      requires events == RelevantEvents(b.events, indices)
      modifies redis`epochCapacity
      ensures redis.epochCapacity == CountersAfter(old(redis.epochCapacity), redis.watchList, b, fails)
    {
      var totalCapacityWithdrawn := TotalWithdrawn(events);
      NoneMatched(b, redis.watchList.Keys);
      TotalOfRelevant(b, b.events, redis.watchList.Keys);
      SetEpochCapacity(b.epoch, totalCapacityWithdrawn, fails);
    }

    /** The positions of the watched extrinsics. */
    method MatchedPositions(b: Block, pendingTxns: seq<TxStatus>) returns (indices: seq<nat>)
      requires WellKeyed(redis.watchList)
      requires forall v :: v in pendingTxns ==> v.txHash in redis.watchList && redis.watchList[v.txHash] == v
      requires forall h :: h in redis.watchList ==> redis.watchList[h] in pendingTxns
      ensures indices == Matches(b.extrinsics, redis.watchList.Keys)
    {
      indices := [];
      for i := 0 to |b.extrinsics|
        invariant indices == Matches(b.extrinsics[..i], redis.watchList.Keys)
      {
        assert b.extrinsics[..i + 1][..i] == b.extrinsics[..i];
        ghost var h := b.extrinsics[i];
        assert h in redis.watchList <==> exists v :: v in pendingTxns && v.txHash == h by {
          if h in redis.watchList { assert redis.watchList[h] in pendingTxns; }
        }
        if exists v :: v in pendingTxns && v.txHash == b.extrinsics[i] {
          indices := indices + [i];
        }
      }
      assert b.extrinsics[..|b.extrinsics|] == b.extrinsics;
    }

    /** The loop over the matched extrinsics, which queues their deletion. */
    method HandleMatches(b: Block, n: nat, events: seq<EventRecord>, indices: seq<nat>) returns (deletions: set<Hash>)
      requires Valid() && indices == Matches(b.extrinsics, redis.watchList.Keys)
      requires events == RelevantEvents(b.events, indices)
      modifies this`deliveries
      ensures Valid()
      ensures deletions == HashesAt(b.extrinsics, indices)
      ensures PassesOf(deliveries) == old(PassesOf(deliveries)) + PassesAt(b, n, redis.watchList, indices)
    {
      deletions := {};
      for j := 0 to |indices|
        invariant AllAttempted(deliveries, healthCheckMaxRetries)
        invariant deletions == HashesAt(b.extrinsics, indices[..j])
        invariant PassesOf(deliveries) == old(PassesOf(deliveries)) + PassesAt(b, n, redis.watchList, indices[..j])
      {
        OneMatchMore(b, n, redis.watchList, indices, j);
        MatchesExactly(b.extrinsics, redis.watchList.Keys, indices[j]);
        HandleMatch(b, n, events, indices[j], indices);
        deletions := deletions + {b.extrinsics[indices[j]]};
      }
      assert indices[..|indices|] == indices;
    }

    /** The matched extrinsics of a block: notify, count, and queue the deletions. */
    method ProcessMatches(b: Block, n: nat, fails: bool, pendingTxns: seq<TxStatus>) returns (deletions: set<Hash>)
      requires Valid()
      requires forall v :: v in pendingTxns ==> v.txHash in redis.watchList && redis.watchList[v.txHash] == v
      requires forall h :: h in redis.watchList ==> redis.watchList[h] in pendingTxns
      modifies this`deliveries, redis`epochCapacity
      ensures Valid()
      ensures deletions == PendingAmong(b.extrinsics, redis.watchList.Keys)
      ensures redis.epochCapacity == CountersAfter(old(redis.epochCapacity), redis.watchList, b, fails)
      ensures PassesOf(deliveries) == old(PassesOf(deliveries)) + BlockPasses(b, n, redis.watchList)
    {
      var extrinsicIndices := MatchedPositions(b, pendingTxns);
      MatchFacts(b, n, redis.watchList);
      deletions := {};
      if extrinsicIndices != [] {
        var events := RelevantEvents(b.events, extrinsicIndices);
        deletions := HandleMatches(b, n, events, extrinsicIndices);
        CountWithdrawn(b, events, extrinsicIndices, fails);
      }
    }

    /** The loop over the pending entries, which queues the deletion of the dead ones. */
    method QueueExpired(pendingTxns: seq<TxStatus>, n: nat, matched: set<Hash>) returns (deletions: set<Hash>)
      requires WellKeyed(redis.watchList)
      requires forall v :: v in pendingTxns ==> v.txHash in redis.watchList && redis.watchList[v.txHash] == v
      requires forall h :: h in redis.watchList ==> redis.watchList[h] in pendingTxns
      ensures deletions == matched + Expired(redis.watchList, n)
    {
      deletions := matched;
      for j := 0 to |pendingTxns|
        invariant matched <= deletions <= matched + Expired(redis.watchList, n)
        invariant forall k :: 0 <= k < j && pendingTxns[k].death <= n ==> pendingTxns[k].txHash in deletions
      {
        assert pendingTxns[j] in pendingTxns;
        if pendingTxns[j].death <= n {
          deletions := deletions + {pendingTxns[j].txHash};
        }
      }
      forall h | h in Expired(redis.watchList, n) ensures h in deletions {
        var k :| 0 <= k < |pendingTxns| && pendingTxns[k] == redis.watchList[h];
      }
    }

    /** One block. Nothing is published meanwhile; `fails` is a counter update that raises an
        error. The slices that were meant to shorten the pending list remove nothing, so matched
        entries also meet the expiry test. */
    method ProcessCurrentBlock(b: Block, n: nat, fails: bool)
      requires Valid()
      modifies this`deliveries, redis`watchList, redis`epochCapacity
      ensures Valid()
      ensures State() == ProcessBlock(old(State()), b, n, fails)
    {
      var pendingTxns := Hvals();
      var deletions := ProcessMatches(b, n, fails, pendingTxns);
      deletions := QueueExpired(pendingTxns, n, deletions);
      assert redis.watchList - deletions == WatchAfter(redis.watchList, b, n);
      redis.watchList := redis.watchList - deletions;
    }

    /** Whether the loop goes on: entries are pending, and the chain has a block `n` for the scan. */
    method CheckScanParameters(env: Env, n: nat) returns (ok: bool)
      ensures ok <==> redis.watchList != map[] && !ChainEnds(env, onlyFinalized, n)
    {
      if redis.watchList == map[] { return false; }
      if !env.available(n) { return false; }
      if onlyFinalized {
        if n > env.finalized(n) { return false; }
      }
      return true;
    }

    /** One turn of the loop: process the next block, then store its number. Only the first block
        of a scan can lie past the latest death. */
    method ScanBlock(env: Env, ghost start: Ledger, ghost from: nat, to: nat, ghost latest: nat)
      requires Valid() && from <= to && State() == Scanned(env, start, from, to)
      requires redis.watchList != map[] && DeadBy(start.watch, latest)
      modifies this`deliveries, redis
      ensures Valid() && State() == Scanned(env, start, from, to + 1)
      ensures redis.lastSeen == to + 1
      ensures to < Max(latest, from + 1)
    {
      if from < to { AliveBeforeLatest(env, start, from, to, latest); }
      ScannedStep(env, start, from, to);
      ProcessCurrentBlock(env.block(to + 1), to + 1, env.counterFails(to + 1));
      redis.lastSeen := to + 1;
    }

    /** The scan loop, from the block after `from`, when no entry outlives `latest`. */
    method ScanLoop(env: Env, from: nat, ghost latest: nat) returns (to: nat)
      requires Valid() && redis.lastSeen <= from && DeadBy(redis.watchList, latest)
      modifies this`deliveries, redis
      ensures Valid() && from <= to && State() == Scanned(env, old(State()), from, to)
      ensures redis.lastSeen == if from < to then to else old(redis.lastSeen)
      ensures redis.watchList == map[] || ChainEnds(env, onlyFinalized, to + 1)
      ensures forall n: nat :: from < n <= to ==> !ChainEnds(env, onlyFinalized, n)
      ensures to <= Max(latest, from + 1)
    {
      to := from;
      ghost var start := State();
      ScannedNone(env, start, from);
      while true
        invariant Valid() && from <= to <= Max(latest, from + 1)
        invariant State() == Scanned(env, start, from, to)
        invariant redis.lastSeen == if from < to then to else old(redis.lastSeen)
        invariant forall n: nat :: from < n <= to ==> !ChainEnds(env, onlyFinalized, n)
        decreases Max(latest, from + 1) - to
      {
        var ok := CheckScanParameters(env, to + 1);
        if !ok { break; }
        ScanBlock(env, start, from, to, latest);
        to := to + 1;
      }
    }

    /** One scan, with nothing published meanwhile: the blocks of (from, to] are processed. It
        starts after the last block seen or the smallest birth, and stops because the list is
        empty or the chain ends; on a chain without end it stops all the same, since the list is
        empty once the largest death has been processed. */
    method Scan(env: Env) returns (from: nat, to: nat)
      requires Valid()
      modifies this, redis
      ensures Valid() && scanInProgress == old(scanInProgress)
      ensures from <= to && State() == Scanned(env, old(State()), from, to)
      ensures redis.lastSeen == if from < to then to else old(redis.lastSeen)
      ensures old(scanInProgress) || old(redis.watchList) == map[] ==> from == to
      ensures !old(scanInProgress) && old(redis.watchList) != map[] ==>
                && (exists m: nat :: IsMinBirth(old(redis.watchList), m) && from == Max(old(redis.lastSeen), m))
                && (|| redis.watchList == map[] || !env.available(to + 1)
                    || (onlyFinalized && env.finalized(to + 1) < to + 1))
      ensures forall n: nat :: from < n <= to ==> env.available(n) && (onlyFinalized ==> n <= env.finalized(n))
      ensures to - from <= Max(1, LatestDeath(old(redis.watchList)) - old(redis.lastSeen))
    {
      from, to := redis.lastSeen, redis.lastSeen;
      ScannedNone(env, State(), from);
      if scanInProgress { return; }
      if redis.watchList == map[] { return; }
      scanInProgress := true;
      from := GetLastSeenBlockNumber();
      to := from;
      ScannedNone(env, State(), from);
      if !env.available(from + 1) {
        scanInProgress := false;
        return;
      }
      to := ScanLoop(env, from, LatestDeath(redis.watchList));
      forall n: nat | from < n <= to ensures env.available(n) && (onlyFinalized ==> n <= env.finalized(n)) {
        assert !ChainEnds(env, onlyFinalized, n);
      }
      scanInProgress := false;
    }

    /** With no transaction pending at startup, skip to the finalized head. */
    method OnApplicationBootstrap(finalizedHead: nat)
      modifies redis`lastSeen
      ensures redis.lastSeen == if redis.watchList == map[] then finalizedHead else old(redis.lastSeen)
    {
      if redis.watchList == map[] {
        redis.lastSeen := finalizedHead;
      }
    }
  }
}
