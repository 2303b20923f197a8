/** The chain as the worker sees it: blocks of extrinsic hashes and one flat list of
    event records per block, each tagged with the phase that emitted it. */
module Chain {
  /** A 32-byte extrinsic hash, read as the number it encodes. */
  type Hash = nat

  datatype Option<+T> = None | Some(value: T)

  /** `section.method` of a runtime event; `Unwatched` stands for all the others. */
  datatype EventName =
    | CapacityCapacityWithdrawn
    | SystemExtrinsicFailed
    | HandlesHandleClaimed
    | MsaMsaCreated
    | MsaDelegationGranted
    | MsaPublicKeyAdded
    | UtilityBatchCompleted
    | Unwatched(code: nat)

  datatype Event =
    | CapacityWithdrawn(amount: nat)
    | ExtrinsicFailed
    | HandleClaimed(owner: string, handle: string)
    | MsaCreated(msaId: string, key: string)
    | DelegationGranted(providerId: string, delegatorId: string)
    | PublicKeyAdded(keyOwner: string, newKey: string)
    | BatchCompleted
    | OtherEvent(code: nat)
  {
    function Name(): EventName {
      match this
      case CapacityWithdrawn(_) => CapacityCapacityWithdrawn
      case ExtrinsicFailed => SystemExtrinsicFailed
      case HandleClaimed(_, _) => HandlesHandleClaimed
      case MsaCreated(_, _) => MsaMsaCreated
      case DelegationGranted(_, _) => MsaDelegationGranted
      case PublicKeyAdded(_, _) => MsaPublicKeyAdded
      case BatchCompleted => UtilityBatchCompleted
      case OtherEvent(code) => Unwatched(code)
    }
  }

  datatype Phase = Initialization | Finalization | ApplyExtrinsic(index: nat)

  datatype EventRecord = EventRecord(phase: Phase, event: Event)

  datatype Block = Block(extrinsics: seq<Hash>, events: seq<EventRecord>, epoch: nat) {
    /** No extrinsic hash occurs twice. */
    ghost predicate Distinct() {
      forall i, j :: 0 <= i < j < |extrinsics| ==> extrinsics[i] != extrinsics[j]
    }
  }

  /** The events that extrinsic `i` emitted, in order. */
  function EventsOf(events: seq<EventRecord>, i: nat): seq<Event> {
    if events == [] then []
    else
      var r := events[|events| - 1];
      EventsOf(events[..|events| - 1], i) + (if r.phase == ApplyExtrinsic(i) then [r.event] else [])
  }

  /** The positions of the extrinsics whose hash is pending, in block order. */
  function Matches(extrinsics: seq<Hash>, pending: set<Hash>): seq<nat> {
    if extrinsics == [] then []
    else
      var last := |extrinsics| - 1;
      Matches(extrinsics[..last], pending) + (if extrinsics[last] in pending then [last] else [])
  }

  /** No pending extrinsic is overlooked, and nothing else is taken. */
  lemma {:induction false} MatchesExactly(extrinsics: seq<Hash>, pending: set<Hash>, i: nat)
    ensures i in Matches(extrinsics, pending) <==> i < |extrinsics| && extrinsics[i] in pending
  {
    if extrinsics == [] {
    } else {
      MatchesExactly(extrinsics[..|extrinsics| - 1], pending, i);
    }
  }

  ghost predicate Increasing(s: seq<nat>) {
    forall m, n :: 0 <= m < n < |s| ==> s[m] < s[n]
  }

  lemma {:induction false} MatchesIncrease(extrinsics: seq<Hash>, pending: set<Hash>)
    ensures Increasing(Matches(extrinsics, pending))
  {
    if extrinsics == [] {
    } else {
      var last := |extrinsics| - 1;
      var init := Matches(extrinsics[..last], pending);
      MatchesIncrease(extrinsics[..last], pending);
      forall m | 0 <= m < |init| ensures init[m] < last {
        MatchesExactly(extrinsics[..last], pending, init[m]);
      }
      assert Increasing(init + [last]);
      assert Matches(extrinsics, pending) == if extrinsics[last] in pending then init + [last] else init;
    }
  }

  /** The hashes found at the given positions. */
  function HashesAt(extrinsics: seq<Hash>, indices: seq<nat>): set<Hash> {
    if indices == [] then {}
    else
      var i := indices[|indices| - 1];
      HashesAt(extrinsics, indices[..|indices| - 1]) + (if i < |extrinsics| then {extrinsics[i]} else {})
  }

  /** The hashes of a list that are pending. */
  function PendingAmong(extrinsics: seq<Hash>, pending: set<Hash>): set<Hash> {
    set h | h in pending && h in extrinsics
  }

  lemma {:induction false} HashAt(extrinsics: seq<Hash>, indices: seq<nat>, i: nat)
    requires i in indices && i < |extrinsics|
    ensures extrinsics[i] in HashesAt(extrinsics, indices)
  {
    if indices[|indices| - 1] != i {
      HashAt(extrinsics, indices[..|indices| - 1], i);
    }
  }

  lemma {:induction false} PositionOf(extrinsics: seq<Hash>, indices: seq<nat>, h: Hash) returns (i: nat)
    requires h in HashesAt(extrinsics, indices)
    ensures i in indices && i < |extrinsics| && extrinsics[i] == h
  {
    i := indices[|indices| - 1];
    if !(i < |extrinsics| && extrinsics[i] == h) {
      i := PositionOf(extrinsics, indices[..|indices| - 1], h);
    }
  }

  /** The positions matched are exactly those of the pending hashes. */
  lemma MatchedHashes(extrinsics: seq<Hash>, pending: set<Hash>)
    ensures HashesAt(extrinsics, Matches(extrinsics, pending)) == PendingAmong(extrinsics, pending)
  {
    var indices := Matches(extrinsics, pending);
    forall h | h in HashesAt(extrinsics, indices) ensures h in PendingAmong(extrinsics, pending) {
      var i := PositionOf(extrinsics, indices, h);
      MatchesExactly(extrinsics, pending, i);
    }
    forall h | h in PendingAmong(extrinsics, pending) ensures h in HashesAt(extrinsics, indices) {
      var i :| 0 <= i < |extrinsics| && extrinsics[i] == h;
      MatchesExactly(extrinsics, pending, i);
      HashAt(extrinsics, indices, i);
    }
  }

  /** `es` are the events of extrinsic `i`, found at the positions `p`. */
  ghost predicate Picked(events: seq<EventRecord>, i: nat, es: seq<Event>, p: seq<nat>) {
    && Increasing(p) && |p| == |es|
    && (forall m :: 0 <= m < |p| ==> p[m] < |events| && events[p[m]] == EventRecord(ApplyExtrinsic(i), es[m]))
    && (forall k :: 0 <= k < |events| && events[k].phase == ApplyExtrinsic(i) ==> k in p)
  }

  lemma PickedMore(events: seq<EventRecord>, r: EventRecord, i: nat, es: seq<Event>, p: seq<nat>)
    requires Picked(events, i, es, p)
    ensures r.phase != ApplyExtrinsic(i) ==> Picked(events + [r], i, es, p)
    ensures r.phase == ApplyExtrinsic(i) ==> Picked(events + [r], i, es + [r.event], p + [|events|])
  {
    if r.phase == ApplyExtrinsic(i) {
      var q := p + [|events|];
      forall k | 0 <= k < |events + [r]| && (events + [r])[k].phase == ApplyExtrinsic(i) ensures k in q {
        if k < |events| { assert k in p; } else { assert q[|p|] == k; }
      }
    }
  }

  /** The events read for an extrinsic are all of its own and no others, in the block's order. */
  lemma {:induction false} EventsOfMeaning(events: seq<EventRecord>, i: nat) returns (p: seq<nat>)
    ensures Picked(events, i, EventsOf(events, i), p)
  {
    if events == [] {
      p := [];
    } else {
      var last := |events| - 1;
      p := EventsOfMeaning(events[..last], i);
      PickedMore(events[..last], events[last], i, EventsOf(events[..last], i), p);
      assert events[..last] + [events[last]] == events;
      if events[last].phase == ApplyExtrinsic(i) { p := p + [last]; }
    }
  }

  /** Extrinsic `i` of the block emitted `e`. */
  ghost predicate Emitted(b: Block, i: nat, e: Event) {
    EventRecord(ApplyExtrinsic(i), e) in b.events
  }

  lemma EventsOfEmitted(b: Block, i: nat, e: Event)
    ensures e in EventsOf(b.events, i) <==> Emitted(b, i, e)
  {
    var p := EventsOfMeaning(b.events, i);
    if Emitted(b, i, e) {
      var k :| 0 <= k < |b.events| && b.events[k] == EventRecord(ApplyExtrinsic(i), e);
      var m :| 0 <= m < |p| && p[m] == k;
      assert EventsOf(b.events, i)[m] == e;
    }
  }

  // ---- Withdrawn capacity ----
  /** What one event record withdraws on behalf of the extrinsics in `hashes`. */
  function RecordWithdrawal(b: Block, r: EventRecord, hashes: set<Hash>): nat {
    if r.phase.ApplyExtrinsic? && r.phase.index < |b.extrinsics| && b.extrinsics[r.phase.index] in hashes
       && r.event.CapacityWithdrawn?
    then r.event.amount else 0
  }

  function SumWithdrawals(b: Block, events: seq<EventRecord>, hashes: set<Hash>): nat {
    if events == [] then 0
    else SumWithdrawals(b, events[..|events| - 1], hashes) + RecordWithdrawal(b, events[|events| - 1], hashes)
  }

  /** All the capacity withdrawn in `b` on behalf of the extrinsics in `hashes`. */
  function BlockWithdrawn(b: Block, hashes: set<Hash>): nat {
    SumWithdrawals(b, b.events, hashes)
  }

  function Sum(amounts: seq<nat>): nat {
    if amounts == [] then 0 else Sum(amounts[..|amounts| - 1]) + amounts[|amounts| - 1]
  }

  /** The record withdraws `amount` on behalf of an extrinsic in `hashes`. */
  ghost predicate Withdraws(b: Block, r: EventRecord, hashes: set<Hash>, amount: nat) {
    exists i: nat :: && i < |b.extrinsics| && b.extrinsics[i] in hashes
                     && r == EventRecord(ApplyExtrinsic(i), CapacityWithdrawn(amount))
  }

  /** `amounts` are what the records withdraw for `hashes`, found at the positions `p`. */
  ghost predicate WithdrawnAt(b: Block, events: seq<EventRecord>, hashes: set<Hash>, p: seq<nat>, amounts: seq<nat>) {
    && Increasing(p) && |p| == |amounts|
    && (forall m :: 0 <= m < |p| ==> p[m] < |events| && Withdraws(b, events[p[m]], hashes, amounts[m]))
    && (forall k, a :: 0 <= k < |events| && Withdraws(b, events[k], hashes, a) ==> k in p)
  }

  lemma WithdrawnMore(b: Block, events: seq<EventRecord>, r: EventRecord, hashes: set<Hash>, p: seq<nat>,
                      amounts: seq<nat>)
    requires WithdrawnAt(b, events, hashes, p, amounts)
    ensures (forall a :: !Withdraws(b, r, hashes, a)) ==> WithdrawnAt(b, events + [r], hashes, p, amounts)
    ensures forall a :: Withdraws(b, r, hashes, a) ==>
              WithdrawnAt(b, events + [r], hashes, p + [|events|], amounts + [a])
  {
    var all, q := events + [r], p + [|events|];
    assert q[|p|] == |events|;
    forall k, a | 0 <= k < |events| && Withdraws(b, all[k], hashes, a) ensures k in p && k in q {
      assert Withdraws(b, events[k], hashes, a);
      assert k in p;
    }
  }

  lemma RecordMeaning(b: Block, r: EventRecord, hashes: set<Hash>)
    ensures forall a :: Withdraws(b, r, hashes, a) ==> RecordWithdrawal(b, r, hashes) == a
    ensures (forall a :: !Withdraws(b, r, hashes, a)) ==> RecordWithdrawal(b, r, hashes) == 0
  {
    if RecordWithdrawal(b, r, hashes) != 0 {
      assert Withdraws(b, r, hashes, RecordWithdrawal(b, r, hashes));
    }
  }

  /** What is withdrawn for `hashes` is the sum of the amounts of all their CapacityWithdrawn
      records, each counted once. */
  lemma {:induction false} WithdrawnIsSum(b: Block, events: seq<EventRecord>, hashes: set<Hash>)
    returns (p: seq<nat>, amounts: seq<nat>)
    ensures WithdrawnAt(b, events, hashes, p, amounts) && SumWithdrawals(b, events, hashes) == Sum(amounts)
  {
    if events == [] {
      p, amounts := [], [];
    } else {
      var last := |events| - 1;
      p, amounts := WithdrawnIsSum(b, events[..last], hashes);
      WithdrawnMore(b, events[..last], events[last], hashes, p, amounts);
      RecordMeaning(b, events[last], hashes);
      assert events[..last] + [events[last]] == events;
      if a :| Withdraws(b, events[last], hashes, a) {
        assert (amounts + [a])[..|amounts|] == amounts;
        p, amounts := p + [last], amounts + [a];
      }
    }
  }

  /** All the capacity withdrawn in the blocks of one epoch on behalf of `hashes`. */
  function Withdrawn(chain: seq<Block>, epoch: nat, hashes: set<Hash>): nat {
    if chain == [] then 0
    else
      var last := chain[|chain| - 1];
      Withdrawn(chain[..|chain| - 1], epoch, hashes) + (if last.epoch == epoch then BlockWithdrawn(last, hashes) else 0)
  }

  lemma {:induction false} SumCongruent(b: Block, events: seq<EventRecord>, s: set<Hash>, t: set<Hash>)
    requires forall h :: h in b.extrinsics ==> (h in s <==> h in t)
    ensures SumWithdrawals(b, events, s) == SumWithdrawals(b, events, t)
  {
    if events == [] {
    } else {
      SumCongruent(b, events[..|events| - 1], s, t);
    }
  }

  lemma {:induction false} SumSplits(b: Block, events: seq<EventRecord>, s: set<Hash>, t: set<Hash>)
    requires s !! t
    ensures SumWithdrawals(b, events, s + t) == SumWithdrawals(b, events, s) + SumWithdrawals(b, events, t)
  {
    if events == [] {
    } else {
      SumSplits(b, events[..|events| - 1], s, t);
    }
  }

  lemma {:induction false} SumOfNone(b: Block, events: seq<EventRecord>)
    ensures SumWithdrawals(b, events, {}) == 0
  {
    if events == [] {
    } else {
      SumOfNone(b, events[..|events| - 1]);
    }
  }

  /** `h` was included in block `k`. */
  ghost predicate IncludedAt(chain: seq<Block>, h: Hash, k: int) {
    0 <= k < |chain| && h in chain[k].extrinsics
  }

  ghost predicate Included(chain: seq<Block>, h: Hash) {
    exists k :: IncludedAt(chain, h, k)
  }

  lemma {:induction false} WithdrawnCongruent(chain: seq<Block>, epoch: nat, s: set<Hash>, t: set<Hash>)
    requires forall h, k :: IncludedAt(chain, h, k) ==> (h in s <==> h in t)
    ensures Withdrawn(chain, epoch, s) == Withdrawn(chain, epoch, t)
  {
    if chain == [] {
    } else {
      var last := |chain| - 1;
      forall h, k | IncludedAt(chain[..last], h, k) ensures h in s <==> h in t {
        assert IncludedAt(chain, h, k);
      }
      WithdrawnCongruent(chain[..last], epoch, s, t);
      forall h | h in chain[last].extrinsics ensures h in s <==> h in t {
        assert IncludedAt(chain, h, last);
      }
      SumCongruent(chain[last], chain[last].events, s, t);
    }
  }

  lemma {:induction false} WithdrawnSplits(chain: seq<Block>, epoch: nat, s: set<Hash>, t: set<Hash>)
    requires s !! t
    ensures Withdrawn(chain, epoch, s + t) == Withdrawn(chain, epoch, s) + Withdrawn(chain, epoch, t)
  {
    if chain == [] {
    } else {
      WithdrawnSplits(chain[..|chain| - 1], epoch, s, t);
      SumSplits(chain[|chain| - 1], chain[|chain| - 1].events, s, t);
    }
  }

  lemma {:induction false} WithdrawnByNone(chain: seq<Block>, epoch: nat)
    ensures Withdrawn(chain, epoch, {}) == 0
  {
    if chain == [] {
    } else {
      WithdrawnByNone(chain[..|chain| - 1], epoch);
      SumOfNone(chain[|chain| - 1], chain[|chain| - 1].events);
    }
  }

  /** Hashes that are nowhere in the chain withdraw nothing. */
  lemma NothingWithdrawn(chain: seq<Block>, epoch: nat, s: set<Hash>)
    requires forall h :: h in s ==> !Included(chain, h)
    ensures Withdrawn(chain, epoch, s) == 0
  {
    forall h, k | IncludedAt(chain, h, k) ensures h in s <==> h in {} {
      assert Included(chain, h);
    }
    WithdrawnCongruent(chain, epoch, s, {});
    WithdrawnByNone(chain, epoch);
  }

  /** `c` added up `n` times. */
  function Times(c: nat, n: nat): nat {
    if n == 0 then 0 else Times(c, n - 1) + c
  }

  /** If each transaction costs at most `c`, a set of them costs at most `c` times its size. */
  lemma {:induction false} WithdrawnBounded(chain: seq<Block>, epoch: nat, s: set<Hash>, c: nat)
    requires forall h :: h in s ==> Withdrawn(chain, epoch, {h}) <= c
    ensures Withdrawn(chain, epoch, s) <= Times(c, |s|)
    decreases s
  {
    if s == {} {
      WithdrawnByNone(chain, epoch);
    } else {
      var h :| h in s;
      var rest := s - {h};
      WithdrawnBounded(chain, epoch, rest, c);
      WithdrawnSplits(chain, epoch, rest, {h});
      assert rest + {h} == s;
    }
  }

  lemma {:induction false} OnlyInBlock(chain: seq<Block>, epoch: nat, r: set<Hash>, n: nat)
    requires n < |chain|
    requires forall h, k :: h in r && IncludedAt(chain, h, k) ==> k == n
    ensures Withdrawn(chain, epoch, r) == if chain[n].epoch == epoch then BlockWithdrawn(chain[n], r) else 0
  {
    var last := |chain| - 1;
    var init := chain[..last];
    forall h, k | IncludedAt(init, h, k) && h in r ensures k == n && n < last {
      assert IncludedAt(chain, h, k);
    }
    if n == last {
      NothingWithdrawn(init, epoch, r);
    } else {
      OnlyInBlock(init, epoch, r, n);
      forall h | h in chain[last].extrinsics ensures h in r <==> h in {} {
        assert IncludedAt(chain, h, last);
      }
      SumCongruent(chain[last], chain[last].events, r, {});
      SumOfNone(chain[last], chain[last].events);
    }
  }

  /** Moving the hashes `r` into the counted set adds what they withdrew in block `n`, when
      they were included nowhere else. */
  lemma {:induction false} WithdrawnInBlock(chain: seq<Block>, epoch: nat, s: set<Hash>, r: set<Hash>, n: nat)
    requires n < |chain| && s !! r
    requires forall h, k :: h in r && IncludedAt(chain, h, k) ==> k == n
    ensures Withdrawn(chain, epoch, s + r)
         == Withdrawn(chain, epoch, s) + (if chain[n].epoch == epoch then BlockWithdrawn(chain[n], r) else 0)
  {
    WithdrawnSplits(chain, epoch, s, r);
    OnlyInBlock(chain, epoch, r, n);
  }
}
