/** What a run has notified and counted, as invariants of the step system. */
module Accounting {
  import opened Chain
  import opened Transactions
  import opened BlockPass
  import opened Protocol

  function PassCount(passes: seq<Pass>, h: Hash): nat {
    if passes == [] then 0
    else PassCount(passes[..|passes| - 1], h) + (if passes[|passes| - 1].txHash == h then 1 else 0)
  }

  /** `h` sits at position `i` of block `k`, and its events there call for the notification `rsp`. */
  ghost predicate Reported(s: State, h: Hash, k: int, i: int, rsp: WebhookRsp) {
    && 0 <= k < |s.chain| && 0 <= i < |s.chain[k].extrinsics| && s.chain[k].extrinsics[i] == h
    && h in s.published && Classify(s.published[h], EventsOf(s.chain[k].events, i)) == Succeeded(rsp)
  }

  /** The matches of the current block already handled. */
  function Handled(s: State): set<Hash> {
    match s.pc
    case Matching(n, pending, done) =>
      if n < |s.chain| && done <= |Indices(s.chain[n], pending)|
      then HashesAt(s.chain[n].extrinsics, Indices(s.chain[n], pending)[..done]) else {}
    case Counted(n, pending, _) =>
      if n < |s.chain| then HashesAt(s.chain[n].extrinsics, Indices(s.chain[n], pending)) else {}
    case _ => {}
  }

  /** The chain holds, for `h`, a success to report. */
  ghost predicate Reportable(s: State, h: Hash) {
    exists k, i, rsp :: Reported(s, h, k, i, rsp)
  }

  /** Settled: off the watch list, or handled and about to leave it. */
  function Settled(s: State): set<Hash> {
    s.published.Keys - s.watch.Keys + Handled(s)
  }

  /** The pass reports what the chain holds for its transaction. */
  ghost predicate TruePass(s: State, p: Pass) {
    exists i :: Reported(s, p.txHash, p.height, i, p.rsp)
  }

  ghost predicate PassesTrue(s: State) {
    forall m :: 0 <= m < |s.passes| ==> TruePass(s, s.passes[m])
  }

  lemma {:induction false} PrefixHashes(extrinsics: seq<Hash>, indices: seq<nat>, k: nat)
    requires k <= |indices|
    ensures HashesAt(extrinsics, indices[..k]) <= HashesAt(extrinsics, indices)
    decreases |indices|
  {
    if k < |indices| {
      var init := indices[..|indices| - 1];
      assert init[..k] == indices[..k];
      PrefixHashes(extrinsics, init, k);
    } else {
      assert indices[..k] == indices;
    }
  }

  lemma HandledIncluded(s: State, h: Hash)
    requires h in Handled(s)
    ensures IncludedAt(s.chain, h, s.pc.n) && h in s.pc.pending
  {
    var b := s.chain[s.pc.n];
    var indices := Indices(b, s.pc.pending);
    PrefixHashes(b.extrinsics, indices, if s.pc.Matching? then s.pc.done else |indices|);
    assert indices[..|indices|] == indices;
    MatchedHashes(b.extrinsics, s.pc.pending.Keys);
    assert h in PendingAmong(b.extrinsics, s.pc.pending.Keys);
  }

  // ---- True notifications ----
  /** The chain and what was published only grow. */
  ghost predicate Extends(s: State, t: State) {
    s.chain <= t.chain && forall h :: h in s.published ==> h in t.published && t.published[h] == s.published[h]
  }

  lemma StepExtends(c: Config, s: State, step: Step)
    requires Enabled(c, s, step)
    ensures Extends(s, Next(c, s, step))
    ensures !step.ProcessOne? ==> Next(c, s, step).passes == s.passes
  {}

  lemma StillTrue(s: State, t: State, p: Pass)
    requires Extends(s, t) && TruePass(s, p)
    ensures TruePass(t, p)
  {
    var i :| Reported(s, p.txHash, p.height, i, p.rsp);
    assert Reported(t, p.txHash, p.height, i, p.rsp);
  }

  /** The extrinsic that the next step handles. */
  ghost predicate IsNext(s: State, i: int, h: Hash) {
    && s.pc.Matching? && s.pc.n < |s.chain| && s.pc.done < |Indices(s.chain[s.pc.n], s.pc.pending)|
    && i == Indices(s.chain[s.pc.n], s.pc.pending)[s.pc.done]
    && i < |s.chain[s.pc.n].extrinsics| && h == s.chain[s.pc.n].extrinsics[i]
  }

  lemma {:induction false} NotAmong(b: Block, indices: seq<nat>, i: nat)
    requires b.Distinct() && i < |b.extrinsics|
    requires forall m :: 0 <= m < |indices| ==> indices[m] < i
    ensures b.extrinsics[i] !in HashesAt(b.extrinsics, indices)
  {
    if indices == [] {
    } else {
      NotAmong(b, indices[..|indices| - 1], i);
    }
  }

  /** The lookup by hash never misses, so the exception branch is unreachable; and the
      extrinsic has not been handled before in this block. */
  lemma NextIsWatched(c: Config, s: State) returns (i: nat, h: Hash)
    requires Base(c, s) && Enabled(c, s, ProcessOne)
    ensures IsNext(s, i, h) && h in s.watch && h in s.pc.pending && h !in Handled(s)
  {
    var b := s.chain[s.pc.n];
    var indices := Indices(b, s.pc.pending);
    i := indices[s.pc.done];
    MatchesExactly(b.extrinsics, s.pc.pending.Keys, i);
    h := b.extrinsics[i];
    MatchesIncrease(b.extrinsics, s.pc.pending.Keys);
    NotAmong(b, indices[..s.pc.done], i);
  }

  lemma NextHandled(s: State, i: nat, h: Hash)
    requires IsNext(s, i, h) && h in s.watch
    ensures var t := OneProcessed(s, s.chain[s.pc.n], s.pc);
            && t == s.(passes := s.passes + PassAt(s.chain[s.pc.n], s.pc.n, s.watch, i),
                       pc := s.pc.(done := s.pc.done + 1))
            && Handled(t) == Handled(s) + {h}
  {
    var indices := Indices(s.chain[s.pc.n], s.pc.pending);
    assert indices[..s.pc.done + 1][..s.pc.done] == indices[..s.pc.done];
  }

  /** A hash has one place on the chain. */
  lemma OnePlace(s: State, h: Hash, k: int, i: int, l: int, j: int)
    requires ChainOk(s)
    requires 0 <= k < |s.chain| && 0 <= i < |s.chain[k].extrinsics| && s.chain[k].extrinsics[i] == h
    requires 0 <= l < |s.chain| && 0 <= j < |s.chain[l].extrinsics| && s.chain[l].extrinsics[j] == h
    ensures k == l && i == j
  {
    assert IncludedAt(s.chain, h, k) && IncludedAt(s.chain, h, l);
  }

  /** Handling one match makes its pass exactly if the chain holds a success to report for it. */
  lemma PassMade(c: Config, s: State, i: nat, h: Hash)
    requires Base(c, s) && IsNext(s, i, h) && h in s.watch
    ensures var made := PassAt(s.chain[s.pc.n], s.pc.n, s.watch, i);
            && |made| == (if Reportable(s, h) then 1 else 0)
            && (forall m :: 0 <= m < |made| ==> made[m].txHash == h && TruePass(s, made[m]))
  {
    var n := s.pc.n;
    var made := PassAt(s.chain[n], n, s.watch, i);
    assert s.watch[h] == s.published[h];
    if made != [] {
      assert Reported(s, h, n, i, made[0].rsp);
    } else if Reportable(s, h) {
      var k, j, rsp :| Reported(s, h, k, j, rsp);
      OnePlace(s, h, k, j, n, i);
      assert false;
    }
  }

  lemma PassesTrueStep(c: Config, s: State, step: Step)
    requires Base(c, s) && PassesTrue(s) && Enabled(c, s, step)
    ensures PassesTrue(Next(c, s, step))
  {
    var t := Next(c, s, step);
    StepExtends(c, s, step);
    forall p | TruePass(s, p) ensures TruePass(t, p) { StillTrue(s, t, p); }
    if step.ProcessOne? {
      var i, h := NextIsWatched(c, s);
      NextHandled(s, i, h);
      PassMade(c, s, i, h);
      forall m | 0 <= m < |t.passes| ensures TruePass(s, t.passes[m]) {
        if m < |s.passes| { assert t.passes[m] == s.passes[m]; }
      }
    }
  }

  // ---- Counted notifications, step by step ----
  /** `h` was notified in one pass for each of `redone` repetitions, and in one more once it is
      settled; in none if the chain holds nothing to report for it. */
  ghost predicate Notified(s: State, h: Hash, redone: nat) {
    && PassCount(s.passes, h) == (if Reportable(s, h) then redone + (if h in Settled(s) then 1 else 0) else 0)
    && (!Included(s.chain, h) ==> redone == 0)
  }

  /** A crash repeats the pass of every transaction handled and not yet committed. */
  function RedoneBy(s: State, step: Step, h: Hash): nat {
    if step.Crash? && h in Handled(s) then 1 else 0
  }

  /** Nothing that matters to the notifications of `h` changes. */
  lemma NotifiedFrame(s: State, t: State, h: Hash, redone: nat)
    requires Notified(s, h, redone)
    requires t.chain == s.chain && t.published == s.published && t.passes == s.passes
    requires h in Settled(t) <==> h in Settled(s)
    ensures Notified(t, h, redone)
  {
    assert forall k, i, rsp :: Reported(t, h, k, i, rsp) <==> Reported(s, h, k, i, rsp);
  }

  lemma OnlyIncludedReportable(s: State, h: Hash)
    requires Reportable(s, h)
    ensures Included(s.chain, h)
  {
    var k, i, rsp :| Reported(s, h, k, i, rsp);
    assert IncludedAt(s.chain, h, k);
  }

  lemma SettledBehind(c: Config, s: State, h: Hash, b: Block)
    requires Base(c, s) && CanGrow(s, b) && h in Settled(s)
    ensures h !in b.extrinsics
  {
    if h in Handled(s) {
      HandledIncluded(s, h);
      assert Included(s.chain, h);
    }
  }

  lemma HandledGrows(c: Config, s: State, b: Block)
    requires Base(c, s)
    ensures Handled(s.(chain := s.chain + [b])) == Handled(s)
  {
    assert (s.pc.Matching? || s.pc.Counted?) ==> (s.chain + [b])[s.pc.n] == s.chain[s.pc.n];
  }

  lemma NotifiedGrow(c: Config, s: State, b: Block, h: Hash, redone: nat)
    requires Base(c, s) && Notified(s, h, redone) && CanGrow(s, b)
    ensures Notified(s.(chain := s.chain + [b]), h, redone)
  {
    var t := s.(chain := s.chain + [b]);
    HandledGrows(c, s, b);
    if Included(s.chain, h) {
      var k :| IncludedAt(s.chain, h, k);
      IncludedGrows(s.chain, b, h, k);
    }
    if h in b.extrinsics {
      if h in Settled(s) { SettledBehind(c, s, h, b); }
      if Reportable(s, h) { OnlyIncludedReportable(s, h); }
    } else {
      assert forall k, i, rsp :: Reported(t, h, k, i, rsp) <==> Reported(s, h, k, i, rsp);
    }
  }

  lemma SettledPublish(s: State, status: TxStatus)
    requires TxOk(s) && SnapshotOk(s) && CanPublish(s, status)
    ensures Handled(Published(s, status)) == Handled(s) && Settled(Published(s, status)) == Settled(s)
  {
    var t := Published(s, status);
    if status.txHash in Handled(s) { HandledIncluded(s, status.txHash); }
    assert t.published.Keys == s.published.Keys + {status.txHash};
    assert t.watch.Keys == s.watch.Keys + {status.txHash};
  }

  lemma NotifiedPublish(c: Config, s: State, status: TxStatus, h: Hash, redone: nat)
    requires Base(c, s) && Notified(s, h, redone) && CanPublish(s, status)
    ensures Notified(Published(s, status), h, redone)
  {
    var t := Published(s, status);
    SettledPublish(s, status);
    if h == status.txHash {
      if Reportable(s, h) { OnlyIncludedReportable(s, h); }
      if Reportable(t, h) { OnlyIncludedReportable(t, h); }
    } else {
      assert forall k, i, rsp :: Reported(t, h, k, i, rsp) <==> Reported(s, h, k, i, rsp);
    }
  }

  lemma {:induction false} PassCountAdds(passes: seq<Pass>, more: seq<Pass>, h: Hash)
    ensures PassCount(passes + more, h) == PassCount(passes, h) + PassCount(more, h)
  {
    if more == [] {
      assert passes + more == passes;
    } else {
      PassCountAdds(passes, more[..|more| - 1], h);
      assert (passes + more)[..|passes + more| - 1] == passes + more[..|more| - 1];
    }
  }

  lemma NotifiedProcess(c: Config, s: State, h: Hash, redone: nat)
    requires Base(c, s) && Notified(s, h, redone) && Enabled(c, s, ProcessOne)
    ensures Notified(Next(c, s, ProcessOne), h, redone)
  {
    var i, next := NextIsWatched(c, s);
    NextHandled(s, i, next);
    var t := Next(c, s, ProcessOne);
    var made := PassAt(s.chain[s.pc.n], s.pc.n, s.watch, i);
    PassMade(c, s, i, next);
    PassCountAdds(s.passes, made, h);
    assert PassCount(made, h) == if h == next then |made| else 0;
    assert Settled(t) == Settled(s) + {next} && next !in Settled(s);
    assert forall k, j, rsp :: Reported(t, h, k, j, rsp) <==> Reported(s, h, k, j, rsp);
  }

  /** What the commit adds to the settled transactions can never be on the chain: it has expired. */
  lemma CommitSettles(c: Config, s: State)
    requires Base(c, s) && s.pc.Counted?
    ensures Settled(s) <= Settled(CommitDone(s))
    ensures forall h, k :: h in Settled(CommitDone(s)) && h !in Settled(s) ==> !IncludedAt(s.chain, h, k)
  {
    CommitRemoves(s);
    var t := CommitDone(s);
    forall h | h in Settled(s) ensures h in Settled(t) {
      if h in Handled(s) { HandledIncluded(s, h); }
    }
    MatchedHashes(s.chain[s.pc.n].extrinsics, s.pc.pending.Keys);
    forall h, k | h in Settled(t) && h !in Settled(s) ensures !IncludedAt(s.chain, h, k) {
      assert h in s.watch && Leaves(s, h);
      assert h !in PendingAmong(s.chain[s.pc.n].extrinsics, s.pc.pending.Keys);
      assert s.published[h].death <= s.pc.n;
    }
  }

  lemma NotifiedCommit(c: Config, s: State, h: Hash, redone: nat)
    requires Base(c, s) && Notified(s, h, redone) && s.pc.Counted?
    ensures Notified(CommitDone(s), h, redone)
  {
    CommitSettles(c, s);
    var t := CommitDone(s);
    assert forall k, i, rsp :: Reported(t, h, k, i, rsp) <==> Reported(s, h, k, i, rsp);
    if Reportable(s, h) { OnlyIncludedReportable(s, h); }
  }

  /** A crash unsettles what was handled and not committed. */
  lemma CrashUnsettles(c: Config, s: State)
    requires Base(c, s)
    ensures Handled(s) !! s.published.Keys - s.watch.Keys
    ensures Settled(Next(c, s, Crash)) == Settled(s) - Handled(s)
  {
    forall h | h in Handled(s) ensures h in s.watch { HandledIncluded(s, h); }
  }

  lemma NotifiedCrash(c: Config, s: State, h: Hash, redone: nat)
    requires Base(c, s) && Notified(s, h, redone)
    ensures Notified(Next(c, s, Crash), h, redone + RedoneBy(s, Crash, h))
  {
    var t := Next(c, s, Crash);
    CrashUnsettles(c, s);
    assert forall k, i, rsp :: Reported(t, h, k, i, rsp) <==> Reported(s, h, k, i, rsp);
    if h in Handled(s) { HandledIncluded(s, h); }
  }

  /** Steps outside a block's processing neither notify nor settle anything. */
  ghost predicate Outside(step: Step) {
    || step.Finalize? || step.Admit? || step.Drop? || step.StartScan? || step.FindStart?
    || step.CheckHead? || step.BootRead? || step.BootSet? || step.Advance?
  }

  /** The counter of the block at hand has been updated. */
  predicate Added(s: State) {
    s.pc.Counted? && s.pc.added
  }

  lemma OutsideKeeps(c: Config, s: State, step: Step)
    requires Enabled(c, s, step) && Outside(step)
    ensures var t := Next(c, s, step);
            && t.chain == s.chain && t.watch == s.watch && t.published == s.published
            && t.passes == s.passes && t.counters == s.counters
            && Handled(t) == Handled(s) && Added(t) == Added(s)
  {}

  lemma WithinKeeps(c: Config, s: State, step: Step)
    requires Enabled(c, s, step) && (step.Snapshot? || step.AddCounter?)
    ensures var t := Next(c, s, step);
            && t.chain == s.chain && t.watch == s.watch && t.published == s.published
            && t.passes == s.passes && Handled(t) == Handled(s)
  {
    if step.AddCounter? {
      var indices := Indices(s.chain[s.pc.n], s.pc.pending);
      assert indices[..|indices|] == indices;
    } else {
      assert Indices(s.chain[s.pc.n], s.watch)[..0] == [];
    }
  }

  lemma NotifiedQuiet(c: Config, s: State, step: Step, h: Hash, redone: nat)
    requires Notified(s, h, redone) && Enabled(c, s, step) && (Outside(step) || step.Snapshot? || step.AddCounter?)
    ensures Notified(Next(c, s, step), h, redone)
  {
    if Outside(step) { OutsideKeeps(c, s, step); } else { WithinKeeps(c, s, step); }
    NotifiedFrame(s, Next(c, s, step), h, redone);
  }

  lemma NotifiedWithin(c: Config, s: State, step: Step, h: Hash, redone: nat)
    requires Base(c, s) && Notified(s, h, redone) && Enabled(c, s, step)
    requires step.ProcessOne? || step.Commit? || step.Crash?
    ensures Notified(Next(c, s, step), h, redone + RedoneBy(s, step, h))
  {
    if step.ProcessOne? {
      NotifiedProcess(c, s, h, redone);
    } else if step.Commit? {
      NotifiedCommit(c, s, h, redone);
    } else {
      NotifiedCrash(c, s, h, redone);
    }
  }

  lemma NotifiedOutside(c: Config, s: State, step: Step, h: Hash, redone: nat)
    requires Base(c, s) && Notified(s, h, redone) && Enabled(c, s, step) && (step.Grow? || step.Publish?)
    ensures Notified(Next(c, s, step), h, redone)
  {
    if step.Grow? {
      NotifiedGrow(c, s, step.b, h, redone);
    } else {
      NotifiedPublish(c, s, step.status, h, redone);
    }
  }

  /** What each step does to the notifications of a transaction. */
  lemma NotifiedStep(c: Config, s: State, step: Step, t: State, h: Hash, redone: nat)
    requires Base(c, s) && Notified(s, h, redone) && Leads(c, s, step, t)
    ensures Notified(t, h, redone + RedoneBy(s, step, h))
  {
    if step.Grow? || step.Publish? {
      NotifiedOutside(c, s, step, h, redone);
    } else if step.ProcessOne? || step.Commit? || step.Crash? {
      NotifiedWithin(c, s, step, h, redone);
    } else {
      NotifiedQuiet(c, s, step, h, redone);
    }
  }

  // ---- Counters, step by step ----
  /** The transactions accounted for: off the list, or added to the counter and about to leave it. */
  function Accounted(s: State): set<Hash> {
    s.published.Keys - s.watch.Keys + if Added(s) then Handled(s) else {}
  }

  function GainOf(chain: seq<Block>, n: nat, pending: WatchList, e: nat): nat {
    if n < |chain| && chain[n].epoch == e then BlockWithdrawn(chain[n], pending.Keys) else 0
  }

  /** What the block at hand withdrew, in epoch `e`, for the snapshot's entries. */
  function Gain(s: State, e: nat): nat {
    match s.pc
    case Matching(n, pending, _) => GainOf(s.chain, n, pending, e)
    case Counted(n, pending, _) => GainOf(s.chain, n, pending, e)
    case _ => 0
  }

  /** The counter, and what lost updates left out of it, come to what the accounted transactions
      withdrew and what was counted for a block to be counted again. */
  ghost predicate Balanced(s: State, e: nat, recounted: nat, uncounted: nat) {
    Counter(s.counters, e) + uncounted == Withdrawn(s.chain, e, Accounted(s)) + recounted
  }

  /** A crash between the counter update and the commit has the block counted again. */
  function RecountedBy(s: State, step: Step, e: nat): nat {
    if step.Crash? && Added(s) then Gain(s, e) else 0
  }

  /** A lost update is lost for good when its block is committed all the same. */
  function UncountedBy(s: State, step: Step, e: nat): nat {
    if step.Commit? && !Added(s) then Gain(s, e) else 0
  }

  /** The next block withdraws nothing for transactions that are settled. */
  lemma GrowWithdraws(s: State, b: Block, e: nat, hashes: set<Hash>)
    requires forall h :: h in hashes ==> h !in b.extrinsics
    ensures Withdrawn(s.chain + [b], e, hashes) == Withdrawn(s.chain, e, hashes)
  {
    assert (s.chain + [b])[..|s.chain|] == s.chain;
    SumCongruent(b, b.events, hashes, {});
    SumOfNone(b, b.events);
  }

  lemma BalancedGrow(c: Config, s: State, b: Block, e: nat, recounted: nat, uncounted: nat)
    requires Base(c, s) && Balanced(s, e, recounted, uncounted) && CanGrow(s, b)
    ensures Balanced(s.(chain := s.chain + [b]), e, recounted, uncounted)
  {
    HandledGrows(c, s, b);
    forall h | h in Accounted(s) ensures h !in b.extrinsics { SettledBehind(c, s, h, b); }
    GrowWithdraws(s, b, e, Accounted(s));
  }

  /** Taking a block's matches into account adds exactly its gain. */
  lemma MatchesGain(c: Config, s: State, e: nat, others: set<Hash>)
    requires Base(c, s) && (s.pc.Matching? || s.pc.Counted?)
    requires others !! PendingAmong(s.chain[s.pc.n].extrinsics, s.pc.pending.Keys)
    ensures Withdrawn(s.chain, e, others + PendingAmong(s.chain[s.pc.n].extrinsics, s.pc.pending.Keys))
         == Withdrawn(s.chain, e, others) + Gain(s, e)
  {
    var n, b, pending := s.pc.n, s.chain[s.pc.n], s.pc.pending;
    var matched := PendingAmong(b.extrinsics, pending.Keys);
    forall h, k | h in matched && IncludedAt(s.chain, h, k) ensures k == n { assert IncludedAt(s.chain, h, n); }
    SumCongruent(b, b.events, pending.Keys, matched);
    WithdrawnInBlock(s.chain, e, others, matched, n);
  }

  lemma AccountedGains(c: Config, s: State, e: nat)
    requires Base(c, s) && Enabled(c, s, AddCounter(true))
    ensures var t := Next(c, s, AddCounter(true));
            Withdrawn(t.chain, e, Accounted(t)) == Withdrawn(s.chain, e, Accounted(s)) + Gain(s, e)
  {
    var matched := PendingAmong(s.chain[s.pc.n].extrinsics, s.pc.pending.Keys);
    MatchedHashes(s.chain[s.pc.n].extrinsics, s.pc.pending.Keys);
    assert Accounted(Next(c, s, AddCounter(true))) == Accounted(s) + matched;
    MatchesGain(c, s, e, Accounted(s));
  }

  lemma CounterGains(c: Config, s: State, ok: bool, e: nat)
    requires Enabled(c, s, AddCounter(ok))
    ensures Counter(Next(c, s, AddCounter(ok)).counters, e) == Counter(s.counters, e) + (if ok then Gain(s, e) else 0)
  {
    var b, pending := s.chain[s.pc.n], s.pc.pending;
    CounterAfterBlock(s.counters, pending, b, !ok, e);
  }

  /** A commit accounts for the matches of its block, if the counter has not already. */
  lemma CommitAccounts(c: Config, s: State, e: nat)
    requires Base(c, s) && s.pc.Counted?
    ensures Withdrawn(s.chain, e, Settled(s)) == Withdrawn(s.chain, e, Accounted(s)) + UncountedBy(s, Commit, e)
  {
    CrashUnsettles(c, s);
    if Added(s) {
      assert Accounted(s) == Settled(s);
    } else {
      MatchedHashes(s.chain[s.pc.n].extrinsics, s.pc.pending.Keys);
      MatchesGain(c, s, e, Accounted(s));
      assert Settled(s) == Accounted(s) + PendingAmong(s.chain[s.pc.n].extrinsics, s.pc.pending.Keys);
    }
  }

  lemma BalancedCommit(c: Config, s: State, e: nat, recounted: nat, uncounted: nat)
    requires Base(c, s) && Balanced(s, e, recounted, uncounted) && s.pc.Counted?
    ensures Balanced(CommitDone(s), e, recounted, uncounted + UncountedBy(s, Commit, e))
  {
    CommitSettles(c, s);
    CommitAccounts(c, s, e);
    var t := CommitDone(s);
    assert Accounted(t) == Settled(t);
    forall h, k | IncludedAt(s.chain, h, k) ensures h in Settled(s) <==> h in Settled(t) {}
    WithdrawnCongruent(s.chain, e, Settled(s), Settled(t));
  }

  lemma BalancedCrash(c: Config, s: State, e: nat, recounted: nat, uncounted: nat)
    requires Base(c, s) && Balanced(s, e, recounted, uncounted)
    ensures Balanced(Next(c, s, Crash), e, recounted + RecountedBy(s, Crash, e), uncounted)
  {
    var t := Next(c, s, Crash);
    CrashUnsettles(c, s);
    if Added(s) {
      MatchedHashes(s.chain[s.pc.n].extrinsics, s.pc.pending.Keys);
      MatchesGain(c, s, e, Accounted(t));
    } else {
      assert Accounted(t) == Accounted(s);
    }
  }

  lemma BalancedFrame(s: State, t: State, e: nat, recounted: nat, uncounted: nat)
    requires Balanced(s, e, recounted, uncounted)
    requires t.chain == s.chain && t.counters == s.counters && Accounted(t) == Accounted(s)
    ensures Balanced(t, e, recounted, uncounted)
  {}

  lemma BalancedPublish(c: Config, s: State, status: TxStatus, e: nat, recounted: nat, uncounted: nat)
    requires Base(c, s) && Balanced(s, e, recounted, uncounted) && CanPublish(s, status)
    ensures Balanced(Published(s, status), e, recounted, uncounted)
  {
    var t := Published(s, status);
    SettledPublish(s, status);
    assert t.published.Keys - t.watch.Keys == s.published.Keys - s.watch.Keys by {
      assert t.published.Keys == s.published.Keys + {status.txHash};
      assert t.watch.Keys == s.watch.Keys + {status.txHash};
    }
    BalancedFrame(s, t, e, recounted, uncounted);
  }

  lemma BalancedProcess(c: Config, s: State, e: nat, recounted: nat, uncounted: nat)
    requires Base(c, s) && Balanced(s, e, recounted, uncounted) && Enabled(c, s, ProcessOne)
    ensures Balanced(Next(c, s, ProcessOne), e, recounted, uncounted)
  {
    var i, h := NextIsWatched(c, s);
    NextHandled(s, i, h);
    BalancedFrame(s, Next(c, s, ProcessOne), e, recounted, uncounted);
  }

  lemma BalancedAdd(c: Config, s: State, ok: bool, e: nat, recounted: nat, uncounted: nat)
    requires Base(c, s) && Balanced(s, e, recounted, uncounted) && Enabled(c, s, AddCounter(ok))
    ensures Balanced(Next(c, s, AddCounter(ok)), e, recounted, uncounted)
  {
    CounterGains(c, s, ok, e);
    if ok {
      AccountedGains(c, s, e);
    } else {
      assert Accounted(Next(c, s, AddCounter(ok))) == Accounted(s);
    }
  }

  lemma BalancedQuiet(c: Config, s: State, step: Step, e: nat, recounted: nat, uncounted: nat)
    requires Balanced(s, e, recounted, uncounted) && Enabled(c, s, step) && (Outside(step) || step.Snapshot?)
    ensures Balanced(Next(c, s, step), e, recounted, uncounted)
  {
    if Outside(step) { OutsideKeeps(c, s, step); }
    BalancedFrame(s, Next(c, s, step), e, recounted, uncounted);
  }

  /** What each step does to an epoch's balance. */
  lemma BalancedStep(c: Config, s: State, step: Step, t: State, e: nat, recounted: nat, uncounted: nat)
    requires Base(c, s) && Balanced(s, e, recounted, uncounted) && Leads(c, s, step, t)
    ensures Balanced(t, e, recounted + RecountedBy(s, step, e), uncounted + UncountedBy(s, step, e))
  {
    match step
    case Grow(b) => BalancedGrow(c, s, b, e, recounted, uncounted);
    case Publish(status) => BalancedPublish(c, s, status, e, recounted, uncounted);
    case ProcessOne => BalancedProcess(c, s, e, recounted, uncounted);
    case AddCounter(ok) => BalancedAdd(c, s, ok, e, recounted, uncounted);
    case Commit => BalancedCommit(c, s, e, recounted, uncounted);
    case Crash => BalancedCrash(c, s, e, recounted, uncounted);
    case _ => BalancedQuiet(c, s, step, e, recounted, uncounted);
  }

  // ---- Every reachable state ----
  lemma {:induction false} Reachable(c: Config, run: seq<State>, steps: seq<Step>, i: nat)
    requires IsRun(c, run, steps) && i < |run|
    ensures Base(c, run[i]) && PassesTrue(run[i])
  {
    if i == 0 {
    } else {
      Reachable(c, run, steps, i - 1);
      StepOf(c, run, steps, i - 1);
      assert BootOkAt(run, steps, i - 1);
      BaseStep(c, run[i - 1], steps[i - 1]);
      PassesTrueStep(c, run[i - 1], steps[i - 1]);
    }
  }

  /** The crashes before state `i` that fell while `h` was handled and not committed. */
  function Redone(run: seq<State>, steps: seq<Step>, i: nat, h: Hash): nat
    requires i <= |steps| && i <= |run|
  {
    if i == 0 then 0 else Redone(run, steps, i - 1, h) + RedoneBy(run[i - 1], steps[i - 1], h)
  }

  /** What was counted in epoch `e` before state `i` for blocks that are counted again. */
  function Recounted(run: seq<State>, steps: seq<Step>, i: nat, e: nat): nat
    requires i <= |steps| && i <= |run|
  {
    if i == 0 then 0 else Recounted(run, steps, i - 1, e) + RecountedBy(run[i - 1], steps[i - 1], e)
  }

  /** What the updates lost for good before state `i` would have added to epoch `e`. */
  function Uncounted(run: seq<State>, steps: seq<Step>, i: nat, e: nat): nat
    requires i <= |steps| && i <= |run|
  {
    if i == 0 then 0 else Uncounted(run, steps, i - 1, e) + UncountedBy(run[i - 1], steps[i - 1], e)
  }

  lemma InitialNotified(s: State, h: Hash)
    requires Initial(s)
    ensures Notified(s, h, 0)
  {
    assert Settled(s) == {};
  }

  /** In every reachable state a transaction's passes are exactly accounted for. */
  lemma {:induction false} NotifiedAt(c: Config, run: seq<State>, steps: seq<Step>, i: nat, h: Hash)
    requires IsRun(c, run, steps) && i < |run|
    ensures Notified(run[i], h, Redone(run, steps, i, h))
  {
    if i == 0 {
      InitialNotified(run[0], h);
    } else {
      NotifiedAt(c, run, steps, i - 1, h);
      Reachable(c, run, steps, i - 1);
      StepOf(c, run, steps, i - 1);
      NotifiedStep(c, run[i - 1], steps[i - 1], run[i], h, Redone(run, steps, i - 1, h));
    }
  }

  lemma InitialBalanced(s: State, e: nat)
    requires Initial(s)
    ensures Balanced(s, e, 0, 0)
  {
    assert Accounted(s) == {};
    WithdrawnByNone(s.chain, e);
  }

  /** In every reachable state an epoch's counter is exactly accounted for. */
  lemma {:induction false} BalancedAt(c: Config, run: seq<State>, steps: seq<Step>, i: nat, e: nat)
    requires IsRun(c, run, steps) && i < |run|
    ensures Balanced(run[i], e, Recounted(run, steps, i, e), Uncounted(run, steps, i, e))
  {
    if i == 0 {
      InitialBalanced(run[0], e);
    } else {
      var recounted, uncounted := Recounted(run, steps, i - 1, e), Uncounted(run, steps, i - 1, e);
      BalancedAt(c, run, steps, i - 1, e);
      Reachable(c, run, steps, i - 1);
      StepOf(c, run, steps, i - 1);
      BalancedStep(c, run[i - 1], steps[i - 1], run[i], e, recounted, uncounted);
    }
  }
}
