/** What the worker guarantees over whole runs. */
module Guarantees {
  import opened Chain
  import opened Transactions
  import opened BlockPass
  import opened CapacityGate
  import opened Protocol
  import opened Accounting
  import Notifier

  // ---- The watch list ----
  /** In every reachable state a watched transaction is included only above lastSeen, and above
      every block whose processing was ever committed. */
  lemma WatchedAheadOfScan(c: Config, run: seq<State>, steps: seq<Step>, i: nat, h: Hash, k: int)
    requires IsRun(c, run, steps) && i < |run|
    requires h in run[i].watch && IncludedAt(run[i].chain, h, k)
    ensures run[i].lastSeen <= run[i].swept < k
  {
    Reachable(c, run, steps, i);
  }

  lemma ListKept(c: Config, s: State, step: Step, h: Hash)
    requires Enabled(c, s, step) && h in s.watch && !step.Commit?
    ensures h in Next(c, s, step).watch
  {
    if !step.Publish? {
      assert Next(c, s, step).watch == s.watch;
    }
  }

  lemma DeadStep(c: Config, s: State, step: Step, h: Hash)
    requires Enabled(c, s, step) && h in s.published && !Included(s.chain, h) && s.published[h].death <= |s.chain|
    ensures var t := Next(c, s, step);
            h in t.published && t.published[h] == s.published[h] && !Included(t.chain, h) && |s.chain| <= |t.chain|
  {
    if step.Grow? {
      forall k ensures !IncludedAt(s.chain + [step.b], h, k) {
        IncludedGrows(s.chain, step.b, h, k);
      }
    }
  }

  lemma {:induction false} DeadStaysOut(c: Config, run: seq<State>, steps: seq<Step>, i: nat, j: nat, h: Hash)
    requires IsRun(c, run, steps) && i <= j < |run|
    requires h in run[i].published && !Included(run[i].chain, h) && run[i].published[h].death <= |run[i].chain|
    ensures h in run[j].published && !Included(run[j].chain, h)
    ensures run[j].published[h] == run[i].published[h] && |run[i].chain| <= |run[j].chain|
  {
    if j <= i {
    } else {
      DeadStaysOut(c, run, steps, i, j - 1, h);
      StepOf(c, run, steps, j - 1);
      DeadStep(c, run[j - 1], steps[j - 1], h);
    }
  }

  /** Entries leave only when a block is committed: the block that includes the transaction, or
      one at or above its death - and then no block ever includes it. */
  lemma LeavesAtItsBlock(c: Config, run: seq<State>, steps: seq<Step>, i: nat, h: Hash)
    requires IsRun(c, run, steps) && i < |steps|
    requires h in run[i].watch && h !in run[i + 1].watch
    ensures steps[i].Commit? && run[i].pc.Counted?
    ensures || IncludedAt(run[i].chain, h, run[i].pc.n)
            || (run[i].watch[h].death <= run[i].pc.n && forall j :: i <= j < |run| ==> !Included(run[j].chain, h))
  {
    var s := run[i];
    Reachable(c, run, steps, i);
    StepOf(c, run, steps, i);
    if !steps[i].Commit? { ListKept(c, s, steps[i], h); }
    CommitRemoves(s);
    if !IncludedAt(s.chain, h, s.pc.n) {
      assert s.watch[h].death <= s.pc.n;
      forall j | i <= j < |run| ensures !Included(run[j].chain, h) {
        DeadStaysOut(c, run, steps, i, j, h);
      }
    }
  }

  /** A commit removes every watched transaction its block includes, and keeps every entry that
      was published after the snapshot. */
  lemma CommitTakesItsBlock(c: Config, run: seq<State>, steps: seq<Step>, i: nat, h: Hash)
    requires IsRun(c, run, steps) && i < |steps| && steps[i].Commit? && h in run[i].watch
    ensures run[i].pc.Counted?
    ensures IncludedAt(run[i].chain, h, run[i].pc.n) ==> h !in run[i + 1].watch
    ensures h !in run[i].pc.pending ==> h in run[i + 1].watch && run[i + 1].watch[h] == run[i].watch[h]
  {
    StepOf(c, run, steps, i);
    Reachable(c, run, steps, i);
    CommitRemoves(run[i]);
  }

  /** Processing any already committed block again matches nothing, so it changes neither the
      notifications nor the counters, and only expires entries whose death has passed. */
  lemma ReprocessingMatchesNothing(c: Config, run: seq<State>, steps: seq<Step>, i: nat, k: nat, fails: bool)
    requires IsRun(c, run, steps) && i < |run| && k <= run[i].swept
    ensures k < |run[i].chain|
    ensures Indices(run[i].chain[k], run[i].watch) == []
    ensures var l := Ledger(run[i].watch, run[i].counters, run[i].passes);
            var again := ProcessBlock(l, run[i].chain[k], k, fails);
            && again.counters == l.counters && again.passes == l.passes
            && again.watch == map h | h in l.watch && l.watch[h].death > k :: l.watch[h]
  {
    var s := run[i];
    Reachable(c, run, steps, i);
    forall h | h in s.watch ensures h !in s.chain[k].extrinsics {
      assert !IncludedAt(s.chain, h, k);
    }
    NoPasses(s.chain[k], k, s.watch, |s.chain[k].extrinsics|);
    MatchedHashes(s.chain[k].extrinsics, s.watch.Keys);
    var indices := Indices(s.chain[k], s.watch);
    if indices != [] {
      MatchesExactly(s.chain[k].extrinsics, s.watch.Keys, indices[0]);
      assert false;
    }
  }

  // ---- Notifications ----
  /** No crash before state `i` fell between the handling of `h` and the commit of its block. */
  ghost predicate NeverRedone(run: seq<State>, steps: seq<Step>, i: nat, h: Hash)
    requires i <= |steps| && i <= |run|
  {
    forall j :: 0 <= j < i ==> !(steps[j].Crash? && h in Handled(run[j]))
  }

  lemma {:induction false} RedoneIffCrashed(run: seq<State>, steps: seq<Step>, i: nat, h: Hash)
    requires i <= |steps| && i <= |run|
    ensures Redone(run, steps, i, h) == 0 <==> NeverRedone(run, steps, i, h)
  {
    if i == 0 {
    } else {
      RedoneIffCrashed(run, steps, i - 1, h);
    }
  }

  /** Of any transaction that has left the list with a success on the chain: it was notified in
      exactly one pass iff no crash fell between its handling and its commit. Every pass ever made
      reports what the chain holds for its transaction. */
  lemma NotifiedExactlyOnce(c: Config, run: seq<State>, steps: seq<Step>, i: nat, h: Hash)
    requires IsRun(c, run, steps) && i < |run|
    ensures h in run[i].published && h !in run[i].watch && Reportable(run[i], h) ==>
              (PassCount(run[i].passes, h) == 1 <==> NeverRedone(run, steps, i, h))
    ensures !Reportable(run[i], h) ==> PassCount(run[i].passes, h) == 0
    ensures forall m :: 0 <= m < |run[i].passes| ==> TruePass(run[i], run[i].passes[m])
  {
    Reachable(c, run, steps, i);
    NotifiedAt(c, run, steps, i, h);
    RedoneIffCrashed(run, steps, i, h);
  }

  lemma GoneAccounted(c: Config, s: State, e: nat)
    requires Base(c, s)
    ensures Withdrawn(s.chain, e, s.published.Keys - s.watch.Keys) <= Withdrawn(s.chain, e, Accounted(s))
  {
    var gone := s.published.Keys - s.watch.Keys;
    CrashUnsettles(c, s);
    if Added(s) {
      WithdrawnSplits(s.chain, e, gone, Handled(s));
    } else {
      assert Accounted(s) == gone;
    }
  }

  /** Whatever crashes: a transaction with a success to report has been notified in exactly one
      pass for each crash between its handling and its commit, and in one more once it is handled
      or off the list - so none leaves the list un-notified; and what was withdrawn for those off
      the list is counted, but for lost updates. */
  lemma CrashesLoseNothing(c: Config, run: seq<State>, steps: seq<Step>, i: nat, h: Hash, e: nat)
    requires IsRun(c, run, steps) && i < |run|
    ensures Reportable(run[i], h) ==>
              PassCount(run[i].passes, h) == Redone(run, steps, i, h) + if h in Settled(run[i]) then 1 else 0
    ensures h in run[i].published && h !in run[i].watch && Reportable(run[i], h) ==> 1 <= PassCount(run[i].passes, h)
    ensures Withdrawn(run[i].chain, e, run[i].published.Keys - run[i].watch.Keys)
         <= Counter(run[i].counters, e) + Uncounted(run, steps, i, e)
  {
    Reachable(c, run, steps, i);
    NotifiedAt(c, run, steps, i, h);
    BalancedAt(c, run, steps, i, e);
    GoneAccounted(c, run[i], e);
  }

  // ---- What is notified ----
  /** `h` sits at position `i` of block `k`. */
  ghost predicate SitsAt(s: State, h: Hash, k: int, i: int) {
    0 <= k < |s.chain| && 0 <= i < |s.chain[k].extrinsics| && s.chain[k].extrinsics[i] == h
  }

  /** The chain holds a success to report exactly if the transaction emitted what its type calls
      for, and did not fail. */
  lemma ReportableMeaning(c: Config, s: State, h: Hash, k: int, i: int)
    requires Base(c, s) && h in s.published && SitsAt(s, h, k, i)
    ensures Reportable(s, h) <==> SucceededIn(s.published[h].txType, s.chain[k], i)
  {
    SuccessMeaning(s.published[h], s.chain[k], i);
    if SucceededIn(s.published[h].txType, s.chain[k], i) {
      assert Reported(s, h, k, i, Classify(s.published[h], EventsOf(s.chain[k].events, i)).rsp);
    }
    if Reportable(s, h) {
      var l, j, rsp :| Reported(s, h, l, j, rsp);
      OnePlace(s, h, k, i, l, j);
    }
  }

  /** A transaction that has left the list was notified, unless it was not included at all, exactly if
      it emitted what its type calls for and did not fail. */
  lemma NotifiedIffSucceeded(c: Config, run: seq<State>, steps: seq<Step>, i: nat, h: Hash, k: int, j: int)
    requires IsRun(c, run, steps) && i < |run|
    requires h in run[i].published && h !in run[i].watch && SitsAt(run[i], h, k, j)
    ensures PassCount(run[i].passes, h) >= 1 <==> SucceededIn(run[i].published[h].txType, run[i].chain[k], j)
  {
    Reachable(c, run, steps, i);
    ReportableMeaning(c, run[i], h, k, j);
    NotifiedAt(c, run, steps, i, h);
  }

  lemma ContentsEmitted(status: TxStatus, b: Block, j: nat)
    requires FromPublisher(status) && Classify(status, EventsOf(b.events, j)).Succeeded?
    ensures var rsp := Classify(status, EventsOf(b.events, j)).rsp;
            && rsp.referenceId == status.referenceId && rsp.transactionType == Some(status.txType)
            && rsp.providerId == Some(status.providerId)
            && (status.txType.CreateHandle? || status.txType.ChangeHandle? ==>
                  && rsp.msaId.Some? && rsp.handle.Some?
                  && Emitted(b, j, HandleClaimed(rsp.msaId.value, rsp.handle.value)))
            && (status.txType.AddKey? ==>
                  && rsp.msaId.Some? && rsp.newPublicKey.Some?
                  && Emitted(b, j, PublicKeyAdded(rsp.msaId.value, rsp.newPublicKey.value)))
            && (status.txType.SiwfSignup? && rsp.msaId.Some? ==>
                  rsp.accountId.Some? && Emitted(b, j, MsaCreated(rsp.msaId.value, rsp.accountId.value)))
  {
    NotificationFields(status, EventsOf(b.events, j));
    forall e ensures e in EventsOf(b.events, j) <==> Emitted(b, j, e) { EventsOfEmitted(b, j, e); }
  }

  /** Every pass ever made is for a transaction of its block that succeeded there, and says, besides
      the stored reference id, type and provider, what that transaction emitted. */
  lemma PassContents(c: Config, run: seq<State>, steps: seq<Step>, i: nat, m: nat) returns (j: nat)
    requires IsRun(c, run, steps) && i < |run| && m < |run[i].passes|
    ensures var p := run[i].passes[m];
            && SitsAt(run[i], p.txHash, p.height, j) && p.txHash in run[i].published
            && var b, status := run[i].chain[p.height], run[i].published[p.txHash];
               && SucceededIn(status.txType, b, j)
               && p.rsp.referenceId == status.referenceId && p.rsp.transactionType == Some(status.txType)
               && p.rsp.providerId == Some(status.providerId)
               && (status.txType.CreateHandle? || status.txType.ChangeHandle? ==>
                     && p.rsp.msaId.Some? && p.rsp.handle.Some?
                     && Emitted(b, j, HandleClaimed(p.rsp.msaId.value, p.rsp.handle.value)))
               && (status.txType.AddKey? ==>
                     && p.rsp.msaId.Some? && p.rsp.newPublicKey.Some?
                     && Emitted(b, j, PublicKeyAdded(p.rsp.msaId.value, p.rsp.newPublicKey.value)))
               && (status.txType.SiwfSignup? && p.rsp.msaId.Some? ==>
                     && p.rsp.accountId.Some?
                     && Emitted(b, j, MsaCreated(p.rsp.msaId.value, p.rsp.accountId.value)))
  {
    var p := run[i].passes[m];
    Reachable(c, run, steps, i);
    assert TruePass(run[i], p);
    var at :| Reported(run[i], p.txHash, p.height, at, p.rsp);
    j := at;
    var b, status := run[i].chain[p.height], run[i].published[p.txHash];
    SuccessMeaning(status, b, j);
    ContentsEmitted(status, b, j);
  }

  // ---- A transaction notified again and again ----
  ghost function AddKeyStatus(): TxStatus {
    TxStatus(AddKey, "reference", "provider", 7, MsaPublicKeyAdded, 0, 64)
  }

  ghost function AddKeyBlock(): Block {
    Block([7], [EventRecord(ApplyExtrinsic(0), PublicKeyAdded("1", "key"))], 0)
  }

  ghost function AddKeyPass(): Pass {
    Pass(1, 7, WebhookRsp(Some(AddKey), Some("provider"), "reference", Some("1"), None, None, Some("key")))
  }

  lemma AddKeyPassed()
    ensures PassAt(AddKeyBlock(), 1, map[7 := AddKeyStatus()], 0) == [AddKeyPass()]
    ensures Indices(AddKeyBlock(), map[7 := AddKeyStatus()]) == [0]
  {
    var b := AddKeyBlock();
    var e := PublicKeyAdded("1", "key");
    assert EventsOf(b.events, 0) == [e] by {
      assert b.events[..0] == [];
    }
    FindEventFirst([e], MsaPublicKeyAdded);
    FindEventFirst([e], SystemExtrinsicFailed);
    assert b.extrinsics[..0] == [];
  }

  ghost function RoundStep(phase: nat): Step {
    if phase == 0 then StartScan(0)
    else if phase == 1 then FindStart
    else if phase == 2 then CheckHead
    else if phase == 3 then Snapshot
    else if phase == 4 then ProcessOne
    else if phase == 5 then Crash
    else BootRead
  }

  /** The job is published and its block finalized; then, round after round, the block is matched
      and the worker crashes before the commit. */
  ghost function RedoStep(i: nat): Step {
    if i == 0 then BootRead
    else if i == 1 then BootSet
    else if i == 2 then Admit(1)
    else if i == 3 then Publish(AddKeyStatus())
    else if i == 4 then Grow(AddKeyBlock())
    else if i == 5 then Finalize(1)
    else RoundStep((i - 6) % 7)
  }

  ghost function Copies(p: Pass, n: nat): seq<Pass> {
    if n == 0 then [] else Copies(p, n - 1) + [p]
  }

  lemma {:induction false} CopiesCounted(p: Pass, n: nat)
    ensures PassCount(Copies(p, n), p.txHash) == n
  {
    if n == 0 {
    } else {
      CopiesCounted(p, n - 1);
      assert Copies(p, n)[..|Copies(p, n)| - 1] == Copies(p, n - 1);
    }
  }

  ghost function FreshState(): State {
    State([Block([], [], 0)], 0, map[], 0, map[], [], Ready, 0, map[], 0)
  }

  ghost function WatchingState(): State {
    FreshState().(chain := [Block([], [], 0), AddKeyBlock()], finalized := 1,
                  watch := map[7 := AddKeyStatus()], published := map[7 := AddKeyStatus()])
  }

  ghost function RedoPc(phase: nat): Pc {
    if phase == 0 then Ready
    else if phase == 1 then Starting(1)
    else if phase == 2 then Head(1)
    else if phase == 3 then Passed(1)
    else if phase == 4 then Matching(1, map[7 := AddKeyStatus()], 0)
    else if phase == 5 then Matching(1, map[7 := AddKeyStatus()], 1)
    else Down
  }

  ghost function RedoState(i: nat): State {
    if i == 0 then FreshState().(pc := Down)
    else if i == 1 then FreshState().(pc := Booting)
    else if i == 2 then FreshState()
    else if i == 3 then FreshState().(tickets := 1)
    else if i == 4 then WatchingState().(chain := FreshState().chain, finalized := 0)
    else if i == 5 then WatchingState().(finalized := 0)
    else WatchingState().(passes := Copies(AddKeyPass(), (i - 4) / 7), pc := RedoPc((i - 6) % 7))
  }

  lemma FirstStepsLead(c: Config, i: nat)
    requires Below(c.threshold(0), 0) && i < 6
    ensures Leads(c, RedoState(i), RedoStep(i), RedoState(i + 1))
  {
    var s := RedoState(i);
    if i == 3 {
      assert BuildStatus(Job(AddKey, "reference", "provider"), 7, 0, 64) == Some(AddKeyStatus());
    }
    if i == 3 || i == 4 {
      assert forall k :: !IncludedAt(s.chain, 7, k);
    }
  }

  ghost function RoundState(passes: seq<Pass>, phase: nat): State {
    WatchingState().(passes := passes, pc := RedoPc(phase))
  }

  lemma ScanStepsLead(c: Config, passes: seq<Pass>, phase: nat)
    requires phase < 4
    ensures Leads(c, RoundState(passes, phase), RoundStep(phase), RoundState(passes, phase + 1))
  {
    assert 7 in WatchingState().watch && WatchingState().watch[7].birth == 0;
  }

  lemma MatchLeads(c: Config, passes: seq<Pass>)
    ensures Leads(c, RoundState(passes, 4), ProcessOne, RoundState(passes + [AddKeyPass()], 5))
  {
    AddKeyPassed();
  }

  lemma CrashLeads(c: Config, passes: seq<Pass>)
    ensures Leads(c, RoundState(passes, 5), Crash, RoundState(passes, 6))
    ensures Leads(c, RoundState(passes, 6), BootRead, RoundState(passes, 0))
  {
    assert 7 in WatchingState().watch;
  }

  /** One more step of a round: the passes grow when the match is handled. */
  ghost function PassesNext(passes: seq<Pass>, phase: nat): seq<Pass> {
    if phase == 4 then passes + [AddKeyPass()] else passes
  }

  lemma RoundLeads(c: Config, passes: seq<Pass>, phase: nat)
    requires phase < 7
    ensures Leads(c, RoundState(passes, phase), RoundStep(phase),
                  RoundState(PassesNext(passes, phase), (phase + 1) % 7))
  {
    if phase < 4 {
      ScanStepsLead(c, passes, phase);
    } else if phase == 4 {
      MatchLeads(c, passes);
    } else {
      CrashLeads(c, passes);
    }
  }

  lemma Rounds(i: nat)
    requires i >= 6
    ensures (i + 1 - 6) % 7 == ((i - 6) % 7 + 1) % 7
    ensures (i + 1 - 4) / 7 == (i - 4) / 7 + if (i - 6) % 7 == 4 then 1 else 0
  {}

  lemma RedoLeads(c: Config, i: nat)
    requires Below(c.threshold(0), 0)
    ensures Leads(c, RedoState(i), RedoStep(i), RedoState(i + 1))
  {
    if i < 6 {
      FirstStepsLead(c, i);
    } else {
      Rounds(i);
      RoundLeads(c, Copies(AddKeyPass(), (i - 4) / 7), (i - 6) % 7);
    }
  }

  lemma FreshInitial()
    ensures Initial(FreshState().(pc := Down)) && SafeBoot(FreshState().(pc := Booting))
  {}

  lemma RedoRun(c: Config, last: nat) returns (run: seq<State>, steps: seq<Step>)
    requires Below(c.threshold(0), 0)
    ensures IsRun(c, run, steps) && run[|run| - 1] == RedoState(last)
  {
    steps := seq(last, i requires 0 <= i => RedoStep(i));
    run := seq(last + 1, i requires 0 <= i => RedoState(i));
    FreshInitial();
    forall i: nat ensures JoinedAt(c, run, steps, i) {
      if i < last { RedoLeads(c, i); }
    }
    forall i: nat ensures BootOkAt(run, steps, i) {
      if i < last && steps[i].BootSet? { assert i == 1; }
    }
  }

  lemma LastRedo(n: nat)
    ensures RedoState(7 * n + 4).passes == Copies(AddKeyPass(), n) && 7 in RedoState(7 * n + 4).published
  {
    if n > 0 { assert (7 * n + 4 - 4) / 7 == n; }
  }

  /** Even without a single retry a transaction can be notified in any number of passes: for every
      `n` there is a run with just so many, whenever the gate is open at first. */
  lemma NotifiedAnyNumberOfTimes(c: Config, n: nat) returns (run: seq<State>, steps: seq<Step>, h: Hash)
    requires Below(c.threshold(0), 0)
    ensures IsRun(c, run, steps) && h in run[|run| - 1].published && PassCount(run[|run| - 1].passes, h) == n
  {
    h := 7;
    LastRedo(n);
    CopiesCounted(AddKeyPass(), n);
    run, steps := RedoRun(c, 7 * n + 4);
  }

  // ---- Capacity ----
  /** At every moment of a run an epoch's counter, with the updates lost for good, is exactly what
      the accounted transactions withdrew in that epoch's blocks, failed ones included, with what
      was counted for blocks that a crash before their commit has counted again. */
  lemma CapacityConserved(c: Config, run: seq<State>, steps: seq<Step>, i: nat, e: nat)
    requires IsRun(c, run, steps) && i < |run|
    ensures Counter(run[i].counters, e) + Uncounted(run, steps, i, e)
         == Withdrawn(run[i].chain, e, Accounted(run[i])) + Recounted(run, steps, i, e)
    ensures !Added(run[i]) ==> Accounted(run[i]) == run[i].published.Keys - run[i].watch.Keys
  {
    BalancedAt(c, run, steps, i, e);
  }

  lemma CounterStep(c: Config, s: State, step: Step, t: State, e: nat)
    requires Leads(c, s, step, t)
    ensures Counter(s.counters, e) <= Counter(t.counters, e)
  {}

  /** No step lowers an epoch counter, so no run does. */
  lemma {:induction false} CountersNeverFall(c: Config, run: seq<State>, steps: seq<Step>, i: nat, j: nat, e: nat)
    requires Joined(c, run, steps) && i <= j < |run|
    ensures Counter(run[i].counters, e) <= Counter(run[j].counters, e)
  {
    if i == j {
    } else {
      CountersNeverFall(c, run, steps, i, j - 1, e);
      StepOf(c, run, steps, j - 1);
      CounterStep(c, run[j - 1], steps[j - 1], run[j], e);
    }
  }

  /** Once the limit test fails in an epoch it fails at every later check of that epoch - through
      crashes, lost updates and even a job published during boot. */
  lemma ClosedGateStaysClosed(c: Config, run: seq<State>, steps: seq<Step>, i: nat, j: nat, e: nat, remaining: nat)
    requires Joined(c, run, steps) && i <= j < |run|
    requires CurrentEpoch(run[i]) == e == CurrentEpoch(run[j])
    requires !Below(c.threshold(e), Counter(run[i].counters, e))
    ensures !Enabled(c, run[j], Admit(remaining))
  {
    CountersNeverFall(c, run, steps, i, j, e);
  }

  // ---- The scan position ----
  lemma LastSeenStep(c: Config, s: State, step: Step)
    requires Base(c, s) && Enabled(c, s, step)
    ensures var t := Next(c, s, step);
            && (c.onlyFinalized ==> s.lastSeen <= s.finalized && s.lastSeen <= t.lastSeen)
            && (!step.BootSet? ==> s.lastSeen <= t.lastSeen)
            && (step.Advance? ==> s.lastSeen < t.lastSeen)
  {}

  /** In finalised-only mode lastSeen never passes the finalized head and never falls; in either
      mode only the boot-time skip can lower it, and storing a block's number always raises it. */
  lemma LastSeenRises(c: Config, run: seq<State>, steps: seq<Step>, i: nat)
    requires IsRun(c, run, steps) && i < |steps|
    ensures c.onlyFinalized ==> run[i].lastSeen <= run[i].finalized && run[i].lastSeen <= run[i + 1].lastSeen
    ensures !steps[i].BootSet? ==> run[i].lastSeen <= run[i + 1].lastSeen
    ensures steps[i].Advance? ==> run[i].lastSeen < run[i + 1].lastSeen
  {
    Reachable(c, run, steps, i);
    StepOf(c, run, steps, i);
    LastSeenStep(c, run[i], steps[i]);
  }

  /** What a scan's queries of the node answer if they are all made in state `s`. */
  ghost predicate Answered(env: Env, s: State) {
    forall n: nat :: (env.available(n) <==> n < |s.chain|) && env.finalized(n) == s.finalized
  }

  /** The scan's steps go where the scan loop goes: it starts right after the later of lastSeen and the
      smallest birth, if there is such a block; it passes to a block exactly if the loop's parameter
      check would; and after storing a block's number it turns to the next. */
  lemma StepsGoWhereLoopGoes(c: Config, s: State, step: Step, env: Env)
    requires Enabled(c, s, step) && Answered(env, s)
    ensures step.StartScan? ==>
              var t := Next(c, s, step);
              && IsMinBirth(s.watch, step.minBirth) && t.pc.Starting?
              && s.lastSeen < t.pc.n && step.minBirth < t.pc.n
              && (t.pc.n == s.lastSeen + 1 || t.pc.n == step.minBirth + 1)
    ensures step.FindStart? ==>
              Next(c, s, step) == s.(pc := if env.available(s.pc.n) then Head(s.pc.n) else Ready)
    ensures step.CheckHead? ==>
              var goesOn := s.watch != map[] && !Notifier.ChainEnds(env, c.onlyFinalized, s.pc.n);
              Next(c, s, step) == s.(pc := if goesOn then Passed(s.pc.n) else Ready)
    ensures step.Advance? ==> Next(c, s, step) == s.(lastSeen := s.pc.n, pc := Head(s.pc.n + 1))
  {}

  // ---- The boot race ----
  /** Some watched transaction sits at or below lastSeen, where no scan will look for it. */
  ghost predicate Missed(s: State) {
    exists h, k :: h in s.watch && IncludedAt(s.chain, h, k) && k <= s.lastSeen
  }

  /** A boot on an empty list, a job published before lastSeen is written, its block finalized. */
  ghost function RaceStep(i: nat): Step {
    if i == 0 then BootRead
    else if i == 1 then Admit(1)
    else if i == 2 then Publish(AddKeyStatus())
    else if i == 3 then Grow(AddKeyBlock())
    else if i == 4 then Finalize(1)
    else BootSet
  }

  ghost function RaceState(i: nat): State {
    if i == 0 then FreshState().(pc := Down)
    else if i == 1 then FreshState().(pc := Booting)
    else if i == 2 then FreshState().(pc := Booting, tickets := 1)
    else if i == 3 then WatchingState().(chain := FreshState().chain, finalized := 0, pc := Booting)
    else if i == 4 then WatchingState().(finalized := 0, pc := Booting)
    else if i == 5 then WatchingState().(pc := Booting)
    else WatchingState().(lastSeen := 1, swept := 1)
  }

  lemma RaceLeads(c: Config, i: nat)
    requires Below(c.threshold(0), 0) && i < 6
    ensures Leads(c, RaceState(i), RaceStep(i), RaceState(i + 1))
  {
    var s := RaceState(i);
    if i == 2 {
      assert BuildStatus(Job(AddKey, "reference", "provider"), 7, 0, 64) == Some(AddKeyStatus());
    }
    if i == 2 || i == 3 {
      assert forall k :: !IncludedAt(s.chain, 7, k);
    }
  }

  /** A job published between the boot-time read of the list and the write of lastSeen is missed
      if its block is finalized in between. */
  lemma BootRaceMisses(c: Config) returns (run: seq<State>, steps: seq<Step>)
    requires Below(c.threshold(0), 0)
    ensures Joined(c, run, steps) && Missed(run[|run| - 1])
  {
    steps := seq(6, i requires 0 <= i => RaceStep(i));
    run := seq(7, i requires 0 <= i => RaceState(i));
    forall i: nat ensures JoinedAt(c, run, steps, i) {
      if i < 6 { RaceLeads(c, i); }
    }
    assert IncludedAt(RaceState(6).chain, 7, 1);
  }

  lemma UnsafeBootMisses(c: Config, s: State, t: State)
    requires Leads(c, s, BootSet, t) && !SafeBoot(s)
    ensures Missed(t)
  {}

  /** Of all sequences of steps, those in which no transaction is ever missed are exactly those
      whose boot-time skips pass over none. */
  lemma NothingMissedIffBootsSafe(c: Config, run: seq<State>, steps: seq<Step>)
    requires Joined(c, run, steps)
    ensures IsRun(c, run, steps) <==> forall i :: 0 <= i < |run| ==> !Missed(run[i])
  {
    if IsRun(c, run, steps) {
      forall i | 0 <= i < |run| ensures !Missed(run[i]) { Reachable(c, run, steps, i); }
    } else {
      var i: nat :| !BootOkAt(run, steps, i);
      StepOf(c, run, steps, i);
      UnsafeBootMisses(c, run[i], run[i + 1]);
    }
  }

  /** The next block is built and finalized, and then the boot writes lastSeen. */
  ghost function SkippedPast(c: Config, s: State, b: Block): State
    requires s.pc.Booting? && CanGrow(s, b) && s.finalized < |s.chain|
  {
    var grown := Next(c, s, Grow(b));
    Next(c, Next(c, grown, Finalize(|s.chain|)), BootSet)
  }

  lemma FollowedBy(c: Config, s: State, h: Hash) returns (b: Block)
    requires Base(c, s) && s.pc.Booting? && h in s.watch
    requires Included(s.chain, h) || s.watch[h].death > |s.chain|
    ensures CanGrow(s, b) && Missed(SkippedPast(c, s, b))
  {
    if Included(s.chain, h) {
      var k :| IncludedAt(s.chain, h, k);
      b := Block([], [], CurrentEpoch(s));
      assert CanGrow(s, b);
      IncludedGrows(s.chain, b, h, k);
      assert IncludedAt(SkippedPast(c, s, b).chain, h, k);
    } else {
      b := Block([h], [], CurrentEpoch(s));
      assert CanGrow(s, b);
      assert IncludedAt(SkippedPast(c, s, b).chain, h, |s.chain|);
    }
  }

  /** A boot about to write is safe, whatever the next block holds, iff everything published since
      it read the list is dead already: neither included nor to be included any more. */
  lemma BootSafeIffNoneCanFollow(c: Config, s: State)
    requires Base(c, s) && s.pc.Booting?
    ensures (forall b :: CanGrow(s, b) ==> !Missed(SkippedPast(c, s, b)))
       <==> (forall h :: h in s.watch ==> !Included(s.chain, h) && s.watch[h].death <= |s.chain|)
  {
    forall b, h, k | CanGrow(s, b) && h in s.watch && IncludedAt(s.chain + [b], h, k)
      ensures Included(s.chain, h) || s.watch[h].death > |s.chain|
    {
      IncludedGrows(s.chain, b, h, k);
      if IncludedAt(s.chain, h, k) { assert Included(s.chain, h); }
    }
    forall h | h in s.watch && (Included(s.chain, h) || s.watch[h].death > |s.chain|)
      ensures exists b :: CanGrow(s, b) && Missed(SkippedPast(c, s, b))
    {
      var b := FollowedBy(c, s, h);
    }
  }

  // ---- A pass that nothing interleaves with ----
  function LedgerOf(s: State): Ledger {
    Ledger(s.watch, s.counters, s.passes)
  }

  /** The steps from `i` on are one block's processing: the snapshot, `m` matches, the counter, the commit. */
  ghost predicate OnePass(steps: seq<Step>, i: nat, m: nat, ok: bool) {
    && i + m + 2 < |steps| && steps[i].Snapshot?
    && (forall j :: i < j <= i + m ==> steps[j].ProcessOne?)
    && steps[i + m + 1] == AddCounter(ok) && steps[i + m + 2].Commit?
  }

  /** `s` is `first` with the snapshot taken and `j` matches handled. */
  ghost predicate HandledSoFar(first: State, s: State, j: nat) {
    && first.pc.Passed? && first.pc.n < |first.chain|
    && var n, b := first.pc.n, first.chain[first.pc.n];
       && j <= |Indices(b, first.watch)|
       && s == first.(passes := first.passes + PassesAt(b, n, first.watch, Indices(b, first.watch)[..j]),
                      pc := Matching(n, first.watch, j))
  }

  lemma HandledNone(c: Config, first: State, s: State)
    requires Leads(c, first, Snapshot, s)
    ensures HandledSoFar(first, s, 0)
  {
    var b := first.chain[first.pc.n];
    assert PassesAt(b, first.pc.n, first.watch, Indices(b, first.watch)[..0]) == [];
  }

  lemma Associative(x: seq<Pass>, y: seq<Pass>, z: seq<Pass>)
    ensures (x + y) + z == x + (y + z)
  {}

  lemma HandledOne(c: Config, first: State, s: State, t: State, j: nat)
    requires Base(c, s) && HandledSoFar(first, s, j) && Leads(c, s, ProcessOne, t)
    ensures HandledSoFar(first, t, j + 1)
  {
    var n, b := first.pc.n, first.chain[first.pc.n];
    var indices := Indices(b, first.watch);
    var k, h := NextIsWatched(c, s);
    NextHandled(s, k, h);
    assert indices[..j + 1][..j] == indices[..j];
    Associative(first.passes, PassesAt(b, n, first.watch, indices[..j]), PassAt(b, n, first.watch, k));
  }

  lemma {:induction false} MatchesHandled(c: Config, run: seq<State>, steps: seq<Step>, i: nat, m: nat, ok: bool,
                                          j: nat)
    requires IsRun(c, run, steps) && OnePass(steps, i, m, ok) && j <= m
    ensures HandledSoFar(run[i], run[i + 1 + j], j)
  {
    if j == 0 {
      StepOf(c, run, steps, i);
      HandledNone(c, run[i], run[i + 1]);
    } else {
      MatchesHandled(c, run, steps, i, m, ok, j - 1);
      Reachable(c, run, steps, i + j);
      StepOf(c, run, steps, i + j);
      HandledOne(c, run[i], run[i + j], run[i + 1 + j], j - 1);
    }
  }

  lemma PassesCompleted(first: State, s: State, m: nat)
    requires HandledSoFar(first, s, m) && m == |Indices(first.chain[first.pc.n], first.watch)|
    ensures s.passes == first.passes + BlockPasses(first.chain[first.pc.n], first.pc.n, first.watch)
  {
    var n, b, watch := first.pc.n, first.chain[first.pc.n], first.watch;
    assert Indices(b, watch)[..m] == Indices(b, watch);
    assert b.extrinsics[..|b.extrinsics|] == b.extrinsics;
    MatchedPasses(b, n, watch, |b.extrinsics|);
  }

  lemma PassCompleted(c: Config, first: State, s: State, t: State, u: State, m: nat, ok: bool)
    requires HandledSoFar(first, s, m) && Leads(c, s, AddCounter(ok), t) && Leads(c, t, Commit, u)
    ensures LedgerOf(u) == ProcessBlock(LedgerOf(first), first.chain[first.pc.n], first.pc.n, !ok)
  {
    PassesCompleted(first, s, m);
    CommitRemoves(t);
  }

  /** One block's steps without anything in between do to the ledger what processing the block does. */
  lemma UninterleavedPass(c: Config, run: seq<State>, steps: seq<Step>, i: nat, m: nat, ok: bool)
    requires IsRun(c, run, steps) && OnePass(steps, i, m, ok)
    ensures run[i].pc.Passed? && run[i].pc.n < |run[i].chain|
    ensures LedgerOf(run[i + m + 3]) == ProcessBlock(LedgerOf(run[i]), run[i].chain[run[i].pc.n], run[i].pc.n, !ok)
  {
    MatchesHandled(c, run, steps, i, m, ok, m);
    StepOf(c, run, steps, i + m + 1);
    StepOf(c, run, steps, i + m + 2);
    PassCompleted(c, run[i], run[i + m + 1], run[i + m + 2], run[i + m + 3], m, ok);
  }
}
