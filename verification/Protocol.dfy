/** The worker as a step system: the publisher, the scanner, the growing chain, and crashes.
    A step is what shows of a stretch of awaits, so publishing interleaves with every part of a
    scan, and a crash - or an exception, which ends the process - can fall between any two parts. */
module Protocol {
  import opened Chain
  import opened Transactions
  import opened BlockPass
  import opened CapacityGate

  /** The scan parameter, and for each epoch the threshold that the configured limit and the
      capacity issued in that epoch give. */
  datatype Config = Config(onlyFinalized: bool, threshold: nat -> Option<int>)

  /** Where the notifier is. */
  datatype Pc =
    | Down                                            // crashed, or not yet booted
    | Booting                                         // read an empty watch list; about to skip to the finalized head
    | Ready                                           // between scans
    | Starting(n: nat)                                // first block chosen, not yet asked for
    | Head(n: nat)                                    // top of the scan loop
    | Passed(n: nat)                                  // scan parameters checked
    | Matching(n: nat, pending: WatchList, done: nat) // snapshot taken; `done` matches handled
    | Counted(n: nat, pending: WatchList, added: bool) // epoch counter written, or its update lost
    | Committed(n: nat)                               // deletions committed, lastSeen not yet stored

  /** Redis, the chain, the worker's memory - and a history: everything ever published, and the
      highest block ever committed or skipped at boot. */
  datatype State = State(
    chain: seq<Block>,
    finalized: nat,
    watch: WatchList,
    lastSeen: nat,
    counters: Counters,
    passes: seq<Pass>,
    pc: Pc,
    tickets: nat,
    published: WatchList,
    swept: nat)

  datatype Step =
    | Grow(b: Block)
    | Finalize(k: nat)
    | Admit(remaining: nat)
    | Drop
    | Publish(status: TxStatus)
    | StartScan(minBirth: nat)
    | FindStart
    | CheckHead
    | Snapshot
    | ProcessOne
    | AddCounter(ok: bool)
    | Commit
    | Advance
    | Crash
    | BootRead
    | BootSet

  function Indices(b: Block, pending: WatchList): seq<nat> {
    Matches(b.extrinsics, pending.Keys)
  }

  function CurrentEpoch(s: State): nat {
    if s.chain == [] then 0 else s.chain[|s.chain| - 1].epoch
  }

  // ---- Steps ----
  /** The next block may hold any extrinsics not on the chain yet; a published one only strictly
      between its birth and its death. */
  ghost predicate CanGrow(s: State, b: Block) {
    && b.Distinct()
    && (forall h :: h in b.extrinsics ==> !Included(s.chain, h))
    && (forall h :: h in b.extrinsics && h in s.published ==>
          s.published[h].birth < |s.chain| < s.published[h].death)
    && CurrentEpoch(s) <= b.epoch
  }

  /** A fresh transaction with its birth at or below the finalized head. */
  ghost predicate CanPublish(s: State, status: TxStatus) {
    && s.tickets > 0
    && FromPublisher(status)
    && status.txHash !in s.published && !Included(s.chain, status.txHash)
    && status.birth <= s.finalized && status.birth < status.death
  }

  ghost predicate Enabled(c: Config, s: State, step: Step) {
    match step
    case Grow(b) => CanGrow(s, b)
    case Finalize(k) => s.finalized <= k < |s.chain|
    case Admit(remaining) => remaining > 0 && Below(c.threshold(CurrentEpoch(s)), Counter(s.counters, CurrentEpoch(s)))
    case Drop => s.tickets > 0
    case Publish(status) => CanPublish(s, status)
    case StartScan(m) => s.pc.Ready? && IsMinBirth(s.watch, m)
    case FindStart => s.pc.Starting?
    case CheckHead => s.pc.Head?
    case Snapshot => s.pc.Passed? && s.pc.n < |s.chain|
    case ProcessOne => s.pc.Matching? && s.pc.n < |s.chain| && s.pc.done < |Indices(s.chain[s.pc.n], s.pc.pending)|
    case AddCounter(_) => s.pc.Matching? && s.pc.n < |s.chain| && s.pc.done == |Indices(s.chain[s.pc.n], s.pc.pending)|
    case Commit => s.pc.Counted? && s.pc.n < |s.chain|
    case Advance => s.pc.Committed?
    case Crash => true
    case BootRead => s.pc.Down?
    case BootSet => s.pc.Booting?
  }

  function Published(s: State, status: TxStatus): State {
    s.(watch := s.watch[status.txHash := status], published := s.published[status.txHash := status],
       tickets := if s.tickets > 0 then s.tickets - 1 else 0)
  }

  /** The scan starts after the last block seen, or after the smallest birth if that is later. */
  function ScanStarted(s: State, minBirth: nat): State {
    s.(pc := Starting(Max(s.lastSeen, minBirth) + 1))
  }

  /** If the node has no such block the scan ends at once. */
  function StartFound(s: State, n: nat): State {
    s.(pc := if n < |s.chain| then Head(n) else Ready)
  }

  function HeadChecked(c: Config, s: State, n: nat): State {
    if s.watch == map[] then s.(pc := Ready)
    else if |s.chain| <= n then s.(pc := Ready)
    else if c.onlyFinalized && s.finalized < n then s.(pc := Ready)
    else s.(pc := Passed(n))
  }

  /** One matched extrinsic. The status is read afresh from the watch list; if it is missing the
      parse result is null and the exception it causes ends the process. */
  function OneProcessed(s: State, b: Block, pc: Pc): State
    requires pc.Matching? && pc.done < |Indices(b, pc.pending)|
  {
    var i := Indices(b, pc.pending)[pc.done];
    if i < |b.extrinsics| && b.extrinsics[i] in s.watch then
      s.(passes := s.passes + PassAt(b, pc.n, s.watch, i), pc := pc.(done := pc.done + 1))
    else s.(pc := Down)
  }

  /** The queued deletions: the matched entries, and every snapshot entry dead by now. */
  function CommitDone(s: State): State
    requires s.pc.Counted? && s.pc.n < |s.chain|
  {
    var b := s.chain[s.pc.n];
    s.(watch := s.watch - HashesAt(b.extrinsics, Indices(b, s.pc.pending)) - Expired(s.pc.pending, s.pc.n),
       pc := Committed(s.pc.n), swept := if s.swept < s.pc.n then s.pc.n else s.swept)
  }

  function Next(c: Config, s: State, step: Step): State
    requires Enabled(c, s, step)
  {
    match step
    case Grow(b) => s.(chain := s.chain + [b])
    case Finalize(k) => s.(finalized := k)
    case Admit(_) => s.(tickets := s.tickets + 1)
    case Drop => s.(tickets := s.tickets - 1)
    case Publish(status) => Published(s, status)
    case StartScan(m) => ScanStarted(s, m)
    case FindStart => StartFound(s, s.pc.n)
    case CheckHead => HeadChecked(c, s, s.pc.n)
    case Snapshot => s.(pc := Matching(s.pc.n, s.watch, 0))
    case ProcessOne => OneProcessed(s, s.chain[s.pc.n], s.pc)
    case AddCounter(ok) =>
      var b := s.chain[s.pc.n];
      s.(counters := CountersAfter(s.counters, s.pc.pending, b, !ok), pc := Counted(s.pc.n, s.pc.pending, ok))
    case Commit => CommitDone(s)
    case Advance => s.(lastSeen := s.pc.n, pc := Head(s.pc.n + 1))
    case Crash => s.(pc := Down, tickets := 0)
    case BootRead => s.(pc := if s.watch == map[] then Booting else Ready)
    case BootSet =>
      s.(lastSeen := s.finalized, pc := Ready, swept := if s.swept < s.finalized then s.finalized else s.swept)
  }

  ghost predicate ChainOk(s: State) {
    && s.finalized < |s.chain|
    && (forall k :: 0 <= k < |s.chain| ==> s.chain[k].Distinct())
    && (forall h, k, l :: IncludedAt(s.chain, h, k) && IncludedAt(s.chain, h, l) ==> k == l)
    && (forall k, l :: 0 <= k <= l < |s.chain| ==> s.chain[k].epoch <= s.chain[l].epoch)
  }

  /** A fresh installation: any chain without two inclusions of a hash, nothing published yet. */
  ghost predicate Initial(s: State) {
    && ChainOk(s) && s.lastSeen <= s.finalized && s.swept == s.lastSeen
    && s.watch == map[] && s.published == map[] && s.counters == map[] && s.passes == []
    && s.pc.Down? && s.tickets == 0
  }

  ghost predicate Leads(c: Config, s: State, step: Step, t: State) {
    Enabled(c, s, step) && t == Next(c, s, step)
  }

  ghost predicate JoinedAt(c: Config, run: seq<State>, steps: seq<Step>, i: nat) {
    i < |steps| && i + 1 < |run| ==> Leads(c, run[i], steps[i], run[i + 1])
  }

  /** States joined by enabled steps. */
  ghost predicate Joined(c: Config, run: seq<State>, steps: seq<Step>) {
    && |run| == |steps| + 1 && Initial(run[0])
    && forall i: nat :: JoinedAt(c, run, steps, i)
  }

  /** No watched transaction is included at or below the finalized head, to which the boot skips. */
  ghost predicate SafeBoot(s: State) {
    forall h, k :: h in s.watch && IncludedAt(s.chain, h, k) ==> s.finalized < k
  }

  ghost predicate BootOk(s: State, step: Step) {
    step.BootSet? ==> SafeBoot(s)
  }

  ghost predicate BootOkAt(run: seq<State>, steps: seq<Step>, i: nat) {
    i < |steps| && i < |run| ==> BootOk(run[i], steps[i])
  }

  /** A run whose boot-time skips pass over no watched transaction. */
  ghost predicate IsRun(c: Config, run: seq<State>, steps: seq<Step>) {
    && Joined(c, run, steps)
    && forall i: nat :: BootOkAt(run, steps, i)
  }

  lemma StepOf(c: Config, run: seq<State>, steps: seq<Step>, i: nat)
    requires Joined(c, run, steps) && i < |steps|
    ensures Leads(c, run[i], steps[i], run[i + 1])
  {
    assert JoinedAt(c, run, steps, i);
  }

  // ---- Invariants ----
  ghost predicate TxOk(s: State) {
    && WellKeyed(s.published)
    && (forall h :: h in s.watch ==> h in s.published && s.watch[h] == s.published[h])
    && (forall h :: h in s.published ==>
          && FromPublisher(s.published[h])
          && s.published[h].birth <= s.finalized && s.published[h].birth < s.published[h].death)
    && (forall h, k :: h in s.published && IncludedAt(s.chain, h, k) ==>
          s.published[h].birth < k < s.published[h].death)
  }

  /** The block a scan is about to finish with: everything below it is behind the scan. */
  function Cursor(pc: Pc): nat {
    match pc
    case Down => 0
    case Booting => 0
    case Ready => 0
    case Committed(n) => n + 1
    case Starting(n) => n
    case Head(n) => n
    case Passed(n) => n
    case Matching(n, _, _) => n
    case Counted(n, _, _) => n
  }

  ghost predicate PositionOk(c: Config, s: State) {
    && s.lastSeen <= s.swept < |s.chain|
    && (c.onlyFinalized ==> s.lastSeen <= s.finalized)
    && match s.pc
       case Starting(n) => s.lastSeen < n <= |s.chain|
       case Head(n) => s.lastSeen < n <= |s.chain|
       case Passed(n) => s.lastSeen < n < |s.chain| && (c.onlyFinalized ==> n <= s.finalized)
       case Matching(n, pending, done) =>
         && s.lastSeen < n < |s.chain| && (c.onlyFinalized ==> n <= s.finalized)
         && done <= |Indices(s.chain[n], pending)|
       case Counted(n, _, _) => s.lastSeen < n < |s.chain| && (c.onlyFinalized ==> n <= s.finalized)
       case Committed(n) => s.lastSeen < n <= s.swept && (c.onlyFinalized ==> n <= s.finalized)
       case _ => true
  }

  /** What the snapshot missed was published since, so it is not included at or below `n`. */
  ghost predicate SnapshotOk(s: State) {
    s.pc.Matching? || s.pc.Counted? ==>
      && (forall h :: h in s.pc.pending ==> h in s.watch && s.watch[h] == s.pc.pending[h])
      && (forall h, k :: h in s.watch && h !in s.pc.pending && IncludedAt(s.chain, h, k) ==> s.pc.n < k)
  }

  /** A watched transaction is always included ahead of the scan. */
  ghost predicate Ahead(s: State) {
    forall h, k :: h in s.watch && IncludedAt(s.chain, h, k) ==> s.swept < k && Cursor(s.pc) <= k
  }

  /** What has left the watch list was included, or can no longer be. */
  ghost predicate GoneOk(s: State) {
    forall h :: h in s.published && h !in s.watch ==> Included(s.chain, h) || s.published[h].death < |s.chain|
  }

  ghost predicate Base(c: Config, s: State) {
    ChainOk(s) && TxOk(s) && PositionOk(c, s) && SnapshotOk(s) && Ahead(s) && GoneOk(s)
  }

  lemma IncludedGrows(chain: seq<Block>, b: Block, h: Hash, k: int)
    ensures IncludedAt(chain + [b], h, k) <==> IncludedAt(chain, h, k) || (k == |chain| && h in b.extrinsics)
  {}

  lemma GrowChain(s: State, b: Block)
    requires ChainOk(s) && TxOk(s) && CanGrow(s, b)
    ensures ChainOk(s.(chain := s.chain + [b])) && TxOk(s.(chain := s.chain + [b]))
  {
    var chain := s.chain + [b];
    forall h, k
      ensures IncludedAt(chain, h, k) <==> IncludedAt(s.chain, h, k) || (k == |s.chain| && h in b.extrinsics)
    {
      IncludedGrows(s.chain, b, h, k);
    }
    forall h, k | h in b.extrinsics ensures !IncludedAt(s.chain, h, k) {
      assert !Included(s.chain, h);
    }
  }

  lemma GrowGone(s: State, b: Block)
    requires GoneOk(s)
    ensures GoneOk(s.(chain := s.chain + [b]))
  {
    forall h | Included(s.chain, h) ensures Included(s.chain + [b], h) {
      var k :| IncludedAt(s.chain, h, k);
      IncludedGrows(s.chain, b, h, k);
    }
  }

  lemma GrowSnapshot(s: State, b: Block)
    requires SnapshotOk(s) && (s.pc.Matching? || s.pc.Counted? ==> s.pc.n < |s.chain|)
    ensures SnapshotOk(s.(chain := s.chain + [b]))
  {
    forall h, k | IncludedAt(s.chain + [b], h, k) ensures IncludedAt(s.chain, h, k) || k == |s.chain| {
      IncludedGrows(s.chain, b, h, k);
    }
  }

  lemma GrowAhead(s: State, b: Block)
    requires Ahead(s) && s.swept < |s.chain| && Cursor(s.pc) <= |s.chain|
    ensures Ahead(s.(chain := s.chain + [b]))
  {
    forall h, k | IncludedAt(s.chain + [b], h, k) ensures IncludedAt(s.chain, h, k) || k == |s.chain| {
      IncludedGrows(s.chain, b, h, k);
    }
  }

  lemma GrowPosition(c: Config, s: State, b: Block)
    requires PositionOk(c, s)
    ensures PositionOk(c, s.(chain := s.chain + [b])) && Cursor(s.pc) <= |s.chain|
  {
    if s.pc.Matching? {
      assert (s.chain + [b])[s.pc.n] == s.chain[s.pc.n];
    }
  }

  lemma GrowBase(c: Config, s: State, b: Block)
    requires Base(c, s) && CanGrow(s, b)
    ensures Base(c, s.(chain := s.chain + [b]))
  {
    GrowChain(s, b);
    GrowGone(s, b);
    GrowPosition(c, s, b);
    GrowSnapshot(s, b);
    GrowAhead(s, b);
  }

  lemma PublishTx(s: State, status: TxStatus)
    requires TxOk(s) && CanPublish(s, status)
    ensures TxOk(Published(s, status))
  {
    forall k ensures !IncludedAt(s.chain, status.txHash, k) {
      assert !Included(s.chain, status.txHash);
    }
  }

  lemma PublishAhead(s: State, status: TxStatus)
    requires SnapshotOk(s) && Ahead(s) && GoneOk(s) && TxOk(s) && CanPublish(s, status)
    ensures var t := Published(s, status); SnapshotOk(t) && Ahead(t) && GoneOk(t)
  {
    forall k ensures !IncludedAt(s.chain, status.txHash, k) {
      assert !Included(s.chain, status.txHash);
    }
  }

  lemma PublishBase(c: Config, s: State, status: TxStatus)
    requires Base(c, s) && CanPublish(s, status)
    ensures Base(c, Published(s, status))
  {
    PublishTx(s, status);
    PublishAhead(s, status);
  }

  lemma StartBase(c: Config, s: State, m: nat)
    requires Base(c, s) && s.pc.Ready? && IsMinBirth(s.watch, m)
    ensures Base(c, ScanStarted(s, m))
  {}

  /** The snapshot's entry for `h` is included in the block or expired by it. */
  ghost predicate Leaves(s: State, h: Hash)
    requires s.pc.Counted? && s.pc.n < |s.chain|
  {
    h in s.pc.pending && (h in s.chain[s.pc.n].extrinsics || s.pc.pending[h].death <= s.pc.n)
  }

  /** The pipeline removes exactly those, although every matched entry is also put to the expiry
      test and may be deleted twice. */
  lemma CommitRemoves(s: State)
    requires s.pc.Counted? && s.pc.n < |s.chain|
    ensures CommitDone(s).watch == map h | h in s.watch && !Leaves(s, h) :: s.watch[h]
  {
    MatchedHashes(s.chain[s.pc.n].extrinsics, s.pc.pending.Keys);
  }

  lemma CommitBase(c: Config, s: State)
    requires Base(c, s) && s.pc.Counted?
    ensures Base(c, CommitDone(s))
  {
    var n := s.pc.n;
    var t := CommitDone(s);
    CommitRemoves(s);
    assert t == s.(watch := t.watch, pc := t.pc, swept := t.swept) && t.pc == Committed(n);
    forall h, k | h in t.watch && IncludedAt(s.chain, h, k) ensures t.swept < k && n < k {
      assert h in s.pc.pending ==> h !in s.chain[n].extrinsics;
    }
    forall h | h in s.published && h !in t.watch ensures Included(s.chain, h) || s.published[h].death < |s.chain| {
      if h in s.watch && h in s.chain[n].extrinsics {
        assert IncludedAt(s.chain, h, n);
      }
    }
  }

  /** A step that keeps the chain, the lists and the sweep need only keep the scan position sound. */
  lemma FrameBase(c: Config, s: State, t: State)
    requires Base(c, s)
    requires t.chain == s.chain && t.watch == s.watch && t.published == s.published && t.swept == s.swept
    requires s.finalized <= t.finalized < |t.chain|
    requires PositionOk(c, t) && SnapshotOk(t) && Cursor(t.pc) <= Cursor(s.pc)
    ensures Base(c, t)
  {}

  lemma ProcessOneBase(c: Config, s: State)
    requires Base(c, s) && Enabled(c, s, ProcessOne)
    ensures Base(c, Next(c, s, ProcessOne))
  {
    FrameBase(c, s, Next(c, s, ProcessOne));
  }

  lemma ScanBase(c: Config, s: State, step: Step)
    requires Base(c, s) && Enabled(c, s, step)
    requires step.FindStart? || step.CheckHead? || step.Snapshot? || step.AddCounter? || step.Advance?
    ensures Base(c, Next(c, s, step))
  {
    FrameBase(c, s, Next(c, s, step));
  }

  lemma BootSetBase(c: Config, s: State)
    requires Base(c, s) && Enabled(c, s, BootSet) && SafeBoot(s)
    ensures Base(c, Next(c, s, BootSet))
  {}

  lemma OutsideBase(c: Config, s: State, step: Step)
    requires Base(c, s) && Enabled(c, s, step)
    requires step.Finalize? || step.Admit? || step.Drop? || step.Crash? || step.BootRead?
    ensures Base(c, Next(c, s, step))
  {
    FrameBase(c, s, Next(c, s, step));
  }

  /** Every step keeps the invariant, a boot-time skip provided it passes over nothing watched. */
  lemma BaseStep(c: Config, s: State, step: Step)
    requires Base(c, s) && Enabled(c, s, step) && BootOk(s, step)
    ensures Base(c, Next(c, s, step))
  {
    match step
    case Grow(b) => GrowBase(c, s, b);
    case Publish(status) => PublishBase(c, s, status);
    case StartScan(m) => StartBase(c, s, m);
    case ProcessOne => ProcessOneBase(c, s);
    case Commit => CommitBase(c, s);
    case BootSet => BootSetBase(c, s);
    case FindStart => ScanBase(c, s, step);
    case CheckHead => ScanBase(c, s, step);
    case Snapshot => ScanBase(c, s, step);
    case AddCounter(_) => ScanBase(c, s, step);
    case Advance => ScanBase(c, s, step);
    case _ => OutsideBase(c, s, step);
  }
}
