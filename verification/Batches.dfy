/** The batch scripts: jobs are added to an open batch, and a lock hands the whole open batch over
    to a locked slot, from which it is released once processed. */
module Batches {
  import opened Chain

  type JobId = nat

  type Data = nat

  type Rows = map<JobId, Data>

  /** The decoded metadata; a field may be missing from the JSON. */
  datatype Metadata = Metadata(rowCount: Option<nat>, lockTimestamp: Option<int>, body: string)

  /** The four keys. A Redis hash without fields does not exist, so no rows means no key. */
  datatype Store = Store(
    openMeta: Option<Metadata>,
    openData: Rows,
    lockedMeta: Option<Metadata>,
    lockedData: Rows)

  /** HSETNX: the first write of a field wins. */
  function FirstWrite(rows: Rows, job: JobId, data: Data): Rows {
    if job in rows then rows else rows[job := data]
  }

  datatype Added = Added(code: int, store: Store)

  function Add(s: Store, newMetadata: Metadata, job: JobId, data: Data): Added {
    match s.openMeta
    case Some(m) =>
      if m.rowCount.None? then Added(-1, s)
      else
        var count := m.rowCount.value + 1;
        Added(count, s.(openMeta := Some(m.(rowCount := Some(count))), openData := FirstWrite(s.openData, job, data)))
    case None =>
      Added(1, s.(openMeta := Some(newMetadata), openData := FirstWrite(s.openData, job, data)))
  }

  datatype LockReply =
    | NoBatch
    | Overdue(rows: Rows, meta: Metadata)
    | Held
    | Taken(rows: Rows, meta: Metadata)
    | ScriptError

  datatype Locked = Locked(reply: LockReply, store: Store)

  function Lock(s: Store, now: int, interval: int): Locked {
    if s.openMeta.None? then Locked(NoBatch, s)
    else if s.lockedMeta.Some? then
      var since := s.lockedMeta.value.lockTimestamp;
      if since.None? then Locked(ScriptError, s)
      else if now - since.value > interval then Locked(Overdue(s.lockedData, s.lockedMeta.value), s)
      else Locked(Held, s)
    else
      var renamed := s.(openMeta := None, lockedMeta := s.openMeta);
      if s.openData == map[] then Locked(ScriptError, renamed)
      else
        var meta := s.openMeta.value.(lockTimestamp := Some(now));
        Locked(Taken(s.openData, meta), Store(None, map[], Some(meta), s.openData))
  }

  /** The environment's step once a locked batch is processed: both locked keys are deleted. */
  function Release(s: Store): Store {
    s.(lockedMeta := None, lockedData := map[])
  }

  class BatchKeys {
    var openMeta: Option<Metadata>
    var openData: Rows
    var lockedMeta: Option<Metadata>
    var lockedData: Rows

    function State(): Store
      reads this
    {
      Store(openMeta, openData, lockedMeta, lockedData)
    }

    constructor ()
      ensures State() == Store(None, map[], None, map[])
    {
      openMeta, openData, lockedMeta, lockedData := None, map[], None, map[];
    }

    method AddToBatch(newMetadata: Metadata, newJobId: JobId, newData: Data) returns (code: int)
      modifies this`openMeta, this`openData
      ensures Added(code, State()) == Add(old(State()), newMetadata, newJobId, newData)
    {
      var currentCount := 1;
      if openMeta.Some? {
        var metadata := openMeta.value;
        if metadata.rowCount.None? { return -1; }
        currentCount := metadata.rowCount.value + 1;
        metadata := metadata.(rowCount := Some(currentCount));
        openMeta := Some(metadata);
      } else {
        openMeta := Some(newMetadata);
      }
      if newJobId !in openData {
        openData := openData[newJobId := newData];
      }
      return currentCount;
    }

    method LockBatch(currentTimestamp: int, timestampInterval: int) returns (reply: LockReply)
      modifies this
      ensures Locked(reply, State()) == Lock(old(State()), currentTimestamp, timestampInterval)
    {
      if openMeta.None? { return NoBatch; }
      if lockedMeta.Some? {
        if lockedMeta.value.lockTimestamp.None? { return ScriptError; } // arithmetic on a nil value
        var timePassed := currentTimestamp - lockedMeta.value.lockTimestamp.value;
        if timePassed > timestampInterval {
          return Overdue(lockedData, lockedMeta.value);
        } else {
          return Held;
        }
      }
      lockedMeta, openMeta := openMeta, None;
      if openData == map[] { return ScriptError; } // renaming a key that does not exist
      lockedData, openData := openData, map[];
      var encoded := lockedMeta.value.(lockTimestamp := Some(currentTimestamp));
      lockedMeta := Some(encoded);
      return Taken(lockedData, encoded);
    }
  }

  // ---- Runs ----
  datatype Op = DoAdd(newMetadata: Metadata, job: JobId, data: Data) | DoLock(now: int, interval: int) | DoRelease

  /** The first metadata of a batch counts one row. */
  ghost predicate Allowed(op: Op) {
    op.DoAdd? ==> op.newMetadata.rowCount == Some(1)
  }

  /** The keys with their history: the released batches, and the jobs of the adds accepted into
      the open and into the locked batch. */
  datatype Tracked = Tracked(store: Store, released: seq<Rows>, openJobs: seq<JobId>, lockedJobs: seq<JobId>)

  const Empty := Tracked(Store(None, map[], None, map[]), [], [], [])

  function Step(t: Tracked, op: Op): Tracked {
    match op
    case DoAdd(newMetadata, job, data) =>
      var a := Add(t.store, newMetadata, job, data);
      if a.code == -1 then t else t.(store := a.store, openJobs := t.openJobs + [job])
    case DoLock(now, interval) =>
      var l := Lock(t.store, now, interval);
      if l.reply.Taken? then Tracked(l.store, t.released, [], t.openJobs) else t.(store := l.store)
    case DoRelease =>
      Tracked(Release(t.store),
              t.released + (if t.store.lockedMeta.Some? then [t.store.lockedData] else []), t.openJobs, [])
  }

  function After(ops: seq<Op>): Tracked {
    if ops == [] then Empty else Step(After(ops[..|ops| - 1]), ops[|ops| - 1])
  }

  function JobSet(jobs: seq<JobId>): set<JobId> {
    set j | j in jobs
  }

  /** A slot is empty, or holds metadata and rows together: the row count is the number of adds
      accepted, and the rows are those of the jobs added. */
  ghost predicate SlotOk(meta: Option<Metadata>, rows: Rows, jobs: seq<JobId>) {
    && rows.Keys == JobSet(jobs)
    && (meta.None? ==> jobs == [])
    && (meta.Some? ==> jobs != [] && meta.value.rowCount == Some(|jobs|))
  }

  ghost predicate TrackedOk(t: Tracked) {
    && SlotOk(t.store.openMeta, t.store.openData, t.openJobs)
    && SlotOk(t.store.lockedMeta, t.store.lockedData, t.lockedJobs)
    && (t.store.lockedMeta.Some? ==> t.store.lockedMeta.value.lockTimestamp.Some?)
  }

  lemma OneJobMore(jobs: seq<JobId>, job: JobId)
    ensures JobSet(jobs + [job]) == JobSet(jobs) + {job}
  {}

  lemma StepOk(t: Tracked, op: Op)
    requires TrackedOk(t) && Allowed(op)
    ensures TrackedOk(Step(t, op))
    ensures op.DoLock? ==> !Lock(t.store, op.now, op.interval).reply.ScriptError?
    ensures op.DoAdd? ==> Add(t.store, op.newMetadata, op.job, op.data).code == |t.openJobs| + 1
  {
    if op.DoAdd? { OneJobMore(t.openJobs, op.job); }
    if t.openJobs != [] { assert t.openJobs[0] in JobSet(t.openJobs); }
    assert JobSet([]) == {};
  }

  /** In every reachable state metadata and rows exist together in each slot, a locked batch has
      its timestamp, and no script fails: both renames find their source and, the locked slot
      being empty, overwrite nothing. */
  lemma {:induction false} SlotsConsistent(ops: seq<Op>)
    requires forall i :: 0 <= i < |ops| ==> Allowed(ops[i])
    ensures TrackedOk(After(ops))
    ensures var s := After(ops).store;
            && (s.openMeta.Some? <==> s.openData != map[]) && (s.lockedMeta.Some? <==> s.lockedData != map[])
            && (forall now, interval :: !Lock(s, now, interval).reply.ScriptError?)
  {
    if ops == [] {
    } else {
      SlotsConsistent(ops[..|ops| - 1]);
      StepOk(After(ops[..|ops| - 1]), ops[|ops| - 1]);
    }
    var t := After(ops);
    if t.openJobs == [] {
    } else {
      assert t.openJobs[0] in t.store.openData;
    }
    if t.lockedJobs == [] {
    } else {
      assert t.lockedJobs[0] in t.store.lockedData;
    }
    assert t.openJobs == [] ==> t.store.openData.Keys == {};
    assert t.lockedJobs == [] ==> t.store.lockedData.Keys == {};
  }

  ghost predicate AllDifferent(jobs: seq<JobId>) {
    forall i, j :: 0 <= i < j < |jobs| ==> jobs[i] != jobs[j]
  }

  lemma {:induction false} JobSetSize(jobs: seq<JobId>)
    ensures |JobSet(jobs)| <= |jobs|
    ensures |JobSet(jobs)| == |jobs| <==> AllDifferent(jobs)
  {
    if jobs == [] {
      assert JobSet(jobs) == {};
    } else {
      var last := |jobs| - 1;
      var init := jobs[..last];
      JobSetSize(init);
      assert jobs == init + [jobs[last]];
      OneJobMore(init, jobs[last]);
      if jobs[last] in init {
        var i :| 0 <= i < last && jobs[i] == jobs[last];
        assert JobSet(jobs) == JobSet(init);
      } else {
        assert AllDifferent(jobs) <==> AllDifferent(init);
      }
    }
  }

  /** The row count is at least the number of rows, and equal to it exactly when the jobs differ. */
  ghost predicate CountBounds(meta: Option<Metadata>, rows: Rows, jobs: seq<JobId>) {
    meta.Some? ==>
      && meta.value.rowCount == Some(|jobs|) && |rows| <= |jobs|
      && (|rows| == |jobs| <==> AllDifferent(jobs))
  }

  lemma SlotBounds(meta: Option<Metadata>, rows: Rows, jobs: seq<JobId>)
    requires SlotOk(meta, rows, jobs)
    ensures CountBounds(meta, rows, jobs)
  {
    JobSetSize(jobs);
    assert |rows| == |rows.Keys|;
  }

  /** In the open and in the locked batch the row count is the number of adds accepted, at least the
      number of stored rows, and equal to it exactly when no job was added twice. */
  lemma RowCountBoundsRows(ops: seq<Op>)
    requires forall i :: 0 <= i < |ops| ==> Allowed(ops[i])
    ensures var t := After(ops);
            && CountBounds(t.store.openMeta, t.store.openData, t.openJobs)
            && CountBounds(t.store.lockedMeta, t.store.lockedData, t.lockedJobs)
  {
    SlotsConsistent(ops);
    var t := After(ops);
    SlotBounds(t.store.openMeta, t.store.openData, t.openJobs);
    SlotBounds(t.store.lockedMeta, t.store.lockedData, t.lockedJobs);
  }

  // ---- Conservation ----
  /** Every batch there ever was, oldest first: the released ones, the locked one, the open one. */
  function Batches(t: Tracked): seq<Rows> {
    t.released
    + (if t.store.lockedMeta.Some? then [t.store.lockedData] else [])
    + (if t.store.openMeta.Some? then [t.store.openData] else [])
  }

  /** An accepted add goes into the newest batch, or starts a new one if none is open. */
  function WithAdded(t: Tracked, job: JobId, data: Data): seq<Rows> {
    var batches := Batches(t);
    if t.store.openMeta.Some? then batches[..|batches| - 1] + [FirstWrite(t.store.openData, job, data)]
    else batches + [map[job := data]]
  }

  /** A lock and a release move batches and change none of them; an add changes only the open one. */
  lemma BatchesConserved(t: Tracked, op: Op)
    requires TrackedOk(t) && Allowed(op)
    ensures Batches(Step(t, op)) == if op.DoAdd? then WithAdded(t, op.job, op.data) else Batches(t)
  {
    assert JobSet([]) == {};
    if t.openJobs != [] { assert t.openJobs[0] in t.store.openData; }
    if op.DoAdd? && t.store.openMeta.Some? {
      var older := t.released + (if t.store.lockedMeta.Some? then [t.store.lockedData] else []);
      assert Batches(t) == older + [t.store.openData];
    }
    if op.DoAdd? && t.store.openMeta.None? {
      assert t.store.openData == map[];
    }
  }

  /** `job` has `data` in batch `k`. */
  ghost predicate Stored(t: Tracked, k: int, job: JobId, data: Data) {
    0 <= k < |Batches(t)| && job in Batches(t)[k] && Batches(t)[k][job] == data
  }

  lemma StoredStep(t: Tracked, op: Op, k: int, job: JobId, data: Data)
    requires TrackedOk(t) && Allowed(op) && Stored(t, k, job, data)
    ensures Stored(Step(t, op), k, job, data)
  {
    BatchesConserved(t, op);
    if op.DoAdd? && t.store.openMeta.Some? && k == |Batches(t)| - 1 {
      assert Batches(t)[k] == t.store.openData;
    }
  }

  /** Once written, a job's data stays in its batch, unchanged by later adds of the same job into
      that batch, through locking and release; an add after a lock writes to the next batch. So
      nothing is lost, merged or overwritten. */
  lemma {:induction false} FirstWriteStays(ops: seq<Op>, i: nat, k: int, job: JobId, data: Data)
    requires (forall m :: 0 <= m < |ops| ==> Allowed(ops[m])) && i <= |ops|
    requires Stored(After(ops[..i]), k, job, data)
    ensures Stored(After(ops), k, job, data)
    decreases |ops|
  {
    if i < |ops| {
      var init := ops[..|ops| - 1];
      assert init[..i] == ops[..i];
      FirstWriteStays(init, i, k, job, data);
      SlotsConsistent(init);
      StoredStep(After(init), ops[|ops| - 1], k, job, data);
    } else {
      assert ops[..i] == ops;
    }
  }

  /** The number of the batch that an add goes into. */
  function OpenNumber(t: Tracked): nat {
    |t.released| + if t.store.lockedMeta.Some? then 1 else 0
  }

  /** What a job has in the open batch once it is added: the first write wins. */
  function FirstWritten(t: Tracked, job: JobId, data: Data): Data {
    if job in t.store.openData then t.store.openData[job] else data
  }

  lemma AddStores(t: Tracked, op: Op)
    requires TrackedOk(t) && Allowed(op) && op.DoAdd?
    ensures Stored(Step(t, op), OpenNumber(t), op.job, FirstWritten(t, op.job, op.data))
  {
    BatchesConserved(t, op);
    var older := t.released + (if t.store.lockedMeta.Some? then [t.store.lockedData] else []);
    assert |older| == OpenNumber(t);
    assert t.store.openMeta.Some? ==> Batches(t)[..|Batches(t)| - 1] == older;
    assert t.store.openMeta.None? ==> Batches(t) == older && t.store.openData.Keys == {} by {
      assert JobSet([]) == {};
    }
  }

  lemma AfterOneMore(ops: seq<Op>, i: nat)
    requires i < |ops|
    ensures After(ops[..i + 1]) == Step(After(ops[..i]), ops[i])
  {
    assert ops[..i + 1][..i] == ops[..i];
  }

  lemma AddedIsStored(ops: seq<Op>, i: nat)
    requires (forall m :: 0 <= m < |ops| ==> Allowed(ops[m])) && i < |ops| && ops[i].DoAdd?
    ensures var t := After(ops[..i]);
            Stored(After(ops[..i + 1]), OpenNumber(t), ops[i].job, FirstWritten(t, ops[i].job, ops[i].data))
  {
    SlotsConsistent(ops[..i]);
    AddStores(After(ops[..i]), ops[i]);
    AfterOneMore(ops, i);
  }

  /** Every accepted add is kept: from then on its job has, in the batch that was open or that it
      opened, the data first written for it there. */
  lemma AcceptedAddKept(ops: seq<Op>, i: nat)
    requires (forall m :: 0 <= m < |ops| ==> Allowed(ops[m])) && i < |ops| && ops[i].DoAdd?
    ensures var t := After(ops[..i]);
            Stored(After(ops), OpenNumber(t), ops[i].job, FirstWritten(t, ops[i].job, ops[i].data))
  {
    var t := After(ops[..i]);
    AddedIsStored(ops, i);
    FirstWriteStays(ops, i + 1, OpenNumber(t), ops[i].job, FirstWritten(t, ops[i].job, ops[i].data));
  }

  lemma NewlyStored(t: Tracked, op: Op, k: int, job: JobId, data: Data)
    requires TrackedOk(t) && Allowed(op) && !Stored(t, k, job, data) && Stored(Step(t, op), k, job, data)
    ensures op.DoAdd? && op.job == job && op.data == data
  {
    BatchesConserved(t, op);
    if op.DoAdd? && t.store.openMeta.Some? && k == |Batches(t)| - 1 {
      assert Batches(t)[k] == t.store.openData;
    }
  }

  /** What is stored was put there by an accepted add of that job. */
  lemma {:induction false} StoredWasAdded(ops: seq<Op>, k: int, job: JobId, data: Data)
    requires (forall m :: 0 <= m < |ops| ==> Allowed(ops[m])) && Stored(After(ops), k, job, data)
    ensures exists m :: 0 <= m < |ops| && ops[m].DoAdd? && ops[m].job == job && ops[m].data == data
  {
    if ops == [] {
    } else {
      var init := ops[..|ops| - 1];
      var op := ops[|ops| - 1];
      SlotsConsistent(init);
      BatchesConserved(After(init), op);
      if Stored(After(init), k, job, data) {
        StoredWasAdded(init, k, job, data);
        var m :| 0 <= m < |init| && init[m].DoAdd? && init[m].job == job && init[m].data == data;
        assert ops[m] == init[m];
      } else {
        NewlyStored(After(init), op, k, job, data);
      }
    }
  }

  // ---- Metadata ----

  /** Without a row count in the stored metadata an add is refused and changes nothing. */
  lemma AddRefused(s: Store, newMetadata: Metadata, job: JobId, data: Data)
    ensures Add(s, newMetadata, job, data).code == -1 <==> s.openMeta.Some? && s.openMeta.value.rowCount.None?
    ensures Add(s, newMetadata, job, data).code == -1 ==> Add(s, newMetadata, job, data).store == s
  {}

  /** Every add replies with its number among the adds accepted into its batch. */
  lemma AddReplies(ops: seq<Op>, i: nat)
    requires (forall m :: 0 <= m < |ops| ==> Allowed(ops[m])) && i < |ops| && ops[i].DoAdd?
    ensures var t := After(ops[..i]);
            Add(t.store, ops[i].newMetadata, ops[i].job, ops[i].data).code == |t.openJobs| + 1
  {
    SlotsConsistent(ops[..i]);
    StepOk(After(ops[..i]), ops[i]);
  }

  /** The open batch has the metadata of `opener`, but for the row count. */
  ghost predicate OpenedBy(t: Tracked, opener: Metadata) {
    t.store.openMeta == Some(Metadata(Some(|t.openJobs|), opener.lockTimestamp, opener.body))
  }

  lemma OpenedStays(t: Tracked, op: Op, opener: Metadata)
    requires TrackedOk(t) && Allowed(op) && OpenedBy(t, opener)
    requires op.DoLock? ==> t.store.lockedMeta.Some?
    ensures OpenedBy(Step(t, op), opener)
  {}

  lemma OpenedFirst(t: Tracked, op: Op)
    requires TrackedOk(t) && Allowed(op) && op.DoAdd? && t.store.openMeta.None?
    ensures OpenedBy(Step(t, op), op.newMetadata)
  {}

  /** No lock is granted from operation `i` on: when one is asked for, a batch is locked. */
  ghost predicate NoGrant(ops: seq<Op>, i: nat) {
    forall m :: i <= m < |ops| && ops[m].DoLock? ==> After(ops[..m]).store.lockedMeta.Some?
  }

  /** While a batch is open its metadata is that of the add that opened it, whatever is added later;
      only the row count goes up. */
  lemma {:induction false} OpenersMetadataKept(ops: seq<Op>, i: nat)
    requires (forall m :: 0 <= m < |ops| ==> Allowed(ops[m])) && i < |ops| && ops[i].DoAdd?
    requires After(ops[..i]).store.openMeta.None? && NoGrant(ops, i + 1)
    ensures OpenedBy(After(ops), ops[i].newMetadata)
    decreases |ops|
  {
    var last := |ops| - 1;
    var init := ops[..last];
    SlotsConsistent(init);
    if i == last {
      OpenedFirst(After(init), ops[last]);
    } else {
      assert init[..i] == ops[..i];
      forall m | i + 1 <= m < last && init[m].DoLock? ensures After(init[..m]).store.lockedMeta.Some? {
        assert init[..m] == ops[..m];
      }
      OpenersMetadataKept(init, i);
      OpenedStays(After(init), ops[last], ops[i].newMetadata);
    }
  }

  // ---- The handover ----
  /** A lock that is granted takes the whole open batch, returns exactly its rows, and leaves no
      open batch behind; it is granted exactly when a batch is open and none is locked. */
  lemma LockTakesWholeBatch(ops: seq<Op>, now: int, interval: int)
    requires forall i :: 0 <= i < |ops| ==> Allowed(ops[i])
    ensures var s := After(ops).store;
            var l := Lock(s, now, interval);
            && (l.reply.Taken? <==> s.openMeta.Some? && s.lockedMeta.None?)
            && (l.reply.NoBatch? <==> s.openMeta.None?)
            && (l.reply.Taken? ==>
                  && l.reply.rows == s.openData == l.store.lockedData
                  && l.store.openMeta.None? && l.store.openData == map[]
                  && l.store.lockedMeta == Some(l.reply.meta)
                  && l.reply.meta == Metadata(s.openMeta.value.rowCount, Some(now), s.openMeta.value.body))
            && (!l.reply.Taken? ==> l.store == s)
  {
    SlotsConsistent(ops);
  }

  ghost predicate NoRelease(ops: seq<Op>, i: nat) {
    forall m :: i <= m < |ops| ==> !ops[m].DoRelease?
  }

  lemma StepKeepsLocked(t: Tracked, op: Op)
    requires t.store.lockedMeta.Some? && !op.DoRelease?
    ensures var u := Step(t, op); u.store.lockedMeta == t.store.lockedMeta && u.store.lockedData == t.store.lockedData
  {}

  /** Until it is released a locked batch stays as it is, whatever is added or asked for. */
  lemma {:induction false} LockedBatchUntouched(ops: seq<Op>, i: nat)
    requires (forall m :: 0 <= m < |ops| ==> Allowed(ops[m])) && i <= |ops| && NoRelease(ops, i)
    requires After(ops[..i]).store.lockedMeta.Some?
    ensures var s, t := After(ops[..i]).store, After(ops).store;
            t.lockedMeta == s.lockedMeta && t.lockedData == s.lockedData
    decreases |ops|
  {
    if i < |ops| {
      var init := ops[..|ops| - 1];
      assert init[..i] == ops[..i];
      LockedBatchUntouched(init, i);
      StepKeepsLocked(After(init), ops[|ops| - 1]);
    } else {
      assert ops[..i] == ops;
    }
  }

  /** After a lock taken at `now` and before a release, a caller is given the locked rows only if a
      batch is open and more than the interval has passed; then every caller is given the same
      rows with the same timestamp, since handing them out again does not renew the lock. */
  lemma LockedRowsWithheld(ops: seq<Op>, i: nat, later: int, interval: int)
    requires (forall m :: 0 <= m < |ops| ==> Allowed(ops[m])) && i < |ops| && ops[i].DoLock? && NoRelease(ops, i + 1)
    requires Lock(After(ops[..i]).store, ops[i].now, ops[i].interval).reply.Taken?
    ensures var taken := Lock(After(ops[..i]).store, ops[i].now, ops[i].interval).reply;
            var s := After(ops).store;
            var l := Lock(s, later, interval);
            && l.store == s
            && (s.openMeta.None? ==> l.reply == NoBatch)
            && (s.openMeta.Some? && later - ops[i].now <= interval ==> l.reply == Held)
            && (s.openMeta.Some? && later - ops[i].now > interval ==> l.reply == Overdue(taken.rows, taken.meta))
  {
    AfterOneMore(ops, i);
    LockedBatchUntouched(ops, i + 1);
  }

  /** What a lock hands over, and what stays locked until the release, is the metadata of the add
      that opened the batch, with the number of its adds and the time of the lock. */
  lemma LockedMetadataIsOpeners(ops: seq<Op>, i: nat, j: nat)
    requires (forall m :: 0 <= m < |ops| ==> Allowed(ops[m])) && i < j < |ops| && ops[i].DoAdd? && ops[j].DoLock?
    requires After(ops[..i]).store.openMeta.None? && NoGrant(ops[..j], i + 1)
    requires After(ops[..j]).store.lockedMeta.None? && NoRelease(ops, j + 1)
    ensures After(ops).store.lockedMeta
         == Some(Metadata(Some(|After(ops[..j]).openJobs|), Some(ops[j].now), ops[i].newMetadata.body))
  {
    assert ops[..j][..i] == ops[..i] && ops[..j][i] == ops[i];
    OpenersMetadataKept(ops[..j], i);
    LockTakesWholeBatch(ops[..j], ops[j].now, ops[j].interval);
    AfterOneMore(ops, j);
    LockedBatchUntouched(ops, j + 1);
  }

  /** A lock fails exactly on locked metadata without its timestamp, and then changes nothing, or on an
      open batch without rows, and then the metadata has been renamed already. */
  lemma LockFails(s: Store, now: int, interval: int)
    ensures Lock(s, now, interval).reply.ScriptError? <==>
              && s.openMeta.Some?
              && (if s.lockedMeta.Some? then s.lockedMeta.value.lockTimestamp.None? else s.openData == map[])
    ensures Lock(s, now, interval).reply.ScriptError? ==>
              var left := if s.lockedMeta.Some? then s else Store(None, map[], s.openMeta, s.lockedData);
              Lock(s, now, interval).store == left
  {}
}
