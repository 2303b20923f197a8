/** The publisher's capacity check: the admission test, and what it does to the job queue and
    the timer registry. */
module CapacityGate {
  import opened Chain

  const SECONDS_PER_BLOCK := 12

  const MILLISECONDS_PER_SECOND := 1000

  const CAPACITY_EPOCH_TIMEOUT_NAME := "capacity_check"

  /** A limit as configured: its value is any JSON number, so it need not be whole. */
  datatype CapacityLimit = Percentage(value: real) | Amount(value: real)

  predicate Whole(v: real) { v == v.Floor as real }

  /** The smallest whole number not below `v`. */
  function Ceiling(v: real): int {
    if Whole(v) then v.Floor else v.Floor + 1
  }

  /** The used capacity at which the gate closes. Turning a percentage that is not whole into
      a BigInt throws, so such a limit has no threshold at all. */
  function Threshold(limit: CapacityLimit, issued: nat): Option<int> {
    match limit
    case Percentage(v) => if Whole(v) then Some(issued * v.Floor / 100) else None
    case Amount(v) => Some(Ceiling(v))
  }

  predicate Below(threshold: Option<int>, used: nat) {
    threshold.None? || used < threshold.value
  }

  /** The limit test passes: what is used has not reached the threshold. */
  predicate GateOpen(limit: CapacityLimit, issued: nat, used: nat) {
    Below(Threshold(limit, issued), used)
  }

  /** What an open gate says in the configuration's own terms. */
  lemma GateOpenMeaning(limit: CapacityLimit, issued: nat, used: nat)
    requires limit.value >= 0.0
    ensures limit.Amount? ==> (GateOpen(limit, issued, used) <==> used as real < limit.value)
    ensures limit.Percentage? && Whole(limit.value) ==>
              (GateOpen(limit, issued, used) <==> 100 * (used + 1) <= issued * limit.value.Floor)
    ensures limit.Percentage? && !Whole(limit.value) ==> GateOpen(limit, issued, used)
  {
    if limit.Percentage? {
      var x := issued * limit.value.Floor;
      assert x / 100 * 100 <= x < x / 100 * 100 + 100;
    }
  }

  datatype CapacityInfo = CapacityInfo(
    currentEpoch: nat,
    currentBlockNumber: nat,
    nextEpochStart: nat,
    remainingCapacity: nat,
    totalCapacityIssued: nat)

  /** A check admits the job exactly when capacity remains on the chain and the gate is open. */
  predicate Admits(limit: CapacityLimit, info: CapacityInfo, used: nat) {
    info.remainingCapacity > 0 && GateOpen(limit, info.totalCapacityIssued, used)
  }

  /** The awaited call, if any, that fails during a check. */
  datatype Fault = NoFault | InfoFault | CounterFault | PauseFault | FailedJobsFault | ResumeFault

  datatype FailedJob = FailedJob(id: nat, inabilityToPay: bool)

  /** The queue, the registry, and whether the capacity timer has yet to fire. The queue's pause is
      kept in Redis; the registry keeps a timer's name after it has fired, until it is deleted. */
  datatype GateState = GateState(paused: bool, timers: map<string, int>, armed: bool, retried: seq<nat>)

  /** The limit can be evaluated, if the check gets that far. */
  predicate Evaluable(limit: CapacityLimit, info: CapacityInfo) {
    info.remainingCapacity == 0 || Threshold(limit, info.totalCapacityIssued).Some?
  }

  /** The check runs to its end: the limit is evaluable and no call on its path fails. */
  predicate Completes(limit: CapacityLimit, info: CapacityInfo, used: nat, fault: Fault) {
    && Evaluable(limit, info)
    && match fault
       case NoFault => true
       case InfoFault => false
       case CounterFault => false
       case PauseFault => Admits(limit, info, used)
       case FailedJobsFault => !Admits(limit, info, used)
       case ResumeFault => !Admits(limit, info, used)
  }

  function CapacityFailures(jobs: seq<FailedJob>): seq<nat> {
    if jobs == [] then []
    else CapacityFailures(jobs[..|jobs| - 1]) + (if jobs[|jobs| - 1].inabilityToPay then [jobs[|jobs| - 1].id] else [])
  }

  /** The state a completed check leaves behind. */
  function AfterCheck(g: GateState, admitted: bool, info: CapacityInfo, failed: seq<FailedJob>): GateState {
    if admitted then
      GateState(false, g.timers - {CAPACITY_EPOCH_TIMEOUT_NAME}, false, g.retried + CapacityFailures(failed))
    else
      var timeout := (info.nextEpochStart - info.currentBlockNumber) * SECONDS_PER_BLOCK * MILLISECONDS_PER_SECOND;
      g.(paused := true, timers := g.timers[CAPACITY_EPOCH_TIMEOUT_NAME := timeout], armed := true)
  }

  /** The state a check leaves behind, whatever fails. A failure before the queue is touched
      leaves everything as it was; a resume that fails leaves the queue as it was, with the
      timer already gone. */
  function AfterFaulty(g: GateState, limit: CapacityLimit, info: CapacityInfo, used: nat, failed: seq<FailedJob>,
                       fault: Fault): GateState {
    var done := AfterCheck(g, Admits(limit, info, used), info, failed);
    if Completes(limit, info, used, fault) then done
    else if fault.ResumeFault? && Evaluable(limit, info) then done.(paused := g.paused)
    else g
  }

  /** What a check answers: a failure before anything is decided admits the job. */
  predicate Answers(limit: CapacityLimit, info: CapacityInfo, used: nat, fault: Fault) {
    fault.InfoFault? || fault.CounterFault? || Admits(limit, info, used)
  }

  // ---- What a check comes to, in the configuration's own terms ----

  /** `ids` are the jobs that failed for lack of capacity, found at the positions `p`. */
  ghost predicate FailedAt(jobs: seq<FailedJob>, ids: seq<nat>, p: seq<nat>) {
    && Increasing(p) && |p| == |ids|
    && (forall m :: 0 <= m < |p| ==> p[m] < |jobs| && jobs[p[m]] == FailedJob(ids[m], true))
    && (forall k :: 0 <= k < |jobs| && jobs[k].inabilityToPay ==> k in p)
  }

  lemma FailedMore(jobs: seq<FailedJob>, job: FailedJob, ids: seq<nat>, p: seq<nat>)
    requires FailedAt(jobs, ids, p)
    ensures !job.inabilityToPay ==> FailedAt(jobs + [job], ids, p)
    ensures job.inabilityToPay ==> FailedAt(jobs + [job], ids + [job.id], p + [|jobs|])
  {
    var all, q := jobs + [job], p + [|jobs|];
    assert q[|p|] == |jobs|;
    forall k | 0 <= k < |jobs| && all[k].inabilityToPay ensures k in p && k in q {
      assert jobs[k].inabilityToPay;
      assert k in p;
    }
  }

  /** Which jobs are retried: all that failed for lack of capacity and no others, in order. */
  lemma {:induction false} CapacityFailuresMeaning(jobs: seq<FailedJob>) returns (p: seq<nat>)
    ensures FailedAt(jobs, CapacityFailures(jobs), p)
  {
    if jobs == [] {
      p := [];
    } else {
      var last := |jobs| - 1;
      p := CapacityFailuresMeaning(jobs[..last]);
      FailedMore(jobs[..last], jobs[last], CapacityFailures(jobs[..last]), p);
      assert jobs[..last] + [jobs[last]] == jobs;
      if jobs[last].inabilityToPay { p := p + [last]; }
    }
  }

  /** If no capacity query fails, a job is admitted exactly if the chain has capacity left and what
      is used is below the limit: below an amount, or, for a whole percentage, with at least one
      unit to spare; a percentage that is not whole limits nothing. If one fails, it is admitted. */
  lemma AnswersMeaning(limit: CapacityLimit, info: CapacityInfo, used: nat, fault: Fault)
    requires limit.value >= 0.0
    ensures !fault.InfoFault? && !fault.CounterFault? ==>
              (Answers(limit, info, used, fault) <==>
                 && info.remainingCapacity > 0
                 && (limit.Amount? ==> used as real < limit.value)
                 && (limit.Percentage? && limit.value == limit.value.Floor as real ==>
                       100 * (used + 1) <= info.totalCapacityIssued * limit.value.Floor))
    ensures fault.InfoFault? || fault.CounterFault? ==> Answers(limit, info, used, fault)
  {
    GateOpenMeaning(limit, info.totalCapacityIssued, used);
  }

  /** A check stops early exactly if a call on its path fails, or the chain has capacity and the limit
      is a percentage that is not whole. */
  lemma CompletesMeaning(limit: CapacityLimit, info: CapacityInfo, used: nat, fault: Fault)
    ensures Completes(limit, info, used, fault) <==>
              && !fault.InfoFault? && !fault.CounterFault?
              && !(info.remainingCapacity > 0 && limit.Percentage? && limit.value != limit.value.Floor as real)
              && (if Answers(limit, info, used, fault) then !fault.FailedJobsFault? && !fault.ResumeFault?
                  else !fault.PauseFault?)
  {}

  /** The limit is a percentage that is not whole. */
  predicate Fractional(limit: CapacityLimit) {
    limit.Percentage? && limit.value != limit.value.Floor as real
  }

  /** What a check leaves behind. */
  lemma CheckLeaves(g: GateState, limit: CapacityLimit, info: CapacityInfo, used: nat, failed: seq<FailedJob>,
                    fault: Fault)
    ensures var r := AfterFaulty(g, limit, info, used, failed, fault);
            var admitted := Answers(limit, info, used, fault);
            var completes := Completes(limit, info, used, fault);
            var resumeFails := fault.ResumeFault? && admitted && !Fractional(limit);
            // a check that completes pauses the queue exactly if it refuses
            && (completes ==> (r.paused <==> !admitted))
            // a refusal sets the timer for the start of the next epoch, at twelve seconds a block
            && (completes && !admitted ==>
                  && r.timers == g.timers["capacity_check" := (info.nextEpochStart - info.currentBlockNumber) * 12000]
                  && r.armed && r.retried == g.retried)
            // an admission deletes the timer and has the capacity failures retried, and so does one
            // whose resume fails, which leaves the queue as it was
            && ((completes && admitted) || (!completes && resumeFails) ==>
                  && r.timers == g.timers - {"capacity_check"} && !r.armed
                  && r.retried == g.retried + CapacityFailures(failed))
            && (!completes && resumeFails ==> r.paused == g.paused)
            // any other failure leaves everything as it was
            && (!completes && !resumeFails ==> r == g)
  {}

  // ---- Sequences of checks ----
  datatype Check = Check(limit: CapacityLimit, info: CapacityInfo, used: nat, failed: seq<FailedJob>, fault: Fault)

  predicate Finishes(c: Check) {
    Completes(c.limit, c.info, c.used, c.fault)
  }

  function Checked(g: GateState, c: Check): GateState {
    AfterFaulty(g, c.limit, c.info, c.used, c.failed, c.fault)
  }

  /** What makes a check happen: a job, the timer, or the start of the worker, whose registry is
      then empty. */
  datatype Event = JobCheck(check: Check) | TimerFires(check: Check) | Restart(check: Check)

  predicate Possible(g: GateState, ev: Event) {
    ev.TimerFires? ==> g.armed
  }

  /** The state in which the check of an event begins. */
  function Before(g: GateState, ev: Event): GateState {
    match ev
    case JobCheck(_) => g
    case TimerFires(_) => g.(armed := false)
    case Restart(_) => g.(timers := map[], armed := false)
  }

  function AfterEvent(g: GateState, ev: Event): GateState {
    Checked(Before(g, ev), ev.check)
  }

  /** The queue and registry after events one at a time. */
  function AfterEvents(g: GateState, events: seq<Event>): GateState {
    if events == [] then g
    else AfterEvent(AfterEvents(g, events[..|events| - 1]), events[|events| - 1])
  }

  ghost predicate AllPossible(g: GateState, events: seq<Event>) {
    forall i :: 0 <= i < |events| ==> Possible(AfterEvents(g, events[..i]), events[i])
  }

  /** Once a check completes, whatever happened before it, the queue is paused iff the capacity
      timer is registered, iff it is armed, iff that check refused. */
  lemma PausedIffTimerRegistered(g: GateState, events: seq<Event>)
    requires events != [] && Finishes(events[|events| - 1].check)
    ensures var r := AfterEvents(g, events);
            var last := events[|events| - 1].check;
            && (r.paused <==> CAPACITY_EPOCH_TIMEOUT_NAME in r.timers)
            && (r.paused <==> r.armed)
            && (r.paused <==> !Admits(last.limit, last.info, last.used))
  {}

  function OtherTimers(g: GateState): map<string, int> {
    g.timers - {CAPACITY_EPOCH_TIMEOUT_NAME}
  }

  lemma CheckKeepsOthers(g: GateState, c: Check)
    ensures OtherTimers(Checked(g, c)) == OtherTimers(g)
  {}

  ghost predicate Restarted(events: seq<Event>) {
    exists i :: 0 <= i < |events| && events[i].Restart?
  }

  /** No event touches a timer but the one, so there is never more than one of it; only a restart
      loses the others. */
  lemma {:induction false} OneTimer(g: GateState, events: seq<Event>)
    ensures OtherTimers(AfterEvents(g, events)) == if Restarted(events) then map[] else OtherTimers(g)
  {
    if events == [] {
    } else {
      var last := events[|events| - 1];
      var init := events[..|events| - 1];
      OneTimer(g, init);
      CheckKeepsOthers(Before(AfterEvents(g, init), last), last.check);
      assert Restarted(events) <==> Restarted(init) || last.Restart?;
    }
  }

  // ---- Waking a paused queue ----
  /** A paused queue has a timer yet to fire, which will check again. */
  predicate Awake(g: GateState) {
    g.paused ==> g.armed
  }

  /** The check finds capacity, has the timer deleted, and fails to resume the queue. */
  predicate ResumeFails(c: Check) {
    c.fault.ResumeFault? && Admits(c.limit, c.info, c.used) && Evaluable(c.limit, c.info)
  }

  /** The event leaves a paused queue with nothing to wake it: a job's check that fails to resume it,
      or a check run by the timer or at startup - with no timer armed - that fails in any way. */
  predicate Strands(g: GateState, ev: Event) {
    g.paused && if ev.JobCheck? then ResumeFails(ev.check) else !Finishes(ev.check)
  }

  lemma AwakeUnlessStranded(g: GateState, ev: Event)
    requires ev.JobCheck? ==> Awake(g)
    ensures Awake(AfterEvent(g, ev)) <==> !Strands(g, ev)
  {}

  ghost predicate AwakeAt(g: GateState, events: seq<Event>, i: nat)
    requires i <= |events|
  {
    Awake(AfterEvents(g, events[..i]))
  }

  ghost predicate StrandedAt(g: GateState, events: seq<Event>, i: nat)
    requires i < |events|
  {
    Strands(AfterEvents(g, events[..i]), events[i])
  }

  lemma AwakeNext(g: GateState, events: seq<Event>, i: nat)
    requires i < |events| && AwakeAt(g, events, i)
    ensures AwakeAt(g, events, i + 1) <==> !StrandedAt(g, events, i)
  {
    assert events[..i + 1][..i] == events[..i];
    AwakeUnlessStranded(AfterEvents(g, events[..i]), events[i]);
  }

  lemma {:induction false} AwakeThroughout(g: GateState, events: seq<Event>, i: nat)
    requires Awake(g) && i <= |events|
    requires forall m: nat :: m < |events| ==> !StrandedAt(g, events, m)
    ensures AwakeAt(g, events, i)
  {
    if i == 0 {
    } else {
      AwakeThroughout(g, events, i - 1);
      AwakeNext(g, events, i - 1);
    }
  }

  /** Over any sequence of events from an awake state, a paused queue always has its timer armed iff
      none of them strands it. */
  lemma AlwaysAwakeIffNoneStrands(g: GateState, events: seq<Event>)
    requires Awake(g)
    ensures (forall i: nat :: i <= |events| ==> AwakeAt(g, events, i))
       <==> (forall i: nat :: i < |events| ==> !StrandedAt(g, events, i))
  {
    if forall i: nat :: i <= |events| ==> AwakeAt(g, events, i) {
      forall i: nat | i < |events| ensures !StrandedAt(g, events, i) {
        assert AwakeAt(g, events, i + 1);
        AwakeNext(g, events, i);
      }
    }
    if forall i: nat :: i < |events| ==> !StrandedAt(g, events, i) {
      forall i: nat | i <= |events| ensures AwakeAt(g, events, i) { AwakeThroughout(g, events, i); }
    }
  }

  /** Without any failing call: a fractional percentage, capacity used up in one epoch and back in the
      next. The first check pauses the queue; the timer's own check cannot evaluate the limit, and
      the queue stays paused. */
  lemma FractionStrands(failed: seq<FailedJob>) returns (events: seq<Event>)
    ensures |events| == 2 && forall i :: 0 <= i < |events| ==> events[i].check.fault == NoFault
    ensures AllPossible(GateState(false, map[], false, []), events)
    ensures !Awake(AfterEvents(GateState(false, map[], false, []), events))
  {
    var limit := Percentage(12.5);
    assert !Whole(12.5) by { assert 12.5.Floor == 12; }
    var refused := JobCheck(Check(limit, CapacityInfo(0, 90, 100, 0, 1000), 0, failed, NoFault));
    var fired := TimerFires(Check(limit, CapacityInfo(1, 100, 200, 1000, 1000), 0, failed, NoFault));
    events := [refused, fired];
    var g := GateState(false, map[], false, []);
    assert events[..0] == [] && events[..1] == [refused] && [refused][..0] == [];
    assert AfterEvents(g, events[..1]) == AfterEvent(g, refused);
    assert AfterEvents(g, events) == AfterEvent(AfterEvent(g, refused), fired);
  }

  /** So does any refusal followed by a check of the timer, or of a restart, that fails in any way. */
  lemma FailedCheckStrands(c: Check, later: Event)
    requires Finishes(c) && !Admits(c.limit, c.info, c.used)
    requires !later.JobCheck? && !Finishes(later.check)
    ensures var g := GateState(false, map[], false, []);
            AllPossible(g, [JobCheck(c), later]) && !Awake(AfterEvents(g, [JobCheck(c), later]))
  {
    var g := GateState(false, map[], false, []);
    var refused := JobCheck(c);
    var events := [refused, later];
    assert events[..0] == [] && events[..1] == [refused] && [refused][..0] == [];
    assert AfterEvents(g, events[..1]) == AfterEvent(g, refused);
    assert AfterEvents(g, events) == AfterEvent(AfterEvent(g, refused), later);
  }
}
