/** The Redis keys that the publisher and the notifier share, and the publisher itself. */
module Publisher {
  import opened Chain
  import opened Transactions
  import opened BlockPass
  import opened CapacityGate

  class Redis {
    var watchList: WatchList
    var epochCapacity: Counters
    var lastSeen: nat

    constructor ()
      ensures watchList == map[] && epochCapacity == map[] && lastSeen == 0
    {
      watchList, epochCapacity, lastSeen := map[], map[], 0;
    }
  }

  /** How a job ends: sent back to the queue for lack of capacity, failed, or published. */
  datatype JobResult = Delayed | InvalidJobType | SubmissionFailed | Submitted

  class TransactionPublisher {
    const redis: Redis

    var paused: bool
    var timers: map<string, int>
    var armed: bool
    var retried: seq<nat>

    function State(): GateState
      reads this
    {
      GateState(paused, timers, armed, retried)
    }

    /** The queue may have been left paused by an earlier process; the registry is empty. */
    constructor (redis: Redis, paused: bool)
      ensures this.redis == redis && State() == GateState(paused, map[], false, [])
    {
      this.redis, this.paused := redis, paused;
      timers, armed, retried := map[], false, [];
    }

    /** `deleteTimeout`: an unknown name is an error. */
    method DeleteTimeout() returns (ok: bool)
      modifies this`timers, this`armed
      ensures ok <==> CAPACITY_EPOCH_TIMEOUT_NAME in old(timers)
      ensures timers == old(timers) - {CAPACITY_EPOCH_TIMEOUT_NAME}
      ensures armed == (old(armed) && !ok)
    {
      ok := CAPACITY_EPOCH_TIMEOUT_NAME in timers;
      timers := timers - {CAPACITY_EPOCH_TIMEOUT_NAME};
      if ok { armed := false; }
    }

    /** `addTimeout` of a timer just set: a name already registered is an error, but the timer runs. */
    method AddTimeout(delay: int) returns (ok: bool)
      modifies this`timers, this`armed
      ensures ok <==> CAPACITY_EPOCH_TIMEOUT_NAME !in old(timers)
      ensures timers == if ok then old(timers)[CAPACITY_EPOCH_TIMEOUT_NAME := delay] else old(timers)
      ensures armed
    {
      armed := true;
      ok := CAPACITY_EPOCH_TIMEOUT_NAME !in timers;
      if ok { timers := timers[CAPACITY_EPOCH_TIMEOUT_NAME := delay]; }
    }

    /** An armed timer's name is registered. */
    predicate Named()
      reads this
    {
      armed ==> CAPACITY_EPOCH_TIMEOUT_NAME in timers
    }

    method RetryCapacityFailures(failed: seq<FailedJob>)
      modifies this`retried
      ensures retried == old(retried) + CapacityFailures(failed)
    {
      for i := 0 to |failed|
        invariant retried == old(retried) + CapacityFailures(failed[..i])
      {
        assert failed[..i + 1][..i] == failed[..i];
        if failed[i].inabilityToPay { retried := retried + [failed[i].id]; }
      }
      assert failed[..|failed|] == failed;
    }

    /** Every failure is caught and logged; the answer is then whatever was decided so far. */
    method CheckCapacity(limit: CapacityLimit, info: CapacityInfo, failed: seq<FailedJob>, fault: Fault)
      returns (admitted: bool)
      requires limit.value >= 0.0 && Named()
      modifies this
      ensures Named()
      ensures var used := Counter(redis.epochCapacity, info.currentEpoch);
              && admitted == Answers(limit, info, used, fault)
              && State() == AfterFaulty(old(State()), limit, info, used, failed, fault)
    {
      var outOfCapacity := false;
      if fault.InfoFault? { return true; }
      if fault.CounterFault? { return true; }
      var epochUsedCapacity := Counter(redis.epochCapacity, info.currentEpoch);
      outOfCapacity := info.remainingCapacity <= 0;

      if !outOfCapacity {
        GateOpenMeaning(limit, info.totalCapacityIssued, epochUsedCapacity);
        match limit {
          case Percentage(value) =>
            if !Whole(value) { return !outOfCapacity; }
            var threshold := info.totalCapacityIssued * value.Floor / 100;
            if epochUsedCapacity >= threshold { outOfCapacity := true; }
          case Amount(value) =>
            if epochUsedCapacity as real >= value { outOfCapacity := true; }
        }
      }

      if outOfCapacity {
        if fault.PauseFault? { return false; }
        paused := true;
        var blocksRemaining := info.nextEpochStart - info.currentBlockNumber;
        var epochTimeout := blocksRemaining * SECONDS_PER_BLOCK * MILLISECONDS_PER_SECOND;
        if CAPACITY_EPOCH_TIMEOUT_NAME in timers {
          var _ := DeleteTimeout();
        }
        var _ := AddTimeout(epochTimeout);
      } else {
        if fault.FailedJobsFault? { return true; }
        RetryCapacityFailures(failed);
        var _ := DeleteTimeout();
        if fault.ResumeFault? { return true; }
        paused := false;
      }
      return !outOfCapacity;
    }

    /** The timer fires and runs a check; its name stays registered meanwhile. */
    method TimerCheck(limit: CapacityLimit, info: CapacityInfo, failed: seq<FailedJob>, fault: Fault)
      requires limit.value >= 0.0 && Named() && armed
      modifies this
      ensures Named()
      ensures var used := Counter(redis.epochCapacity, info.currentEpoch);
              State() == AfterEvent(old(State()), TimerFires(Check(limit, info, used, failed, fault)))
    {
      armed := false;
      var _ := CheckCapacity(limit, info, failed, fault);
    }

    /** The check at startup. */
    method OnApplicationBootstrap(limit: CapacityLimit, info: CapacityInfo, failed: seq<FailedJob>, fault: Fault)
      requires limit.value >= 0.0 && Named()
      modifies this
      ensures Named()
      ensures var used := Counter(redis.epochCapacity, info.currentEpoch);
              State() == Checked(old(State()), Check(limit, info, used, failed, fault))
    {
      var _ := CheckCapacity(limit, info, failed, fault);
    }

    /** One job: the capacity check, the choice of success event, the submission (`submitted` is
        the transaction's hash, if signing and sending it succeeds), and the watch-list entry. */
    method Process(job: Job, limit: CapacityLimit, info: CapacityInfo, failed: seq<FailedJob>, fault: Fault,
                   submitted: Option<Hash>, birth: nat, death: nat)
      returns (result: JobResult)
      requires limit.value >= 0.0 && Named()
      modifies this, redis
      ensures Named()
      ensures var used := Counter(old(redis.epochCapacity), info.currentEpoch);
              var admitted := Answers(limit, info, used, fault);
              && State() == AfterEvent(old(State()), JobCheck(Check(limit, info, used, failed, fault)))
              && (result.Delayed? <==> !admitted)
              && (result.InvalidJobType? <==> admitted && job.txType.SiwfSignin?)
              && (result.Submitted? <==> admitted && !job.txType.SiwfSignin? && submitted.Some?)
      ensures result.Submitted? ==>
                var event := if job.txType.SiwfSignup? then UtilityBatchCompleted
                             else if job.txType.AddKey? then MsaPublicKeyAdded else HandlesHandleClaimed;
                var status :=
                  TxStatus(job.txType, job.referenceId, job.providerId, submitted.value, event, birth, death);
                FromPublisher(status) && redis.watchList == old(redis.watchList)[submitted.value := status]
      ensures !result.Submitted? ==> redis.watchList == old(redis.watchList)
      ensures redis.epochCapacity == old(redis.epochCapacity) && redis.lastSeen == old(redis.lastSeen)
      ensures old(WellKeyed(redis.watchList)) ==> WellKeyed(redis.watchList)
    {
      var admitted := CheckCapacity(limit, info, failed, fault);
      if !admitted { return Delayed; }
      var targetEvent;
      match job.txType {
        case CreateHandle => targetEvent := HandlesHandleClaimed;
        case ChangeHandle => targetEvent := HandlesHandleClaimed;
        case SiwfSignup => targetEvent := UtilityBatchCompleted;
        case AddKey => targetEvent := MsaPublicKeyAdded;
        case SiwfSignin => return InvalidJobType;
      }
      if submitted.None? { return SubmissionFailed; }
      var status := TxStatus(job.txType, job.referenceId, job.providerId, submitted.value, targetEvent, birth, death);
      assert BuildStatus(job, status.txHash, status.birth, status.death) == Some(status);
      redis.watchList := redis.watchList[submitted.value := status];
      return Submitted;
    }
  }
}
