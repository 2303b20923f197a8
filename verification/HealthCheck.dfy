/** The webhook health check: counters of consecutive failures and successes, and a named timer
    that reschedules the check with a capped exponential backoff while it fails. */
module HealthCheck {
  import opened Chain

  const MILLISECONDS_PER_SECOND: nat := 1000

  const HEALTH_CHECK_TIMEOUT_NAME := "health_check"

  datatype WebhookConfig = WebhookConfig(
    healthCheckMaxRetries: nat,
    healthCheckSuccessThreshold: nat,
    healthCheckMaxRetryIntervalSeconds: nat,
    webhookRetryIntervalSeconds: nat)

  datatype Signal = Shutdown | Healthy

  type TimerId = nat

  /** `pending` holds the timers set and not yet fired or cleared, with their delays; `next` is the
      next timer to be set. The registry keeps a timer under its name after it has fired, until
      the name is deleted. */
  datatype Health = Health(
    failed: nat,
    successes: nat,
    registry: map<string, TimerId>,
    pending: map<TimerId, nat>,
    next: TimerId,
    emitted: seq<Signal>)

  function Min(x: nat, y: nat): nat { if x < y then x else y }

  function Pow2(n: nat): nat {
    if n == 0 then 1 else 2 * Pow2(n - 1)
  }

  /** The delay in milliseconds after the `k`-th consecutive failure. */
  function RetryDelay(c: WebhookConfig, k: nat): nat
    requires k > 0
  {
    Min(Pow2(k - 1) * MILLISECONDS_PER_SECOND, c.healthCheckMaxRetryIntervalSeconds * MILLISECONDS_PER_SECOND)
  }

  /** Deleting a name that is not registered, or adding one that is, raises an error. */
  datatype Outcome = Done(health: Health) | Thrown(health: Health)

  /** `deleteTimeout`, which clears the timer registered, then `addTimeout` of a new one. An unknown
      name is an error, raised before the new timer is set. */
  function Rescheduled(h: Health, delay: nat): Outcome {
    if HEALTH_CHECK_TIMEOUT_NAME !in h.registry then Thrown(h)
    else
      Done(h.(registry := h.registry[HEALTH_CHECK_TIMEOUT_NAME := h.next],
              pending := (h.pending - {h.registry[HEALTH_CHECK_TIMEOUT_NAME]})[h.next := delay],
              next := h.next + 1))
  }

  /** One check, after its timer has fired. */
  function Check(c: WebhookConfig, h: Health, ok: bool): Outcome {
    var counted :=
      if ok then h.(successes := h.successes + 1, failed := 0)
      else h.(successes := 0, failed := h.failed + 1);
    if !ok then
      if counted.failed >= c.healthCheckMaxRetries then Done(counted.(emitted := counted.emitted + [Shutdown]))
      else Rescheduled(counted, RetryDelay(c, counted.failed))
    else
      if counted.successes >= c.healthCheckSuccessThreshold then Done(counted.(emitted := counted.emitted + [Healthy]))
      else Rescheduled(counted, c.webhookRetryIntervalSeconds)
  }

  /** The 'webhook.unhealthy' event. The timer is set before its name turns out to be taken. */
  function Start(h: Health): Outcome {
    var reset := h.(failed := 0, successes := 0, pending := h.pending[h.next := 0], next := h.next + 1);
    if HEALTH_CHECK_TIMEOUT_NAME in h.registry then Thrown(reset)
    else Done(reset.(registry := h.registry[HEALTH_CHECK_TIMEOUT_NAME := h.next]))
  }

  class ProviderWebhookService {
    const config: WebhookConfig

    var failedHealthChecks: nat
    var successfulHealthChecks: nat
    var registry: map<string, TimerId>
    var pending: map<TimerId, nat>
    var next: TimerId
    var emitted: seq<Signal>

    function State(): Health
      reads this
    {
      Health(failedHealthChecks, successfulHealthChecks, registry, pending, next, emitted)
    }

    constructor (config: WebhookConfig)
      ensures this.config == config && State() == Health(0, 0, map[], map[], 0, [])
    {
      this.config := config;
      failedHealthChecks, successfulHealthChecks := 0, 0;
      registry, pending, next, emitted := map[], map[], 0, [];
    }

    /** `setTimeout`. */
    method SetTimeout(delay: nat) returns (timer: TimerId)
      modifies this`pending, this`next
      ensures timer == old(next) && next == old(next) + 1 && pending == old(pending)[timer := delay]
    {
      timer := next;
      pending := pending[timer := delay];
      next := next + 1;
    }

    /** `deleteTimeout`, then `addTimeout` under the same name. */
    method Reschedule(delay: nat) returns (threw: bool)
      modifies this`registry, this`pending, this`next
      ensures (if threw then Thrown(State()) else Done(State())) == Rescheduled(old(State()), delay)
    {
      if HEALTH_CHECK_TIMEOUT_NAME !in registry { return true; }
      pending := pending - {registry[HEALTH_CHECK_TIMEOUT_NAME]};
      registry := registry - {HEALTH_CHECK_TIMEOUT_NAME};
      var timer := SetTimeout(delay);
      registry := registry[HEALTH_CHECK_TIMEOUT_NAME := timer];
      assert registry == old(registry)[HEALTH_CHECK_TIMEOUT_NAME := timer];
      return false;
    }

    /** `reachable` is the outcome of the request to `/health`. */
    method CheckProviderWebhook(reachable: bool) returns (threw: bool)
      modifies this
      ensures (if threw then Thrown(State()) else Done(State())) == Check(config, old(State()), reachable)
    {
      if reachable {
        successfulHealthChecks := successfulHealthChecks + 1;
        failedHealthChecks := 0;
      } else {
        successfulHealthChecks := 0;
        failedHealthChecks := failedHealthChecks + 1;
      }

      if failedHealthChecks > 0 {
        if failedHealthChecks >= config.healthCheckMaxRetries {
          emitted := emitted + [Shutdown];
          return false;
        }
        threw := Reschedule(RetryDelay(config, failedHealthChecks));
      } else if successfulHealthChecks > 0 {
        if successfulHealthChecks >= config.healthCheckSuccessThreshold {
          emitted := emitted + [Healthy];
          return false;
        } else {
          threw := Reschedule(config.webhookRetryIntervalSeconds);
        }
      }
    }

    method StartWebhookHealthCheck() returns (threw: bool)
      modifies this
      ensures (if threw then Thrown(State()) else Done(State())) == Start(old(State()))
    {
      failedHealthChecks := 0;
      successfulHealthChecks := 0;
      var timer := SetTimeout(0);
      if HEALTH_CHECK_TIMEOUT_NAME in registry { return true; }
      registry := registry[HEALTH_CHECK_TIMEOUT_NAME := timer];
      return false;
    }
  }

  // ---- One session ----
  /** A timer fires and its check runs. */
  function Fire(c: WebhookConfig, h: Health, timer: TimerId, ok: bool): Outcome {
    Check(c, h.(pending := h.pending - {timer}), ok)
  }

  /** The last timer set is still pending. */
  predicate Armed(h: Health) {
    h.next > 0 && h.next - 1 in h.pending
  }

  function Delay(h: Health): nat
    requires Armed(h)
  {
    h.pending[h.next - 1]
  }

  /** The state after the checks of a session whose requests end in `outcomes`; once no timer is
      pending no check runs, and the remaining outcomes are never asked for. */
  function Session(c: WebhookConfig, h: Health, outcomes: seq<bool>): Health {
    if outcomes == [] then Start(h).health
    else
      var before := Session(c, h, outcomes[..|outcomes| - 1]);
      if !Armed(before) then before
      else Fire(c, before, before.next - 1, outcomes[|outcomes| - 1]).health
  }

  /** The number of equal outcomes at the end. */
  function Trailing(outcomes: seq<bool>, ok: bool): nat {
    if outcomes == [] || outcomes[|outcomes| - 1] != ok then 0
    else Trailing(outcomes[..|outcomes| - 1], ok) + 1
  }

  /** The last `k` outcomes are `ok`, and the one before them, if any, is not. */
  ghost predicate EndsIn(outcomes: seq<bool>, ok: bool, k: nat) {
    && k <= |outcomes|
    && (forall i :: |outcomes| - k <= i < |outcomes| ==> outcomes[i] == ok)
    && (k < |outcomes| ==> outcomes[|outcomes| - k - 1] != ok)
  }

  lemma {:induction false} TrailingMeaning(outcomes: seq<bool>, ok: bool)
    ensures EndsIn(outcomes, ok, Trailing(outcomes, ok))
  {
    if outcomes == [] {
    } else {
      TrailingMeaning(outcomes[..|outcomes| - 1], ok);
    }
  }

  function AtLeastOne(n: nat): nat { if n == 0 then 1 else n }

  /** The outcomes end in a failure run long enough to shut down. */
  predicate FailsOut(c: WebhookConfig, outcomes: seq<bool>) {
    Trailing(outcomes, false) >= AtLeastOne(c.healthCheckMaxRetries)
  }

  /** The outcomes end in a success run long enough to resume. */
  predicate Recovers(c: WebhookConfig, outcomes: seq<bool>) {
    Trailing(outcomes, true) >= AtLeastOne(c.healthCheckSuccessThreshold)
  }

  /** No prefix of the outcomes ends the session. */
  ghost predicate Undecided(c: WebhookConfig, outcomes: seq<bool>) {
    forall k :: 0 <= k <= |outcomes| ==> !FailsOut(c, outcomes[..k]) && !Recovers(c, outcomes[..k])
  }

  lemma UndecidedPrefix(c: WebhookConfig, outcomes: seq<bool>)
    requires outcomes != []
    ensures Undecided(c, outcomes) <==>
              Undecided(c, outcomes[..|outcomes| - 1]) && !FailsOut(c, outcomes) && !Recovers(c, outcomes)
  {
    var init := outcomes[..|outcomes| - 1];
    assert forall k :: 0 <= k <= |init| ==> init[..k] == outcomes[..k];
    assert outcomes[..|outcomes|] == outcomes;
  }

  /** Exactly one timer is pending, the last one set. */
  predicate OneArmed(h: Health) {
    h.next > 0 && h.pending.Keys == {h.next - 1}
  }

  function OtherNames(h: Health): map<string, TimerId> {
    h.registry - {HEALTH_CHECK_TIMEOUT_NAME}
  }

  /** While no run is long enough, the two counters are the lengths of the trailing runs, nothing is
      emitted, and exactly one timer is pending - registered under the one name, but for the timer
      that starts a session whose name was taken. */
  lemma {:induction false} CountersAreTrailingRuns(c: WebhookConfig, h: Health, outcomes: seq<bool>)
    requires h.pending == map[] && Undecided(c, outcomes)
    ensures var s := Session(c, h, outcomes);
            && s.failed == Trailing(outcomes, false) && s.successes == Trailing(outcomes, true)
            && s.emitted == h.emitted && OneArmed(s)
            && HEALTH_CHECK_TIMEOUT_NAME in s.registry && OtherNames(s) == OtherNames(h)
            && (outcomes != [] || HEALTH_CHECK_TIMEOUT_NAME !in h.registry ==>
                  s.registry[HEALTH_CHECK_TIMEOUT_NAME] == s.next - 1)
  {
    if outcomes == [] {
    } else {
      UndecidedPrefix(c, outcomes);
      CountersAreTrailingRuns(c, h, outcomes[..|outcomes| - 1]);
    }
  }

  /** The first prefix that decides ends the session: it emits that one signal, no timer is left
      pending, and no further outcome changes anything. */
  lemma {:induction false} FirstLongRunDecides(c: WebhookConfig, h: Health, outcomes: seq<bool>, k: nat)
    requires h.pending == map[]
    requires 0 < k <= |outcomes| && Undecided(c, outcomes[..k - 1])
    requires FailsOut(c, outcomes[..k]) || Recovers(c, outcomes[..k])
    ensures var s := Session(c, h, outcomes);
            && s.emitted == h.emitted + [if FailsOut(c, outcomes[..k]) then Shutdown else Healthy]
            && s.failed == Trailing(outcomes[..k], false) && s.successes == Trailing(outcomes[..k], true)
            && s.pending == map[] && HEALTH_CHECK_TIMEOUT_NAME in s.registry && OtherNames(s) == OtherNames(h)
    decreases |outcomes|
  {
    var init := outcomes[..|outcomes| - 1];
    if k < |outcomes| {
      assert init[..k] == outcomes[..k] && init[..k - 1] == outcomes[..k - 1];
      FirstLongRunDecides(c, h, init, k);
    } else {
      assert outcomes[..k] == outcomes && outcomes[..k - 1] == init;
      CountersAreTrailingRuns(c, h, init);
    }
  }

  /** A session is decided iff some prefix ends in a long enough run, and then no timer is pending
      and the name stays registered; until then it goes on, and no check of it ever throws. */
  lemma {:induction false} EndsIffDecided(c: WebhookConfig, h: Health, outcomes: seq<bool>)
    requires h.pending == map[]
    ensures Session(c, h, outcomes).pending == map[] <==> !Undecided(c, outcomes)
    ensures HEALTH_CHECK_TIMEOUT_NAME in Session(c, h, outcomes).registry
    ensures Undecided(c, outcomes) ==>
              var s := Session(c, h, outcomes);
              Armed(s) && Fire(c, s, s.next - 1, true).Done? && Fire(c, s, s.next - 1, false).Done?
  {
    if Undecided(c, outcomes) {
      CountersAreTrailingRuns(c, h, outcomes);
    } else if outcomes != [] {
      UndecidedPrefix(c, outcomes);
      var init := outcomes[..|outcomes| - 1];
      EndsIffDecided(c, h, init);
      if Undecided(c, init) {
        assert outcomes[..|outcomes|] == outcomes;
        FirstLongRunDecides(c, h, outcomes, |outcomes|);
      }
    }
  }

  /** A session started after one that ended raises an error, since the name is still registered; but
      its check is set already, and it goes just as the first did. */
  lemma NextSessionThrowsAndRuns(c: WebhookConfig, h: Health, outcomes: seq<bool>, later: seq<bool>)
    requires h.pending == map[] && !Undecided(c, outcomes)
    ensures var ended := Session(c, h, outcomes);
            && Start(ended).Thrown? && OneArmed(Start(ended).health)
            && (Session(c, ended, later).pending == map[] <==> !Undecided(c, later))
            && (Undecided(c, later) ==>
                  && Session(c, ended, later).failed == Trailing(later, false)
                  && Session(c, ended, later).successes == Trailing(later, true)
                  && Session(c, ended, later).emitted == ended.emitted)
  {
    EndsIffDecided(c, h, outcomes);
    var ended := Session(c, h, outcomes);
    EndsIffDecided(c, ended, later);
    if Undecided(c, later) { CountersAreTrailingRuns(c, ended, later); }
  }

  /** A check raises an error exactly if it does not end the session and its name is not registered;
      the outcome is counted, and no timer set. */
  lemma CheckThrows(c: WebhookConfig, h: Health, ok: bool)
    ensures Check(c, h, ok).Thrown? <==>
              && HEALTH_CHECK_TIMEOUT_NAME !in h.registry
              && (if ok then h.successes + 1 < c.healthCheckSuccessThreshold
                  else h.failed + 1 < c.healthCheckMaxRetries)
    ensures Check(c, h, ok).Thrown? ==>
              var r := Check(c, h, ok).health;
              && r.pending == h.pending && r.registry == h.registry && r.emitted == h.emitted
              && r.failed == (if ok then 0 else h.failed + 1) && r.successes == (if ok then h.successes + 1 else 0)
  {}

  // ---- Several timers ----
  datatype Event = Unhealthy | Fires(timer: TimerId, ok: bool)

  predicate Possible(h: Health, ev: Event) {
    ev.Fires? ==> ev.timer in h.pending
  }

  function AfterEvent(c: WebhookConfig, h: Health, ev: Event): Health {
    match ev
    case Unhealthy => Start(h).health
    case Fires(timer, ok) => Fire(c, h, timer, ok).health
  }

  function AfterEvents(c: WebhookConfig, h: Health, events: seq<Event>): Health {
    if events == [] then h
    else AfterEvent(c, AfterEvents(c, h, events[..|events| - 1]), events[|events| - 1])
  }

  ghost predicate AllPossible(c: WebhookConfig, h: Health, events: seq<Event>) {
    forall i :: 0 <= i < |events| ==> Possible(AfterEvents(c, h, events[..i]), events[i])
  }

  /** A timer not yet set is not pending. */
  ghost predicate Numbered(h: Health) {
    forall timer :: timer in h.pending ==> timer < h.next
  }

  ghost predicate AtMostOne(h: Health) {
    forall x, y :: x in h.pending && y in h.pending ==> x == y
  }

  /** The event comes while no timer is pending, or it is no start at all. */
  predicate Timely(h: Health, ev: Event) {
    ev.Unhealthy? ==> h.pending == map[]
  }

  lemma OneTimerUnlessUntimely(c: WebhookConfig, h: Health, ev: Event)
    requires Numbered(h) && AtMostOne(h) && Possible(h, ev)
    ensures Numbered(AfterEvent(c, h, ev))
    ensures AtMostOne(AfterEvent(c, h, ev)) <==> Timely(h, ev)
  {
    if ev.Unhealthy? && h.pending != map[] {
      var timer :| timer in h.pending;
      assert timer in Start(h).health.pending && h.next in Start(h).health.pending;
    }
  }

  ghost predicate OneTimerAt(c: WebhookConfig, h: Health, events: seq<Event>, i: nat)
    requires i <= |events|
  {
    AtMostOne(AfterEvents(c, h, events[..i])) && Numbered(AfterEvents(c, h, events[..i]))
  }

  ghost predicate TimelyAt(c: WebhookConfig, h: Health, events: seq<Event>, i: nat)
    requires i < |events|
  {
    Timely(AfterEvents(c, h, events[..i]), events[i])
  }

  lemma OneTimerNext(c: WebhookConfig, h: Health, events: seq<Event>, i: nat)
    requires i < |events| && AllPossible(c, h, events) && OneTimerAt(c, h, events, i)
    ensures OneTimerAt(c, h, events, i + 1) <==> TimelyAt(c, h, events, i)
  {
    assert events[..i + 1][..i] == events[..i];
    OneTimerUnlessUntimely(c, AfterEvents(c, h, events[..i]), events[i]);
  }

  lemma {:induction false} OneTimerThroughout(c: WebhookConfig, h: Health, events: seq<Event>, i: nat)
    requires Numbered(h) && AtMostOne(h) && AllPossible(c, h, events) && i <= |events|
    requires forall m: nat :: m < |events| ==> TimelyAt(c, h, events, m)
    ensures OneTimerAt(c, h, events, i)
  {
    if i == 0 {
    } else {
      OneTimerThroughout(c, h, events, i - 1);
      OneTimerNext(c, h, events, i - 1);
    }
  }

  /** Over any sequence of events there is never more than one timer pending iff no session is
      started while one is. */
  lemma OneTimerIffTimely(c: WebhookConfig, h: Health, events: seq<Event>)
    requires Numbered(h) && AtMostOne(h) && AllPossible(c, h, events)
    ensures (forall i: nat :: i <= |events| ==> OneTimerAt(c, h, events, i))
       <==> (forall i: nat :: i < |events| ==> TimelyAt(c, h, events, i))
  {
    if forall i: nat :: i <= |events| ==> OneTimerAt(c, h, events, i) {
      forall i: nat | i < |events| ensures TimelyAt(c, h, events, i) {
        assert OneTimerAt(c, h, events, i + 1);
        OneTimerNext(c, h, events, i);
      }
    }
    if forall i: nat :: i < |events| ==> TimelyAt(c, h, events, i) {
      forall i: nat | i <= |events| ensures OneTimerAt(c, h, events, i) { OneTimerThroughout(c, h, events, i); }
    }
  }

  /** A check with this outcome, the first of a session, ends it. */
  predicate EndsAtOnce(c: WebhookConfig, ok: bool) {
    if ok then c.healthCheckSuccessThreshold <= 1 else c.healthCheckMaxRetries <= 1
  }

  /** Started while the registered timer is pending: the old timer outlives the new one's check iff
      that check ends the session at once. */
  lemma OldTimerOutlives(c: WebhookConfig, h: Health, previous: TimerId, ok: bool)
    requires Numbered(h) && previous in h.pending
    requires HEALTH_CHECK_TIMEOUT_NAME in h.registry && h.registry[HEALTH_CHECK_TIMEOUT_NAME] == previous
    ensures previous in Fire(c, Start(h).health, h.next, ok).health.pending <==> EndsAtOnce(c, ok)
  {}

  /** And then its check follows the end of the session, and emits the same signal again. */
  lemma SignalRepeated(c: WebhookConfig, h: Health, previous: TimerId, ok: bool)
    requires Numbered(h) && previous in h.pending && EndsAtOnce(c, ok)
    ensures var started := AfterEvent(c, h, Unhealthy);
            var ended := AfterEvent(c, started, Fires(h.next, ok));
            var signal := if ok then Healthy else Shutdown;
            && Possible(started, Fires(h.next, ok)) && ended.emitted == h.emitted + [signal]
            && Possible(ended, Fires(previous, ok))
            && AfterEvent(c, ended, Fires(previous, ok)).emitted == h.emitted + [signal, signal]
  {
    var signal := if ok then Healthy else Shutdown;
    assert h.emitted + [signal] + [signal] == h.emitted + [signal, signal];
  }

  // ---- Backoff ----
  lemma {:induction false} Pow2Monotone(m: nat, n: nat)
    requires m <= n
    ensures Pow2(m) <= Pow2(n)
  {
    if n <= m {
    } else {
      Pow2Monotone(m, n - 1);
    }
  }

  /** Along a failure streak the delays never fall, and never pass the cap. */
  lemma DelaysRiseToCap(c: WebhookConfig, j: nat, k: nat)
    requires 0 < j <= k
    ensures RetryDelay(c, j) <= RetryDelay(c, k) <= c.healthCheckMaxRetryIntervalSeconds * MILLISECONDS_PER_SECOND
  {
    Pow2Monotone(j - 1, k - 1);
  }

  /** The delays after the first `n` consecutive failures, added up. */
  function TotalDelay(c: WebhookConfig, n: nat): nat {
    if n == 0 then 0 else TotalDelay(c, n - 1) + RetryDelay(c, n)
  }

  /** The delays of the timers that fired in a session. */
  function Waited(c: WebhookConfig, h: Health, outcomes: seq<bool>): nat {
    if outcomes == [] then 0
    else
      var init := outcomes[..|outcomes| - 1];
      var before := Session(c, h, init);
      Waited(c, h, init) + if Armed(before) then Delay(before) else 0
  }

  /** The delay of the timer pending in a session: zero at first, the configured interval after a check
      that succeeds, that failure's own after one that fails. */
  lemma LastDelay(c: WebhookConfig, h: Health, outcomes: seq<bool>)
    requires h.pending == map[] && Undecided(c, outcomes)
    ensures Armed(Session(c, h, outcomes))
    ensures Delay(Session(c, h, outcomes))
         == if outcomes == [] then 0
            else if outcomes[|outcomes| - 1] then c.webhookRetryIntervalSeconds
            else RetryDelay(c, Trailing(outcomes, false))
  {
    CountersAreTrailingRuns(c, h, outcomes);
    if outcomes != [] {
      UndecidedPrefix(c, outcomes);
      CountersAreTrailingRuns(c, h, outcomes[..|outcomes| - 1]);
    }
  }

  lemma {:induction false} AllFailures(c: WebhookConfig, h: Health, outcomes: seq<bool>)
    requires h.pending == map[]
    requires (forall i :: 0 <= i < |outcomes| ==> !outcomes[i]) && |outcomes| <= AtLeastOne(c.healthCheckMaxRetries)
    ensures Trailing(outcomes, false) == |outcomes| && Trailing(outcomes, true) == 0
    ensures |outcomes| < AtLeastOne(c.healthCheckMaxRetries) ==> Undecided(c, outcomes)
    ensures outcomes != [] ==> Waited(c, h, outcomes) == TotalDelay(c, |outcomes| - 1)
  {
    if outcomes != [] {
      var init := outcomes[..|outcomes| - 1];
      AllFailures(c, h, init);
      UndecidedPrefix(c, outcomes);
      CountersAreTrailingRuns(c, h, init);
      if init != [] {
        LastDelay(c, h, init);
      }
    } else {
      assert outcomes[..0] == outcomes;
    }
  }

  /** If every request fails, shutdown comes after exactly max(1, maxRetries) checks, and the time
      waited is the sum of the delays after all of them but the last. */
  lemma TimeToShutdown(c: WebhookConfig, h: Health, outcomes: seq<bool>)
    requires h.pending == map[]
    requires (forall i :: 0 <= i < |outcomes| ==> !outcomes[i]) && |outcomes| == AtLeastOne(c.healthCheckMaxRetries)
    ensures Session(c, h, outcomes).emitted == h.emitted + [Shutdown]
    ensures Undecided(c, outcomes[..|outcomes| - 1])
    ensures Waited(c, h, outcomes) == TotalDelay(c, |outcomes| - 1)
  {
    var init := outcomes[..|outcomes| - 1];
    AllFailures(c, h, init);
    AllFailures(c, h, outcomes);
    assert outcomes[..|outcomes|] == outcomes;
    FirstLongRunDecides(c, h, outcomes, |outcomes|);
  }

  /** The sum in closed form: the powers of two below the cap, then the cap itself. */
  lemma {:induction false} TotalDelayClosedForm(c: WebhookConfig, n: nat, uncapped: nat)
    requires uncapped <= n
    requires uncapped > 0 ==> Pow2(uncapped - 1) <= c.healthCheckMaxRetryIntervalSeconds
    requires uncapped < n ==> c.healthCheckMaxRetryIntervalSeconds <= Pow2(uncapped)
    ensures TotalDelay(c, n) == (Pow2(uncapped) - 1 + Times(c.healthCheckMaxRetryIntervalSeconds, n - uncapped)) * 1000
  {
    if uncapped < n {
      Pow2Monotone(uncapped, n - 1);
      TotalDelayClosedForm(c, n - 1, uncapped);
    } else if n > 0 {
      if n > 1 { Pow2Monotone(n - 2, n - 1); }
      TotalDelayClosedForm(c, n - 1, n - 1);
    }
  }

  lemma {:induction false} TotalDelayBounded(c: WebhookConfig, n: nat)
    ensures TotalDelay(c, n) <= Times(c.healthCheckMaxRetryIntervalSeconds, n) * MILLISECONDS_PER_SECOND
  {
    if n == 0 {
    } else {
      TotalDelayBounded(c, n - 1);
    }
  }
}
