/** How far a run can overshoot the capacity limit of an epoch: admission compares the limit with
    a counter that lags behind the chain, so the overshoot is what is admitted and not yet
    accounted for. */
module Overshoot {
  import opened Chain
  import opened Transactions
  import opened BlockPass
  import opened CapacityGate
  import opened Protocol
  import opened Accounting

  lemma {:induction false} TimesIsProduct(c: nat, n: nat)
    ensures Times(c, n) == c * n
  {
    if n == 0 {
    } else {
      TimesIsProduct(c, n - 1);
      assert c * n == c * (n - 1) + c;
    }
  }

  lemma {:induction false} TimesAdds(c: nat, m: nat, n: nat)
    ensures Times(c, m + n) == Times(c, m) + Times(c, n)
  {
    if n == 0 {
    } else {
      TimesAdds(c, m, n - 1);
    }
  }

  /** All that the service's transactions have withdrawn in the blocks of `e`, counted or not. */
  function Spent(s: State, e: nat): nat {
    Withdrawn(s.chain, e, s.published.Keys)
  }

  /** Published and not yet in the counters. */
  function Outstanding(s: State): set<Hash> {
    s.published.Keys - Accounted(s)
  }

  /** Admitted jobs not yet published, and published ones not yet accounted for. */
  function Load(s: State): nat {
    s.tickets + |Outstanding(s)|
  }

  /** Watched and not included yet. */
  ghost function Waiting(s: State): set<Hash> {
    set h | h in s.watch.Keys && !Included(s.chain, h)
  }

  ghost predicate CostOf(s: State, e: nat, cost: nat, h: Hash) {
    h in s.published ==> Withdrawn(s.chain, e, {h}) <= cost
  }

  ghost predicate CostsAtMost(s: State, e: nat, cost: nat) {
    forall h :: CostOf(s, e, cost, h)
  }

  lemma SameCosts(s: State, t: State, e: nat, cost: nat)
    requires CostsAtMost(s, e, cost) && t.chain == s.chain && t.published == s.published
    ensures CostsAtMost(t, e, cost)
  {
    forall h ensures CostOf(t, e, cost, h) { assert CostOf(s, e, cost, h); }
  }

  /** Until the epoch is over: what is spent, plus what the waiting jobs may yet spend. */
  ghost predicate WithinBudget(s: State, e: nat, cost: nat, budget: nat) {
    && Spent(s, e) <= budget
    && (CurrentEpoch(s) <= e ==> Spent(s, e) + Times(cost, s.tickets + |Waiting(s)|) <= budget)
  }

  lemma {:induction false} NothingInLaterEpoch(chain: seq<Block>, e: nat, hashes: set<Hash>)
    requires forall k :: 0 <= k < |chain| ==> chain[k].epoch != e
    ensures Withdrawn(chain, e, hashes) == 0
  {
    if chain == [] {
    } else {
      NothingInLaterEpoch(chain[..|chain| - 1], e, hashes);
    }
  }

  lemma TimesMonotone(c: nat, m: nat, n: nat)
    requires m <= n
    ensures Times(c, m) <= Times(c, n)
  {
    TimesAdds(c, m, n - m);
  }

  /** Only published transactions are accounted for, and the waiting ones are not. */
  ghost predicate SetsOk(s: State) {
    Accounted(s) <= s.published.Keys && Waiting(s) <= Outstanding(s)
  }

  lemma SetsAreOk(c: Config, s: State)
    requires Base(c, s)
    ensures SetsOk(s)
  {
    forall h | h in Handled(s) ensures h in s.published && h !in Waiting(s) {
      HandledIncluded(s, h);
      assert Included(s.chain, h);
    }
  }

  lemma SizeOfParts(whole: set<Hash>, part: set<Hash>)
    requires part <= whole
    ensures |whole| == |whole - part| + |part|
  {
    assert whole == (whole - part) + part;
  }

  /** What the accounted transactions have not withdrawn, the others have that are not waiting. */
  lemma WithdrawnInParts(chain: seq<Block>, e: nat, cost: nat, accounted: set<Hash>, outstanding: set<Hash>,
                         waiting: set<Hash>)
    requires accounted !! outstanding && waiting <= outstanding
    requires forall h :: h in waiting ==> !Included(chain, h)
    requires forall h :: h in outstanding ==> Withdrawn(chain, e, {h}) <= cost
    ensures |waiting| <= |outstanding|
    ensures Withdrawn(chain, e, accounted + outstanding)
         <= Withdrawn(chain, e, accounted) + Times(cost, |outstanding| - |waiting|)
  {
    var included := outstanding - waiting;
    WithdrawnSplits(chain, e, accounted, outstanding);
    WithdrawnSplits(chain, e, included, waiting);
    assert outstanding == included + waiting;
    NothingWithdrawn(chain, e, waiting);
    SizeOfParts(outstanding, waiting);
    WithdrawnBounded(chain, e, included, cost);
  }

  lemma Covered(spent: nat, accounted: nat, cost: nat, tickets: nat, waiting: nat, outstanding: nat)
    requires waiting <= outstanding && spent <= accounted + Times(cost, outstanding - waiting)
    ensures spent + Times(cost, tickets + waiting) <= accounted + Times(cost, tickets + outstanding)
  {
    TimesAdds(cost, tickets + waiting, outstanding - waiting);
  }

  lemma EachCosts(s: State, e: nat, cost: nat)
    requires CostsAtMost(s, e, cost)
    ensures forall h :: h in Outstanding(s) ==> Withdrawn(s.chain, e, {h}) <= cost
  {
    forall h | h in Outstanding(s) ensures Withdrawn(s.chain, e, {h}) <= cost { assert CostOf(s, e, cost, h); }
  }

  lemma PublishedInParts(s: State)
    requires SetsOk(s)
    ensures s.published.Keys == Accounted(s) + Outstanding(s) && Accounted(s) !! Outstanding(s)
    ensures forall h :: h in Waiting(s) ==> !Included(s.chain, h)
  {}

  lemma SpentInParts(s: State, e: nat, cost: nat)
    requires SetsOk(s) && CostsAtMost(s, e, cost)
    ensures |Waiting(s)| <= |Outstanding(s)|
    ensures Spent(s, e) <= Withdrawn(s.chain, e, Accounted(s)) + Times(cost, |Outstanding(s)| - |Waiting(s)|)
  {
    EachCosts(s, e, cost);
    PublishedInParts(s);
    WithdrawnInParts(s.chain, e, cost, Accounted(s), Outstanding(s), Waiting(s));
  }

  /** What the outstanding transactions have already spent, plus the waiting ones' allowance, is
      covered by the load. */
  lemma OutstandingCovered(s: State, e: nat, cost: nat)
    requires SetsOk(s) && CostsAtMost(s, e, cost)
    ensures Spent(s, e) + Times(cost, s.tickets + |Waiting(s)|)
         <= Withdrawn(s.chain, e, Accounted(s)) + Times(cost, Load(s))
  {
    SpentInParts(s, e, cost);
    Covered(Spent(s, e), Withdrawn(s.chain, e, Accounted(s)), cost, s.tickets, |Waiting(s)|, |Outstanding(s)|);
  }

  /** The open gate bounds what the accounted transactions withdrew in the current epoch, but for
      lost updates; in a later epoch they have withdrawn nothing. */
  lemma AccountedBelow(s: State, e: nat, threshold: int, recounted: nat, uncounted: nat)
    requires ChainOk(s) && Balanced(s, e, recounted, uncounted) && CurrentEpoch(s) <= e
    requires CurrentEpoch(s) == e ==> Counter(s.counters, e) < threshold
    ensures Withdrawn(s.chain, e, Accounted(s)) <= Max(threshold - 1, 0) + uncounted
  {
    if CurrentEpoch(s) < e {
      NothingInLaterEpoch(s.chain, e, Accounted(s));
    }
  }

  lemma TicketWaits(s: State)
    ensures Waiting(s.(tickets := s.tickets + 1)) == Waiting(s)
  {
    assert s.(tickets := s.tickets + 1).chain == s.chain;
  }

  lemma TicketOnly(s: State, e: nat)
    ensures var t := s.(tickets := s.tickets + 1);
            && Waiting(t) == Waiting(s) && Spent(t, e) == Spent(s, e) && CurrentEpoch(t) == CurrentEpoch(s)
            && Accounted(t) == Accounted(s) && Load(t) == Load(s) + 1
  {
    var t := s.(tickets := s.tickets + 1);
    TicketWaits(s);
    assert t.published == s.published && t.watch == s.watch && t.pc == s.pc && t.chain == s.chain;
    assert Handled(t) == Handled(s);
    assert Outstanding(t) == Outstanding(s);
  }

  lemma OneMoreTicket(spent: nat, accounted: nat, cost: nat, open: nat, load: nat, k: nat, limit: nat)
    requires spent + Times(cost, open) <= accounted + Times(cost, load)
    requires accounted <= limit && load + 1 <= k
    ensures spent + Times(cost, open + 1) <= limit + Times(cost, k)
  {
    TimesMonotone(cost, load + 1, k);
  }

  /** Before the epoch is over, a budget that covers the load has room for one more ticket. */
  lemma RoomForOne(s: State, e: nat, cost: nat, k: nat, limit: nat)
    requires SetsOk(s) && CostsAtMost(s, e, cost)
    requires Withdrawn(s.chain, e, Accounted(s)) <= limit
    requires Load(s) + 1 <= k
    ensures Spent(s, e) + Times(cost, s.tickets + |Waiting(s)| + 1) <= limit + Times(cost, k)
  {
    OutstandingCovered(s, e, cost);
    OneMoreTicket(Spent(s, e), Withdrawn(s.chain, e, Accounted(s)), cost, s.tickets + |Waiting(s)|, Load(s), k, limit);
  }

  /** A job admitted below the threshold stays within the budget, if its load does. */
  lemma BudgetAdmit(s: State, e: nat, cost: nat, k: nat, limit: nat)
    requires SetsOk(s) && CostsAtMost(s, e, cost)
    requires CurrentEpoch(s) <= e ==> Withdrawn(s.chain, e, Accounted(s)) <= limit
    requires WithinBudget(s, e, cost, limit + Times(cost, k))
    requires Load(s) + 1 <= k
    ensures WithinBudget(s.(tickets := s.tickets + 1), e, cost, limit + Times(cost, k))
  {
    TicketOnly(s, e);
    if CurrentEpoch(s) <= e { RoomForOne(s, e, cost, k, limit); }
  }

  /** The budget of an epoch: what the gate lets through, and what it does not see for lost updates. */
  function Budget(threshold: int, cost: nat, k: nat, uncounted: nat): nat {
    Max(threshold - 1, 0) + uncounted + Times(cost, k)
  }

  lemma AdmittedBelow(c: Config, s: State, remaining: nat, e: nat, threshold: int)
    requires Enabled(c, s, Admit(remaining)) && c.threshold(e) == Some(threshold)
    ensures CurrentEpoch(s) == e ==> Counter(s.counters, e) < threshold
    ensures Next(c, s, Admit(remaining)) == s.(tickets := s.tickets + 1)
  {}

  /** The publisher's answer is the step's guard: with its queries answered from the state at hand and
      the limit that the epoch's threshold comes from, a check admits a job exactly if admission
      is a step. */
  lemma AdmissionIsStep(c: Config, s: State, limit: CapacityLimit, info: CapacityInfo, fault: Fault)
    requires !fault.InfoFault? && !fault.CounterFault? && info.currentEpoch == CurrentEpoch(s)
    requires c.threshold(CurrentEpoch(s)) == Threshold(limit, info.totalCapacityIssued)
    ensures Answers(limit, info, Counter(s.counters, info.currentEpoch), fault)
       <==> Enabled(c, s, Admit(info.remainingCapacity))
  {}

  /** The published transactions that a new block includes. */
  function Newcomers(s: State, b: Block): set<Hash> {
    PendingAmong(b.extrinsics, s.published.Keys)
  }

  lemma NewcomersWaited(c: Config, s: State, b: Block)
    requires Base(c, s) && CanGrow(s, b)
    ensures Newcomers(s, b) <= Waiting(s)
  {
    forall h | h in Newcomers(s, b) ensures h in Waiting(s) {
      if h in Settled(s) { SettledBehind(c, s, h, b); }
    }
  }

  lemma WaitingShrinks(s: State, b: Block)
    requires TxOk(s)
    ensures Waiting(s.(chain := s.chain + [b])) == Waiting(s) - Newcomers(s, b)
  {
    var t := s.(chain := s.chain + [b]);
    forall h ensures Included(t.chain, h) <==> Included(s.chain, h) || h in b.extrinsics {
      if Included(s.chain, h) {
        var k :| IncludedAt(s.chain, h, k);
        assert IncludedAt(t.chain, h, k);
      }
      if h in b.extrinsics { assert IncludedAt(t.chain, h, |s.chain|); }
      if Included(t.chain, h) {
        var k :| IncludedAt(t.chain, h, k);
        IncludedGrows(s.chain, b, h, k);
      }
    }
  }

  /** What a new block withdraws, its newcomers withdraw. */
  lemma SpentGrows(c: Config, s: State, b: Block, e: nat)
    requires Base(c, s) && CanGrow(s, b)
    ensures var t := s.(chain := s.chain + [b]);
            && Spent(t, e) == Spent(s, e) + Withdrawn(t.chain, e, Newcomers(s, b))
            && (b.epoch != e ==> Withdrawn(t.chain, e, Newcomers(s, b)) == 0)
  {
    var t := s.(chain := s.chain + [b]);
    var newcomers := Newcomers(s, b);
    var older := s.published.Keys - newcomers;
    assert s.published.Keys == older + newcomers;
    assert t.chain[..|s.chain|] == s.chain;
    WithdrawnSplits(t.chain, e, older, newcomers);
    WithdrawnSplits(s.chain, e, older, newcomers);
    GrowWithdraws(s, b, e, older);
    NothingWithdrawn(s.chain, e, newcomers);
  }

  lemma NewcomersCost(c: Config, s: State, b: Block, e: nat, cost: nat)
    requires Base(c, s) && CanGrow(s, b) && CostsAtMost(s.(chain := s.chain + [b]), e, cost)
    ensures var t := s.(chain := s.chain + [b]);
            && |Waiting(s)| == |Waiting(t)| + |Newcomers(s, b)|
            && Withdrawn(t.chain, e, Newcomers(s, b)) <= Times(cost, |Newcomers(s, b)|)
  {
    NewcomersWaited(c, s, b);
    WaitingShrinks(s, b);
    SizeOfParts(Waiting(s), Newcomers(s, b));
    var t := s.(chain := s.chain + [b]);
    forall h | h in Newcomers(s, b) ensures Withdrawn(t.chain, e, {h}) <= cost { assert CostOf(t, e, cost, h); }
    WithdrawnBounded(s.chain + [b], e, Newcomers(s, b), cost);
  }

  lemma Absorbed(gain: nat, cost: nat, tickets: nat, waiting: nat, newcomers: nat)
    requires gain <= Times(cost, newcomers)
    ensures gain + Times(cost, tickets + waiting) <= Times(cost, tickets + (waiting + newcomers))
  {
    TimesAdds(cost, tickets + waiting, newcomers);
  }

  lemma BudgetGrow(c: Config, s: State, b: Block, e: nat, cost: nat, budget: nat)
    requires Base(c, s) && CanGrow(s, b) && WithinBudget(s, e, cost, budget)
    requires CostsAtMost(s.(chain := s.chain + [b]), e, cost)
    ensures WithinBudget(s.(chain := s.chain + [b]), e, cost, budget)
  {
    var t := s.(chain := s.chain + [b]);
    SpentGrows(c, s, b, e);
    NewcomersCost(c, s, b, e, cost);
    Absorbed(Withdrawn(t.chain, e, Newcomers(s, b)), cost, s.tickets, |Waiting(t)|, |Newcomers(s, b)|);
  }

  lemma WaitingGains(s: State, status: TxStatus)
    requires TxOk(s) && CanPublish(s, status)
    ensures var h := status.txHash;
            h !in Waiting(s) && Waiting(Published(s, status)) == Waiting(s) + {h}
  {}

  lemma SpentUnchanged(s: State, status: TxStatus, e: nat)
    requires CanPublish(s, status)
    ensures Spent(Published(s, status), e) == Spent(s, e)
  {
    var h := status.txHash;
    assert Published(s, status).published.Keys == s.published.Keys + {h};
    WithdrawnSplits(s.chain, e, s.published.Keys, {h});
    NothingWithdrawn(s.chain, e, {h});
  }

  lemma BudgetPublish(s: State, status: TxStatus, e: nat, cost: nat, budget: nat)
    requires TxOk(s) && CanPublish(s, status) && WithinBudget(s, e, cost, budget)
    ensures WithinBudget(Published(s, status), e, cost, budget)
  {
    WaitingGains(s, status);
    SpentUnchanged(s, status, e);
  }

  lemma Smaller(a: set<Hash>, b: set<Hash>)
    requires a <= b
    ensures |a| <= |b|
  {
    assert b == a + (b - a);
  }

  /** The other steps spend nothing and admit nothing. */
  lemma BudgetQuiet(s: State, t: State, e: nat, cost: nat, budget: nat)
    requires WithinBudget(s, e, cost, budget)
    requires t.chain == s.chain && t.published == s.published && t.watch.Keys <= s.watch.Keys && t.tickets <= s.tickets
    ensures WithinBudget(t, e, cost, budget)
  {
    assert Waiting(t) <= Waiting(s);
    Smaller(Waiting(t), Waiting(s));
    TimesMonotone(cost, t.tickets + |Waiting(t)|, s.tickets + |Waiting(s)|);
  }

  lemma QuietStep(c: Config, s: State, step: Step)
    requires Enabled(c, s, step)
    requires !step.Grow? && !step.Admit? && !step.Publish?
    ensures var t := Next(c, s, step);
            t.chain == s.chain && t.published == s.published && t.watch.Keys <= s.watch.Keys && t.tickets <= s.tickets
  {}

  lemma BudgetStep(c: Config, s: State, step: Step, t: State, e: nat, cost: nat, k: nat, threshold: int,
                   recounted: nat, uncounted: nat)
    requires Base(c, s) && Balanced(s, e, recounted, uncounted) && Leads(c, s, step, t)
    requires c.threshold(e) == Some(threshold)
    requires WithinBudget(s, e, cost, Budget(threshold, cost, k, uncounted))
    requires CostsAtMost(t, e, cost) && Load(t) <= k
    ensures WithinBudget(t, e, cost, Budget(threshold, cost, k, uncounted))
  {
    var budget := Budget(threshold, cost, k, uncounted);
    if step.Grow? {
      BudgetGrow(c, s, step.b, e, cost, budget);
    } else if step.Admit? {
      AdmittedBelow(c, s, step.remaining, e, threshold);
      SetsAreOk(c, s);
      SameCosts(t, s, e, cost);
      TicketOnly(s, e);
      if CurrentEpoch(s) <= e { AccountedBelow(s, e, threshold, recounted, uncounted); }
      BudgetAdmit(s, e, cost, k, Max(threshold - 1, 0) + uncounted);
    } else if step.Publish? {
      BudgetPublish(s, step.status, e, cost, budget);
    } else {
      QuietStep(c, s, step);
      BudgetQuiet(s, t, e, cost, budget);
    }
  }

  ghost predicate LoadedAt(run: seq<State>, i: nat, e: nat, cost: nat, k: nat) {
    i < |run| ==> CostsAtMost(run[i], e, cost) && Load(run[i]) <= k
  }

  /** The assumptions of the bound, state by state. */
  ghost predicate Loaded(run: seq<State>, e: nat, cost: nat, k: nat) {
    forall i: nat :: LoadedAt(run, i, e, cost, k)
  }

  lemma BudgetAtStart(s: State, e: nat, cost: nat, budget: nat)
    requires Initial(s)
    ensures WithinBudget(s, e, cost, budget)
  {
    WithdrawnByNone(s.chain, e);
    assert Waiting(s) == {} && s.published.Keys == {};
  }

  lemma MoreBudget(s: State, e: nat, cost: nat, budget: nat, more: nat)
    requires WithinBudget(s, e, cost, budget) && budget <= more
    ensures WithinBudget(s, e, cost, more)
  {}

  /** The budget at state `i`, with what has been lost by then. */
  function BudgetBy(run: seq<State>, steps: seq<Step>, i: nat, e: nat, cost: nat, k: nat, threshold: int): nat
    requires i <= |steps| && i <= |run|
  {
    Budget(threshold, cost, k, Uncounted(run, steps, i, e))
  }

  lemma BudgetThere(c: Config, run: seq<State>, steps: seq<Step>, i: nat, e: nat, cost: nat, k: nat, threshold: int)
    requires IsRun(c, run, steps) && i < |steps| && Loaded(run, e, cost, k)
    requires c.threshold(e) == Some(threshold)
    requires WithinBudget(run[i], e, cost, BudgetBy(run, steps, i, e, cost, k, threshold))
    ensures WithinBudget(run[i + 1], e, cost, BudgetBy(run, steps, i + 1, e, cost, k, threshold))
  {
    var recounted, uncounted := Recounted(run, steps, i, e), Uncounted(run, steps, i, e);
    Reachable(c, run, steps, i);
    BalancedAt(c, run, steps, i, e);
    StepOf(c, run, steps, i);
    assert LoadedAt(run, i + 1, e, cost, k);
    BudgetStep(c, run[i], steps[i], run[i + 1], e, cost, k, threshold, recounted, uncounted);
    MoreBudget(run[i + 1], e, cost, Budget(threshold, cost, k, uncounted),
               BudgetBy(run, steps, i + 1, e, cost, k, threshold));
  }

  lemma {:induction false} BudgetAt(c: Config, run: seq<State>, steps: seq<Step>, i: nat, e: nat, cost: nat, k: nat,
                                    threshold: int)
    requires IsRun(c, run, steps) && i < |run| && Loaded(run, e, cost, k)
    requires c.threshold(e) == Some(threshold)
    ensures WithinBudget(run[i], e, cost, BudgetBy(run, steps, i, e, cost, k, threshold))
  {
    if i == 0 {
      BudgetAtStart(run[0], e, cost, BudgetBy(run, steps, 0, e, cost, k, threshold));
    } else {
      BudgetAt(c, run, steps, i - 1, e, cost, k, threshold);
      BudgetThere(c, run, steps, i - 1, e, cost, k, threshold);
    }
  }

  lemma AccountedSpent(c: Config, s: State, e: nat)
    requires Base(c, s)
    ensures Withdrawn(s.chain, e, Accounted(s)) <= Spent(s, e)
  {
    SetsAreOk(c, s);
    assert s.published.Keys == Accounted(s) + Outstanding(s);
    WithdrawnSplits(s.chain, e, Accounted(s), Outstanding(s));
  }

  /** In an epoch whose limit has a threshold, with at most `k` transactions admitted and not yet
      accounted for, and none costing more than `cost`: the service never spends more than
      max(threshold - 1, 0) + k * cost, plus what lost updates hid; and the counter never exceeds
      max(threshold - 1, 0) + k * cost, plus what crashes made it count again. */
  lemma OvershootBounded(c: Config, run: seq<State>, steps: seq<Step>, i: nat, e: nat, cost: nat, k: nat,
                         threshold: int)
    requires IsRun(c, run, steps) && i < |run| && Loaded(run, e, cost, k)
    requires c.threshold(e) == Some(threshold)
    ensures Spent(run[i], e) <= Max(threshold - 1, 0) + k * cost + Uncounted(run, steps, i, e)
    ensures Counter(run[i].counters, e) <= Max(threshold - 1, 0) + k * cost + Recounted(run, steps, i, e)
  {
    BudgetAt(c, run, steps, i, e, cost, k, threshold);
    Reachable(c, run, steps, i);
    BalancedAt(c, run, steps, i, e);
    AccountedSpent(c, run[i], e);
    TimesIsProduct(cost, k);
  }
}
