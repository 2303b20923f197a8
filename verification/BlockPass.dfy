/** What processing one block, and then a range of blocks, does to the watch list, the epoch
    counters and the notifications when nothing is published meanwhile. */
module BlockPass {
  import opened Chain
  import opened Transactions

  /** One pass over the webhook retry loop: the transaction, the block it was found in, the body. */
  datatype Pass = Pass(height: nat, txHash: Hash, rsp: WebhookRsp)

  type Counters = map<nat, nat>

  datatype Ledger = Ledger(watch: WatchList, counters: Counters, passes: seq<Pass>)

  /** A missing counter key reads as zero. */
  function Counter(counters: Counters, epoch: nat): nat {
    if epoch in counters then counters[epoch] else 0
  }

  /** The notification pass, if any, for the extrinsic at position `i`. */
  function PassAt(b: Block, n: nat, watch: WatchList, i: nat): seq<Pass> {
    if i < |b.extrinsics| && b.extrinsics[i] in watch then
      var outcome := Classify(watch[b.extrinsics[i]], EventsOf(b.events, i));
      if outcome.Succeeded? then [Pass(n, b.extrinsics[i], outcome.rsp)] else []
    else []
  }

  /** The passes for the first `k` extrinsics of a block, in block order. */
  function PassesUpTo(b: Block, n: nat, watch: WatchList, k: nat): seq<Pass> {
    if k == 0 then [] else PassesUpTo(b, n, watch, k - 1) + PassAt(b, n, watch, k - 1)
  }

  function BlockPasses(b: Block, n: nat, watch: WatchList): seq<Pass> {
    PassesUpTo(b, n, watch, |b.extrinsics|)
  }

  function Expired(pending: WatchList, n: nat): set<Hash> {
    set h | h in pending && pending[h].death <= n
  }

  /** What stays on the list: entries the block neither includes nor expires. */
  function WatchAfter(watch: WatchList, b: Block, n: nat): WatchList {
    map h | h in watch && h !in b.extrinsics && watch[h].death > n :: watch[h]
  }

  /** `fails` says that updating the epoch counter raised an error, which is logged and swallowed. */
  function CountersAfter(counters: Counters, watch: WatchList, b: Block, fails: bool): Counters {
    if PendingAmong(b.extrinsics, watch.Keys) == {} || fails then counters
    else counters[b.epoch := Counter(counters, b.epoch) + BlockWithdrawn(b, watch.Keys)]
  }

  /** The effect of one block on the ledger. */
  function ProcessBlock(l: Ledger, b: Block, n: nat, fails: bool): Ledger {
    Ledger(WatchAfter(l.watch, b, n),
           CountersAfter(l.counters, l.watch, b, fails),
           l.passes + BlockPasses(b, n, l.watch))
  }

  // ---- Ranges of blocks ----
  /** The node, as a scan sees it. Every query of a scan is about one block number, so an answer
      given for block `n` may depend on when it was asked: the chain may grow meanwhile. */
  datatype Env = Env(
    block: int -> Block,
    available: int -> bool,
    finalized: int -> nat,
    counterFails: int -> bool)

  function WatchOver(env: Env, watch: WatchList, a: nat, b: nat): WatchList
    decreases b
  {
    if b <= a then watch else WatchAfter(WatchOver(env, watch, a, b - 1), env.block(b), b)
  }

  function CountersOver(env: Env, watch: WatchList, counters: Counters, a: nat, b: nat): Counters
    decreases b
  {
    if b <= a then counters
    else CountersAfter(CountersOver(env, watch, counters, a, b - 1), WatchOver(env, watch, a, b - 1),
                       env.block(b), env.counterFails(b))
  }

  function PassesOver(env: Env, watch: WatchList, a: nat, b: nat): seq<Pass>
    decreases b
  {
    if b <= a then []
    else PassesOver(env, watch, a, b - 1) + BlockPasses(env.block(b), b, WatchOver(env, watch, a, b - 1))
  }

  /** Processing blocks `a + 1` to `b` in order. */
  function Scanned(env: Env, l: Ledger, a: nat, b: nat): Ledger {
    Ledger(WatchOver(env, l.watch, a, b), CountersOver(env, l.watch, l.counters, a, b),
           l.passes + PassesOver(env, l.watch, a, b))
  }

  lemma ScannedNone(env: Env, l: Ledger, a: nat)
    ensures Scanned(env, l, a, a) == l
  {
    assert l.passes + PassesOver(env, l.watch, a, a) == l.passes;
  }

  lemma ScannedStep(env: Env, l: Ledger, a: nat, b: nat)
    requires a <= b
    ensures Scanned(env, l, a, b + 1)
         == ProcessBlock(Scanned(env, l, a, b), env.block(b + 1), b + 1, env.counterFails(b + 1))
  {}

  // ---- The declarative reading of a scan ----
  ghost predicate Unseen(env: Env, a: nat, b: nat, h: Hash) {
    forall k: nat :: a < k <= b ==> h !in env.block(k).extrinsics
  }

  /** The entries included in no block of (a, b] and not expired at `b`. */
  ghost function Remaining(env: Env, watch: WatchList, a: nat, b: nat): WatchList {
    map h | h in watch && (a < b ==> watch[h].death > b) && Unseen(env, a, b, h) :: watch[h]
  }

  /** The notifications of the blocks of (a, b], each for the entries remaining just before it. */
  ghost function PassesOfRange(env: Env, watch: WatchList, a: nat, b: nat): seq<Pass>
    decreases b
  {
    if b <= a then []
    else PassesOfRange(env, watch, a, b - 1) + BlockPasses(env.block(b), b, Remaining(env, watch, a, b - 1))
  }

  /** What the blocks of (a, b] in one epoch withdrew for the entries remaining just before each. */
  ghost function WithdrawnInRange(env: Env, watch: WatchList, a: nat, b: nat, epoch: nat): nat
    decreases b
  {
    if b <= a then 0
    else
      WithdrawnInRange(env, watch, a, b - 1, epoch)
      + if env.block(b).epoch == epoch && !env.counterFails(b)
        then BlockWithdrawn(env.block(b), Remaining(env, watch, a, b - 1).Keys) else 0
  }

  lemma NonePendingWithdrawsNothing(b: Block, pending: set<Hash>)
    requires PendingAmong(b.extrinsics, pending) == {}
    ensures BlockWithdrawn(b, pending) == 0
  {
    forall h | h in b.extrinsics ensures h !in pending {
      assert h in pending ==> h in PendingAmong(b.extrinsics, pending);
    }
    SumCongruent(b, b.events, pending, {});
    SumOfNone(b, b.events);
  }

  lemma CounterAfterBlock(counters: Counters, watch: WatchList, b: Block, fails: bool, epoch: nat)
    ensures Counter(CountersAfter(counters, watch, b, fails), epoch)
         == Counter(counters, epoch) + if b.epoch == epoch && !fails then BlockWithdrawn(b, watch.Keys) else 0
  {
    if PendingAmong(b.extrinsics, watch.Keys) == {} {
      NonePendingWithdrawsNothing(b, watch.Keys);
    }
  }

  lemma RemainingStep(env: Env, watch: WatchList, a: nat, b: nat)
    requires a < b
    ensures Remaining(env, watch, a, b)
         == map h | h in Remaining(env, watch, a, b - 1) && h !in env.block(b).extrinsics && watch[h].death > b
              :: watch[h]
  {
    forall h | h in watch
      ensures Unseen(env, a, b, h) <==> Unseen(env, a, b - 1, h) && h !in env.block(b).extrinsics
    {}
  }

  lemma {:induction false} ScanLeaves(env: Env, watch: WatchList, a: nat, b: nat)
    ensures WatchOver(env, watch, a, b) == Remaining(env, watch, a, b)
    decreases b
  {
    if a < b {
      ScanLeaves(env, watch, a, b - 1);
      RemainingStep(env, watch, a, b);
    } else {
      assert Remaining(env, watch, a, b) == watch;
    }
  }

  lemma {:induction false} ScanCounts(env: Env, watch: WatchList, counters: Counters, a: nat, b: nat, epoch: nat)
    ensures Counter(CountersOver(env, watch, counters, a, b), epoch)
         == Counter(counters, epoch) + WithdrawnInRange(env, watch, a, b, epoch)
    decreases b
  {
    if b <= a {
    } else {
      ScanCounts(env, watch, counters, a, b - 1, epoch);
      ScanLeaves(env, watch, a, b - 1);
      CounterAfterBlock(CountersOver(env, watch, counters, a, b - 1), WatchOver(env, watch, a, b - 1),
                        env.block(b), env.counterFails(b), epoch);
    }
  }

  lemma {:induction false} ScanNotifies(env: Env, watch: WatchList, a: nat, b: nat)
    ensures PassesOver(env, watch, a, b) == PassesOfRange(env, watch, a, b)
    decreases b
  {
    if b <= a {
    } else {
      ScanNotifies(env, watch, a, b - 1);
      ScanLeaves(env, watch, a, b - 1);
    }
  }

  /** A scan of (a, b] leaves exactly the entries that no block of (a, b] includes and that
      outlive `b`, notifies exactly for the entries still remaining before their block, and
      counts exactly what those withdrew. */
  lemma ScanMeetsSpec(env: Env, l: Ledger, a: nat, b: nat)
    ensures Scanned(env, l, a, b).watch == Remaining(env, l.watch, a, b)
    ensures Scanned(env, l, a, b).passes == l.passes + PassesOfRange(env, l.watch, a, b)
    ensures forall e :: Counter(Scanned(env, l, a, b).counters, e)
                     == Counter(l.counters, e) + WithdrawnInRange(env, l.watch, a, b, e)
  {
    ScanLeaves(env, l.watch, a, b);
    ScanNotifies(env, l.watch, a, b);
    forall e { ScanCounts(env, l.watch, l.counters, a, b, e); }
  }

  /** The notifier's expiry test at block `j`. */
  predicate ExpiredAt(status: TxStatus, j: nat) {
    status.death <= j
  }

  /** An entry included at `k` is matched there iff no earlier scanned block included it and it
      had not expired at an earlier scanned block - even if it is due to expire at `k` itself. */
  lemma MatchedIffAlive(env: Env, watch: WatchList, a: nat, k: nat, h: Hash)
    requires a < k && h in watch && h in env.block(k).extrinsics
    ensures h in PendingAmong(env.block(k).extrinsics, WatchOver(env, watch, a, k - 1).Keys)
       <==> && Unseen(env, a, k - 1, h)
            && forall j: nat :: a < j < k ==> !ExpiredAt(watch[h], j)
  {
    ScanLeaves(env, watch, a, k - 1);
    if a < k - 1 && ExpiredAt(watch[h], k - 1) {
      assert h !in Remaining(env, watch, a, k - 1);
    }
  }

  // ---- Skipping ahead ----
  /** The chain includes an entry only after its birth, and the entry's lifetime is not empty. */
  ghost predicate BornBefore(env: Env, watch: WatchList) {
    && (forall h, k: nat :: h in watch && h in env.block(k).extrinsics ==> watch[h].birth < k)
    && (forall h :: h in watch ==> watch[h].birth < watch[h].death)
  }

  lemma {:induction false} NoPasses(b: Block, n: nat, watch: WatchList, k: nat)
    requires k <= |b.extrinsics|
    requires forall h :: h in watch ==> h !in b.extrinsics
    ensures PassesUpTo(b, n, watch, k) == []
  {
    if k == 0 {
    } else {
      NoPasses(b, n, watch, k - 1);
      assert b.extrinsics[k - 1] in b.extrinsics;
    }
  }

  /** The block includes no watched entry and expires none. */
  ghost predicate Idle(watch: WatchList, b: Block, n: nat) {
    forall h :: h in watch ==> h !in b.extrinsics && watch[h].death > n
  }

  lemma IdleBlock(l: Ledger, b: Block, n: nat, fails: bool)
    requires Idle(l.watch, b, n)
    ensures ProcessBlock(l, b, n, fails) == l
  {
    NoPasses(b, n, l.watch, |b.extrinsics|);
  }

  lemma {:induction false} NothingBeforeBirth(env: Env, l: Ledger, a: nat, m: nat)
    requires a <= m && BornBefore(env, l.watch)
    requires forall h :: h in l.watch ==> m <= l.watch[h].birth
    ensures Scanned(env, l, a, m) == l
    decreases m
  {
    if a < m {
      NothingBeforeBirth(env, l, a, m - 1);
      ScannedStep(env, l, a, m - 1);
      IdleBlock(l, env.block(m), m, env.counterFails(m));
    } else {
      ScannedNone(env, l, a);
    }
  }

  lemma {:induction false} SkipWatch(env: Env, watch: WatchList, a: nat, m: nat, b: nat)
    requires a <= m <= b && WatchOver(env, watch, a, m) == watch
    ensures WatchOver(env, watch, a, b) == WatchOver(env, watch, m, b)
    decreases b
  {
    if b <= m {
    } else {
      SkipWatch(env, watch, a, m, b - 1);
    }
  }

  lemma {:induction false} SkipCounters(env: Env, watch: WatchList, counters: Counters, a: nat, m: nat, b: nat)
    requires a <= m <= b && WatchOver(env, watch, a, m) == watch
    requires CountersOver(env, watch, counters, a, m) == counters
    ensures CountersOver(env, watch, counters, a, b) == CountersOver(env, watch, counters, m, b)
    decreases b
  {
    if b <= m {
    } else {
      SkipCounters(env, watch, counters, a, m, b - 1);
      SkipWatch(env, watch, a, m, b - 1);
    }
  }

  lemma {:induction false} SkipPasses(env: Env, watch: WatchList, a: nat, m: nat, b: nat)
    requires a <= m <= b && WatchOver(env, watch, a, m) == watch && PassesOver(env, watch, a, m) == []
    ensures PassesOver(env, watch, a, b) == PassesOver(env, watch, m, b)
    decreases b
  {
    if b <= m {
    } else {
      SkipPasses(env, watch, a, m, b - 1);
      SkipWatch(env, watch, a, m, b - 1);
    }
  }

  /** If the first part of a range changes nothing, it can be skipped. */
  lemma SkipIdle(env: Env, l: Ledger, a: nat, m: nat, b: nat)
    requires a <= m <= b && Scanned(env, l, a, m) == l
    ensures Scanned(env, l, a, b) == Scanned(env, l, m, b)
  {
    assert |l.passes + PassesOver(env, l.watch, a, m)| == |l.passes|;
    SkipWatch(env, l.watch, a, m, b);
    SkipCounters(env, l.watch, l.counters, a, m, b);
    SkipPasses(env, l.watch, a, m, b);
  }

  /** `m` is the smallest birth among the entries. */
  ghost predicate IsMinBirth(watch: WatchList, m: nat) {
    && (exists h :: h in watch && watch[h].birth == m)
    && (forall h :: h in watch ==> m <= watch[h].birth)
  }

  function Max(x: int, y: int): int { if x < y then y else x }

  /** Starting after the smallest birth gives the same watch list, counters and notifications
      as scanning every block after the last one seen. */
  lemma SkipAheadRefines(env: Env, l: Ledger, lastSeen: nat, minBirth: nat, b: nat)
    requires IsMinBirth(l.watch, minBirth) && BornBefore(env, l.watch)
    requires Max(lastSeen, minBirth) <= b
    ensures Scanned(env, l, Max(lastSeen, minBirth), b) == Scanned(env, l, lastSeen, b)
  {
    if lastSeen < minBirth {
      NothingBeforeBirth(env, l, lastSeen, minBirth);
      SkipIdle(env, l, lastSeen, minBirth, b);
    }
  }

  // ---- Repeating and ending ----
  /** Processing a block again, with entries published since that the block does not concern,
      is a no-op on the list, the counters and the notifications. */
  lemma ReprocessingIsIdle(l: Ledger, b: Block, n: nat, fails: bool, published: WatchList, failsAgain: bool)
    requires Idle(published, b, n)
    ensures var done := ProcessBlock(l, b, n, fails);
            var later := done.(watch := done.watch + published);
            ProcessBlock(later, b, n, failsAgain) == later
  {
    var done := ProcessBlock(l, b, n, fails);
    IdleBlock(done.(watch := done.watch + published), b, n, failsAgain);
  }

  ghost predicate DeadBy(watch: WatchList, d: nat) {
    forall h :: h in watch ==> watch[h].death <= d
  }

  /** The largest death on the list. */
  ghost function LatestDeath(watch: WatchList): (d: nat)
    ensures DeadBy(watch, d)
    ensures watch != map[] ==> exists h :: h in watch && watch[h].death == d
    decreases |watch|
  {
    if watch == map[] then 0
    else
      var h :| h in watch;
      var rest := watch - {h};
      assert |rest.Keys| < |watch.Keys| by { assert rest.Keys == watch.Keys - {h}; }
      var d := LatestDeath(rest);
      assert forall k :: k in watch ==> k == h || (k in rest && rest[k] == watch[k]);
      if d < watch[h].death then watch[h].death
      else
        assert exists k :: k in watch && watch[k].death == d by {
          if rest != map[] {
            var k :| k in rest && rest[k].death == d;
            assert k in watch;
          }
        }
        d
  }

  /** Once the largest death has been processed the list is empty. */
  lemma ExpiryEmptiesList(env: Env, l: Ledger, a: nat, b: nat)
    requires a < b && DeadBy(l.watch, b)
    ensures Scanned(env, l, a, b).watch == map[]
  {
    ScanMeetsSpec(env, l, a, b);
  }

  // ---- The loop over the matched positions ----
  /** The passes for the matched positions of a block, as the loop over them makes them. */
  function PassesAt(b: Block, n: nat, watch: WatchList, indices: seq<nat>): seq<Pass> {
    if indices == [] then []
    else PassesAt(b, n, watch, indices[..|indices| - 1]) + PassAt(b, n, watch, indices[|indices| - 1])
  }

  lemma {:induction false} MatchedPasses(b: Block, n: nat, watch: WatchList, k: nat)
    requires k <= |b.extrinsics|
    ensures PassesAt(b, n, watch, Matches(b.extrinsics[..k], watch.Keys)) == PassesUpTo(b, n, watch, k)
  {
    if k == 0 {
    } else {
      MatchedPasses(b, n, watch, k - 1);
      assert b.extrinsics[..k][..k - 1] == b.extrinsics[..k - 1];
      var before := Matches(b.extrinsics[..k - 1], watch.Keys);
      if b.extrinsics[k - 1] in watch {
        assert Matches(b.extrinsics[..k], watch.Keys) == before + [k - 1];
        assert (before + [k - 1])[..|before|] == before;
      } else {
        assert Matches(b.extrinsics[..k], watch.Keys) == before;
      }
    }
  }
}
