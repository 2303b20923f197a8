/** Nonce leasing: a window of keys above the chain's nonce, the first of them without a live
    lease taken by an atomic script, and a lease that expires by itself. */
module NonceLeases {
  const NUMBER_OF_NONCE_KEYS_TO_CHECK: nat := 50

  const NONCE_KEY_EXPIRE_SECONDS: nat := 2

  /** Each leased nonce with the instant, in milliseconds, at which its key expires. */
  type Leases = map<nat, nat>

  predicate Live(leases: Leases, nonce: nat, now: nat) {
    nonce in leases && now < leases[nonce]
  }

  /** Every nonce from `lo` up to `hi` has a live lease. */
  ghost predicate AllLive(leases: Leases, lo: nat, hi: nat, now: nat) {
    forall n: nat :: lo <= n < hi ==> Live(leases, n, now)
  }

  function LeaseMillis(): nat { NONCE_KEY_EXPIRE_SECONDS * 1000 }

  datatype Allocation = Allocation(nonce: nat, leased: bool, leases: Leases)

  /** The first nonce from `nonce` on without a live lease, or `limit` if there is none below it. */
  function FirstFree(leases: Leases, nonce: nat, limit: nat, now: nat): nat
    requires nonce <= limit
    decreases limit - nonce
  {
    if nonce == limit || !Live(leases, nonce, now) then nonce else FirstFree(leases, nonce + 1, limit, now)
  }

  /** One call of `getNextNonce`. */
  function Allocate(leases: Leases, chainNonce: nat, now: nat): Allocation {
    var limit := chainNonce + NUMBER_OF_NONCE_KEYS_TO_CHECK;
    var nonce := FirstFree(leases, chainNonce, limit, now);
    if nonce < limit then Allocation(nonce, true, leases[nonce := now + LeaseMillis()])
    else Allocation(limit, false, leases)
  }

  lemma {:induction false} FirstFreeMeaning(leases: Leases, nonce: nat, limit: nat, now: nat)
    requires nonce <= limit
    ensures var f := FirstFree(leases, nonce, limit, now);
            nonce <= f <= limit && AllLive(leases, nonce, f, now) && (f < limit ==> !Live(leases, f, now))
    decreases limit - nonce
  {
    if nonce < limit && Live(leases, nonce, now) {
      FirstFreeMeaning(leases, nonce + 1, limit, now);
    }
  }

  ghost predicate WindowFull(leases: Leases, chainNonce: nat, now: nat) {
    AllLive(leases, chainNonce, chainNonce + NUMBER_OF_NONCE_KEYS_TO_CHECK, now)
  }

  /** A lease is taken on the least nonce from the chain's on that has none; the fallback is
      returned, without a lease, exactly when the whole window is live. */
  lemma AllocatesLeastFree(leases: Leases, chainNonce: nat, now: nat)
    ensures var a := Allocate(leases, chainNonce, now);
            && (a.leased <==> !WindowFull(leases, chainNonce, now))
            && (a.leased ==>
                  && chainNonce <= a.nonce && !Live(leases, a.nonce, now)
                  && AllLive(leases, chainNonce, a.nonce, now)
                  && a.leases == leases[a.nonce := now + LeaseMillis()])
            && (!a.leased ==> a.nonce == chainNonce + NUMBER_OF_NONCE_KEYS_TO_CHECK && a.leases == leases)
  {
    FirstFreeMeaning(leases, chainNonce, chainNonce + NUMBER_OF_NONCE_KEYS_TO_CHECK, now);
  }

  // ---- The service and the script ----
  class NonceService {
    /** The nonce keys in Redis; keys are named by the nonce they stand for. */
    var leases: Leases

    constructor ()
      ensures leases == map[]
    {
      leases := map[];
    }

    method GetNextPossibleKeys(currentNonce: nat) returns (keys: seq<nat>)
      ensures |keys| == NUMBER_OF_NONCE_KEYS_TO_CHECK
      ensures forall i :: 0 <= i < |keys| ==> keys[i] == currentNonce + i
    {
      keys := [];
      for i := 0 to NUMBER_OF_NONCE_KEYS_TO_CHECK
        invariant |keys| == i
        invariant forall j :: 0 <= j < i ==> keys[j] == currentNonce + j
      {
        keys := keys + [currentNonce + i];
      }
    }

    /** The script: the first key that does not exist is set to expire, and its position, counted
        from one, returned. */
    method IncrementNonce(keys: seq<nat>, keysSize: nat, expireInSeconds: nat, now: nat) returns (index: int)
      requires 0 < keysSize == |keys|
      modifies this
      ensures index == -1 || 1 <= index <= keysSize
      ensures index == -1 ==> leases == old(leases) && forall j :: 0 <= j < keysSize ==> Live(leases, keys[j], now)
      ensures index != -1 ==>
                && !Live(old(leases), keys[index - 1], now)
                && (forall j :: 0 <= j < index - 1 ==> Live(old(leases), keys[j], now))
                && leases == old(leases)[keys[index - 1] := now + expireInSeconds * 1000]
    {
      var i := 1;
      while true
        invariant 1 <= i <= keysSize
        invariant leases == old(leases)
        invariant forall j :: 0 <= j < i - 1 ==> Live(leases, keys[j], now)
        decreases keysSize - i
      {
        var nextKey := keys[i - 1];
        if !Live(leases, nextKey, now) {
          leases := leases[nextKey := now + expireInSeconds * 1000];
          return i;
        }
        if i + 1 > keysSize { break; }
        i := i + 1;
      }
      return -1;
    }

    method GetNextNonce(chainNonce: nat, now: nat) returns (nonce: nat)
      modifies this
      ensures var a := Allocate(old(leases), chainNonce, now);
              nonce == a.nonce && leases == a.leases
    {
      var keys := GetNextPossibleKeys(chainNonce);
      var nextNonceIndex := IncrementNonce(keys, |keys|, NONCE_KEY_EXPIRE_SECONDS, now);
      AllocatesLeastFree(old(leases), chainNonce, now);
      ghost var passed := if nextNonceIndex == -1 then |keys| else nextNonceIndex - 1;
      forall n: nat | chainNonce <= n < chainNonce + passed ensures Live(old(leases), n, now) {
        assert keys[n - chainNonce] == n;
      }
      if nextNonceIndex == -1 {
        return chainNonce + NUMBER_OF_NONCE_KEYS_TO_CHECK;
      }
      var nextNonce := chainNonce + nextNonceIndex - 1;
      assert !Live(old(leases), nextNonce, now);
      return nextNonce;
    }
  }

  // ---- Runs: any number of callers, any chain nonces, one clock ----
  datatype Call = Call(chainNonce: nat, now: nat)

  ghost predicate Clocked(calls: seq<Call>) {
    forall i, j :: 0 <= i <= j < |calls| ==> calls[i].now <= calls[j].now
  }

  function LeasesAfter(start: Leases, calls: seq<Call>): Leases {
    if calls == [] then start
    else
      var last := calls[|calls| - 1];
      Allocate(LeasesAfter(start, calls[..|calls| - 1]), last.chainNonce, last.now).leases
  }

  /** What the `i`-th call of a run is given. */
  function Given(start: Leases, calls: seq<Call>, i: nat): Allocation
    requires i < |calls|
  {
    Allocate(LeasesAfter(start, calls[..i]), calls[i].chainNonce, calls[i].now)
  }

  lemma LeasesStep(start: Leases, calls: seq<Call>, i: nat)
    requires i < |calls|
    ensures LeasesAfter(start, calls[..i + 1]) == Given(start, calls, i).leases
  {
    assert calls[..i + 1][..i] == calls[..i];
  }

  /** A lease stays on record with at least its own expiry. */
  lemma {:induction false} LeaseRecorded(start: Leases, calls: seq<Call>, i: nat, j: nat)
    requires Clocked(calls) && i < j <= |calls| && Given(start, calls, i).leased
    ensures var n := Given(start, calls, i).nonce;
            var after := LeasesAfter(start, calls[..j]);
            n in after && calls[i].now + LeaseMillis() <= after[n]
    decreases j
  {
    LeasesStep(start, calls, j - 1);
    AllocatesLeastFree(LeasesAfter(start, calls[..j - 1]), calls[j - 1].chainNonce, calls[j - 1].now);
    if i < j - 1 {
      LeaseRecorded(start, calls, i, j - 1);
    }
  }

  /** Two leases of the same nonce are at least the lease time apart, whoever asks and whatever
      the chain's nonce is meanwhile; so of two equal answers closer together, one is a fallback. */
  lemma LeasesSeparated(start: Leases, calls: seq<Call>, i: nat, j: nat)
    requires Clocked(calls) && i < j < |calls|
    requires Given(start, calls, i).nonce == Given(start, calls, j).nonce
    ensures Given(start, calls, i).leased && Given(start, calls, j).leased ==>
              calls[j].now - calls[i].now >= 2000
    ensures calls[j].now - calls[i].now < 2000 ==>
              !Given(start, calls, i).leased || !Given(start, calls, j).leased
  {
    if Given(start, calls, i).leased {
      LeaseRecorded(start, calls, i, j);
      AllocatesLeastFree(LeasesAfter(start, calls[..j]), calls[j].chainNonce, calls[j].now);
    }
  }

  /** The `i`-th call leased `n`, less than the lease time before `now`. */
  ghost predicate LeasedRecently(start: Leases, calls: seq<Call>, i: int, n: nat, now: nat) {
    && 0 <= i < |calls| && Given(start, calls, i).leased && Given(start, calls, i).nonce == n
    && now < calls[i].now + LeaseMillis()
  }

  /** A lease that is live was there at the start or was taken within the lease time. */
  lemma {:induction false} LiveWasLeased(start: Leases, calls: seq<Call>, j: nat, n: nat, now: nat)
    requires j <= |calls| && Live(LeasesAfter(start, calls[..j]), n, now)
    ensures Live(start, n, now) || exists i :: i < j && LeasedRecently(start, calls, i, n, now)
  {
    if j == 0 {
    } else {
      LeasesStep(start, calls, j - 1);
      AllocatesLeastFree(LeasesAfter(start, calls[..j - 1]), calls[j - 1].chainNonce, calls[j - 1].now);
      if Given(start, calls, j - 1).leased && Given(start, calls, j - 1).nonce == n {
        assert LeasedRecently(start, calls, j - 1, n, now);
      } else {
        LiveWasLeased(start, calls, j - 1, n, now);
      }
    }
  }

  /** The calls before `j` that leased within the lease time. */
  ghost function RecentLessees(start: Leases, calls: seq<Call>, j: nat, now: nat): set<nat>
    requires j <= |calls|
  {
    set i | 0 <= i < j && Given(start, calls, i).leased && now < calls[i].now + LeaseMillis()
  }

  /** One of `lessees` leased `n` recently. */
  ghost predicate LeasedByOneOf(start: Leases, calls: seq<Call>, lessees: set<nat>, n: nat, now: nat) {
    exists i :: i in lessees && LeasedRecently(start, calls, i, n, now)
  }

  /** Different nonces were leased by different calls. */
  lemma {:induction false} ManyLessees(start: Leases, calls: seq<Call>, now: nat, first: nat, k: nat, lessees: set<nat>)
    requires forall n: nat :: first <= n < first + k ==> LeasedByOneOf(start, calls, lessees, n, now)
    ensures |lessees| >= k
  {
    if k == 0 {
    } else {
      var last := first + k - 1;
      assert LeasedByOneOf(start, calls, lessees, last, now);
      var i :| i in lessees && LeasedRecently(start, calls, i, last, now);
      forall n: nat | first <= n < first + (k - 1) ensures LeasedByOneOf(start, calls, lessees - {i}, n, now) {
        assert LeasedByOneOf(start, calls, lessees, n, now);
        var m :| m in lessees && LeasedRecently(start, calls, m, n, now);
      }
      ManyLessees(start, calls, now, first, k - 1, lessees - {i});
    }
  }

  /** The fallback is returned only after fifty distinct calls leased, all within one lease time. */
  lemma FallbackAfterFifty(start: Leases, calls: seq<Call>, j: nat)
    requires j < |calls| && !Given(start, calls, j).leased
    requires forall n: nat :: !Live(start, n, calls[j].now)
    ensures |RecentLessees(start, calls, j, calls[j].now)| >= 50
  {
    var first, now := calls[j].chainNonce, calls[j].now;
    var lessees := RecentLessees(start, calls, j, now);
    AllocatesLeastFree(LeasesAfter(start, calls[..j]), first, now);
    forall n: nat | first <= n < first + NUMBER_OF_NONCE_KEYS_TO_CHECK
      ensures LeasedByOneOf(start, calls, lessees, n, now)
    {
      LiveWasLeased(start, calls, j, n, now);
    }
    ManyLessees(start, calls, now, first, NUMBER_OF_NONCE_KEYS_TO_CHECK, lessees);
  }

  /** All calls of a burst see the same chain nonce and fall within one lease time. */
  ghost predicate Burst(calls: seq<Call>, chainNonce: nat, begin: nat) {
    forall i :: 0 <= i < |calls| ==> calls[i].chainNonce == chainNonce && begin <= calls[i].now < begin + LeaseMillis()
  }

  /** From the chain's nonce on, exactly the first `i` nonces are live. */
  ghost predicate LiveExactly(leases: Leases, chainNonce: nat, i: nat, now: nat) {
    forall n: nat :: chainNonce <= n ==> (Live(leases, n, now) <==> n < chainNonce + i)
  }

  lemma OneMoreLive(leases: Leases, chainNonce: nat, i: nat, leasedAt: nat, now: nat)
    requires LiveExactly(leases, chainNonce, i, now) && now < leasedAt + LeaseMillis()
    ensures LiveExactly(leases[chainNonce + i := leasedAt + LeaseMillis()], chainNonce, i + 1, now)
  {
    var after := leases[chainNonce + i := leasedAt + LeaseMillis()];
    forall n: nat | chainNonce <= n ensures Live(after, n, now) <==> n < chainNonce + i + 1 {
      assert Live(leases, n, now) <==> n < chainNonce + i;
    }
  }

  lemma {:induction false} BurstLive(start: Leases, calls: seq<Call>, chainNonce: nat, begin: nat, i: nat, now: nat)
    requires Burst(calls, chainNonce, begin) && (forall n: nat :: !Live(start, n, begin))
    requires i <= |calls| && i <= NUMBER_OF_NONCE_KEYS_TO_CHECK && begin <= now < begin + LeaseMillis()
    ensures LiveExactly(LeasesAfter(start, calls[..i]), chainNonce, i, now)
    decreases i, 0
  {
    if i > 0 {
      var before := LeasesAfter(start, calls[..i - 1]);
      BurstLive(start, calls, chainNonce, begin, i - 1, now);
      GapFreeBurst(start, calls, chainNonce, begin, i - 1);
      LeasesStep(start, calls, i - 1);
      AllocatesLeastFree(before, chainNonce, calls[i - 1].now);
      OneMoreLive(before, chainNonce, i - 1, calls[i - 1].now, now);
    } else {
      assert forall n: nat :: Live(start, n, now) ==> Live(start, n, begin);
    }
  }

  /** With no live lease at the start, the calls of a burst are given the chain's nonce and the
      ones that follow it, one each and without a gap, up to the size of the window. */
  lemma {:induction false} GapFreeBurst(start: Leases, calls: seq<Call>, chainNonce: nat, begin: nat, i: nat)
    requires Burst(calls, chainNonce, begin) && (forall n: nat :: !Live(start, n, begin))
    requires i < |calls| && i < NUMBER_OF_NONCE_KEYS_TO_CHECK
    ensures Given(start, calls, i).leased && Given(start, calls, i).nonce == chainNonce + i
    decreases i, 1
  {
    BurstLive(start, calls, chainNonce, begin, i, calls[i].now);
    var leases := LeasesAfter(start, calls[..i]);
    AllocatesLeastFree(leases, chainNonce, calls[i].now);
    assert !Live(leases, chainNonce + i, calls[i].now);
  }

  lemma BurstFallsBack(start: Leases, calls: seq<Call>, chainNonce: nat, begin: nat, i: nat)
    requires Burst(calls, chainNonce, begin) && (forall n: nat :: !Live(start, n, begin))
    requires NUMBER_OF_NONCE_KEYS_TO_CHECK <= i < |calls|
    requires LeasesAfter(start, calls[..i]) == LeasesAfter(start, calls[..NUMBER_OF_NONCE_KEYS_TO_CHECK])
    ensures !Given(start, calls, i).leased && Given(start, calls, i).nonce == chainNonce + NUMBER_OF_NONCE_KEYS_TO_CHECK
  {
    var leases := LeasesAfter(start, calls[..i]);
    BurstLive(start, calls, chainNonce, begin, NUMBER_OF_NONCE_KEYS_TO_CHECK, calls[i].now);
    assert WindowFull(leases, chainNonce, calls[i].now);
    AllocatesLeastFree(leases, chainNonce, calls[i].now);
  }

  /** From the fiftieth call on the window is full, and stays as the first fifty calls left it. */
  lemma {:induction false} BurstFull(start: Leases, calls: seq<Call>, chainNonce: nat, begin: nat, i: nat)
    requires Burst(calls, chainNonce, begin) && (forall n: nat :: !Live(start, n, begin))
    requires NUMBER_OF_NONCE_KEYS_TO_CHECK <= i <= |calls|
    ensures LeasesAfter(start, calls[..i]) == LeasesAfter(start, calls[..NUMBER_OF_NONCE_KEYS_TO_CHECK])
  {
    if i == NUMBER_OF_NONCE_KEYS_TO_CHECK {
    } else {
      BurstFull(start, calls, chainNonce, begin, i - 1);
      BurstFallsBack(start, calls, chainNonce, begin, i - 1);
      LeasesStep(start, calls, i - 1);
      AllocatesLeastFree(LeasesAfter(start, calls[..i - 1]), chainNonce, calls[i - 1].now);
    }
  }

  /** What every call of a burst is given: the next nonce with a lease up to the fiftieth, and from
      then on the same fallback without one. */
  lemma BurstGiven(start: Leases, calls: seq<Call>, chainNonce: nat, begin: nat, i: nat)
    requires Burst(calls, chainNonce, begin) && (forall n: nat :: !Live(start, n, begin)) && i < |calls|
    ensures Given(start, calls, i).leased <==> i < NUMBER_OF_NONCE_KEYS_TO_CHECK
    ensures Given(start, calls, i).nonce
         == chainNonce + if i < NUMBER_OF_NONCE_KEYS_TO_CHECK then i else NUMBER_OF_NONCE_KEYS_TO_CHECK
  {
    if i < NUMBER_OF_NONCE_KEYS_TO_CHECK {
      GapFreeBurst(start, calls, chainNonce, begin, i);
    } else {
      BurstFull(start, calls, chainNonce, begin, i);
      BurstFallsBack(start, calls, chainNonce, begin, i);
    }
  }

  /** Two calls of a burst are given the same nonce iff fifty calls came before both, and then
      neither holds a lease on it. */
  lemma SameNonceIffFallback(start: Leases, calls: seq<Call>, chainNonce: nat, begin: nat, i: nat, j: nat)
    requires Burst(calls, chainNonce, begin) && (forall n: nat :: !Live(start, n, begin)) && i < j < |calls|
    ensures Given(start, calls, i).nonce == Given(start, calls, j).nonce <==> NUMBER_OF_NONCE_KEYS_TO_CHECK <= i
    ensures NUMBER_OF_NONCE_KEYS_TO_CHECK <= i ==>
              !Given(start, calls, i).leased && !Given(start, calls, j).leased
  {
    BurstGiven(start, calls, chainNonce, begin, i);
    BurstGiven(start, calls, chainNonce, begin, j);
  }
}
