/**
 The nonce store of the signed request checks: nonces age out after a time to live, and the
 oldest are dropped when there are too many. Times are in nanoseconds.
 */
module NonceStore {
  import opened Ordering
  import opened Utf8

  const UNIT := 1_000_000_000
  const DEFAULT_MAX_NONCE_ENTRIES := 10_000

  type Nonces = map<string, int>

  // ----- one check, as a function of the store -----

  function Cutoff(now: int, ttlSeconds: int): int {
    now - ttlSeconds * UNIT
  }

  /** `retain(|_, value| *value >= cutoff)` */
  function Retained(store: Nonces, cutoff: int): (kept: Nonces)
    ensures kept.Keys <= store.Keys
    ensures forall n :: n in store && store[n] >= cutoff <==> n in kept
    ensures forall n :: n in kept ==> kept[n] == store[n]
  {
    map n | n in store && store[n] >= cutoff :: store[n]
  }

  function SeenAt(store: Nonces, nonce: string): int {
    if nonce in store then store[nonce] else 0
  }

  /** A stable sort by time of entries that come in nonce order. */
  predicate Older(store: Nonces, a: string, b: string) {
    if SeenAt(store, a) != SeenAt(store, b) then SeenAt(store, a) < SeenAt(store, b) else ByteLess(a, b)
  }

  function AgeOrder(store: Nonces): (string, string) -> bool {
    (a, b) => Older(store, a, b)
  }

  lemma AgeOrderTotal(store: Nonces)
    ensures StrictTotal(AgeOrder(store))
  {
    ByteLessTotal();
  }

  /** What is left of a store holding too many entries: its youngest `max`. */
  ghost predicate IsYoungest(store: Nonces, max: nat, kept: Nonces) {
    && kept.Keys <= store.Keys
    && (forall n :: n in kept ==> kept[n] == store[n])
    && |kept| == (if |store| <= max then |store| else max)
    && forall n, d :: n in kept && d in store && d !in kept ==> Older(store, d, n)
  }

  /** There is only one such rest, so `IsYoungest` says all about a pruned store. */
  lemma YoungestUnique(store: Nonces, max: nat, a: Nonces, b: Nonces)
    requires IsYoungest(store, max, a) && IsYoungest(store, max, b)
    ensures a == b
  {
    forall n | n in a.Keys ensures n in b.Keys {
      if n !in b.Keys {
        var d := OneMissing(a.Keys, b.Keys, n);
        OlderAsymmetric(store, n, d);
      }
    }
    forall n | n in b.Keys ensures n in a.Keys {
      if n !in a.Keys {
        var d := OneMissing(b.Keys, a.Keys, n);
        OlderAsymmetric(store, n, d);
      }
    }
  }

  lemma OlderAsymmetric(store: Nonces, a: string, b: string)
    ensures !(Older(store, a, b) && Older(store, b, a))
  {
    AgeOrderTotal(store);
    var lt := AgeOrder(store);
    assert lt(a, b) && lt(b, a) ==> lt(a, a);
  }

  lemma OneMissing<T>(a: set<T>, b: set<T>, n: T) returns (d: T)
    requires |a| == |b| && n in a && n !in b
    ensures d in b && d !in a
  {
    if b <= a {
      ProperSubsetSize(b, a, n);
    }
    d :| d in b && d !in a;
  }

  lemma SubsetSize<T>(a: set<T>, b: set<T>)
    requires a <= b
    ensures |a| <= |b|
  {
    assert b == a + (b - a);
  }

  lemma ProperSubsetSize<T>(a: set<T>, b: set<T>, extra: T)
    requires a <= b && extra in b && extra !in a
    ensures |a| < |b|
  {
    SubsetSize(a + {extra}, b);
  }

  class NonceFile {
    var nonces: Nonces

    constructor ()
      ensures nonces == map[]
    {
      nonces := map[];
    }

    method PruneNonceStore(now: int, ttlSeconds: int, maxEntries: nat)
      modifies this
      ensures IsYoungest(Retained(old(nonces), Cutoff(now, ttlSeconds)), maxEntries, nonces)
    {
      nonces := Retained(nonces, Cutoff(now, ttlSeconds));
      if |nonces| <= maxEntries {
        return;
      }
      hide StrictTotal, Ascending, AgeOrder, Older;
      var store := nonces;
      AgeOrderTotal(store);
      var entries := Sort(AgeOrder(store), store.Keys);
      ListingIs(AgeOrder(store), store.Keys);
      var overflow := |entries| - maxEntries;
      var i := 0;
      while i < overflow
        invariant i <= overflow
        invariant nonces == WithoutFirst(store, entries, i)
        invariant |nonces| == |store| - i
      {
        DropOne(store, entries, i);
        nonces := nonces - {entries[i]};
        i := i + 1;
      }
      DroppedAreOlder(store, entries, i);
    }

    /** Under the lock of the store's path; a replayed nonce leaves the stored file as it was. */
    method VerifyAndStoreNonce(nonce: string, seenAt: int, now: int, ttlSeconds: int) returns (accepted: bool)
      modifies this
      ensures accepted <==> !Replayed(old(nonces), nonce, now, ttlSeconds)
      ensures !accepted ==> nonces == old(nonces)
      ensures accepted ==> IsStored(old(nonces), nonce, seenAt, now, ttlSeconds, nonces)
    {
      var loaded := nonces;
      nonces := Retained(nonces, Cutoff(now, ttlSeconds));
      if nonce in nonces {
        nonces := loaded;
        return false;
      }
      nonces := nonces[nonce := seenAt];
      PruneNonceStore(now, ttlSeconds, DEFAULT_MAX_NONCE_ENTRIES);
      return true;
    }
  }

  function WithoutFirst(store: Nonces, entries: seq<string>, i: nat): Nonces
    requires i <= |entries|
  {
    map n | n in store && n !in entries[..i] :: store[n]
  }

  lemma DropOne(store: Nonces, entries: seq<string>, i: nat)
    requires StrictTotal(AgeOrder(store)) && Ascending(AgeOrder(store), entries)
    requires forall n :: n in entries <==> n in store
    requires i < |entries|
    ensures WithoutFirst(store, entries, i) - {entries[i]} == WithoutFirst(store, entries, i + 1)
    ensures |WithoutFirst(store, entries, i + 1)| == |WithoutFirst(store, entries, i)| - 1
  {
    NotAmongEarlier(store, entries, i);
    hide Ascending, StrictTotal, AgeOrder;
    assert entries[..i + 1] == entries[..i] + [entries[i]];
    var before, after := WithoutFirst(store, entries, i), WithoutFirst(store, entries, i + 1);
    assert entries[i] in before;
    assert before - {entries[i]} == after;
    hide WithoutFirst;
    assert before.Keys == after.Keys + {entries[i]};
    assert |before.Keys| == |before| && |after.Keys| == |after|;
  }

  lemma NotAmongEarlier(store: Nonces, entries: seq<string>, i: nat)
    requires StrictTotal(AgeOrder(store)) && Ascending(AgeOrder(store), entries)
    requires i < |entries|
    ensures entries[i] !in entries[..i]
  {
    forall j | 0 <= j < i ensures entries[j] != entries[i] {
      assert AgeOrder(store)(entries[j], entries[i]);
    }
  }

  lemma DroppedAreOlder(store: Nonces, entries: seq<string>, i: nat)
    requires StrictTotal(AgeOrder(store)) && Ascending(AgeOrder(store), entries)
    requires forall n :: n in entries <==> n in store
    requires i <= |entries|
    ensures var kept := WithoutFirst(store, entries, i);
      forall n, d :: n in kept && d in store && d !in kept ==> Older(store, d, n)
  {
    var kept := WithoutFirst(store, entries, i);
    forall n, d | n in kept && d in store && d !in kept
      ensures Older(store, d, n)
    {
      DroppedIsOlder(store, entries, i, n, d);
    }
  }

  lemma DroppedIsOlder(store: Nonces, entries: seq<string>, i: nat, n: string, d: string)
    requires Ascending(AgeOrder(store), entries)
    requires i <= |entries| && d in entries[..i] && n in entries && n !in entries[..i]
    ensures Older(store, d, n)
  {
    hide Older;
    var j :| 0 <= j < i && entries[j] == d;
    var k :| 0 <= k < |entries| && entries[k] == n;
    assert forall m :: 0 <= m < i ==> entries[m] in entries[..i];
    assert AgeOrder(store)(entries[j], entries[k]);
  }

  predicate Replayed(store: Nonces, nonce: string, now: int, ttlSeconds: int) {
    nonce in store && store[nonce] >= Cutoff(now, ttlSeconds)
  }

  /** The store after accepting a nonce: kept under the request's own time, then pruned. */
  ghost predicate IsStored(store: Nonces, nonce: string, seenAt: int, now: int, ttlSeconds: int, after: Nonces) {
    var cutoff := Cutoff(now, ttlSeconds);
    IsYoungest(Retained(Retained(store, cutoff)[nonce := seenAt], cutoff), DEFAULT_MAX_NONCE_ENTRIES, after)
  }

  // ----- runs -----

  /** One request on a store path, and whether its nonce was accepted. */
  datatype Check = Check(nonce: string, seenAt: int, now: int, accepted: bool)

  /** `stores[i]` is the store before check `i`. */
  ghost predicate IsRun(ttlSeconds: int, run: seq<Check>, stores: seq<Nonces>) {
    && |stores| == |run| + 1
    && stores[0] == map[]
    && (forall i, j :: 0 <= i < j < |run| ==> run[i].now <= run[j].now)
    && (forall i :: 0 <= i < |run| ==> Transition(ttlSeconds, stores[i], run[i], stores[i + 1]))
  }

  /** A request turned down, by the nonce check or before it, leaves the store alone. */
  ghost predicate Transition(ttlSeconds: int, before: Nonces, check: Check, after: Nonces) {
    if check.accepted then
      && !Replayed(before, check.nonce, check.now, ttlSeconds)
      && IsStored(before, check.nonce, check.seenAt, check.now, ttlSeconds, after)
    else
      after == before
  }

  /** The other nonces accepted in the first `n` checks with a time at or after `t`. */
  function Others(run: seq<Check>, n: nat, nonce: string, t: int): set<string>
    requires n <= |run|
  {
    set k | 0 <= k < n && run[k].accepted && run[k].nonce != nonce && run[k].seenAt >= t :: run[k].nonce
  }

  /** The store remembers only what was accepted, and never too much. */
  lemma {:induction false} StoreIsBounded(ttlSeconds: int, run: seq<Check>, stores: seq<Nonces>, n: nat)
    requires IsRun(ttlSeconds, run, stores) && n <= |run|
    ensures |stores[n]| <= DEFAULT_MAX_NONCE_ENTRIES
    ensures forall x :: x in stores[n] ==> Remembered(run, n, x, stores[n][x])
  {
    if n > 0 {
      StoreIsBounded(ttlSeconds, run, stores, n - 1);
      assert Transition(ttlSeconds, stores[n - 1], run[n - 1], stores[n]);
      forall x | x in stores[n] ensures Remembered(run, n, x, stores[n][x]) {
        if !(run[n - 1].accepted && x == run[n - 1].nonce) {
          assert Remembered(run, n - 1, x, stores[n - 1][x]);
        }
      }
    }
  }

  predicate Remembered(run: seq<Check>, n: nat, nonce: string, t: int)
    requires n <= |run|
  {
    exists k :: 0 <= k < n && run[k].accepted && run[k].nonce == nonce && run[k].seenAt == t
  }

  /** Why a nonce may be forgotten: it is out of date, or enough others are at least as young. */
  ghost predicate Forgettable(ttlSeconds: int, run: seq<Check>, n: nat, nonce: string, t: int)
    requires 0 < n <= |run|
  {
    || t < Cutoff(run[n - 1].now, ttlSeconds)
    || |Others(run, n, nonce, t)| >= DEFAULT_MAX_NONCE_ENTRIES
  }

  lemma ForgettableStays(ttlSeconds: int, run: seq<Check>, n: nat, nonce: string, t: int)
    requires 0 < n < |run| && run[n - 1].now <= run[n].now
    requires Forgettable(ttlSeconds, run, n, nonce, t)
    ensures Forgettable(ttlSeconds, run, n + 1, nonce, t)
  {
    assert Others(run, n, nonce, t) <= Others(run, n + 1, nonce, t);
    SubsetSize(Others(run, n, nonce, t), Others(run, n + 1, nonce, t));
  }

  /** Pigeonhole: what an overflow keeps is a full store of younger nonces. */
  lemma OverflowKeepsYounger(ttlSeconds: int, run: seq<Check>, stores: seq<Nonces>, n: nat, nonce: string, t: int, full: Nonces)
    requires IsRun(ttlSeconds, run, stores) && n < |run|
    requires IsYoungest(full, DEFAULT_MAX_NONCE_ENTRIES, stores[n + 1])
    requires nonce in full && full[nonce] == t && nonce !in stores[n + 1]
    ensures |Others(run, n + 1, nonce, t)| >= DEFAULT_MAX_NONCE_ENTRIES
  {
    var kept := stores[n + 1];
    StoreIsBounded(ttlSeconds, run, stores, n + 1);
    ProperSubsetSize(kept.Keys, full.Keys, nonce);
    assert |kept.Keys| == |kept| && |full.Keys| == |full|;
    forall x | x in kept ensures x in Others(run, n + 1, nonce, t) {
      assert Older(full, nonce, x);
      assert Remembered(run, n + 1, x, kept[x]);
    }
    SubsetSize(kept.Keys, Others(run, n + 1, nonce, t));
  }

  /** After it is accepted, a nonce is in the store under its time until it may be forgotten. */
  lemma {:induction false} KeptOrForgettable(ttlSeconds: int, run: seq<Check>, stores: seq<Nonces>, i: nat, n: nat)
    requires IsRun(ttlSeconds, run, stores)
    requires i < n <= |run| && run[i].accepted
    ensures var x, t := run[i].nonce, run[i].seenAt;
      (x in stores[n] && stores[n][x] == t) || Forgettable(ttlSeconds, run, n, x, t)
  {
    hide Others, Transition;
    var x, t := run[i].nonce, run[i].seenAt;
    if n == i + 1 {
      KeptOneStep(ttlSeconds, run, stores, n, x, t);
    } else {
      KeptOrForgettable(ttlSeconds, run, stores, i, n - 1);
      if Forgettable(ttlSeconds, run, n - 1, x, t) {
        ForgettableStays(ttlSeconds, run, n - 1, x, t);
      } else {
        KeptOneStep(ttlSeconds, run, stores, n, x, t);
      }
    }
  }

  lemma KeptOneStep(ttlSeconds: int, run: seq<Check>, stores: seq<Nonces>, n: nat, x: string, t: int)
    requires IsRun(ttlSeconds, run, stores) && 0 < n <= |run|
    requires || (x in stores[n - 1] && stores[n - 1][x] == t)
             || (run[n - 1].accepted && run[n - 1].nonce == x && run[n - 1].seenAt == t)
    ensures (x in stores[n] && stores[n][x] == t) || Forgettable(ttlSeconds, run, n, x, t)
  {
    hide Others;
    var last := run[n - 1];
    var cutoff := Cutoff(last.now, ttlSeconds);
    assert Transition(ttlSeconds, stores[n - 1], last, stores[n]);
    if last.accepted && t >= cutoff {
      var full := Retained(Retained(stores[n - 1], cutoff)[last.nonce := last.seenAt], cutoff);
      assert x in full && full[x] == t;
      if x !in stores[n] {
        OverflowKeepsYounger(ttlSeconds, run, stores, n - 1, x, t, full);
      }
    }
  }

  /**
   When a nonce is accepted again, its first time has aged out, or at least a full store of other
   nonces was accepted with times no older.
   */
  lemma ReplayNeedsAgeOrOverflow(ttlSeconds: int, run: seq<Check>, stores: seq<Nonces>, i: nat, j: nat)
    requires IsRun(ttlSeconds, run, stores)
    requires i < j < |run| && run[i].accepted && run[j].accepted && run[i].nonce == run[j].nonce
    ensures run[i].seenAt < Cutoff(run[j].now, ttlSeconds)
         || |Others(run, j, run[i].nonce, run[i].seenAt)| >= DEFAULT_MAX_NONCE_ENTRIES
  {
    KeptOrForgettable(ttlSeconds, run, stores, i, j);
    assert Transition(ttlSeconds, stores[j], run[j], stores[j + 1]);
    assert run[j - 1].now <= run[j].now;
  }
}
