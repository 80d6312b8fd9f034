/**
 The leased job table: workers take jobs for a limited time, report success or ask for a retry.
 Times are integers; the source compares fixed-format time texts.
 */
module LeasedJobs {
  import opened Ordering
  import opened Utf8
  import opened Wrappers

  datatype Status = Ready | Leased | RetryWait | Succeeded

  datatype Row = Row(
    payload: string,
    status: Status,
    attemptCount: nat,
    leaseOwner: Option<string>,
    leaseExpiresAt: Option<int>,
    nextAttemptAt: int,
    lastError: Option<string>,
    createdAt: int)

  type Table = map<string, Row>

  datatype Grant = Grant(jobKey: string, payload: string, attemptCount: nat)

  // ----- what each statement does to the table -----

  /** The `WHERE` clause shared by the select and the guarded update. */
  predicate Leasable(row: Row, now: int) {
    || row.status == Ready
    || (row.status == RetryWait && row.nextAttemptAt <= now)
    || (row.status == Leased && row.leaseExpiresAt.Some? && row.leaseExpiresAt.value <= now)
  }

  function LeasableKeys(t: Table, now: int): set<string> {
    set key | key in t && Leasable(t[key], now)
  }

  /** `ORDER BY next_attempt_at, created_at, job_key` */
  predicate Before(t: Table, key: string, key': string) {
    if key !in t || key' !in t then key !in t && (key' in t || ByteLess(key, key'))
    else if t[key].nextAttemptAt != t[key'].nextAttemptAt then t[key].nextAttemptAt < t[key'].nextAttemptAt
    else if t[key].createdAt != t[key'].createdAt then t[key].createdAt < t[key'].createdAt
    else ByteLess(key, key')
  }

  function RowOrder(t: Table): (string, string) -> bool {
    (key, key') => Before(t, key, key')
  }

  lemma RowOrderTotal(t: Table)
    ensures StrictTotal(RowOrder(t))
  {
    ByteLessTotal();
  }

  /** `LIMIT`: a negative limit is no limit. */
  function Take<T>(s: seq<T>, limit: int): (r: seq<T>)
    ensures r <= s
  {
    if 0 <= limit < |s| then s[..limit] else s
  }

  /** The keys the select returns. */
  ghost function Selected(t: Table, limit: int, now: int): seq<string> {
    Take(Listing(RowOrder(t), LeasableKeys(t, now)), limit)
  }

  /** Exactly the first `limit` leasable jobs, each once, in order. */
  lemma SelectedIsFirst(t: Table, limit: int, now: int)
    ensures forall i, j :: 0 <= i < j < |Selected(t, limit, now)| ==> Before(t, Selected(t, limit, now)[i], Selected(t, limit, now)[j])
    ensures forall key :: key in Selected(t, limit, now) ==> key in LeasableKeys(t, now)
    ensures forall key, other ::
      key in Selected(t, limit, now) && other in LeasableKeys(t, now) && other !in Selected(t, limit, now) ==>
        Before(t, key, other)
    ensures |Selected(t, limit, now)| == if 0 <= limit < |LeasableKeys(t, now)| then limit else |LeasableKeys(t, now)|
  {
    RowOrderTotal(t);
    ListingIs(RowOrder(t), LeasableKeys(t, now));
    var all, s := Listing(RowOrder(t), LeasableKeys(t, now)), Selected(t, limit, now);
    assert forall i :: 0 <= i < |s| ==> s[i] == all[i];
    forall key, other | key in s && other in all && other !in s
      ensures Before(t, key, other)
    {
      var i :| 0 <= i < |s| && s[i] == key;
      var j :| 0 <= j < |all| && all[j] == other;
      assert s == all[..|s|] && other !in all[..|s|];
    }
  }

  /** Jobs are taken by when they are due, then by when they were made, then by key; what is left out comes after all that is taken. */
  lemma TakenInOrder(t: Table, limit: int, now: int)
    ensures var s := Selected(t, limit, now);
      forall i, j :: 0 <= i < j < |s| ==> s[i] in t && s[j] in t && ComesFirst(t[s[i]], s[i], t[s[j]], s[j])
    ensures var s := Selected(t, limit, now);
      forall key, other :: key in s && other in t && Leasable(t[other], now) && other !in s ==> key in t && ComesFirst(t[key], key, t[other], other)
  {
    hide Selected, Leasable;
    SelectedIsFirst(t, limit, now);
    var s := Selected(t, limit, now);
    assert forall i :: 0 <= i < |s| ==> s[i] in LeasableKeys(t, now);
  }

  predicate ComesFirst(row: Row, key: string, other: Row, key': string) {
    || row.nextAttemptAt < other.nextAttemptAt
    || (row.nextAttemptAt == other.nextAttemptAt && row.createdAt < other.createdAt)
    || (row.nextAttemptAt == other.nextAttemptAt && row.createdAt == other.createdAt && ByteLess(key, key'))
  }

  function LeaseRow(row: Row, worker: string, expires: int): Row {
    row.(status := Leased, leaseOwner := Some(worker), leaseExpiresAt := Some(expires))
  }

  function Enqueued(t: Table, key: string, payload: string, nextAttemptAt: int, clock: int): Table {
    if key in t then
      t[key := t[key].(payload := payload, status := Ready, leaseOwner := None, leaseExpiresAt := None,
                       nextAttemptAt := nextAttemptAt, lastError := None)]
    else
      t[key := Row(payload, Ready, 0, None, None, nextAttemptAt, None, clock)]
  }

  function LeasedTo(t: Table, keys: seq<string>, worker: string, expires: int): (t': Table)
    ensures t'.Keys == t.Keys
    ensures forall key :: key in t ==> t'[key] == if key in keys then LeaseRow(t[key], worker, expires) else t[key]
  {
    map key | key in t :: if key in keys then LeaseRow(t[key], worker, expires) else t[key]
  }

  function Finished(t: Table, key: string): Table {
    if key !in t then t
    else t[key := t[key].(status := Succeeded, leaseOwner := None, leaseExpiresAt := None, lastError := None)]
  }

  function Retried(t: Table, key: string, nextAttemptAt: int, lastError: Option<string>): Table {
    if key !in t then t
    else t[key := t[key].(status := RetryWait, attemptCount := t[key].attemptCount + 1, leaseOwner := None,
                          leaseExpiresAt := None, nextAttemptAt := nextAttemptAt, lastError := lastError)]
  }

  function GrantFor(t: Table, key: string): Grant {
    if key in t then Grant(key, t[key].payload, t[key].attemptCount) else Grant(key, "", 0)
  }

  function GrantsFor(t: Table, keys: seq<string>): seq<Grant> {
    seq(|keys|, i requires 0 <= i < |keys| => GrantFor(t, keys[i]))
  }

  predicate AllDecode(decodes: string -> bool, t: Table, keys: seq<string>) {
    forall key :: key in keys && key in t ==> decodes(t[key].payload)
  }

  // ----- the store -----

  class JobTable {
    var rows: Table

    constructor ()
      ensures rows == map[]
    {
      rows := map[];
    }

    method EnqueueLeasedJob(key: string, payload: string, nextAttemptAt: int, clock: int)
      modifies this
      ensures rows == Enqueued(old(rows), key, payload, nextAttemptAt, clock)
    {
      if key in rows {
        rows := rows[key := rows[key].(payload := payload, status := Ready, leaseOwner := None,
                     leaseExpiresAt := None, nextAttemptAt := nextAttemptAt, lastError := None)];
      } else {
        rows := rows[key := Row(payload, Ready, 0, None, None, nextAttemptAt, None, clock)];
      }
    }

    /** One transaction. A payload that does not decode aborts it, and the rollback drops every update. */
    method LeaseReadyJobs(decodes: string -> bool, worker: string, limit: int, now: int, expires: int)
      returns (r: Result<seq<Grant>, string>)
      modifies this
      ensures r.Ok? <==> AllDecode(decodes, old(rows), Selected(old(rows), limit, now))
      ensures r.Err? ==> rows == old(rows)
      ensures r.Ok? ==> r.value == GrantsFor(old(rows), Selected(old(rows), limit, now))
      ensures r.Ok? ==> rows == LeasedTo(old(rows), Selected(old(rows), limit, now), worker, expires)
    {
      hide StrictTotal, Ascending, RowOrder, GrantsFor, LeasedTo, LeasableKeys, Leasable, IsSelection, AllDecode;
      var before := rows;
      RowOrderTotal(before);
      var ordered := Sort(RowOrder(before), LeasableKeys(before, now));
      var selected := Take(ordered, limit);
      assert selected == Selected(before, limit, now);
      SelectionIs(before, limit, now);
      NothingLeased(decodes, before, worker, expires);
      assert selected[..0] == [];
      var leased: seq<Grant> := [];
      var i := 0;
      while i < |selected|
        invariant i <= |selected|
        invariant rows == LeasedTo(before, selected[..i], worker, expires)
        invariant leased == GrantsFor(before, selected[..i])
        invariant AllDecode(decodes, before, selected[..i])
      {
        var key := selected[i];
        OneMoreLease(before, selected, i, worker, expires, now);
        OneMoreDecodes(decodes, before, selected, i);
        var rowsAffected := GuardedLease(key, worker, now, expires);
        if rowsAffected != 0 {
          if !decodes(before[key].payload) {
            rows := before;
            return Err("json error");
          }
          leased := leased + [Grant(key, before[key].payload, before[key].attemptCount)];
        }
        i := i + 1;
      }
      assert selected[..i] == selected;
      r := Ok(leased);
    }

    /** The update repeats the guard of the select. */
    method GuardedLease(key: string, worker: string, now: int, expires: int) returns (rowsAffected: nat)
      modifies this
      ensures rowsAffected == if key in old(rows) && Leasable(old(rows)[key], now) then 1 else 0
      ensures rows == if rowsAffected == 0 then old(rows) else old(rows)[key := LeaseRow(old(rows)[key], worker, expires)]
    {
      if key !in rows || !Leasable(rows[key], now) {
        return 0;
      }
      rows := rows[key := LeaseRow(rows[key], worker, expires)];
      return 1;
    }

    method MarkLeasedJobSucceeded(key: string)
      modifies this
      ensures rows == Finished(old(rows), key)
    {
      if key in rows {
        rows := rows[key := rows[key].(status := Succeeded, leaseOwner := None, leaseExpiresAt := None, lastError := None)];
      }
    }

    method MarkLeasedJobRetry(key: string, nextAttemptAt: int, lastError: Option<string>)
      modifies this
      ensures rows == Retried(old(rows), key, nextAttemptAt, lastError)
    {
      if key in rows {
        rows := rows[key := rows[key].(status := RetryWait, attemptCount := rows[key].attemptCount + 1,
                     leaseOwner := None, leaseExpiresAt := None, nextAttemptAt := nextAttemptAt, lastError := lastError)];
      }
    }
  }

  /** What the loop needs of the selected keys. */
  ghost predicate IsSelection(t: Table, selected: seq<string>, now: int) {
    && (forall i, j :: 0 <= i < j < |selected| ==> Before(t, selected[i], selected[j]))
    && (forall key :: key in selected ==> key in LeasableKeys(t, now))
  }

  lemma SelectionIs(t: Table, limit: int, now: int)
    ensures IsSelection(t, Selected(t, limit, now), now)
  {
    hide Selected, LeasableKeys, Before;
    SelectedIsFirst(t, limit, now);
  }

  /** When its turn comes a selected row is as it was selected, so the guarded update takes it. */
  lemma OneMoreLease(t: Table, selected: seq<string>, i: nat, worker: string, expires: int, now: int)
    requires i < |selected| && IsSelection(t, selected, now)
    ensures var key, done := selected[i], LeasedTo(t, selected[..i], worker, expires);
      && key in t && key in done && done[key] == t[key] && Leasable(t[key], now)
      && done[key := LeaseRow(t[key], worker, expires)] == LeasedTo(t, selected[..i + 1], worker, expires)
      && GrantsFor(t, selected[..i]) + [GrantFor(t, key)] == GrantsFor(t, selected[..i + 1])
  {
    hide Leasable;
    NotTwice(t, selected, i);
    assert selected[..i + 1] == selected[..i] + [selected[i]];
    assert selected[i] in selected;
  }

  lemma OneMoreDecodes(decodes: string -> bool, t: Table, selected: seq<string>, i: nat)
    requires i < |selected| && selected[i] in t
    ensures AllDecode(decodes, t, selected[..i + 1]) <==> AllDecode(decodes, t, selected[..i]) && decodes(t[selected[i]].payload)
    ensures AllDecode(decodes, t, selected) ==> decodes(t[selected[i]].payload)
  {
    assert selected[..i + 1] == selected[..i] + [selected[i]];
    assert selected[i] in selected;
  }

  lemma NothingLeased(decodes: string -> bool, t: Table, worker: string, expires: int)
    ensures LeasedTo(t, [], worker, expires) == t && GrantsFor(t, []) == [] && AllDecode(decodes, t, [])
  {
  }

  lemma NotTwice(t: Table, selected: seq<string>, i: nat)
    requires i < |selected|
    requires forall a, b :: 0 <= a < b < |selected| ==> Before(t, selected[a], selected[b])
    ensures selected[i] !in selected[..i]
  {
    RowOrderTotal(t);
    assert !RowOrder(t)(selected[i], selected[i]);
  }

  // ----- runs -----

  /** `worker` is who asks for a retry; the statement does not look at it. */
  datatype Op =
    | Enqueue(key: string, payload: string, nextAttemptAt: int, clock: int)
    | Lease(worker: string, limit: int, now: int, expires: int)
    | FailedLease
    | Succeed(key: string)
    | Retry(worker: string, key: string, nextAttemptAt: int, lastError: Option<string>)

  ghost function Step(t: Table, op: Op): Table {
    match op
    case Enqueue(key, payload, nextAttemptAt, clock) => Enqueued(t, key, payload, nextAttemptAt, clock)
    case Lease(worker, limit, now, expires) => LeasedTo(t, Selected(t, limit, now), worker, expires)
    case FailedLease => t
    case Succeed(key) => Finished(t, key)
    case Retry(_, key, nextAttemptAt, lastError) => Retried(t, key, nextAttemptAt, lastError)
  }

  /** The table after the first `n` operations of a run. */
  ghost function After(t: Table, run: seq<Op>, n: nat): Table
    requires n <= |run|
  {
    if n == 0 then t else Step(After(t, run, n - 1), run[n - 1])
  }

  /** Operation `i` of the run grants the job. */
  ghost predicate Grants(t: Table, run: seq<Op>, i: nat, key: string) {
    && i < |run| && run[i].Lease?
    && key in Selected(After(t, run, i), run[i].limit, run[i].now)
  }

  /** Operation `i` gives the job back: a retry or a re-enqueue. */
  predicate GivesBack(run: seq<Op>, i: nat, key: string) {
    i < |run| && (run[i].Retry? || run[i].Enqueue?) && run[i].key == key
  }

  /** Held until `expires`, or finished and so not leasable at all. */
  predicate HeldUntil(t: Table, key: string, expires: int) {
    && key in t
    && (t[key].status == Succeeded || (t[key].status == Leased && t[key].leaseExpiresAt == Some(expires)))
  }

  lemma {:induction false} StaysHeld(t: Table, run: seq<Op>, i: nat, n: nat, key: string)
    requires i < n <= |run|
    requires Grants(t, run, i, key)
    requires forall m: nat :: i < m < n ==> !GivesBack(run, m, key) && !Grants(t, run, m, key)
    ensures HeldUntil(After(t, run, n), key, run[i].expires)
  {
    hide Selected;
    var before := After(t, run, n - 1);
    if n == i + 1 {
      SelectedIsFirst(before, run[i].limit, run[i].now);
    } else {
      StaysHeld(t, run, i, n - 1, key);
      assert !GivesBack(run, n - 1, key) && !Grants(t, run, n - 1, key);
    }
  }

  /** Two grants of one job, with none between: the first lease had expired, or it was given back. */
  lemma LeaseExclusive(t: Table, run: seq<Op>, i: nat, j: nat, key: string)
    requires i < j < |run|
    requires Grants(t, run, i, key) && Grants(t, run, j, key)
    requires forall m: nat :: i < m < j ==> !Grants(t, run, m, key)
    ensures run[i].expires <= run[j].now || exists m: nat :: i < m < j && GivesBack(run, m, key)
  {
    hide Selected;
    if forall m: nat :: i < m < j ==> !GivesBack(run, m, key) {
      StaysHeld(t, run, i, j, key);
      SelectedIsFirst(After(t, run, j), run[j].limit, run[j].now);
    }
  }

  /** No run grants a finished job again until it is retried or enqueued. */
  lemma {:induction false} FinishedStaysFinished(t: Table, run: seq<Op>, i: nat, j: nat, key: string)
    requires i < j < |run| && run[i] == Succeed(key) && Grants(t, run, j, key)
    ensures exists m: nat :: i < m < j && GivesBack(run, m, key)
  {
    hide Selected;
    SelectedIsFirst(After(t, run, j), run[j].limit, run[j].now);
    if forall m: nat :: i < m < j ==> !GivesBack(run, m, key) {
      StaysFinished(t, run, i, j, key);
    }
  }

  lemma {:induction false} StaysFinished(t: Table, run: seq<Op>, i: nat, n: nat, key: string)
    requires i < n <= |run| && run[i] == Succeed(key)
    requires forall m: nat :: i < m < n ==> !GivesBack(run, m, key)
    ensures key in After(t, run, n) ==> After(t, run, n)[key].status == Succeeded
  {
    hide Selected;
    if n > i + 1 {
      StaysFinished(t, run, i, n - 1, key);
      assert !GivesBack(run, n - 1, key);
      if run[n - 1].Lease? {
        SelectedIsFirst(After(t, run, n - 1), run[n - 1].limit, run[n - 1].now);
      }
    }
  }

  // ----- what a job's row says between two grants -----

  /** Operation `i` writes the job's row, other than by granting it. */
  predicate Touches(run: seq<Op>, i: nat, key: string) {
    i < |run| && (run[i].Enqueue? || run[i].Succeed? || run[i].Retry?) && run[i].key == key
  }

  predicate LeasedBy(t: Table, key: string, worker: string, expires: int) {
    key in t && t[key].status == Leased && t[key].leaseOwner == Some(worker) && t[key].leaseExpiresAt == Some(expires)
  }

  lemma OneOp(t: Table, op: Op, key: string)
    requires key in t
    requires op.Lease? ==> key !in Selected(t, op.limit, op.now)
    ensures key in Step(t, op)
    ensures !Touches([op], 0, key) ==> Step(t, op)[key] == t[key]
    ensures Touches([op], 0, key) ==> Step(t, op)[key].status == TouchedStatus(op) && (op.Retry? ==> Step(t, op)[key].nextAttemptAt == op.nextAttemptAt)
  {
    hide Selected;
  }

  function TouchedStatus(op: Op): Status {
    match op
    case Succeed(_) => Succeeded
    case Retry(_, _, _, _) => RetryWait
    case _ => Ready
  }

  /** From a grant on, with none after it: the job is leased to that worker until then exactly while nothing touches it. */
  lemma {:induction false} LeasedIffUntouched(t: Table, run: seq<Op>, i: nat, n: nat, key: string)
    requires i < n <= |run| && Grants(t, run, i, key)
    requires forall m: nat :: i < m < n ==> !Grants(t, run, m, key)
    ensures key in After(t, run, n)
    ensures LeasedBy(After(t, run, n), key, run[i].worker, run[i].expires) <==> forall m: nat :: i < m < n ==> !Touches(run, m, key)
    ensures (exists m: nat :: i < m < n && Touches(run, m, key)) ==> After(t, run, n)[key].status != Leased
  {
    hide Selected;
    var before := After(t, run, n - 1);
    if n == i + 1 {
      SelectedIsFirst(before, run[i].limit, run[i].now);
    } else {
      hide Step;
      LeasedIffUntouched(t, run, i, n - 1, key);
      assert !Grants(t, run, n - 1, key);
      OneOp(before, run[n - 1], key);
      assert Touches([run[n - 1]], 0, key) <==> Touches(run, n - 1, key);
    }
  }

  /** The last touch decides what the row says until the next grant. */
  lemma {:induction false} LastTouchStands(t: Table, run: seq<Op>, m: nat, n: nat, key: string)
    requires m < n <= |run| && Touches(run, m, key) && key in After(t, run, m)
    requires forall k: nat :: m < k < n ==> !Grants(t, run, k, key) && !Touches(run, k, key)
    ensures key in After(t, run, n) && After(t, run, n)[key].status == TouchedStatus(run[m])
    ensures run[m].Retry? ==> After(t, run, n)[key].nextAttemptAt == run[m].nextAttemptAt
  {
    hide Selected, Step;
    OneOp(After(t, run, n - 1), run[n - 1], key) by {
      if n > m + 1 {
        LastTouchStands(t, run, m, n - 1, key);
        assert !Grants(t, run, n - 1, key);
      }
    }
    if n > m + 1 {
      LastTouchStands(t, run, m, n - 1, key);
      assert !Touches(run, n - 1, key) && !Touches([run[n - 1]], 0, key);
    }
  }

  /** When a granted job can be granted again, by the last operation on it: `m` is the grant itself or the last touch. */
  lemma LeasableAgainIff(t: Table, run: seq<Op>, i: nat, m: nat, n: nat, key: string, now: int)
    requires i <= m < n <= |run| && Grants(t, run, i, key) && (m == i || Touches(run, m, key))
    requires forall k: nat :: i < k < n ==> !Grants(t, run, k, key)
    requires forall k: nat :: m < k < n ==> !Touches(run, k, key)
    ensures key in After(t, run, n)
    ensures Leasable(After(t, run, n)[key], now) <==> match run[m]
      case Lease(_, _, _, expires) => expires <= now
      case Enqueue(_, _, _, _) => true
      case Retry(_, _, nextAttemptAt, _) => nextAttemptAt <= now
      case Succeed(_) => false
      case FailedLease => false
  {
    hide Selected, After;
    LeasedIffUntouched(t, run, i, n, key);
    if m > i {
      LeasedIffUntouched(t, run, i, m, key);
      LastTouchStands(t, run, m, n, key);
    }
  }

  // ----- whose lease a retry ends -----

  /** At `now` the job is leased to the worker and the lease has not run out. */
  predicate LiveFor(t: Table, key: string, worker: string, now: int) {
    key in t && t[key].status == Leased && t[key].leaseOwner == Some(worker) && t[key].leaseExpiresAt.Some? && now < t[key].leaseExpiresAt.value
  }

  /** The retry takes a live lease from a worker who did not ask for it. */
  ghost predicate EndsAnothersLease(t: Table, op: Op, now: int) {
    op.Retry? && exists worker :: worker != op.worker && LiveFor(t, op.key, worker, now) && !LiveFor(Step(t, op), op.key, worker, now)
  }

  lemma EndsAnothersLeaseIff(t: Table, op: Op, now: int)
    requires op.Retry?
    ensures EndsAnothersLease(t, op, now)
       <==> (op.key in t && t[op.key].leaseOwner.Some? && t[op.key].leaseOwner.value != op.worker
             && LiveFor(t, op.key, t[op.key].leaseOwner.value, now))
  {
    if op.key in t && t[op.key].leaseOwner.Some? {
      var worker := t[op.key].leaseOwner.value;
      assert worker != op.worker && LiveFor(t, op.key, worker, now) ==> !LiveFor(Step(t, op), op.key, worker, now);
    }
  }

  /**
   Over every run: a retry ends a live lease of another worker exactly when the last grant was to another
   worker, nothing touched the job since, and that lease has not run out.
   */
  lemma RetryEndsAnothersLeaseIff(t: Table, run: seq<Op>, i: nat, j: nat, key: string, now: int)
    requires i < j < |run| && Grants(t, run, i, key) && run[j].Retry? && run[j].key == key
    requires forall m: nat :: i < m < j ==> !Grants(t, run, m, key)
    ensures EndsAnothersLease(After(t, run, j), run[j], now)
       <==> run[i].worker != run[j].worker && now < run[i].expires && forall m: nat :: i < m < j ==> !Touches(run, m, key)
  {
    hide Selected, After, Step, EndsAnothersLease;
    LeasedIffUntouched(t, run, i, j, key);
    EndsAnothersLeaseIff(After(t, run, j), run[j], now);
  }

  /** A retry by a worker whose lease has run out frees the live lease of another worker. */
  lemma StaleRetryBreaksLease(key: string)
    ensures var run := [Enqueue(key, "", 0, 0), Lease("a", 1, 0, 10), Lease("b", 1, 10, 20), Retry("a", key, 11, None), Lease("c", 1, 12, 22)];
      && Grants(map[], run, 1, key) && Grants(map[], run, 2, key) && Grants(map[], run, 4, key)
      && run[4].now < run[2].expires
  {
    var run := [Enqueue(key, "", 0, 0), Lease("a", 1, 0, 10), Lease("b", 1, 10, 20), Retry("a", key, 11, None), Lease("c", 1, 12, 22)];
    hide Selected;
    var t1 := After(map[], run, 1);
    assert After(map[], run, 0) == map[];
    OnlyJob(t1, key, 1, 0);
    var t2 := After(map[], run, 2);
    OnlyJob(t2, key, 1, 10);
    var t3 := After(map[], run, 3);
    var t4 := After(map[], run, 4);
    assert t4.Keys == {key};
    OnlyJob(t4, key, 1, 12);
  }

  lemma OnlyJob(t: Table, key: string, limit: int, now: int)
    requires t.Keys == {key} && Leasable(t[key], now) && limit > 0
    ensures key in Selected(t, limit, now)
  {
    SelectedIsFirst(t, limit, now);
    assert LeasableKeys(t, now) == {key};
    assert Selected(t, limit, now)[0] in Selected(t, limit, now);
  }

  /** The attempt count of a job is the number of its retries since it first entered the table. */
  function RetriesOf(run: seq<Op>, n: nat, key: string): nat
    requires n <= |run|
  {
    if n == 0 then 0 else RetriesOf(run, n - 1, key) + if run[n - 1].Retry? && run[n - 1].key == key then 1 else 0
  }

  lemma AttemptsOfOne(t: Table, op: Op, key: string)
    requires key in t
    ensures var t' := Step(t, op);
      && key in t' && t'[key].createdAt == t[key].createdAt
      && t'[key].attemptCount == t[key].attemptCount + if op.Retry? && op.key == key then 1 else 0
  {
    hide Selected;
  }

  lemma {:induction false} AttemptsAreRetries(t: Table, run: seq<Op>, n: nat, m: nat, key: string)
    requires n <= m <= |run|
    requires key in After(t, run, n)
    ensures key in After(t, run, m)
    ensures After(t, run, m)[key].attemptCount - After(t, run, n)[key].attemptCount
         == RetriesOf(run, m, key) - RetriesOf(run, n, key)
    ensures After(t, run, m)[key].createdAt == After(t, run, n)[key].createdAt
  {
    hide Step;
    if n < m {
      AttemptsAreRetries(t, run, n, m - 1, key);
      AttemptsOfOne(After(t, run, m - 1), run[m - 1], key);
    }
  }

  // ----- who holds a lease -----

  /** A row names an owner and an expiry exactly while it is leased. */
  predicate LeaseFieldsFit(row: Row) {
    (row.leaseOwner.Some? <==> row.status == Leased) && (row.leaseExpiresAt.Some? <==> row.status == Leased)
  }

  /** Every run keeps that, so no lease is left behind by a report, a retry or an enqueue. */
  lemma {:induction false} EveryRunFits(t: Table, run: seq<Op>, n: nat)
    requires n <= |run| && forall key :: key in t ==> LeaseFieldsFit(t[key])
    ensures forall key :: key in After(t, run, n) ==> LeaseFieldsFit(After(t, run, n)[key])
  {
    hide Step, LeaseFieldsFit;
    if n > 0 {
      EveryRunFits(t, run, n - 1);
      StepFits(After(t, run, n - 1), run[n - 1]);
    }
  }

  lemma StepFits(t: Table, op: Op)
    requires forall key :: key in t ==> LeaseFieldsFit(t[key])
    ensures forall key :: key in Step(t, op) ==> LeaseFieldsFit(Step(t, op)[key])
  {
    hide Selected;
  }

  // ----- what a worker is handed -----

  predicate Enqueues(run: seq<Op>, m: nat, key: string) {
    m < |run| && run[m].Enqueue? && run[m].key == key
  }

  lemma PayloadOfOne(t: Table, op: Op, key: string)
    requires key in t || Enqueues([op], 0, key)
    ensures key in Step(t, op) && Step(t, op)[key].payload == if Enqueues([op], 0, key) then op.payload else t[key].payload
  {
    hide Selected;
  }

  /** A job's payload is the one of its last enqueue, whatever leases, reports and retries came since. */
  lemma {:induction false} PayloadIsLastEnqueued(t: Table, run: seq<Op>, m: nat, n: nat, key: string)
    requires m < n <= |run| && Enqueues(run, m, key)
    requires forall k: nat :: m < k < n ==> !Enqueues(run, k, key)
    ensures key in After(t, run, n) && After(t, run, n)[key].payload == run[m].payload
  {
    hide Step;
    if m + 1 < n {
      PayloadIsLastEnqueued(t, run, m, n - 1, key);
      assert !Enqueues(run, n - 1, key);
    }
    PayloadOfOne(After(t, run, n - 1), run[n - 1], key);
  }

  /**
   A job that first entered the table by enqueue `f` and was enqueued last by `m`: its grant hands out the payload
   of `m` and the number of its retries since `f`, and hands it out once.
   */
  lemma GrantIsLastEnqueued(t: Table, run: seq<Op>, f: nat, m: nat, n: nat, key: string) returns (g: Grant)
    requires f <= m < n < |run| && Enqueues(run, f, key) && Enqueues(run, m, key) && key !in After(t, run, f)
    requires forall k: nat :: m < k < n ==> !Enqueues(run, k, key)
    requires Grants(t, run, n, key)
    ensures g.jobKey == key && g.payload == run[m].payload && g.attemptCount == RetriesOf(run, n, key) - RetriesOf(run, f, key)
    ensures var grants := GrantsFor(After(t, run, n), Selected(After(t, run, n), run[n].limit, run[n].now));
      multiset(grants)[g] == 1 && forall h :: h in grants && h.jobKey == key ==> h == g
  {
    hide Selected, After, Step, RetriesOf;
    var now := After(t, run, n);
    var keys := Selected(now, run[n].limit, run[n].now);
    PayloadIsLastEnqueued(t, run, m, n, key);
    EntersWithNoAttempt(t, run, f, key);
    AttemptsAreRetries(t, run, f + 1, n, key);
    SelectedIsFirst(now, run[n].limit, run[n].now);
    g := GrantFor(now, key);
    var i :| 0 <= i < |keys| && keys[i] == key;
    RowOrderTotal(now);
    forall j | 0 <= j < |keys| && j != i ensures keys[j] != key {
      assert if i < j then Before(now, keys[i], keys[j]) else Before(now, keys[j], keys[i]);
      assert !RowOrder(now)(key, key);
    }
    OnceIn(GrantsFor(now, keys), i);
  }

  lemma OnceIn<T>(s: seq<T>, i: nat)
    requires i < |s| && forall j :: 0 <= j < |s| && j != i ==> s[j] != s[i]
    ensures multiset(s)[s[i]] == 1
  {
    assert s == s[..i] + [s[i]] + s[i + 1..];
    assert s[i] !in s[..i] && s[i] !in s[i + 1..];
    assert multiset(s) == multiset(s[..i]) + multiset{s[i]} + multiset(s[i + 1..]);
  }

  lemma EntersWithNoAttempt(t: Table, run: seq<Op>, f: nat, key: string)
    requires Enqueues(run, f, key) && key !in After(t, run, f)
    ensures key in After(t, run, f + 1) && After(t, run, f + 1)[key].attemptCount == 0 && After(t, run, f + 1)[key].createdAt == run[f].clock
    ensures RetriesOf(run, f + 1, key) == RetriesOf(run, f, key)
  {
  }

  /** When a job is due next is what its last enqueue or retry said. */
  lemma {:induction false} DueAsLastGivenBack(t: Table, run: seq<Op>, m: nat, n: nat, key: string)
    requires m < n <= |run| && GivesBack(run, m, key) && (run[m].Enqueue? || key in After(t, run, m))
    requires forall k: nat :: m < k < n ==> !GivesBack(run, k, key)
    ensures key in After(t, run, n) && After(t, run, n)[key].nextAttemptAt == run[m].nextAttemptAt
  {
    hide Step;
    if m + 1 < n {
      DueAsLastGivenBack(t, run, m, n - 1, key);
      assert !GivesBack(run, n - 1, key);
    }
    DueOfOne(After(t, run, n - 1), run[n - 1], key);
  }

  lemma DueOfOne(t: Table, op: Op, key: string)
    requires key in t || Enqueues([op], 0, key)
    ensures key in Step(t, op) && Step(t, op)[key].nextAttemptAt == if GivesBack([op], 0, key) then op.nextAttemptAt else t[key].nextAttemptAt
  {
    hide Selected;
  }

  /** The recorded error is that of the last retry, until the job is enqueued or finished. */
  lemma {:induction false} ErrorIsLastReported(t: Table, run: seq<Op>, m: nat, n: nat, key: string)
    requires m < n <= |run| && Touches(run, m, key) && (run[m].Enqueue? || key in After(t, run, m))
    requires forall k: nat :: m < k < n ==> !Touches(run, k, key)
    ensures key in After(t, run, n) && After(t, run, n)[key].lastError == if run[m].Retry? then run[m].lastError else None
  {
    hide Step;
    if m + 1 < n {
      ErrorIsLastReported(t, run, m, n - 1, key);
      assert !Touches(run, n - 1, key);
    }
    ErrorOfOne(After(t, run, n - 1), run[n - 1], key);
  }

  lemma ErrorOfOne(t: Table, op: Op, key: string)
    requires key in t || Enqueues([op], 0, key)
    ensures key in Step(t, op)
    ensures Step(t, op)[key].lastError ==
      if !Touches([op], 0, key) then t[key].lastError else if op.Retry? then op.lastError else None
  {
    hide Selected;
  }
}
