/**
 The incremental synchronisation of a Discovery node: fetch the publications after the stored
 cursor, index or reject each package, stop at one that does not decode, and move the cursor.
 What a package is, its DID and the first check it fails are parameters.
 */
module DiscoverySync {
  import opened Wrappers

  datatype Publication = Publication(cursor: int, agentDid: string)

  /** A decoded package comes with the first check it fails, under the bulletin of the synchronisation. */
  datatype Fetched<P> = TransportError | DecodeFailed | Decoded(package: P, reason: Option<string>)

  datatype Outcome<P> =
    | Indexed(pub: Publication, package: P)
    | Rejected(pub: Publication, did: string, why: string)

  datatype Node<P> = Node(
    cursor: int,
    index: map<string, (int, P)>,
    rejected: map<(string, int), string>)

  // ----- one sync -----

  function Max(a: int, b: int): int { if a < b then b else a }
  function Min(a: int, b: int): int { if a < b then a else b }

  /** Root's answer: the publications after the cursor, at most `limit`, which it clamps to 1..1000. */
  function Window(feed: seq<Publication>, after: int, limit: int): (items: seq<Publication>) {
    var later := After(feed, after);
    var n := Max(1, Min(limit, 1000));
    if |later| <= n then later else later[..n]
  }

  function After(feed: seq<Publication>, after: int): (later: seq<Publication>) {
    if feed == [] then []
    else if feed[0].cursor > after then [feed[0]] + After(feed[1..], after)
    else After(feed[1..], after)
  }

  /** What the loop does to one decoded package. */
  function Treat<P>(didOf: P -> string, pub: Publication, answer: Fetched<P>): Outcome<P>
    requires answer.Decoded?
  {
    match answer.reason
    case None => Indexed(pub, answer.package)
    case Some(why) => Rejected(pub, didOf(answer.package), why)
  }

  /** How many publications the loop decodes before it ends. */
  function Decodes<P>(items: seq<Publication>, fetch: Publication -> Fetched<P>): (n: nat)
    ensures n <= |items|
    ensures forall i :: 0 <= i < n ==> fetch(items[i]).Decoded?
    ensures n < |items| ==> !fetch(items[n]).Decoded?
  {
    if items == [] || !fetch(items[0]).Decoded? then 0
    else
      var n := Decodes(items[1..], fetch);
      assert forall i :: 0 < i < 1 + n ==> items[i] == items[1..][i - 1];
      1 + n
  }

  function Outcomes<P>(didOf: P -> string, items: seq<Publication>, fetch: Publication -> Fetched<P>): (r: seq<Outcome<P>>)
    ensures |r| == Decodes(items, fetch)
    ensures forall i :: 0 <= i < |r| ==> r[i] == Treat(didOf, items[i], fetch(items[i]))
  {
    seq(Decodes(items, fetch), i requires 0 <= i < Decodes(items, fetch) => Treat(didOf, items[i], fetch(items[i])))
  }

  /** A transport error ends the handler at once: index updates stay, cursor and rejections are not written. */
  predicate Aborts<P>(items: seq<Publication>, fetch: Publication -> Fetched<P>) {
    var n := Decodes(items, fetch);
    n < |items| && fetch(items[n]).TransportError?
  }

  /** A publication that does not decode blocks the rest. */
  function BlockedAt<P>(items: seq<Publication>, fetch: Publication -> Fetched<P>): Option<Publication> {
    var n := Decodes(items, fetch);
    if n < |items| && fetch(items[n]).DecodeFailed? then Some(items[n]) else None
  }

  function Upserts<P>(didOf: P -> string, index: map<string, (int, P)>, outcomes: seq<Outcome<P>>): map<string, (int, P)> {
    if outcomes == [] then index
    else
      var before, last := Upserts(didOf, index, outcomes[..|outcomes| - 1]), outcomes[|outcomes| - 1];
      if last.Indexed? then before[didOf(last.package) := (last.pub.cursor, last.package)] else before
  }

  function LastIndexed<P>(outcomes: seq<Outcome<P>>, cursor: int): int {
    if outcomes == [] then cursor
    else if outcomes[|outcomes| - 1].Indexed? then outcomes[|outcomes| - 1].pub.cursor
    else LastIndexed(outcomes[..|outcomes| - 1], cursor)
  }

  function Recorded<P>(rejected: map<(string, int), string>, outcomes: seq<Outcome<P>>): map<(string, int), string> {
    if outcomes == [] then rejected
    else
      var before, last := Recorded(rejected, outcomes[..|outcomes| - 1]), outcomes[|outcomes| - 1];
      if last.Rejected? then before[(last.did, last.pub.cursor) := last.why] else before
  }

  /**
   `rootAnswers` when the bulletin, Root's key and the CDN's address came and the chain passed,
   `feedAnswers` when the list of publications came.
   */
  datatype Request<!P> = Request(
    feed: seq<Publication>,
    limit: int,
    cursorHint: Option<int>,
    fetch: Publication -> Fetched<P>,
    rootAnswers: bool,
    feedAnswers: bool)

  predicate IsNoop<P>(s: Node<P>, r: Request<P>) {
    r.cursorHint.Some? && r.cursorHint.value <= s.cursor
  }

  function Items<P>(s: Node<P>, r: Request<P>): seq<Publication> {
    if !r.rootAnswers || IsNoop(s, r) || !r.feedAnswers then [] else Window(r.feed, s.cursor, r.limit)
  }

  function NewCursor<P>(didOf: P -> string, s: Node<P>, r: Request<P>): int {
    var seen := LastIndexed(Outcomes(didOf, Items(s, r), r.fetch), s.cursor);
    var blocked := BlockedAt(Items(s, r), r.fetch);
    var capped := if blocked.Some? then Max(Min(seen, blocked.value.cursor - 1), s.cursor) else seen;
    if capped > s.cursor then capped else s.cursor
  }

  function Sync<P>(didOf: P -> string, s: Node<P>, r: Request<P>): Node<P> {
    var items := Items(s, r);
    var outcomes := Outcomes(didOf, items, r.fetch);
    var index := Upserts(didOf, s.index, outcomes);
    if Aborts(items, r.fetch) then s.(index := index)
    else
      var blocked := BlockedAt(items, r.fetch);
      var recorded := Recorded(s.rejected, outcomes);
      Node(NewCursor(didOf, s, r), index,
           if blocked.Some? then recorded[(blocked.value.agentDid, blocked.value.cursor) := "package_decode_failed"] else recorded)
  }

  class DiscoveryNode<P(0,!new)> {
    const didOf: P -> string
    var cursor: int
    var index: map<string, (int, P)>
    var rejected: map<(string, int), string>

    function Now(): Node<P>
      reads this
    {
      Node(cursor, index, rejected)
    }

    constructor (didOf: P -> string)
      ensures this.didOf == didOf && Now() == Node(0, map[], map[])
    {
      this.didOf := didOf;
      cursor, index, rejected := 0, map[], map[];
    }

    method SyncFromCdn(r: Request<P>) returns (ok: bool)
      modifies this
      ensures Now() == Sync(didOf, old(Now()), r)
      ensures ok <==> r.rootAnswers && (IsNoop(old(Now()), r) || (r.feedAnswers && !Aborts(Items(old(Now()), r), r.fetch)))
    {
      if !r.rootAnswers {
        return false;
      }
      var afterCursor := cursor;
      if r.cursorHint.Some? && r.cursorHint.value <= afterCursor {
        return true;
      }
      if !r.feedAnswers {
        return false;
      }
      var items := Window(r.feed, afterCursor, r.limit);
      var decoded, pendingRejected, maxCursorSeen := TreatItems(items, r.fetch);
      var blocked: Option<Publication> := None;
      if decoded < |items| {
        if r.fetch(items[decoded]).TransportError? {
          return false;
        }
        blocked := Some(items[decoded]);
        maxCursorSeen := Max(Min(maxCursorSeen, items[decoded].cursor - 1), afterCursor);
      }
      if maxCursorSeen > afterCursor {
        cursor := maxCursorSeen;
      }
      WriteRejected(pendingRejected);
      if blocked.Some? {
        rejected := rejected[(blocked.value.agentDid, blocked.value.cursor) := "package_decode_failed"];
      }
      return true;
    }

    /** The loop: index what passes, collect what does not, until a package cannot be had. */
    method TreatItems(items: seq<Publication>, fetch: Publication -> Fetched<P>)
      returns (decoded: nat, pendingRejected: seq<Outcome<P>>, maxCursorSeen: int)
      modifies this`index
      ensures decoded == Decodes(items, fetch)
      ensures index == Upserts(didOf, old(index), Outcomes(didOf, items, fetch))
      ensures maxCursorSeen == LastIndexed(Outcomes(didOf, items, fetch), cursor)
      ensures Recorded(rejected, pendingRejected) == Recorded(rejected, Outcomes(didOf, items, fetch))
    {
      ghost var outcomes := Outcomes(didOf, items, fetch);
      pendingRejected, maxCursorSeen, decoded := [], cursor, 0;
      while decoded < |items| && fetch(items[decoded]).Decoded?
        invariant decoded <= |outcomes| <= |items|
        invariant index == Upserts(didOf, old(index), outcomes[..decoded])
        invariant maxCursorSeen == LastIndexed(outcomes[..decoded], cursor)
        invariant Recorded(rejected, pendingRejected) == Recorded(rejected, outcomes[..decoded])
      {
        var entry, package := items[decoded], fetch(items[decoded]).package;
        var outcome := Treat(didOf, entry, fetch(entry));
        OneMore(didOf, old(index), cursor, rejected, outcomes, decoded);
        if outcome.Rejected? {
          RecordedAppend(rejected, pendingRejected, outcome);
          pendingRejected := pendingRejected + [outcome];
        } else {
          index := index[didOf(package) := (entry.cursor, package)];
          maxCursorSeen := entry.cursor;
        }
        decoded := decoded + 1;
      }
      assert outcomes[..decoded] == outcomes;
    }

    method WriteRejected(items: seq<Outcome<P>>)
      modifies this`rejected
      ensures rejected == Recorded(old(rejected), items)
    {
      for i := 0 to |items|
        invariant rejected == Recorded(old(rejected), items[..i])
      {
        assert items[..i + 1] == items[..i] + [items[i]];
        if items[i].Rejected? {
          rejected := rejected[(items[i].did, items[i].pub.cursor) := items[i].why];
        }
      }
      assert items[..|items|] == items;
    }
  }

  lemma OneMore<P>(didOf: P -> string, index: map<string, (int, P)>, cursor: int, rejected: map<(string, int), string>,
                   outcomes: seq<Outcome<P>>, i: nat)
    requires i < |outcomes|
    ensures var o, before := outcomes[i], Upserts(didOf, index, outcomes[..i]);
      Upserts(didOf, index, outcomes[..i + 1])
        == if o.Indexed? then before[didOf(o.package) := (o.pub.cursor, o.package)] else before
    ensures LastIndexed(outcomes[..i + 1], cursor)
         == if outcomes[i].Indexed? then outcomes[i].pub.cursor else LastIndexed(outcomes[..i], cursor)
    ensures var o, before := outcomes[i], Recorded(rejected, outcomes[..i]);
      Recorded(rejected, outcomes[..i + 1]) == if o.Rejected? then before[(o.did, o.pub.cursor) := o.why] else before
  {
    assert outcomes[..i + 1][..i] == outcomes[..i];
  }

  lemma RecordedAppend<P>(rejected: map<(string, int), string>, outcomes: seq<Outcome<P>>, o: Outcome<P>)
    requires o.Rejected?
    ensures Recorded(rejected, outcomes + [o]) == Recorded(rejected, outcomes)[(o.did, o.pub.cursor) := o.why]
  {
    assert (outcomes + [o])[..|outcomes|] == outcomes;
  }

  // ----- feeds -----

  ghost predicate AscendingFeed(feed: seq<Publication>) {
    && (forall i :: 0 <= i < |feed| ==> feed[i].cursor >= 1)
    && forall i, j :: 0 <= i < j < |feed| ==> feed[i].cursor < feed[j].cursor
  }

  lemma {:induction false} AfterMembers(feed: seq<Publication>, after: int, p: Publication)
    ensures p in After(feed, after) <==> p in feed && p.cursor > after
  {
    if feed != [] {
      AfterMembers(feed[1..], after, p);
      assert feed == [feed[0]] + feed[1..];
    }
  }

  lemma {:induction false} AfterAscends(feed: seq<Publication>, after: int)
    requires AscendingFeed(feed)
    ensures AscendingFeed(After(feed, after))
  {
    hide AscendingFeed;
    if feed == [] {
      assert After(feed, after) == feed;
    } else {
      TailAscends(feed);
      AfterAscends(feed[1..], after);
      var later := After(feed[1..], after);
      forall p | p in later ensures feed[0].cursor < p.cursor {
        AfterMembers(feed[1..], after, p);
      }
      ConsAscends(feed[0], later);
    }
  }

  lemma TailAscends(feed: seq<Publication>)
    requires AscendingFeed(feed) && feed != []
    ensures AscendingFeed(feed[1..]) && feed[0].cursor >= 1 && forall p :: p in feed[1..] ==> feed[0].cursor < p.cursor
  {
    assert forall i :: 0 <= i < |feed| - 1 ==> feed[1..][i] == feed[i + 1];
  }

  lemma ConsAscends(first: Publication, later: seq<Publication>)
    requires AscendingFeed(later) && first.cursor >= 1 && forall p :: p in later ==> first.cursor < p.cursor
    ensures AscendingFeed([first] + later)
  {
    var all := [first] + later;
    assert forall i :: 0 < i < |all| ==> all[i] == later[i - 1];
    forall i, j | 0 <= i < j < |all| ensures all[i].cursor < all[j].cursor {
      assert all[j] in later;
    }
  }

  lemma WindowAscends(feed: seq<Publication>, after: int, limit: int)
    requires AscendingFeed(feed)
    ensures AscendingFeed(Window(feed, after, limit))
    ensures Window(feed, after, limit) <= After(feed, after)
    ensures forall p :: p in Window(feed, after, limit) ==> p in feed && p.cursor > after
  {
    AfterAscends(feed, after);
    var w := Window(feed, after, limit);
    forall p | p in w ensures p in feed && p.cursor > after {
      var i :| 0 <= i < |w| && w[i] == p;
      assert After(feed, after)[i] == p;
      AfterMembers(feed, after, p);
    }
  }

  /** A publication after the cursor and no later than one of the window comes no later in the window. */
  lemma WindowHasAllBefore(feed: seq<Publication>, after: int, limit: int, p: Publication, j: nat)
    requires AscendingFeed(feed) && p in feed && p.cursor > after
    requires j < |Window(feed, after, limit)| && p.cursor <= Window(feed, after, limit)[j].cursor
    ensures exists i :: 0 <= i <= j && Window(feed, after, limit)[i] == p
  {
    WindowAscends(feed, after, limit);
    AfterAscends(feed, after);
    AfterMembers(feed, after, p);
    var later, w := After(feed, after), Window(feed, after, limit);
    var i :| 0 <= i < |later| && later[i] == p;
    assert w[j] == later[j];
    assert i <= j;
    assert w[i] == p;
  }

  /** The cursor moves to a publication that was indexed, or not at all. */
  lemma {:induction false} LastIndexedIs<P>(outcomes: seq<Outcome<P>>, cursor: int)
    ensures (forall i :: 0 <= i < |outcomes| ==> !outcomes[i].Indexed?) ==> LastIndexed(outcomes, cursor) == cursor
    ensures SomeIndexed(outcomes) ==>
      exists i :: 0 <= i < |outcomes| && outcomes[i].Indexed? && outcomes[i].pub.cursor == LastIndexed(outcomes, cursor)
  {
    if outcomes != [] && !outcomes[|outcomes| - 1].Indexed? {
      var init := outcomes[..|outcomes| - 1];
      LastIndexedIs(init, cursor);
      if SomeIndexed(outcomes) {
        var i :| 0 <= i < |outcomes| && outcomes[i].Indexed?;
        assert init[i].Indexed?;
        var k :| 0 <= k < |init| && init[k].Indexed? && init[k].pub.cursor == LastIndexed(init, cursor);
        assert outcomes[k] == init[k];
      }
    }
  }

  /** On an ascending feed: where one sync leaves the cursor. */
  lemma CursorAfterSync<P>(didOf: P -> string, s: Node<P>, r: Request<P>)
    requires AscendingFeed(r.feed)
    ensures var items, outcomes, s' := Items(s, r), Outcomes(didOf, Items(s, r), r.fetch), Sync(didOf, s, r);
      && s'.cursor >= s.cursor
      && (BlockedAt(items, r.fetch).Some? ==> s'.cursor < BlockedAt(items, r.fetch).value.cursor)
      && (s'.cursor > s.cursor <==> !Aborts(items, r.fetch) && SomeIndexed(outcomes))
      && (s'.cursor > s.cursor ==> exists i :: 0 <= i < |outcomes| && items[i].cursor == s'.cursor)
  {
    hide Window, Upserts, Recorded, Outcomes, LastIndexed, Treat;
    var items, outcomes := Items(s, r), Outcomes(didOf, Items(s, r), r.fetch);
    var last := LastIndexed(outcomes, s.cursor);
    ItemsAscend(s, r);
    LastIndexedIs(outcomes, s.cursor);
    if SomeIndexed(outcomes) {
      var i :| 0 <= i < |outcomes| && outcomes[i].Indexed? && outcomes[i].pub.cursor == last;
      OutcomePub(didOf, items, r.fetch, i);
      assert last == items[i].cursor > s.cursor;
    } else {
      assert last == s.cursor;
    }
  }

  predicate SomeIndexed<P>(outcomes: seq<Outcome<P>>) {
    exists i :: 0 <= i < |outcomes| && outcomes[i].Indexed?
  }

  lemma ItemsAscend<P>(s: Node<P>, r: Request<P>)
    requires AscendingFeed(r.feed)
    ensures var items := Items(s, r);
      && (forall i, j :: 0 <= i < j < |items| ==> items[i].cursor < items[j].cursor)
      && (forall i :: 0 <= i < |items| ==> items[i].cursor > s.cursor)
  {
    WindowAscends(r.feed, s.cursor, r.limit);
    assert forall i :: 0 <= i < |Items(s, r)| ==> Items(s, r)[i] in Items(s, r);
  }

  lemma OutcomePub<P>(didOf: P -> string, items: seq<Publication>, fetch: Publication -> Fetched<P>, i: nat)
    requires i < Decodes(items, fetch)
    ensures Outcomes(didOf, items, fetch)[i].pub == items[i]
  {
  }

  // ----- runs -----

  ghost predicate IsRun<P(!new)>(didOf: P -> string, reqs: seq<Request<P>>, states: seq<Node<P>>) {
    && |states| == |reqs| + 1
    && states[0] == Node(0, map[], map[])
    && (forall i: nat, j: nat :: FeedGrows(reqs, i, j))
    && (forall i: nat :: StepAt(didOf, reqs, states, i))
  }

  ghost predicate StepAt<P(!new)>(didOf: P -> string, reqs: seq<Request<P>>, states: seq<Node<P>>, i: nat)
    requires |states| == |reqs| + 1
  {
    i < |reqs| ==> AscendingFeed(reqs[i].feed) && states[i + 1] == Sync(didOf, states[i], reqs[i])
  }

  ghost predicate FeedGrows<P(!new)>(reqs: seq<Request<P>>, i: nat, j: nat) {
    i <= j < |reqs| ==> reqs[i].feed <= reqs[j].feed
  }

  /** Sync `k` ran to its end, and its i-th outcome was for `p`. */
  ghost predicate Handled<P(!new)>(didOf: P -> string, reqs: seq<Request<P>>, states: seq<Node<P>>, k: nat, i: nat, p: Publication)
    requires |states| == |reqs| + 1 && k < |reqs|
  {
    var items := Items(states[k], reqs[k]);
    !Aborts(items, reqs[k].fetch) && i < Decodes(items, reqs[k].fetch) && items[i] == p
  }

  ghost predicate WasHandled<P(!new)>(didOf: P -> string, reqs: seq<Request<P>>, states: seq<Node<P>>, n: nat, p: Publication)
    requires |states| == |reqs| + 1 && n <= |reqs|
  {
    exists k: nat, i: nat :: k < n && Handled(didOf, reqs, states, k, i, p)
  }

  /** Over any series of syncs nothing at or below the stored cursor was passed over. */
  lemma {:induction false} NothingSkipped<P(!new)>(didOf: P -> string, reqs: seq<Request<P>>, states: seq<Node<P>>, n: nat, m: nat, p: Publication)
    requires IsRun(didOf, reqs, states) && n <= |reqs| && m < |reqs|
    requires p in reqs[m].feed && p.cursor <= states[n].cursor
    ensures WasHandled(didOf, reqs, states, n, p)
    decreases n
  {
    hide Sync, Items, Decodes, AscendingFeed;
    assert StepAt(didOf, reqs, states, m);
    CursorsPositive(reqs[m].feed, p);
    if n > 0 {
      var k := n - 1;
      if p.cursor <= states[k].cursor {
        NothingSkipped(didOf, reqs, states, k, m, p);
        var k': nat, i: nat :| k' < k && Handled(didOf, reqs, states, k', i, p);
        assert Handled(didOf, reqs, states, k', i, p);
      } else {
        assert StepAt(didOf, reqs, states, k) && StepAt(didOf, reqs, states, m);
        assert FeedGrows(reqs, k, m) && FeedGrows(reqs, m, k);
        HandledNow(didOf, states[k], reqs[k], reqs[m].feed, p);
        var i :| 0 <= i < Decodes(Items(states[k], reqs[k]), reqs[k].fetch) && Items(states[k], reqs[k])[i] == p;
        CursorAfterSync(didOf, states[k], reqs[k]);
        assert Handled(didOf, reqs, states, k, i, p);
      }
    }
  }

  lemma CursorsPositive(feed: seq<Publication>, p: Publication)
    requires AscendingFeed(feed) && p in feed
    ensures p.cursor >= 1
  {
  }

  lemma HandledNow<P(!new)>(didOf: P -> string, s: Node<P>, r: Request<P>, feed: seq<Publication>, p: Publication)
    requires AscendingFeed(r.feed) && AscendingFeed(feed) && (feed <= r.feed || r.feed <= feed)
    requires p in feed && s.cursor < p.cursor <= Sync(didOf, s, r).cursor
    ensures exists i :: 0 <= i < Decodes(Items(s, r), r.fetch) && Items(s, r)[i] == p
  {
    hide Decodes, Window;
    CursorAfterSync(didOf, s, r);
    var items := Items(s, r);
    var j :| 0 <= j < Decodes(items, r.fetch) && items[j].cursor == Sync(didOf, s, r).cursor;
    WindowAscends(r.feed, s.cursor, r.limit);
    assert items[j] in items;
    SharedPart(feed, r.feed, p, items[j]);
    WindowHasAllBefore(r.feed, s.cursor, r.limit, p, j);
  }

  /** What one feed lists up to a publication, another that grew from it or into it lists too. */
  lemma SharedPart(a: seq<Publication>, b: seq<Publication>, p: Publication, q: Publication)
    requires AscendingFeed(a) && AscendingFeed(b) && (a <= b || b <= a)
    requires p in a && q in b && p.cursor <= q.cursor
    ensures p in b
  {
    var i :| 0 <= i < |a| && a[i] == p;
    var j :| 0 <= j < |b| && b[j] == q;
    assert b <= a ==> a[j] == q;
    if i < |b| {
      assert b[i] == p;
    }
  }

  lemma {:induction false} RecordedHas<P>(rejected: map<(string, int), string>, outcomes: seq<Outcome<P>>)
    ensures forall key :: key in rejected ==> key in Recorded(rejected, outcomes)
    ensures forall i :: 0 <= i < |outcomes| && outcomes[i].Rejected? ==> (outcomes[i].did, outcomes[i].pub.cursor) in Recorded(rejected, outcomes)
  {
    if outcomes != [] {
      RecordedHas(rejected, outcomes[..|outcomes| - 1]);
      assert forall i :: 0 <= i < |outcomes| - 1 ==> outcomes[i] == outcomes[..|outcomes| - 1][i];
    }
  }

  /** All outcomes of the first `n` syncs, aborted ones included. */
  ghost function Log<P(!new)>(didOf: P -> string, reqs: seq<Request<P>>, states: seq<Node<P>>, n: nat): seq<Outcome<P>>
    requires |states| == |reqs| + 1 && n <= |reqs|
  {
    if n == 0 then []
    else Log(didOf, reqs, states, n - 1) + Outcomes(didOf, Items(states[n - 1], reqs[n - 1]), reqs[n - 1].fetch)
  }

  /** Every handled publication has its outcome in the log; a rejection stands in the rejected table for good. */
  lemma {:induction false} HandledIsKept<P(!new)>(didOf: P -> string, reqs: seq<Request<P>>, states: seq<Node<P>>, n: nat, k: nat, i: nat, p: Publication)
    requires IsRun(didOf, reqs, states) && k < n <= |reqs| && Handled(didOf, reqs, states, k, i, p)
    ensures var o := Treat(didOf, p, reqs[k].fetch(p));
      o in Log(didOf, reqs, states, n) && (o.Rejected? ==> (o.did, p.cursor) in states[n].rejected)
    decreases n
  {
    hide Items, Outcomes, Decodes, Upserts, NewCursor, Recorded;
    var items := Items(states[n - 1], reqs[n - 1]);
    var outcomes := Outcomes(didOf, items, reqs[n - 1].fetch);
    assert StepAt(didOf, reqs, states, n - 1);
    RecordedHas(states[n - 1].rejected, outcomes);
    if k < n - 1 {
      HandledIsKept(didOf, reqs, states, n - 1, k, i, p);
    } else {
      assert outcomes[i] == Treat(didOf, p, reqs[k].fetch(p));
    }
  }

  lemma {:induction false} UpsertsAppend<P>(didOf: P -> string, index: map<string, (int, P)>, a: seq<Outcome<P>>, b: seq<Outcome<P>>)
    ensures Upserts(didOf, index, a + b) == Upserts(didOf, Upserts(didOf, index, a), b)
  {
    if b == [] {
      assert a + b == a;
    } else {
      UpsertsAppend(didOf, index, a, b[..|b| - 1]);
      assert (a + b)[..|a + b| - 1] == a + b[..|b| - 1];
    }
  }

  lemma SyncIndex<P(!new)>(didOf: P -> string, s: Node<P>, r: Request<P>)
    ensures Sync(didOf, s, r).index == Upserts(didOf, s.index, Outcomes(didOf, Items(s, r), r.fetch))
  {
  }

  /** The index is the replay of everything ever indexed. */
  lemma {:induction false} IndexIsReplay<P(!new)>(didOf: P -> string, reqs: seq<Request<P>>, states: seq<Node<P>>, n: nat)
    requires IsRun(didOf, reqs, states) && n <= |reqs|
    ensures states[n].index == Upserts(didOf, map[], Log(didOf, reqs, states, n))
  {
    if n > 0 {
      hide Items, Outcomes, Sync, Upserts;
      assert StepAt(didOf, reqs, states, n - 1);
      SyncIndex(didOf, states[n - 1], reqs[n - 1]);
      IndexIsReplay(didOf, reqs, states, n - 1);
      UpsertsAppend(didOf, map[], Log(didOf, reqs, states, n - 1), Outcomes(didOf, Items(states[n - 1], reqs[n - 1]), reqs[n - 1].fetch));
    }
  }

  /** Sync `k` fetched the package for `p` and it passed. */
  ghost predicate PassedAt<P(!new)>(reqs: seq<Request<P>>, states: seq<Node<P>>, k: nat, p: Publication, package: P)
    requires |states| == |reqs| + 1 && k < |reqs|
  {
    p in Items(states[k], reqs[k]) && reqs[k].fetch(p) == Decoded(package, None)
  }

  /** Every package in the index passed under its own DID, at the cursor it is kept with, in some sync. */
  lemma {:induction false} IndexedPassed<P(!new)>(didOf: P -> string, reqs: seq<Request<P>>, states: seq<Node<P>>, n: nat, did: string)
    returns (k: nat, p: Publication)
    requires IsRun(didOf, reqs, states) && n <= |reqs| && did in states[n].index
    ensures k < n && PassedAt(reqs, states, k, p, states[n].index[did].1)
    ensures p.cursor == states[n].index[did].0 && didOf(states[n].index[did].1) == did
  {
    hide Items, Decodes, Sync, Recorded, LastIndexed, Log, FeedGrows;
    assert StepAt(didOf, reqs, states, n - 1) by { assert n > 0; }
    var before, r := states[n - 1], reqs[n - 1];
    SyncIndex(didOf, before, r);
    var outcomes := Outcomes(didOf, Items(before, r), r.fetch);
    if Touches(didOf, outcomes, did) {
      var i := LastTouch(didOf, before.index, outcomes, did);
      k, p := n - 1, Items(before, r)[i];
    } else {
      UntouchedStays(didOf, before.index, outcomes, did);
      k, p := IndexedPassed(didOf, reqs, states, n - 1, did);
    }
  }

  lemma {:induction false} LastTouch<P(!new)>(didOf: P -> string, index: map<string, (int, P)>, outcomes: seq<Outcome<P>>, did: string)
    returns (i: nat)
    requires Touches(didOf, outcomes, did)
    ensures i < |outcomes| && outcomes[i].Indexed? && didOf(outcomes[i].package) == did
    ensures var x := Upserts(didOf, index, outcomes); did in x && x[did] == (outcomes[i].pub.cursor, outcomes[i].package)
  {
    var n := |outcomes| - 1;
    if outcomes[n].Indexed? && didOf(outcomes[n].package) == did {
      i := n;
    } else {
      var j :| 0 <= j < |outcomes| && outcomes[j].Indexed? && didOf(outcomes[j].package) == did;
      assert outcomes[..n][j] == outcomes[j];
      i := LastTouch(didOf, index, outcomes[..n], did);
    }
  }

  // ----- abort and rerun -----

  /** The last value an upsert run gives a key. */
  lemma {:induction false} UpsertsAt<P(!new)>(didOf: P -> string, index: map<string, (int, P)>, index': map<string, (int, P)>, outcomes: seq<Outcome<P>>, d: string)
    requires Touches(didOf, outcomes, d) || ((d in index <==> d in index') && (d in index ==> index[d] == index'[d]))
    ensures var x, y := Upserts(didOf, index, outcomes), Upserts(didOf, index', outcomes);
      (d in x <==> d in y) && (d in x ==> x[d] == y[d])
  {
    if outcomes != [] {
      var last, init := outcomes[|outcomes| - 1], outcomes[..|outcomes| - 1];
      if !(last.Indexed? && didOf(last.package) == d) {
        if Touches(didOf, outcomes, d) {
          var i :| 0 <= i < |outcomes| && outcomes[i].Indexed? && didOf(outcomes[i].package) == d;
          assert init[i] == outcomes[i];
        }
        UpsertsAt(didOf, index, index', init, d);
      }
    }
  }

  ghost predicate Touches<P(!new)>(didOf: P -> string, outcomes: seq<Outcome<P>>, d: string) {
    exists i :: 0 <= i < |outcomes| && outcomes[i].Indexed? && didOf(outcomes[i].package) == d
  }

  lemma {:induction false} UntouchedStays<P(!new)>(didOf: P -> string, index: map<string, (int, P)>, outcomes: seq<Outcome<P>>, d: string)
    requires !Touches(didOf, outcomes, d)
    ensures var x := Upserts(didOf, index, outcomes); (d in x <==> d in index) && (d in x ==> x[d] == index[d])
  {
    if outcomes != [] {
      var init := outcomes[..|outcomes| - 1];
      assert outcomes[|outcomes| - 1].Indexed? ==> didOf(outcomes[|outcomes| - 1].package) != d;
      assert forall i :: 0 <= i < |init| ==> init[i] == outcomes[i];
      UntouchedStays(didOf, index, init, d);
    }
  }

  /** What the index has for a DID is the package that passed last for it. */
  lemma IndexIsLastWord<P(!new)>(didOf: P -> string, reqs: seq<Request<P>>, states: seq<Node<P>>, n: nat, before: seq<Outcome<P>>, last: Outcome<P>, rest: seq<Outcome<P>>)
    requires IsRun(didOf, reqs, states) && n <= |reqs|
    requires Log(didOf, reqs, states, n) == before + [last] + rest
    requires last.Indexed? && !Touches(didOf, rest, didOf(last.package))
    ensures var did := didOf(last.package);
      did in states[n].index && states[n].index[did] == (last.pub.cursor, last.package)
  {
    hide StepAt, FeedGrows, Log, Touches;
    IndexIsReplay(didOf, reqs, states, n);
    UpsertsAppend(didOf, map[], before + [last], rest);
    UntouchedStays(didOf, Upserts(didOf, map[], before + [last]), rest, didOf(last.package));
    assert (before + [last])[..|before|] == before;
  }

  /** What never passed is not in the index. */
  lemma NeverIndexed<P(!new)>(didOf: P -> string, reqs: seq<Request<P>>, states: seq<Node<P>>, n: nat, did: string)
    requires IsRun(didOf, reqs, states) && n <= |reqs|
    requires !Touches(didOf, Log(didOf, reqs, states, n), did)
    ensures did !in states[n].index
  {
    hide StepAt, FeedGrows, Log, Touches;
    IndexIsReplay(didOf, reqs, states, n);
    UntouchedStays(didOf, map[], Log(didOf, reqs, states, n), did);
  }

  /** Indexing a part first changes nothing once the whole is indexed. */
  lemma RerunIdempotent<P(!new)>(didOf: P -> string, index: map<string, (int, P)>, part: seq<Outcome<P>>, whole: seq<Outcome<P>>)
    requires part <= whole
    ensures Upserts(didOf, Upserts(didOf, index, part), whole) == Upserts(didOf, index, whole)
  {
    var x, y := Upserts(didOf, Upserts(didOf, index, part), whole), Upserts(didOf, index, whole);
    forall d: string ensures (d in x <==> d in y) && (d in x ==> x[d] == y[d]) {
      if !Touches(didOf, whole, d) {
        assert forall i :: 0 <= i < |part| ==> part[i] == whole[i];
        UntouchedStays(didOf, index, part, d);
      }
      UpsertsAt(didOf, Upserts(didOf, index, part), index, whole, d);
    }
  }

  lemma {:induction false} DecodesPrefix<P>(items: seq<Publication>, f: Publication -> Fetched<P>, g: Publication -> Fetched<P>)
    requires forall p :: p in items ==> g(p).TransportError? || g(p) == f(p)
    ensures Decodes(items, g) <= Decodes(items, f)
  {
    if items != [] {
      assert items[0] in items;
      assert forall p :: p in items[1..] ==> p in items;
      DecodesPrefix(items[1..], f, g);
    }
  }

  /** A sync cut off by a transport error and then rerun ends where an uninterrupted one ends. */
  lemma AbortedThenRerun<P(!new)>(didOf: P -> string, s: Node<P>, r: Request<P>, interrupted: Publication -> Fetched<P>)
    requires Aborts(Items(s, r), interrupted)
    requires forall p :: p in Items(s, r) ==> interrupted(p).TransportError? || interrupted(p) == r.fetch(p)
    ensures Sync(didOf, Sync(didOf, s, r.(fetch := interrupted)), r) == Sync(didOf, s, r)
  {
    hide Window, Outcomes, Upserts, Recorded, LastIndexed, Decodes, BlockedAt;
    var items := Items(s, r);
    var part, whole := Outcomes(didOf, items, interrupted), Outcomes(didOf, items, r.fetch);
    PartOfWhole(didOf, items, r.fetch, interrupted);
    RerunIdempotent(didOf, s.index, part, whole);
    var cut := Sync(didOf, s, r.(fetch := interrupted));
    assert cut == s.(index := Upserts(didOf, s.index, part));
    assert Items(cut, r) == items;
  }

  lemma PartOfWhole<P(!new)>(didOf: P -> string, items: seq<Publication>, f: Publication -> Fetched<P>, g: Publication -> Fetched<P>)
    requires forall p :: p in items ==> g(p).TransportError? || g(p) == f(p)
    ensures Outcomes(didOf, items, g) <= Outcomes(didOf, items, f)
  {
    hide Decodes;
    DecodesPrefix(items, f, g);
    var part, whole := Outcomes(didOf, items, g), Outcomes(didOf, items, f);
    forall i | 0 <= i < |part| ensures part[i] == whole[i] {
      assert items[i] in items;
    }
  }

  // ----- a window full of rejections -----

  /** The sync sees a full window and rejects all of it. */
  ghost predicate AllRejected<P(!new)>(didOf: P -> string, window: seq<Publication>, fetch: Publication -> Fetched<P>) {
    forall p :: p in window ==> fetch(p).Decoded? && fetch(p).reason.Some?
  }

  lemma {:induction false} AfterAppend(a: seq<Publication>, b: seq<Publication>, after: int)
    ensures After(a + b, after) == After(a, after) + After(b, after)
  {
    if a == [] {
      assert a + b == b;
    } else {
      assert (a + b)[1..] == a[1..] + b;
      AfterAppend(a[1..], b, after);
    }
  }

  lemma FullWindowStays(feed: seq<Publication>, longer: seq<Publication>, after: int, limit: int)
    requires feed <= longer && |Window(feed, after, limit)| == Max(1, Min(limit, 1000))
    ensures Window(longer, after, limit) == Window(feed, after, limit)
  {
    assert longer == feed + longer[|feed|..];
    AfterAppend(feed, longer[|feed|..], after);
  }

  /** Once a full window is rejected, no later sync with that limit gets past it, whatever Root publishes after it. */
  lemma {:induction false} StuckOnRejections<P(!new)>(didOf: P -> string, s: Node<P>, feed: seq<Publication>, limit: int, reqs: seq<Request<P>>)
    requires |Window(feed, s.cursor, limit)| == Max(1, Min(limit, 1000))
    requires forall i :: 0 <= i < |reqs| ==>
      feed <= reqs[i].feed && reqs[i].limit == limit && AllRejected(didOf, Window(feed, s.cursor, limit), reqs[i].fetch)
    ensures Following(didOf, s, reqs).cursor == s.cursor
    ensures Following(didOf, s, reqs).index == s.index
  {
    if reqs != [] {
      var init, r := reqs[..|reqs| - 1], reqs[|reqs| - 1];
      StuckOnRejections(didOf, s, feed, limit, init);
      var s' := Following(didOf, s, init);
      FullWindowStays(feed, r.feed, s.cursor, limit);
      var outcomes := Outcomes(didOf, Items(s', r), r.fetch);
      forall i | 0 <= i < |outcomes| ensures !outcomes[i].Indexed? {
        assert Items(s', r)[i] in Window(feed, s.cursor, limit);
      }
      LastIndexedIs(outcomes, s.cursor);
      NothingIndexed(didOf, s'.index, outcomes);
      NoneBlocked(Items(s', r), r.fetch);
    }
  }

  lemma {:induction false} NothingIndexed<P(!new)>(didOf: P -> string, index: map<string, (int, P)>, outcomes: seq<Outcome<P>>)
    requires forall i :: 0 <= i < |outcomes| ==> !outcomes[i].Indexed?
    ensures Upserts(didOf, index, outcomes) == index
  {
    if outcomes != [] {
      NothingIndexed(didOf, index, outcomes[..|outcomes| - 1]);
    }
  }

  lemma NoneBlocked<P>(items: seq<Publication>, fetch: Publication -> Fetched<P>)
    requires forall p :: p in items ==> fetch(p).Decoded?
    ensures BlockedAt(items, fetch).None? && !Aborts(items, fetch)
  {
    assert forall i :: 0 <= i < |items| ==> items[i] in items;
  }

  ghost function Following<P(!new)>(didOf: P -> string, s: Node<P>, reqs: seq<Request<P>>): Node<P> {
    if reqs == [] then s else Sync(didOf, Following(didOf, s, reqs[..|reqs| - 1]), reqs[|reqs| - 1])
  }

  // ----- when the cursor stays -----

  /** The sync ends early, or indexes nothing. */
  predicate Idle<P>(didOf: P -> string, s: Node<P>, r: Request<P>) {
    Aborts(Items(s, r), r.fetch) || !SomeIndexed(Outcomes(didOf, Items(s, r), r.fetch))
  }

  ghost predicate AllIdle<P(!new)>(didOf: P -> string, s: Node<P>, reqs: seq<Request<P>>) {
    forall k: nat :: k < |reqs| ==> Idle(didOf, Following(didOf, s, reqs[..k]), reqs[k])
  }

  /** Over a series of syncs on ascending feeds the cursor stays exactly when every one of them is idle. */
  lemma {:induction false} CursorStaysIff<P(!new)>(didOf: P -> string, s: Node<P>, reqs: seq<Request<P>>)
    requires forall k :: 0 <= k < |reqs| ==> AscendingFeed(reqs[k].feed)
    ensures Following(didOf, s, reqs).cursor >= s.cursor
    ensures Following(didOf, s, reqs).cursor == s.cursor <==> AllIdle(didOf, s, reqs)
  {
    hide Idle, Sync, AscendingFeed;
    if reqs != [] {
      hide AllIdle;
      var n := |reqs| - 1;
      CursorStaysIff(didOf, s, reqs[..n]);
      StaysIffIdle(didOf, Following(didOf, s, reqs[..n]), reqs[n]);
      AllIdleSplit(didOf, s, reqs);
    }
  }

  lemma AllIdleSplit<P(!new)>(didOf: P -> string, s: Node<P>, reqs: seq<Request<P>>)
    requires reqs != []
    ensures var n := |reqs| - 1;
      AllIdle(didOf, s, reqs) <==> AllIdle(didOf, s, reqs[..n]) && Idle(didOf, Following(didOf, s, reqs[..n]), reqs[n])
  {
    hide Idle, Following;
    var n := |reqs| - 1;
    assert forall k: nat :: k < n ==> reqs[..n][..k] == reqs[..k] && reqs[..n][k] == reqs[k];
  }

  lemma StaysIffIdle<P(!new)>(didOf: P -> string, s: Node<P>, r: Request<P>)
    requires AscendingFeed(r.feed)
    ensures Sync(didOf, s, r).cursor >= s.cursor
    ensures Sync(didOf, s, r).cursor == s.cursor <==> Idle(didOf, s, r)
  {
    hide Items, Outcomes, AscendingFeed, Sync;
    CursorAfterSync(didOf, s, r);
  }

  /** One rejected publication, then one that passes. */
  function TwoPublications(): seq<Publication> {
    [Publication(1, "rejected"), Publication(2, "passing")]
  }

  function OneAtATime<P>(package: P): Request<P> {
    Request(TwoPublications(), 1, None, (p: Publication) => Decoded(package, if p.cursor == 1 then Some("unauthorized_domains") else None), true, true)
  }

  /** With limit 1 no number of syncs gets past the rejection; with limit 2 the first one does. */
  lemma RejectionStopsSmallWindow<P(!new)>(didOf: P -> string, package: P, n: nat)
    ensures var s: Node<P> := Node(0, map[], map[]);
      && Following(didOf, s, seq(n, _ => OneAtATime(package))).cursor == 0
      && Following(didOf, s, seq(n, _ => OneAtATime(package))).index == map[]
      && Sync(didOf, s, OneAtATime(package).(limit := 2)).cursor == 2
  {
    hide Window, Sync, Following;
    FirstWindows();
    StuckOnRejections(didOf, Node(0, map[], map[]), TwoPublications(), 1, seq(n, _ => OneAtATime(package)));
    PastTheRejection(didOf, package);
  }

  lemma FirstWindows()
    ensures Window(TwoPublications(), 0, 1) == [Publication(1, "rejected")]
    ensures Window(TwoPublications(), 0, 2) == TwoPublications()
  {
    var all := TwoPublications();
    assert all[1..] == [all[1]] && all[1..][1..] == [];
    assert After(all[1..], 0) == [all[1]];
    assert After(all, 0) == [all[0]] + [all[1]] == all;
  }

  lemma PastTheRejection<P(!new)>(didOf: P -> string, package: P)
    ensures var s: Node<P> := Node(0, map[], map[]); Sync(didOf, s, OneAtATime(package).(limit := 2)).cursor == 2
  {
    hide Window, After, Upserts, Recorded;
    var s: Node<P>, r := Node(0, map[], map[]), OneAtATime(package).(limit := 2);
    FirstWindows();
    var all := TwoPublications();
    assert Items(s, r) == all && all[1..] == [all[1]] && all[1..][1..] == [];
    assert Decodes(all[1..], r.fetch) == 1 && Decodes(all, r.fetch) == 2;
    var outcomes := Outcomes(didOf, all, r.fetch);
    assert outcomes[1] == Indexed(all[1], package);
  }

  // ----- one sync, written out -----

  /** Without Root's answers or the feed, or with a hint that is not ahead of the cursor, nothing changes. */
  lemma QuietSync<P(!new)>(didOf: P -> string, s: Node<P>, r: Request<P>)
    requires !r.rootAnswers || !r.feedAnswers || exists hint :: r.cursorHint == Some(hint) && hint <= s.cursor
    ensures Sync(didOf, s, r) == s
  {
    hide Window;
  }

  lemma {:induction false} FirstToFail<P>(items: seq<Publication>, fetch: Publication -> Fetched<P>, n: nat)
    requires n <= |items| && (forall i :: 0 <= i < n ==> fetch(items[i]).Decoded?) && (n < |items| ==> !fetch(items[n]).Decoded?)
    ensures Decodes(items, fetch) == n
  {
    if n > 0 {
      assert forall i :: 0 <= i < |items| - 1 ==> items[1..][i] == items[i + 1];
      FirstToFail(items[1..], fetch, n - 1);
    }
  }

  ghost predicate Ascend<P(!new)>(outcomes: seq<Outcome<P>>) {
    forall i, j :: 0 <= i < j < |outcomes| ==> outcomes[i].pub.cursor < outcomes[j].pub.cursor
  }

  lemma {:induction false} RecordedExactly<P(!new)>(rejected: map<(string, int), string>, outcomes: seq<Outcome<P>>)
    requires Ascend(outcomes)
    ensures var now := Recorded(rejected, outcomes);
      && (forall i :: 0 <= i < |outcomes| && outcomes[i].Rejected? ==>
            var key := (outcomes[i].did, outcomes[i].pub.cursor); key in now && now[key] == outcomes[i].why)
      && (forall key :: key in now && (forall i :: 0 <= i < |outcomes| && outcomes[i].Rejected? ==> key != (outcomes[i].did, outcomes[i].pub.cursor)) ==>
            key in rejected && now[key] == rejected[key])
  {
    if outcomes != [] {
      var init := outcomes[..|outcomes| - 1];
      RecordedExactly(rejected, init);
      assert forall i :: 0 <= i < |init| ==> init[i] == outcomes[i];
    }
  }

  lemma SyncParts<P(!new)>(didOf: P -> string, s: Node<P>, r: Request<P>, n: nat)
    requires var w := Items(s, r);
      n <= |w| && (forall i :: 0 <= i < n ==> r.fetch(w[i]).Decoded?) && (n < |w| ==> !r.fetch(w[n]).Decoded?)
    ensures var w, s' := Items(s, r), Sync(didOf, s, r); var recorded := Recorded(s.rejected, Outcomes(didOf, w, r.fetch));
      && |Outcomes(didOf, w, r.fetch)| == n
      && (n < |w| && r.fetch(w[n]).TransportError? ==> s'.cursor == s.cursor && s'.rejected == s.rejected)
      && (n < |w| && r.fetch(w[n]).DecodeFailed? ==>
            BlockedAt(w, r.fetch) == Some(w[n]) && s'.rejected == recorded[(w[n].agentDid, w[n].cursor) := "package_decode_failed"])
      && (n == |w| ==> s'.rejected == recorded)
  {
    hide Items, Upserts, Recorded, NewCursor;
    FirstToFail(Items(s, r), r.fetch, n);
  }

  /**
   Any other sync reads the window after its cursor, up to the first package that does not come. If that one cannot be
   transported the cursor and the rejections stay; if it does not decode, it is recorded as such and the cursor stays
   below it; and every package rejected before it is recorded with its reason.
   */
  lemma BusySync<P(!new)>(didOf: P -> string, s: Node<P>, r: Request<P>, n: nat)
    requires AscendingFeed(r.feed) && r.rootAnswers && r.feedAnswers && (r.cursorHint.Some? ==> r.cursorHint.value > s.cursor)
    requires var w := Window(r.feed, s.cursor, r.limit);
      n <= |w| && (forall i :: 0 <= i < n ==> r.fetch(w[i]).Decoded?) && (n < |w| ==> !r.fetch(w[n]).Decoded?)
    ensures var w, s' := Window(r.feed, s.cursor, r.limit), Sync(didOf, s, r);
      if n < |w| && r.fetch(w[n]).TransportError? then s'.cursor == s.cursor && s'.rejected == s.rejected
      else
        && (forall i :: 0 <= i < n && r.fetch(w[i]).reason.Some? ==>
              var key := (didOf(r.fetch(w[i]).package), w[i].cursor); key in s'.rejected && s'.rejected[key] == r.fetch(w[i]).reason.value)
        && (n < |w| ==>
              && (w[n].agentDid, w[n].cursor) in s'.rejected && s'.rejected[(w[n].agentDid, w[n].cursor)] == "package_decode_failed"
              && s'.cursor < w[n].cursor)
  {
    hide Window, Recorded, AscendingFeed, Sync, Outcomes, Decodes, BlockedAt, Aborts;
    var w := Window(r.feed, s.cursor, r.limit);
    assert Items(s, r) == w;
    hide Items;
    SyncParts(didOf, s, r, n);
    ItemsAscend(s, r);
    var outcomes := Outcomes(didOf, w, r.fetch);
    assert Ascend(outcomes);
    RecordedExactly(s.rejected, outcomes);
    CursorAfterSync(didOf, s, r);
    assert forall i :: 0 <= i < n && r.fetch(w[i]).reason.Some? ==>
      outcomes[i] == Rejected(w[i], didOf(r.fetch(w[i]).package), r.fetch(w[i]).reason.value);
  }
}
