/**
 What Root's authorization maps say about a node, read off the bulletin without replaying it: the last
 authorization decides, unless a revocation follows it.
 */
module RootAuthorization {
  import opened Bulletin
  import opened CanonicalJson
  import opened RootInvariants
  import opened RootNode
  import opened Wrappers

  datatype Registry = Registrars | DiscoveryNodes | VcIssuers

  /** The map an authorization event enters its subject in. A registrar event for a discovery role enters it nowhere. */
  function RegistryOf(e: Event): Option<Registry> {
    match e.core.eventType
    case DiscoveryNodeAuthorized => Some(DiscoveryNodes)
    case RegistrarAuthorized => RegistryOfRole(Text(Get(e.core.payload, "targetRole")))
    case _ => None
  }

  function RegistryOfRole(role: string): Option<Registry> {
    if role in ["discovery", "Discovery", "Discovery Node"] then None
    else if role in ["vc-issuer", "VC Issuer"] then Some(VcIssuers)
    else Some(Registrars)
  }

  function Entry(auth: Authorization, r: Registry, did: string): Option<NodeAuth> {
    match r
    case Registrars => if did in auth.registrars then Some(auth.registrars[did]) else None
    case VcIssuers => if did in auth.vcIssuers then Some(auth.vcIssuers[did]) else None
    case DiscoveryNodes =>
      if did in auth.discoveryNodes then Some(NodeAuth(auth.discoveryNodes[did].status, auth.discoveryNodes[did].documentHash)) else None
  }

  predicate Authorizes(e: Event, r: Registry, did: string) {
    e.core.subjectDid == did && RegistryOf(e) == Some(r)
  }

  predicate Revokes(e: Event, did: string) {
    e.core.subjectDid == did && e.core.eventType == EventType.NodeRevoked
  }

  predicate UpdatesDomains(e: Event, did: string) {
    e.core.subjectDid == did && e.core.eventType == DiscoveryNodeDomainsUpdated
  }

  predicate RevokedIn(events: seq<Event>, did: string) {
    exists j :: 0 <= j < |events| && Revokes(events[j], did)
  }

  /** No event of the list authorizes the DID in the registry. */
  predicate Unauthorized(events: seq<Event>, r: Registry, did: string) {
    forall j :: 0 <= j < |events| ==> !Authorizes(events[j], r, did)
  }

  function AfterRevocation(entry: Option<NodeAuth>, revoked: bool): Option<NodeAuth> {
    if entry.Some? && revoked then Some(entry.value.(status := "revoked")) else entry
  }

  lemma RoutedEntry(auth: Authorization, subject: string, entry: NodeAuth, role: string, r: Registry, did: string)
    ensures Entry(Routed(auth, subject, entry, role), r, did)
         == if subject == did && RegistryOfRole(role) == Some(r) then Some(entry) else Entry(auth, r, did)
  {
  }

  lemma RevokedEntry(auth: Authorization, subject: string, r: Registry, did: string)
    ensures Entry(Revoked(auth, subject), r, did) == AfterRevocation(Entry(auth, r, did), subject == did)
  {
  }

  lemma OneEvent(auth: Authorization, e: Event, r: Registry, did: string)
    ensures Entry(ReplayAuth(auth, [e]), r, did)
         == if Authorizes(e, r, did) then Some(NodeAuth("active", Text(Get(e.core.payload, "didDocumentHash"))))
            else AfterRevocation(Entry(auth, r, did), Revokes(e, did))
  {
    hide Routed, Revoked, RegistryOfRole, DomainsOf, Text, Get;
    assert [e][..0] == [];
    var p := e.core.payload;
    match e.core.eventType
    case RegistrarAuthorized =>
      RoutedEntry(auth, e.core.subjectDid, NodeAuth("active", Text(Get(p, "didDocumentHash"))), Text(Get(p, "targetRole")), r, did);
    case NodeRevoked => RevokedEntry(auth, e.core.subjectDid, r, did);
    case _ =>
  }

  /** Events that do not authorize a DID can only revoke it. */
  lemma {:induction false} OnlyRevoked(auth: Authorization, events: seq<Event>, r: Registry, did: string)
    requires Unauthorized(events, r, did)
    ensures Entry(ReplayAuth(auth, events), r, did) == AfterRevocation(Entry(auth, r, did), RevokedIn(events, did))
  {
    hide Authorizes, Revokes, Entry;
    if events != [] {
      var init, e := events[..|events| - 1], events[|events| - 1];
      assert events == init + [e];
      OnlyRevoked(auth, init, r, did);
      ReplaySnoc(auth, init, e);
      OneEvent(ReplayAuth(auth, init), e, r, did);
      RevokedSnoc(init, e, did);
    }
  }

  lemma RevokedSnoc(events: seq<Event>, e: Event, did: string)
    ensures RevokedIn(events + [e], did) <==> RevokedIn(events, did) || Revokes(e, did)
  {
    hide Revokes;
    var longer := events + [e];
    assert longer[|events|] == e;
    if j :| 0 <= j < |events| && Revokes(events[j], did) {
      assert longer[j] == events[j];
    }
  }

  lemma {:induction false} ReplayParts(auth: Authorization, a: seq<Event>, b: seq<Event>)
    ensures ReplayAuth(auth, a + b) == ReplayAuth(ReplayAuth(auth, a), b)
  {
    if b == [] {
      assert a + b == a;
    } else {
      var init, e := b[..|b| - 1], b[|b| - 1];
      ReplayParts(auth, a, init);
      assert a + b == (a + init) + [e] && b == init + [e];
      ReplaySnoc(auth, a + init, e);
      ReplaySnoc(ReplayAuth(auth, a), init, e);
    }
  }

  /**
   In every reachable state a node authorized since the start is in its registry with the document hash of
   its last authorization, and is revoked if and only if a revocation came after that.
   */
  lemma StandingIsLastWord(cfg: Config, seed: seq<Event>, auth: Authorization, ops: seq<Op>, r: Registry, did: string,
                           before: seq<Event>, last: Event, rest: seq<Event>)
    requires After(cfg, Start(seed, auth), ops).events == seed + before + [last] + rest
    requires Authorizes(last, r, did) && Unauthorized(rest, r, did)
    ensures Entry(After(cfg, Start(seed, auth), ops).auth, r, did)
         == Some(NodeAuth(if RevokedIn(rest, did) then "revoked" else "active", Text(Get(last.core.payload, "didDocumentHash"))))
  {
    hide After, Entry, Authorizes, Unauthorized, RevokedIn, ReplayAuth;
    StoresAreReplays(cfg, seed, auth, ops);
    var s := After(cfg, Start(seed, auth), ops);
    assert s.events[|seed|..] == before + [last] + rest;
    ReplayParts(auth, before + [last], rest);
    ReplaySnoc(auth, before, last);
    OneEvent(ReplayAuth(auth, before), last, r, did);
    OnlyRevoked(ReplayAuth(auth, before + [last]), rest, r, did);
  }

  /** A node never authorized since the start stands as it did, revoked if and only if it was or has been since. */
  lemma NeverAuthorizedStands(cfg: Config, seed: seq<Event>, auth: Authorization, ops: seq<Op>, r: Registry, did: string)
    requires seed <= After(cfg, Start(seed, auth), ops).events
    requires Unauthorized(After(cfg, Start(seed, auth), ops).events[|seed|..], r, did)
    ensures var s := After(cfg, Start(seed, auth), ops);
      Entry(s.auth, r, did) == AfterRevocation(Entry(auth, r, did), RevokedIn(s.events[|seed|..], did))
  {
    hide After, Entry, Unauthorized, RevokedIn, ReplayAuth;
    StoresAreReplays(cfg, seed, auth, ops);
    OnlyRevoked(auth, After(cfg, Start(seed, auth), ops).events[|seed|..], r, did);
  }

  // ----- domains -----

  lemma OneEventDomains(auth: Authorization, e: Event, did: string)
    requires did in auth.discoveryNodes && !Authorizes(e, DiscoveryNodes, did)
    ensures var auth' := ReplayAuth(auth, [e]);
      && did in auth'.discoveryNodes
      && auth'.discoveryNodes[did].domains
         == if UpdatesDomains(e, did) then DomainsOf(e.core.payload) else auth.discoveryNodes[did].domains
  {
    hide DomainsOf;
    assert [e][..0] == [];
  }

  lemma {:induction false} DomainsStand(auth: Authorization, events: seq<Event>, did: string)
    requires did in auth.discoveryNodes && Unauthorized(events, DiscoveryNodes, did)
    requires forall j :: 0 <= j < |events| ==> !UpdatesDomains(events[j], did)
    ensures var auth' := ReplayAuth(auth, events);
      did in auth'.discoveryNodes && auth'.discoveryNodes[did].domains == auth.discoveryNodes[did].domains
  {
    hide Authorizes, UpdatesDomains, DomainsOf;
    if events != [] {
      var init, e := events[..|events| - 1], events[|events| - 1];
      assert events == init + [e];
      DomainsStand(auth, init, did);
      ReplaySnoc(auth, init, e);
      OneEventDomains(ReplayAuth(auth, init), e, did);
    }
  }

  lemma {:induction false} StaysEntered(auth: Authorization, events: seq<Event>, did: string)
    requires did in auth.discoveryNodes
    ensures did in ReplayAuth(auth, events).discoveryNodes
  {
    hide DomainsOf;
    if events != [] {
      StaysEntered(auth, events[..|events| - 1], did);
    }
  }

  /** Until domains are updated, an authorized Discovery node has all of them. */
  lemma DomainsStartWithAll(cfg: Config, seed: seq<Event>, auth: Authorization, ops: seq<Op>, did: string,
                            before: seq<Event>, last: Event, rest: seq<Event>)
    requires After(cfg, Start(seed, auth), ops).events == seed + before + [last] + rest
    requires Authorizes(last, DiscoveryNodes, did) && Unauthorized(rest, DiscoveryNodes, did)
    requires forall j :: 0 <= j < |rest| ==> !UpdatesDomains(rest[j], did)
    ensures var nodes := After(cfg, Start(seed, auth), ops).auth.discoveryNodes; did in nodes && nodes[did].domains == ["*"]
  {
    hide After, Unauthorized, UpdatesDomains, DomainsOf;
    StoresAreReplays(cfg, seed, auth, ops);
    assert After(cfg, Start(seed, auth), ops).events[|seed|..] == before + [last] + rest;
    ReplayParts(auth, before + [last], rest);
    ReplaySnoc(auth, before, last);
    assert [last][..0] == [];
    DomainsStand(ReplayAuth(auth, before + [last]), rest, did);
  }

  lemma EnteredOnceAuthorized(auth: Authorization, events: seq<Event>, did: string)
    requires !Unauthorized(events, DiscoveryNodes, did)
    ensures did in ReplayAuth(auth, events).discoveryNodes
  {
    hide ReplayAuth;
    var i :| 0 <= i < |events| && Authorizes(events[i], DiscoveryNodes, did);
    assert events == (events[..i] + [events[i]]) + events[i + 1..];
    ReplayParts(auth, events[..i] + [events[i]], events[i + 1..]);
    ReplaySnoc(auth, events[..i], events[i]);
    OneEvent(ReplayAuth(auth, events[..i]), events[i], DiscoveryNodes, did);
    StaysEntered(ReplayAuth(auth, events[..i] + [events[i]]), events[i + 1..], did);
  }

  /** Once a node authorized before has its domains updated, it has exactly those of the last update. */
  lemma DomainsAreLastUpdate(cfg: Config, seed: seq<Event>, auth: Authorization, ops: seq<Op>, did: string,
                             before: seq<Event>, update: Event, rest: seq<Event>)
    requires After(cfg, Start(seed, auth), ops).events == seed + before + [update] + rest
    requires !Unauthorized(before, DiscoveryNodes, did)
    requires UpdatesDomains(update, did) && Unauthorized(rest, DiscoveryNodes, did)
    requires forall j :: 0 <= j < |rest| ==> !UpdatesDomains(rest[j], did)
    ensures var nodes := After(cfg, Start(seed, auth), ops).auth.discoveryNodes;
      did in nodes && nodes[did].domains == DomainsOf(update.core.payload)
  {
    hide After, Unauthorized, DomainsOf, ReplayAuth;
    StoresAreReplays(cfg, seed, auth, ops);
    assert After(cfg, Start(seed, auth), ops).events[|seed|..] == before + [update] + rest;
    EnteredOnceAuthorized(auth, before, did);
    ReplayParts(auth, before + [update], rest);
    ReplaySnoc(auth, before, update);
    OneEventDomains(ReplayAuth(auth, before), update, did);
    DomainsStand(ReplayAuth(auth, before + [update]), rest, did);
  }
}
