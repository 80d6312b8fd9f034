/**
 The signed hash-chained bulletin: building an event, verifying the chain, and what a passing
 chain guarantees.
 */
module Bulletin {
  import opened CanonicalJson
  import opened Crypto
  import opened Wrappers

  datatype EventType =
    | RootInitialized
    | CdnServiceInfoUpdated
    | RegistrarAuthorized
    | RegistrarRevoked
    | DiscoveryNodeAuthorized
    | DiscoveryNodeDomainsUpdated
    | DiscoveryNodeRevoked
    | NodeRevoked
    | AgentDidDocumentAnchored
    | AgentDidDocumentUpdated
    | AgentRevoked
    | CapabilityTagTreeUpdated

  function TypeName(t: EventType): string {
    match t
    case RootInitialized => "ROOT_INITIALIZED"
    case CdnServiceInfoUpdated => "CDN_SERVICE_INFO_UPDATED"
    case RegistrarAuthorized => "REGISTRAR_AUTHORIZED"
    case RegistrarRevoked => "REGISTRAR_REVOKED"
    case DiscoveryNodeAuthorized => "DISCOVERY_NODE_AUTHORIZED"
    case DiscoveryNodeDomainsUpdated => "DISCOVERY_NODE_DOMAINS_UPDATED"
    case DiscoveryNodeRevoked => "DISCOVERY_NODE_REVOKED"
    case NodeRevoked => "NODE_REVOKED"
    case AgentDidDocumentAnchored => "AGENT_DID_DOCUMENT_ANCHORED"
    case AgentDidDocumentUpdated => "AGENT_DID_DOCUMENT_UPDATED"
    case AgentRevoked => "AGENT_REVOKED"
    case CapabilityTagTreeUpdated => "CAPABILITY_TAG_TREE_UPDATED"
  }

  datatype EventCore = EventCore(
    sequence: nat,
    previousHash: Option<string>,
    eventType: EventType,
    subjectDid: string,
    actorDid: string,
    payload: Value,
    createdAt: int)

  datatype Event = Event(core: EventCore, eventHash: string, signature: string)

  /** The serialised core; a time stands for its text. */
  function CoreJson(core: EventCore): Value {
    Object(map[
      "sequence" := Number(core.sequence),
      "previousHash" := (match core.previousHash case None => Null case Some(h) => Str(h)),
      "eventType" := Str(TypeName(core.eventType)),
      "subjectDid" := Str(core.subjectDid),
      "actorDid" := Str(core.actorDid),
      "payload" := core.payload,
      "createdAt" := Number(core.createdAt)])
  }

  /** Ten characters of its name tell each event type apart. */
  lemma TypeNameInjective(t: EventType, u: EventType)
    requires TypeName(t) == TypeName(u)
    ensures t == u
  {
    var a, b := TypeName(t), TypeName(u);
    assert |a| == |b| && a[0] == b[0] && a[10] == b[10];
    assert |a| > 19 ==> a[19] == b[19];
  }

  lemma CoreJsonInjective(a: EventCore, b: EventCore)
    requires CoreJson(a) == CoreJson(b)
    ensures a == b
  {
    var m, n := CoreJson(a).fields, CoreJson(b).fields;
    assert m["sequence"] == n["sequence"];
    assert m["previousHash"] == n["previousHash"];
    assert m["eventType"] == n["eventType"];
    assert m["subjectDid"] == n["subjectDid"];
    assert m["actorDid"] == n["actorDid"];
    assert m["payload"] == n["payload"];
    assert m["createdAt"] == n["createdAt"];
    TypeNameInjective(a.eventType, b.eventType);
  }

  ghost function HashCore(c: Suite, core: EventCore): string {
    HashJson(c, CoreJson(core))
  }

  lemma HashCoreInjective(c: Suite, a: EventCore, b: EventCore)
    requires Ideal(c)
    ensures HashCore(c, a) == HashCore(c, b) <==> a == b
  {
    hide Ideal, HashJson;
    HashJsonInjective(c, CoreJson(a), CoreJson(b));
    if CoreJson(a) == CoreJson(b) {
      CoreJsonInjective(a, b);
    }
  }

  ghost function Sign(c: Suite, signingKey: string, core: EventCore): Event {
    var eventHash := HashCore(c, core);
    Event(core, eventHash, c.sign(signingKey, eventHash))
  }

  // ----- the chain -----

  function PreviousHash(events: seq<Event>): Option<string> {
    HashBefore(events, |events|)
  }

  /** The hash of the event before position `i`. */
  function HashBefore(events: seq<Event>, i: nat): Option<string>
    requires i <= |events|
  {
    if i == 0 then None else Some(events[i - 1].eventHash)
  }

  /** Event `i` continues the chain of the events before it. */
  ghost predicate LinkOk(c: Suite, rootKey: string, previousHash: Option<string>, i: nat, e: Event) {
    && e.core.sequence == i + 1
    && e.core.previousHash == previousHash
    && e.eventHash == HashCore(c, e.core)
    && c.verify(rootKey, e.eventHash, e.signature)
  }

  ghost predicate ChainOk(c: Suite, rootKey: string, events: seq<Event>) {
    forall i: nat :: LinkedAt(c, rootKey, events, i)
  }

  ghost predicate LinkedAt(c: Suite, rootKey: string, events: seq<Event>, i: nat) {
    i < |events| ==> LinkOk(c, rootKey, HashBefore(events, i), i, events[i])
  }

  /** Event `i` has the next number, names the hash of the one before, and carries its own hash, signed by Root. */
  ghost predicate SignedInPlace(c: Suite, rootKey: string, events: seq<Event>, i: nat) {
    i < |events| ==>
      && events[i].core.sequence == i + 1
      && events[i].core.previousHash == (if i > 0 then Some(events[i - 1].eventHash) else None)
      && events[i].eventHash == HashJson(c, CoreJson(events[i].core)) && c.verify(rootKey, events[i].eventHash, events[i].signature)
  }

  /** A bulletin passes exactly when all its events are signed in their place. */
  lemma PassingIsSigned(c: Suite, rootKey: string, events: seq<Event>)
    ensures ChainOk(c, rootKey, events) <==> forall i: nat :: SignedInPlace(c, rootKey, events, i)
  {
    hide SignedInPlace, LinkedAt;
    forall i: nat ensures SignedInPlace(c, rootKey, events, i) <==> LinkedAt(c, rootKey, events, i) {
      LinkedIsSigned(c, rootKey, events, i);
    }
  }

  lemma LinkedIsSigned(c: Suite, rootKey: string, events: seq<Event>, i: nat)
    ensures SignedInPlace(c, rootKey, events, i) <==> LinkedAt(c, rootKey, events, i)
  {
    hide HashJson, CoreJson;
  }

  datatype ChainError =
    | SequenceMismatch(index: nat, expected: nat, actual: nat)
    | PreviousHashMismatch(sequence: nat)
    | EventHashMismatch(sequence: nat)
    | SignatureMismatch(sequence: nat)

  /** The error names the first event that does not continue the chain, and its first fault. */
  ghost predicate Explains(c: Suite, rootKey: string, events: seq<Event>, i: nat, error: ChainError) {
    && i < |events| && ChainOk(c, rootKey, events[..i])
    && var core := events[i].core;
    match error
    case SequenceMismatch(index, expected, actual) =>
      index == i && expected == i + 1 && actual == core.sequence && actual != expected
    case PreviousHashMismatch(sequence) =>
      sequence == core.sequence == i + 1 && core.previousHash != HashBefore(events, i)
    case EventHashMismatch(sequence) =>
      && sequence == core.sequence == i + 1 && core.previousHash == HashBefore(events, i)
      && events[i].eventHash != HashCore(c, core)
    case SignatureMismatch(sequence) =>
      && sequence == core.sequence == i + 1 && core.previousHash == HashBefore(events, i)
      && events[i].eventHash == HashCore(c, core) && !c.verify(rootKey, events[i].eventHash, events[i].signature)
  }

  method VerifyHashChain(c: Suite, hashCore: EventCore -> string, rootKey: string, events: seq<Event>)
    returns (error: Option<ChainError>)
    requires forall core :: hashCore(core) == HashCore(c, core)
    ensures error.None? <==> ChainOk(c, rootKey, events)
    ensures error.Some? ==> exists i: nat :: Explains(c, rootKey, events, i, error.value)
  {
    hide HashCore;
    var previousHash: Option<string> := None;
    var index := 0;
    while index < |events|
      invariant index <= |events|
      invariant ChainOk(c, rootKey, events[..index])
      invariant previousHash == PreviousHash(events[..index])
    {
      var event := events[index];
      var expected := index + 1;
      if event.core.sequence != expected {
        error := Some(SequenceMismatch(index, expected, event.core.sequence));
        NotALink(c, rootKey, events, index, error.value);
        return;
      }
      if event.core.previousHash != previousHash {
        error := Some(PreviousHashMismatch(event.core.sequence));
        NotALink(c, rootKey, events, index, error.value);
        return;
      }
      if hashCore(event.core) != event.eventHash {
        error := Some(EventHashMismatch(event.core.sequence));
        NotALink(c, rootKey, events, index, error.value);
        return;
      }
      if !c.verify(rootKey, event.eventHash, event.signature) {
        error := Some(SignatureMismatch(event.core.sequence));
        NotALink(c, rootKey, events, index, error.value);
        return;
      }
      previousHash := Some(event.eventHash);
      ChainStep(c, rootKey, events, index);
      index := index + 1;
    }
    assert events[..index] == events;
    error := None;
  }

  lemma NotALink(c: Suite, rootKey: string, events: seq<Event>, i: nat, error: ChainError)
    requires Explains(c, rootKey, events, i, error)
    ensures !ChainOk(c, rootKey, events)
    ensures exists j: nat :: Explains(c, rootKey, events, j, error)
  {
    hide HashCore;
    assert !LinkedAt(c, rootKey, events, i);
  }

  lemma ChainStep(c: Suite, rootKey: string, events: seq<Event>, i: nat)
    requires i < |events| && ChainOk(c, rootKey, events[..i])
    requires LinkOk(c, rootKey, HashBefore(events, i), i, events[i])
    ensures ChainOk(c, rootKey, events[..i + 1])
  {
    hide LinkOk;
    var shorter, longer := events[..i], events[..i + 1];
    forall j: nat
      ensures LinkedAt(c, rootKey, longer, j)
    {
      if j < i {
        assert LinkedAt(c, rootKey, shorter, j);
      }
    }
  }

  /** Every prefix of a passing bulletin passes. */
  lemma PrefixPasses(c: Suite, rootKey: string, events: seq<Event>, n: nat)
    requires ChainOk(c, rootKey, events) && n <= |events|
    ensures ChainOk(c, rootKey, events[..n])
  {
    hide LinkOk;
    var shorter := events[..n];
    forall j: nat
      ensures LinkedAt(c, rootKey, shorter, j)
    {
      assert LinkedAt(c, rootKey, events, j);
    }
  }

  /** The event `append_event` pushes. */
  ghost function NextEvent(c: Suite, signingKey: string, rootDid: string, events: seq<Event>,
                           eventType: EventType, subjectDid: string, payload: Value, now: int): Event
  {
    Sign(c, signingKey, EventCore(|events| + 1, PreviousHash(events), eventType, subjectDid, rootDid, payload, now))
  }

  lemma AppendPasses(c: Suite, signingKey: string, events: seq<Event>, core: EventCore)
    requires Ideal(c)
    requires ChainOk(c, c.publicKey(signingKey), events)
    requires core.sequence == |events| + 1 && core.previousHash == PreviousHash(events)
    ensures ChainOk(c, c.publicKey(signingKey), events + [Sign(c, signingKey, core)])
  {
    hide Ideal, HashCore;
    SignatureVerifies(c, signingKey, HashCore(c, core));
    var longer := events + [Sign(c, signingKey, core)];
    assert longer[..|events|] == events;
    ChainStep(c, c.publicKey(signingKey), longer, |events|);
    assert longer[..|events| + 1] == longer;
  }

  /** The hash of the last event fixes the whole history. */
  lemma {:induction false} SameHeadSameHistory(c: Suite, rootKey: string, rootKey': string, a: seq<Event>, b: seq<Event>)
    requires Ideal(c)
    requires ChainOk(c, rootKey, a) && ChainOk(c, rootKey', b)
    requires PreviousHash(a) == PreviousHash(b)
    ensures |a| == |b|
    ensures forall i :: 0 <= i < |a| ==> a[i].core == b[i].core && a[i].eventHash == b[i].eventHash
    decreases |a|
  {
    hide Ideal, LinkOk;
    if a != [] {
      var n := |a| - 1;
      SameHeadSameLast(c, rootKey, rootKey', a, b);
      PrefixPasses(c, rootKey, a, n);
      PrefixPasses(c, rootKey', b, n);
      SameHeadSameHistory(c, rootKey, rootKey', a[..n], b[..n]);
      forall i | 0 <= i < |a|
        ensures a[i].core == b[i].core && a[i].eventHash == b[i].eventHash
      {
        if i < n { assert a[i] == a[..n][i] && b[i] == b[..n][i]; }
      }
    }
  }

  lemma SameHeadSameLast(c: Suite, rootKey: string, rootKey': string, a: seq<Event>, b: seq<Event>)
    requires Ideal(c)
    requires ChainOk(c, rootKey, a) && ChainOk(c, rootKey', b)
    requires a != [] && PreviousHash(a) == PreviousHash(b)
    ensures |a| == |b|
    ensures a[|a| - 1].core == b[|b| - 1].core && a[|a| - 1].eventHash == b[|b| - 1].eventHash
    ensures PreviousHash(a[..|a| - 1]) == PreviousHash(b[..|b| - 1])
  {
    hide Ideal, HashCore;
    assert LinkedAt(c, rootKey, a, |a| - 1);
    assert LinkedAt(c, rootKey', b, |b| - 1);
    HashCoreInjective(c, a[|a| - 1].core, b[|b| - 1].core);
  }

  /** Two passing bulletins that agree at one event hash agree on everything before it. */
  lemma NoForkBelowSharedEvent(c: Suite, rootKey: string, a: seq<Event>, b: seq<Event>, i: nat, j: nat)
    requires Ideal(c)
    requires ChainOk(c, rootKey, a) && ChainOk(c, rootKey, b)
    requires i < |a| && j < |b| && a[i].eventHash == b[j].eventHash
    ensures i == j
    ensures forall k :: 0 <= k <= i ==> a[k].core == b[k].core
  {
    hide Ideal, LinkOk;
    PrefixPasses(c, rootKey, a, i + 1);
    PrefixPasses(c, rootKey, b, j + 1);
    SameHeadSameHistory(c, rootKey, rootKey, a[..i + 1], b[..j + 1]);
    forall k | 0 <= k <= i
      ensures a[k].core == b[k].core
    {
      assert a[k] == a[..i + 1][k] && b[k] == b[..i + 1][k];
    }
  }
}
