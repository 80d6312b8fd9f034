/**
 DID documents, their JSON form, the keys of their verification methods, and the look-up of a method.
 */
module Documents {
  import opened CanonicalJson
  import opened Crypto
  import opened Wrappers

  datatype SubjectType = Agent | InfrastructureNode

  datatype VerificationMethod = VerificationMethod(
    id: string,
    methodType: string,
    controller: string,
    multibase: Option<string>,
    jwk: Option<Value>)

  datatype ServiceEndpoint = ServiceEndpoint(
    id: string,
    serviceType: string,
    endpoint: string,
    version: Option<string>,
    protocol: Option<string>,
    serverType: Option<string>,
    port: Option<nat>)

  datatype AddressBinding = AddressBinding(
    id: string,
    addressType: string,
    network: string,
    address: string,
    controller: string,
    purpose: string)

  datatype AgentDescription = AgentDescription(
    capabilityDescription: string,
    capabilityTags: seq<string>,
    useCaseExamples: seq<string>)

  /** The keys of the named fields of `AnsMetadata`. */
  const ANS_KEYS := {"subjectType", "identityType", "ttl", "addressBindings", "agentDescription", "servicePolicy", "networkScope"}

  /** The flattened rest: reading takes the named fields first. */
  type Extra = m: map<string, Value> | m.Keys !! ANS_KEYS witness map[]

  datatype AnsMetadata = AnsMetadata(
    subjectType: SubjectType,
    identityType: string,
    ttl: Option<nat>,
    addressBindings: seq<AddressBinding>,
    agentDescription: Option<AgentDescription>,
    servicePolicy: Option<string>,
    networkScope: Option<string>,
    extra: Extra)

  datatype DidDocument = DidDocument(
    context: seq<string>,
    id: string,
    verificationMethod: seq<VerificationMethod>,
    authentication: seq<string>,
    assertionMethod: seq<string>,
    service: seq<ServiceEndpoint>,
    ansMetadata: Option<AnsMetadata>)

  const DID_CORE_CONTEXT := "https://www.w3.org/ns/did/v1"

  datatype DocumentError =
    | EmptyId
    | MissingDidCoreContext
    | MissingVerificationMethod
    | MissingAuthentication
    | MissingAssertionMethod

  /** `validate_mvp`: the first fault found. */
  function ValidateMvp(doc: DidDocument): (error: Option<DocumentError>)
    ensures error.None? <==>
      && doc.id != "" && DID_CORE_CONTEXT in doc.context
      && doc.verificationMethod != [] && doc.authentication != [] && doc.assertionMethod != []
  {
    if doc.id == "" then Some(EmptyId)
    else if DID_CORE_CONTEXT !in doc.context then Some(MissingDidCoreContext)
    else if doc.verificationMethod == [] then Some(MissingVerificationMethod)
    else if doc.authentication == [] then Some(MissingAuthentication)
    else if doc.assertionMethod == [] then Some(MissingAssertionMethod)
    else None
  }

  // ----- verification methods -----

  predicate Suits(m: VerificationMethod, ids: seq<string>, expected: Option<string>) {
    m.id in ids && (expected.None? || expected.value == m.id)
  }

  /** `find_relationship_method` */
  function FindMethod(methods: seq<VerificationMethod>, ids: seq<string>, expected: Option<string>): (m: Option<VerificationMethod>)
    ensures m.Some? ==> m.value in methods && Suits(m.value, ids, expected)
    ensures m.None? ==> forall v :: v in methods ==> !Suits(v, ids, expected)
  {
    if methods == [] then None
    else if Suits(methods[0], ids, expected) then Some(methods[0])
    else FindMethod(methods[1..], ids, expected)
  }

  /** The method found is the first that suits. */
  lemma {:induction false} FindMethodIsFirst(methods: seq<VerificationMethod>, ids: seq<string>, expected: Option<string>, i: nat)
    requires i < |methods| && Suits(methods[i], ids, expected) && forall j :: 0 <= j < i ==> !Suits(methods[j], ids, expected)
    ensures FindMethod(methods, ids, expected) == Some(methods[i])
  {
    if i > 0 {
      assert !Suits(methods[0], ids, expected);
      FindMethodIsFirst(methods[1..], ids, expected, i - 1);
    }
  }

  /** Whatever is found stands at the first place that suits. */
  lemma {:induction false} FoundAt(methods: seq<VerificationMethod>, ids: seq<string>, expected: Option<string>) returns (i: nat)
    requires FindMethod(methods, ids, expected).Some?
    ensures i < |methods| && FindMethod(methods, ids, expected) == Some(methods[i])
    ensures Suits(methods[i], ids, expected) && forall j :: 0 <= j < i ==> !Suits(methods[j], ids, expected)
  {
    if Suits(methods[0], ids, expected) {
      i := 0;
    } else {
      var k := FoundAt(methods[1..], ids, expected);
      i := k + 1;
      assert forall j :: 0 < j < i ==> methods[j] == methods[1..][j - 1];
    }
  }

  /** `verifying_key_from_method` of the services under research: a multibase key is looked at first. */
  function MethodKey(c: Suite, m: VerificationMethod): Option<string> {
    if m.multibase.Some? then c.multibaseKey(m.multibase.value) else if m.jwk.Some? then c.jwkKey(m.jwk.value) else None
  }

  /** Root's `verify_issuer_key` looks at a JWK first. */
  function JwkFirstKey(c: Suite, m: VerificationMethod): Option<string> {
    if m.jwk.Some? then c.jwkKey(m.jwk.value) else if m.multibase.Some? then c.multibaseKey(m.multibase.value) else None
  }

  /** Both find the same key, except in a method with two forms of key that decode differently. */
  lemma KeysAgreeIff(c: Suite, m: VerificationMethod)
    ensures MethodKey(c, m) == JwkFirstKey(c, m)
       <==> !(m.multibase.Some? && m.jwk.Some? && c.multibaseKey(m.multibase.value) != c.jwkKey(m.jwk.value))
    ensures m.multibase.Some? ==> MethodKey(c, m) == c.multibaseKey(m.multibase.value)
    ensures m.jwk.Some? ==> JwkFirstKey(c, m) == c.jwkKey(m.jwk.value)
    ensures m.multibase.None? && m.jwk.None? ==> MethodKey(c, m).None?
  {
  }

  /** The first method of that id has the key, and the document lists it for assertions. */
  predicate NamedKey(c: Suite, doc: DidDocument, id: string, m: VerificationMethod, key: string) {
    exists i :: 0 <= i < |doc.verificationMethod| && doc.verificationMethod[i] == m
             && m.id == id && id in doc.assertionMethod
             && (forall j :: 0 <= j < i ==> doc.verificationMethod[j].id != id)
             && MethodKey(c, m) == Some(key)
  }

  lemma NamedKeyIff(c: Suite, doc: DidDocument, id: string)
    ensures var found := FindMethod(doc.verificationMethod, doc.assertionMethod, Some(id));
      forall m, key :: NamedKey(c, doc, id, m, key) <==> (found == Some(m) && MethodKey(c, m) == Some(key))
  {
    hide MethodKey;
    var methods, ids := doc.verificationMethod, doc.assertionMethod;
    if FindMethod(methods, ids, Some(id)).Some? {
      var i := FoundAt(methods, ids, Some(id));
      assert forall j :: 0 <= j < i ==> !Suits(methods[j], ids, Some(id));
    }
    forall m, key | NamedKey(c, doc, id, m, key) ensures FindMethod(methods, ids, Some(id)) == Some(m) && MethodKey(c, m) == Some(key) {
      var i :| 0 <= i < |methods| && methods[i] == m && m.id == id && id in ids
               && (forall j :: 0 <= j < i ==> methods[j].id != id) && MethodKey(c, m) == Some(key);
      FindMethodIsFirst(methods, ids, Some(id), i);
    }
  }

  function CapabilityTags(doc: DidDocument): seq<string> {
    if doc.ansMetadata.Some? && doc.ansMetadata.value.agentDescription.Some? then
      doc.ansMetadata.value.agentDescription.value.capabilityTags
    else []
  }

  // ----- JSON -----

  function Strings(ss: seq<string>): Value {
    Array(seq(|ss|, i requires 0 <= i < |ss| => Str(ss[i])))
  }

  function Text(s: Option<string>): Option<Value> {
    if s.Some? then Some(Str(s.value)) else None
  }

  function Count(n: Option<nat>): Option<Value> {
    if n.Some? then Some(Number(n.value)) else None
  }

  /** Absent options are skipped, as `skip_serializing_if` does. */
  function With(fields: map<string, Value>, key: string, value: Option<Value>): map<string, Value> {
    if value.Some? then fields[key := value.value] else fields
  }

  function MethodJson(m: VerificationMethod): Value {
    var fields := map["id" := Str(m.id), "type" := Str(m.methodType), "controller" := Str(m.controller)];
    Object(With(With(fields, "publicKeyMultibase", Text(m.multibase)), "publicKeyJwk", m.jwk))
  }

  function MethodsJson(ms: seq<VerificationMethod>): seq<Value> {
    seq(|ms|, i requires 0 <= i < |ms| => MethodJson(ms[i]))
  }

  function ServiceJson(e: ServiceEndpoint): Value {
    var fields := map["id" := Str(e.id), "type" := Str(e.serviceType), "serviceEndpoint" := Str(e.endpoint)];
    Object(With(With(With(With(fields, "version", Text(e.version)), "protocol", Text(e.protocol)),
                     "serverType", Text(e.serverType)), "port", Count(e.port)))
  }

  function ServicesJson(es: seq<ServiceEndpoint>): seq<Value> {
    seq(|es|, i requires 0 <= i < |es| => ServiceJson(es[i]))
  }

  function BindingJson(b: AddressBinding): Value {
    Object(map[
      "id" := Str(b.id), "addressType" := Str(b.addressType), "network" := Str(b.network),
      "address" := Str(b.address), "controller" := Str(b.controller), "purpose" := Str(b.purpose)])
  }

  function BindingsJson(bs: seq<AddressBinding>): seq<Value> {
    seq(|bs|, i requires 0 <= i < |bs| => BindingJson(bs[i]))
  }

  function DescriptionJson(d: AgentDescription): Value {
    Object(map[
      "capabilityDescription" := Str(d.capabilityDescription), "capabilityTags" := Strings(d.capabilityTags),
      "useCaseExamples" := Strings(d.useCaseExamples)])
  }

  function SubjectTypeName(t: SubjectType): string {
    match t case Agent => "agent" case InfrastructureNode => "infrastructure-node"
  }

  function Described(d: Option<AgentDescription>): Option<Value> {
    if d.Some? then Some(DescriptionJson(d.value)) else None
  }

  function NamedJson(a: AnsMetadata): (fields: map<string, Value>)
    ensures fields.Keys <= ANS_KEYS
  {
    var fields := map[
      "subjectType" := Str(SubjectTypeName(a.subjectType)), "identityType" := Str(a.identityType),
      "addressBindings" := Array(BindingsJson(a.addressBindings))];
    With(With(With(With(fields, "ttl", Count(a.ttl)), "agentDescription", Described(a.agentDescription)),
              "servicePolicy", Text(a.servicePolicy)), "networkScope", Text(a.networkScope))
  }

  function AnsJson(a: AnsMetadata): Value {
    Object(NamedJson(a) + a.extra)
  }

  function DocumentJson(d: DidDocument): Value {
    var fields := map[
      "@context" := Strings(d.context), "id" := Str(d.id), "verificationMethod" := Array(MethodsJson(d.verificationMethod)),
      "authentication" := Strings(d.authentication), "assertionMethod" := Strings(d.assertionMethod),
      "service" := Array(ServicesJson(d.service))];
    Object(With(fields, "ansMetadata", if d.ansMetadata.Some? then Some(AnsJson(d.ansMetadata.value)) else None))
  }

  // ----- the JSON form determines the document -----

  lemma StringsInjective(a: seq<string>, b: seq<string>)
    requires Strings(a) == Strings(b)
    ensures a == b
  {
    var x, y := Strings(a).items, Strings(b).items;
    assert |a| == |x| && |b| == |y|;
    forall i | 0 <= i < |a| ensures a[i] == b[i] {
      assert x[i] == Str(a[i]) && y[i] == Str(b[i]);
    }
  }

  /** What a map says about one key. */
  function At(fields: map<string, Value>, key: string): Option<Value> {
    if key in fields then Some(fields[key]) else None
  }

  lemma MethodFields(m: VerificationMethod)
    ensures var x := MethodJson(m).fields;
      && At(x, "id") == Some(Str(m.id)) && At(x, "type") == Some(Str(m.methodType)) && At(x, "controller") == Some(Str(m.controller))
      && At(x, "publicKeyMultibase") == Text(m.multibase) && At(x, "publicKeyJwk") == m.jwk
  {
  }

  lemma MethodJsonInjective(a: VerificationMethod, b: VerificationMethod)
    requires MethodJson(a) == MethodJson(b)
    ensures a == b
  {
    hide MethodJson, At;
    MethodFields(a);
    MethodFields(b);
  }

  lemma ServiceFields(e: ServiceEndpoint)
    ensures var x := ServiceJson(e).fields;
      && At(x, "id") == Some(Str(e.id)) && At(x, "type") == Some(Str(e.serviceType)) && At(x, "serviceEndpoint") == Some(Str(e.endpoint))
      && At(x, "version") == Text(e.version) && At(x, "protocol") == Text(e.protocol)
      && At(x, "serverType") == Text(e.serverType) && At(x, "port") == Count(e.port)
  {
  }

  lemma ServiceJsonInjective(a: ServiceEndpoint, b: ServiceEndpoint)
    requires ServiceJson(a) == ServiceJson(b)
    ensures a == b
  {
    hide ServiceJson, At;
    ServiceFields(a);
    ServiceFields(b);
  }

  lemma BindingFields(b: AddressBinding)
    ensures var x := BindingJson(b).fields;
      && At(x, "id") == Some(Str(b.id)) && At(x, "addressType") == Some(Str(b.addressType)) && At(x, "network") == Some(Str(b.network))
      && At(x, "address") == Some(Str(b.address)) && At(x, "controller") == Some(Str(b.controller)) && At(x, "purpose") == Some(Str(b.purpose))
  {
  }

  lemma BindingJsonInjective(a: AddressBinding, b: AddressBinding)
    requires BindingJson(a) == BindingJson(b)
    ensures a == b
  {
    hide BindingJson, At;
    BindingFields(a);
    BindingFields(b);
  }

  lemma DescriptionJsonInjective(a: AgentDescription, b: AgentDescription)
    requires DescriptionJson(a) == DescriptionJson(b)
    ensures a == b
  {
    hide Strings;
    var x, y := DescriptionJson(a).fields, DescriptionJson(b).fields;
    assert x["capabilityDescription"] == y["capabilityDescription"];
    assert x["capabilityTags"] == y["capabilityTags"];
    assert x["useCaseExamples"] == y["useCaseExamples"];
    StringsInjective(a.capabilityTags, b.capabilityTags);
    StringsInjective(a.useCaseExamples, b.useCaseExamples);
  }

  lemma MethodsInjective(a: seq<VerificationMethod>, b: seq<VerificationMethod>)
    requires MethodsJson(a) == MethodsJson(b)
    ensures a == b
  {
    hide MethodJson;
    assert |MethodsJson(a)| == |a| && |MethodsJson(b)| == |b|;
    forall i | 0 <= i < |a| ensures a[i] == b[i] {
      assert MethodsJson(a)[i] == MethodJson(a[i]) && MethodsJson(b)[i] == MethodJson(b[i]);
      MethodJsonInjective(a[i], b[i]);
    }
  }

  lemma ServicesInjective(a: seq<ServiceEndpoint>, b: seq<ServiceEndpoint>)
    requires ServicesJson(a) == ServicesJson(b)
    ensures a == b
  {
    hide ServiceJson;
    assert |ServicesJson(a)| == |a| && |ServicesJson(b)| == |b|;
    forall i | 0 <= i < |a| ensures a[i] == b[i] {
      assert ServicesJson(a)[i] == ServiceJson(a[i]) && ServicesJson(b)[i] == ServiceJson(b[i]);
      ServiceJsonInjective(a[i], b[i]);
    }
  }

  lemma BindingsInjective(a: seq<AddressBinding>, b: seq<AddressBinding>)
    requires BindingsJson(a) == BindingsJson(b)
    ensures a == b
  {
    hide BindingJson;
    assert |BindingsJson(a)| == |a| && |BindingsJson(b)| == |b|;
    forall i | 0 <= i < |a| ensures a[i] == b[i] {
      assert BindingsJson(a)[i] == BindingJson(a[i]) && BindingsJson(b)[i] == BindingJson(b[i]);
      BindingJsonInjective(a[i], b[i]);
    }
  }

  lemma NamedFields(a: AnsMetadata)
    ensures var x := NamedJson(a);
      && At(x, "subjectType") == Some(Str(SubjectTypeName(a.subjectType))) && At(x, "identityType") == Some(Str(a.identityType))
      && At(x, "addressBindings") == Some(Array(BindingsJson(a.addressBindings))) && At(x, "ttl") == Count(a.ttl)
      && At(x, "agentDescription") == Described(a.agentDescription)
      && At(x, "servicePolicy") == Text(a.servicePolicy) && At(x, "networkScope") == Text(a.networkScope)
  {
    hide BindingsJson, DescriptionJson, SubjectTypeName;
  }

  /** The named fields and the rest can be told apart. */
  lemma AnsParts(a: AnsMetadata, b: AnsMetadata)
    requires AnsJson(a) == AnsJson(b)
    ensures NamedJson(a) == NamedJson(b) && a.extra == b.extra
  {
    hide NamedJson;
    var x, y := NamedJson(a) + a.extra, NamedJson(b) + b.extra;
    assert NamedJson(a) == map k | k in x && k in ANS_KEYS :: x[k];
    assert NamedJson(b) == map k | k in y && k in ANS_KEYS :: y[k];
    assert a.extra == map k | k in x && k !in ANS_KEYS :: x[k];
    assert b.extra == map k | k in y && k !in ANS_KEYS :: y[k];
  }

  lemma AnsJsonInjective(a: AnsMetadata, b: AnsMetadata)
    requires AnsJson(a) == AnsJson(b)
    ensures a == b
  {
    hide NamedJson, At, BindingsJson, DescriptionJson;
    AnsParts(a, b);
    NamedFields(a);
    NamedFields(b);
    BindingsInjective(a.addressBindings, b.addressBindings);
    if a.agentDescription.Some? {
      DescriptionJsonInjective(a.agentDescription.value, b.agentDescription.value);
    }
  }

  lemma DocumentFields(d: DidDocument)
    ensures var x := DocumentJson(d).fields;
      && At(x, "@context") == Some(Strings(d.context)) && At(x, "id") == Some(Str(d.id))
      && At(x, "verificationMethod") == Some(Array(MethodsJson(d.verificationMethod)))
      && At(x, "authentication") == Some(Strings(d.authentication)) && At(x, "assertionMethod") == Some(Strings(d.assertionMethod))
      && At(x, "service") == Some(Array(ServicesJson(d.service)))
      && At(x, "ansMetadata") == if d.ansMetadata.Some? then Some(AnsJson(d.ansMetadata.value)) else None
  {
    hide Strings, MethodsJson, ServicesJson, AnsJson;
  }

  /** The JSON form of a document determines the document. */
  lemma DocumentJsonInjective(a: DidDocument, b: DidDocument)
    requires DocumentJson(a) == DocumentJson(b)
    ensures a == b
  {
    hide DocumentJson, MethodsJson, ServicesJson, AnsJson, Strings, At;
    DocumentFields(a);
    DocumentFields(b);
    StringsInjective(a.context, b.context);
    StringsInjective(a.authentication, b.authentication);
    StringsInjective(a.assertionMethod, b.assertionMethod);
    MethodsInjective(a.verificationMethod, b.verificationMethod);
    ServicesInjective(a.service, b.service);
    if a.ansMetadata.Some? {
      AnsJsonInjective(a.ansMetadata.value, b.ansMetadata.value);
    }
  }
}
