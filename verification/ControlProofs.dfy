/**
 What a verified subject control stands for: the signature that was checked, the challenge it answers, and
 the operations of the run that made the one and accepted the other.
 */
module ControlProofs {
  import opened CanonicalJson
  import opened Crypto
  import opened Documents
  import opened RegistrarDraft
  import opened Wrappers
  import NonceStore

  // ----- one proof -----

  /** A key of the document, under the method the challenge names, verifies the whole challenge. */
  ghost predicate AnswersChallenge(c: Suite, bundle: Bundle, doc: DidDocument) {
    exists m, key :: NamedKey(c, doc, bundle.challenge.verificationMethod, m, key)
                  && c.verify(key, HashJson(c, ChallengeJson(bundle.challenge)), bundle.proof.proofValue)
  }

  /** The faults of a proof, in the order in which they are looked for. */
  ghost function ProofFaults(cfg: Config, bundle: Bundle, doc: DidDocument, subjectDid: string, documentHash: string, now: int): seq<(bool, DraftError)> {
    var ch := bundle.challenge;
    [(ch.subjectDid != subjectDid, SubjectMismatch),
     (ch.documentHash != documentHash, DocumentHashMismatch),
     (ch.registrarDid != cfg.did, RegistrarMismatch),
     (ch.purpose != cfg.purpose, PurposeMismatch),
     (ch.expiresAt < now, ChallengeExpired),
     (ch.verificationMethod !in doc.assertionMethod || (forall m :: m in doc.verificationMethod ==> m.id != ch.verificationMethod), DraftError.MissingVerificationMethod),
     (!AnswersChallenge(cfg.c, bundle, doc), ProofInvalid),
     (bundle.proof.verificationMethod.Some? && bundle.proof.verificationMethod.value != ch.verificationMethod, VerificationMethodMismatch)]
  }

  lemma ProofErrorIsFirst(cfg: Config, bundle: Bundle, doc: DidDocument, subjectDid: string, documentHash: string, now: int)
    ensures IsFirstFault(ProofFaults(cfg, bundle, doc, subjectDid, documentHash, now), ControlProofError(cfg, bundle, doc, subjectDid, documentHash, now))
  {
    hide NamedKey, HashJson, ChallengeJson, FindMethod, MethodKey;
    var id, ids := bundle.challenge.verificationMethod, doc.assertionMethod;
    NamedKeyIff(cfg.c, doc, id);
    assert forall m :: m in doc.verificationMethod ==> (Suits(m, ids, Some(id)) <==> m.id == id && id in ids);
    var faults := ProofFaults(cfg, bundle, doc, subjectDid, documentHash, now);
    var error := ControlProofError(cfg, bundle, doc, subjectDid, documentHash, now);
    var i := if faults[0].0 then 0 else if faults[1].0 then 1 else if faults[2].0 then 2 else if faults[3].0 then 3
      else if faults[4].0 then 4 else if faults[5].0 then 5 else if faults[6].0 then 6 else 7;
    assert error.Some? ==> faults[i] == (true, error.value);
  }

  lemma SignatureChecked(c: Suite, bundle: Bundle, doc: DidDocument)
    ensures SignatureError(c, bundle, doc).None? <==>
      && (exists m, key :: NamedKey(c, doc, bundle.challenge.verificationMethod, m, key)
                        && c.verify(key, HashJson(c, ChallengeJson(bundle.challenge)), bundle.proof.proofValue))
      && (bundle.proof.verificationMethod.Some? ==> bundle.proof.verificationMethod.value == bundle.challenge.verificationMethod)
  {
    hide NamedKey, HashJson, ChallengeJson, FindMethod, MethodKey;
    NamedKeyIff(c, doc, bundle.challenge.verificationMethod);
  }

  /** What a subject signs determines its challenge. */
  lemma ChallengeTextInjective(c: Suite, a: Challenge, b: Challenge)
    requires Ideal(c)
    ensures HashJson(c, ChallengeJson(a)) == HashJson(c, ChallengeJson(b)) <==> a == b
  {
    hide Ideal, HashJson, ChallengeJson;
    HashJsonInjective(c, ChallengeJson(a), ChallengeJson(b));
    ChallengeFields(a);
    ChallengeFields(b);
  }

  lemma ChallengeFields(ch: Challenge)
    ensures var x := ChallengeJson(ch);
      && Get(x, "challengeId") == Str(ch.challengeId) && Get(x, "draftId") == Str(ch.draftId) && Get(x, "subjectDid") == Str(ch.subjectDid)
      && Get(x, "didDocumentHash") == Str(ch.documentHash) && Get(x, "registrarDid") == Str(ch.registrarDid) && Get(x, "purpose") == Str(ch.purpose)
      && Get(x, "verificationMethod") == Str(ch.verificationMethod) && Get(x, "nonce") == Str(ch.nonce)
      && Get(x, "issuedAt") == Number(ch.issuedAt) && Get(x, "expiresAt") == Number(ch.expiresAt)
  {
  }

  // ----- what is submitted -----

  lemma ProofFields(p: IntegrityProof)
    ensures var x := ProofJson(p);
      && Get(x, "creator") == Str(p.creator) && Get(x, "proofValue") == Str(p.proofValue)
      && (Has(x, "verificationMethod") <==> p.verificationMethod.Some?)
      && (p.verificationMethod.Some? ==> Get(x, "verificationMethod") == Str(p.verificationMethod.value))
  {
  }

  lemma BundleFields(b: Bundle)
    ensures var x := BundleJson(b);
      && Get(x, "challenge") == ChallengeJson(b.challenge) && Get(x, "proof") == ProofJson(b.proof)
      && (Has(x, "verifiedAt") <==> b.verifiedAt.Some?) && (b.verifiedAt.Some? ==> Get(x, "verifiedAt") == Number(b.verifiedAt.value))
      && (Has(x, "verifiedVerificationMethod") <==> b.verifiedMethod.Some?)
      && (b.verifiedMethod.Some? ==> Get(x, "verifiedVerificationMethod") == Str(b.verifiedMethod.value))
      && (Has(x, "proofHash") <==> b.proofHash.Some?) && (b.proofHash.Some? ==> Get(x, "proofHash") == Str(b.proofHash.value))
  {
    hide ChallengeJson, ProofJson;
  }

  lemma BundleJsonInjective(a: Bundle, b: Bundle)
    requires BundleJson(a) == BundleJson(b)
    ensures a == b
  {
    hide BundleJson, ChallengeJson, ProofJson, Get, Has;
    BundleFields(a);
    BundleFields(b);
    ChallengeFields(a.challenge);
    ChallengeFields(b.challenge);
    ProofFields(a.proof);
    ProofFields(b.proof);
  }

  lemma SubmissionFields(sub: Submission)
    ensures var x := SubmissionJson(sub);
      && Get(x, "agentDid") == Str(sub.agentDid) && Get(x, "didDocument") == DocumentJson(sub.document)
      && Get(x, "didDocumentHash") == Str(sub.documentHash) && Get(x, "metadata") == sub.metadata
      && Get(x, "registrationCredential") == sub.credential && Get(x, "subjectControlProof") == BundleJson(sub.bundle)
  {
    hide DocumentJson, BundleJson;
  }

  /** What the Registrar sends determines the submission. */
  lemma SubmissionJsonInjective(a: Submission, b: Submission)
    requires SubmissionJson(a) == SubmissionJson(b)
    ensures a == b
  {
    hide SubmissionJson, DocumentJson, BundleJson, Get;
    SubmissionFields(a);
    SubmissionFields(b);
    DocumentJsonInjective(a.document, b.document);
    BundleJsonInjective(a.bundle, b.bundle);
  }

  /** So a built request with anything else in its place, down to a field of the proof, never passes. */
  lemma AnyOtherIsRefused(cfg: Config, sub: Submission, other: Submission, up: Upstream, skew: int, ttl: int,
                          store: NonceStore.Nonces, registrarDocument: DidDocument, now: int)
    requires Ideal(cfg.c) && other != sub
    ensures RequestVerdict(cfg, UpstreamPolicy(up.rootDid, skew, ttl), store, BuildRequest(cfg, sub, up).(submission := other),
                           registrarDocument, now).Err?
  {
    hide Ideal, SubmissionJson, RequestVerdict, BuildRequest;
    if SubmissionJson(other) == SubmissionJson(sub) {
      SubmissionJsonInjective(other, sub);
    }
    OtherSubmissionIsRefused(cfg, sub, other, up, skew, ttl, store, registrarDocument, now);
  }

  // ----- every run -----

  /**
   In every reachable state a verified control holds the signature of its challenge by a key of the stored
   document, and the challenge names that document, its draft, this registrar and its purpose.
   */
  lemma VerifiedMeansSigned(cfg: Config, ops: seq<Op>, id: string)
    requires var s := After(cfg, ops); id in s.controls && s.controls[id].status == Verified
    ensures var s := After(cfg, ops);
      && id in s.cores && s.cores[id].document.Some? && s.controls[id].proof.Some?
      && var doc, bundle := s.cores[id].document.value, s.controls[id].proof.value;
      && (exists m, key :: NamedKey(cfg.c, doc, bundle.challenge.verificationMethod, m, key)
                        && cfg.c.verify(key, HashJson(cfg.c, ChallengeJson(bundle.challenge)), bundle.proof.proofValue))
      && bundle.challenge.documentHash == HashJson(cfg.c, DocumentJson(doc)) && bundle.challenge.draftId == id
      && bundle.challenge.registrarDid == cfg.did && bundle.challenge.purpose == cfg.purpose
      && bundle.verifiedAt.Some? && bundle.verifiedAt.value <= bundle.challenge.expiresAt
  {
    hide After, Apply, NamedKey, HashJson, ChallengeJson, DocumentJson, ProofJson, SignatureError;
    VerifiedMeansChecked(cfg, ops, id);
    var s := After(cfg, ops);
    SignatureChecked(cfg.c, s.controls[id].proof.value, s.cores[id].document.value);
  }

  /** And whatever is submitted carries such a signature over a challenge for the very document submitted. */
  lemma SubmissionIsSigned(cfg: Config, ops: seq<Op>, id: string)
    requires var s := After(cfg, ops); id in s.cores && BuildSubmission(cfg, ReadDraft(s, id).value).Ok?
    ensures var s := After(cfg, ops); var sub := BuildSubmission(cfg, ReadDraft(s, id).value).value;
      && (exists m, key :: NamedKey(cfg.c, sub.document, sub.bundle.challenge.verificationMethod, m, key)
                        && cfg.c.verify(key, HashJson(cfg.c, ChallengeJson(sub.bundle.challenge)), sub.bundle.proof.proofValue))
      && sub.bundle.challenge.documentHash == HashJson(cfg.c, DocumentJson(sub.document)) == sub.documentHash
      && sub.bundle.challenge.draftId == id && sub.bundle.challenge.registrarDid == cfg.did
  {
    hide After, Apply, NamedKey, HashJson, ChallengeJson, DocumentJson, ProofJson, SignatureError;
    SubmissionIsChecked(cfg, ops, id);
    var sub := BuildSubmission(cfg, ReadDraft(After(cfg, ops), id).value).value;
    SignatureChecked(cfg.c, sub.bundle, sub.document);
  }

  // ----- where a control comes from -----

  /** Operation `m` made the challenge, for the DID and the document the draft had then. */
  ghost predicate MadeAt(cfg: Config, ops: seq<Op>, m: nat, id: string, ch: Challenge) {
    && m < |ops| && ops[m].MakeChallenge? && ops[m].id == id
    && ch.draftId == id && ch.nonce == ops[m].nonce && ch.issuedAt == ops[m].now && ch.expiresAt == ops[m].now + cfg.challengeTtl
    && var s := After(cfg, ops[..m]);
    && id in s.cores && s.cores[id].document.Some? && ch.subjectDid == s.cores[id].agentDid
    && ch.documentHash == EffectiveHash(cfg, s.cores[id])
    && ch.verificationMethod in s.cores[id].document.value.assertionMethod
  }

  /** Operation `n` presented the proof, and operation `m` before it had made the challenge. */
  ghost predicate ProvedAt(cfg: Config, ops: seq<Op>, m: nat, n: nat, id: string, bundle: Bundle) {
    && m < n < |ops| && MadeAt(cfg, ops, m, id, bundle.challenge)
    && ops[n].Prove? && ops[n].id == id && bundle.proof == ops[n].proof && bundle.verifiedAt == Some(ops[n].now)
    && ops[n].now <= ops[m].now + cfg.challengeTtl
  }

  ghost predicate Traced(cfg: Config, ops: seq<Op>, id: string, control: Control) {
    && (control.challenge.Some? ==> exists m: nat :: MadeAt(cfg, ops, m, id, control.challenge.value))
    && (control.proof.Some? ==> exists m: nat, n: nat :: ProvedAt(cfg, ops, m, n, id, control.proof.value))
  }

  ghost predicate AllTraced(cfg: Config, ops: seq<Op>, s: Records) {
    && (forall id :: id in s.controls ==> Traced(cfg, ops, id, s.controls[id]))
    && (forall r :: r in s.pending ==> Traced(cfg, ops, s.pending[r].0, s.pending[r].1.control))
  }

  lemma StillTraced(cfg: Config, ops: seq<Op>, op: Op, id: string, control: Control)
    requires Traced(cfg, ops, id, control)
    ensures Traced(cfg, ops + [op], id, control)
  {
    hide After, EffectiveHash;
    if control.challenge.Some? {
      var m: nat :| MadeAt(cfg, ops, m, id, control.challenge.value);
      StillMade(cfg, ops, op, m, id, control.challenge.value);
    }
    if control.proof.Some? {
      var m: nat, n: nat :| ProvedAt(cfg, ops, m, n, id, control.proof.value);
      StillMade(cfg, ops, op, m, id, control.proof.value.challenge);
      assert ProvedAt(cfg, ops + [op], m, n, id, control.proof.value);
    }
  }

  lemma StillMade(cfg: Config, ops: seq<Op>, op: Op, m: nat, id: string, ch: Challenge)
    requires MadeAt(cfg, ops, m, id, ch)
    ensures MadeAt(cfg, ops + [op], m, id, ch)
  {
    hide After, EffectiveHash;
    assert (ops + [op])[..m] == ops[..m];
  }

  /** What an operation leaves in a control: what was there, what was read, nothing, a challenge or a proof. */
  lemma ControlAfter(cfg: Config, s: Records, op: Op, id: string)
    requires id in Apply(cfg, s, op).0.controls
    ensures var control := Apply(cfg, s, op).0.controls[id];
      || (id in s.controls && control == s.controls[id])
      || (control.challenge.None? && control.proof.None?)
      || (op.EndSubmit? && op.request in s.pending && s.pending[op.request].0 == id && control == s.pending[op.request].1.control)
      || (op.MakeChallenge? && op.id == id && id in s.cores && s.cores[id].document.Some? && control.proof.None? && control.challenge.Some?
          && var ch := control.challenge.value;
          && ch.draftId == id && ch.nonce == op.nonce && ch.issuedAt == op.now && ch.expiresAt == op.now + cfg.challengeTtl
          && ch.subjectDid == s.cores[id].agentDid && ch.documentHash == EffectiveHash(cfg, s.cores[id])
          && ch.verificationMethod in s.cores[id].document.value.assertionMethod)
      || (op.Prove? && op.id == id && id in s.controls && s.controls[id].challenge.Some? && control.challenge == s.controls[id].challenge
          && control.proof.Some? && control.proof.value.challenge == s.controls[id].challenge.value && control.proof.value.proof == op.proof
          && control.proof.value.verifiedAt == Some(op.now) && op.now <= s.controls[id].challenge.value.expiresAt)
  {
    hide HashDocument, HashJson, ProofJson, SignatureError, TryIssue, Signed, BuildSubmission, IsValid;
  }

  lemma PendingAfter(cfg: Config, s: Records, op: Op, r: nat)
    requires r in Apply(cfg, s, op).0.pending
    ensures var p := Apply(cfg, s, op).0.pending[r];
      || (r in s.pending && p == s.pending[r])
      || (op.BeginSubmit? && p.0 == op.id && ((op.id in s.controls && p.1.control == s.controls[op.id]) || p.1.control == Control(NotStarted, None, None)))
  {
    hide HashDocument, HashJson, ProofJson, SignatureError, TryIssue, Signed, BuildSubmission, IsValid, ControlProofError;
  }

  lemma StepTraced(cfg: Config, ops: seq<Op>, op: Op)
    requires AllTraced(cfg, ops, After(cfg, ops))
    ensures AllTraced(cfg, ops + [op], Apply(cfg, After(cfg, ops), op).0)
  {
    hide After, Apply, Traced, EffectiveHash;
    var s := After(cfg, ops);
    var s' := Apply(cfg, s, op).0;
    forall id | id in s'.controls ensures Traced(cfg, ops + [op], id, s'.controls[id]) {
      ControlTraced(cfg, ops, op, id);
    }
    forall r | r in s'.pending ensures Traced(cfg, ops + [op], s'.pending[r].0, s'.pending[r].1.control) {
      PendingAfter(cfg, s, op, r);
      if r in s.pending && s'.pending[r] == s.pending[r] {
        StillTraced(cfg, ops, op, s.pending[r].0, s.pending[r].1.control);
      } else if op.id in s.controls && s'.pending[r].1.control == s.controls[op.id] {
        StillTraced(cfg, ops, op, op.id, s.controls[op.id]);
      } else {
        NothingToTrace(cfg, ops + [op], op.id, s'.pending[r].1.control);
      }
    }
  }

  lemma NothingToTrace(cfg: Config, ops: seq<Op>, id: string, control: Control)
    requires control.challenge.None? && control.proof.None?
    ensures Traced(cfg, ops, id, control)
  {
  }

  lemma ControlTraced(cfg: Config, ops: seq<Op>, op: Op, id: string)
    requires AllTraced(cfg, ops, After(cfg, ops)) && id in Apply(cfg, After(cfg, ops), op).0.controls
    ensures Traced(cfg, ops + [op], id, Apply(cfg, After(cfg, ops), op).0.controls[id])
  {
    hide After, Apply, EffectiveHash, Traced, MadeAt;
    var s := After(cfg, ops);
    var control := Apply(cfg, s, op).0.controls[id];
    ControlAfter(cfg, s, op, id);
    if id in s.controls {
      StillTraced(cfg, ops, op, id, s.controls[id]);
    }
    if op.EndSubmit? && op.request in s.pending && s.pending[op.request].0 == id {
      StillTraced(cfg, ops, op, id, s.pending[op.request].1.control);
    }
    if control.challenge.None? && control.proof.None? {
      NothingToTrace(cfg, ops + [op], id, control);
    }
    if op.MakeChallenge? && op.id == id && control.proof.None? && control.challenge.Some? && control != Held(s, id) {
      MadeNow(cfg, ops, op, control);
    }
    if op.Prove? && op.id == id && control.proof.Some? && control != Held(s, id) {
      ProvedNow(cfg, ops, op, control);
    }
  }

  function Held(s: Records, id: string): Control {
    if id in s.controls then s.controls[id] else Control(NotStarted, None, None)
  }

  lemma MadeNow(cfg: Config, ops: seq<Op>, op: Op, control: Control)
    requires op.MakeChallenge? && control.proof.None? && control.challenge.Some?
    requires var s, ch := After(cfg, ops), control.challenge.value;
      && op.id in s.cores && s.cores[op.id].document.Some?
      && ch.draftId == op.id && ch.nonce == op.nonce && ch.issuedAt == op.now && ch.expiresAt == op.now + cfg.challengeTtl
      && ch.subjectDid == s.cores[op.id].agentDid && ch.documentHash == EffectiveHash(cfg, s.cores[op.id])
      && ch.verificationMethod in s.cores[op.id].document.value.assertionMethod
    ensures Traced(cfg, ops + [op], op.id, control)
  {
    hide After, EffectiveHash;
    assert (ops + [op])[..|ops|] == ops;
    assert MadeAt(cfg, ops + [op], |ops|, op.id, control.challenge.value);
  }

  lemma ProvedNow(cfg: Config, ops: seq<Op>, op: Op, control: Control)
    requires op.Prove? && op.id in After(cfg, ops).controls && Traced(cfg, ops, op.id, After(cfg, ops).controls[op.id])
    requires var held := After(cfg, ops).controls[op.id];
      && held.challenge.Some? && control.challenge == held.challenge && control.proof.Some? && control.proof.value.challenge == held.challenge.value
      && control.proof.value.proof == op.proof && control.proof.value.verifiedAt == Some(op.now) && op.now <= held.challenge.value.expiresAt
    ensures Traced(cfg, ops + [op], op.id, control)
  {
    hide After, EffectiveHash;
    var ch := control.challenge.value;
    var m: nat :| MadeAt(cfg, ops, m, op.id, ch);
    StillMade(cfg, ops, op, m, op.id, ch);
    assert ProvedAt(cfg, ops + [op], m, |ops|, op.id, control.proof.value);
  }

  lemma {:induction false} EveryRunIsTraced(cfg: Config, ops: seq<Op>)
    ensures AllTraced(cfg, ops, After(cfg, ops))
  {
    hide Apply, Traced;
    if ops != [] {
      var init := ops[..|ops| - 1];
      EveryRunIsTraced(cfg, init);
      StepTraced(cfg, init, ops[|ops| - 1]);
      assert ops == init + [ops[|ops| - 1]];
    }
  }

  /**
   Behind every verified control of a reachable state stand two operations of the run: one made the challenge,
   for the DID and the document of that moment, and a later one, in time, presented the proof.
   */
  lemma VerifiedWasProved(cfg: Config, ops: seq<Op>, id: string)
    requires var s := After(cfg, ops); id in s.controls && s.controls[id].status == Verified
    ensures var control := After(cfg, ops).controls[id];
      control.proof.Some? && exists m: nat, n: nat :: ProvedAt(cfg, ops, m, n, id, control.proof.value)
  {
    hide After, Apply, BundleChecked, MadeAt;
    VerifiedMeansChecked(cfg, ops, id);
    EveryRunIsTraced(cfg, ops);
  }
}
