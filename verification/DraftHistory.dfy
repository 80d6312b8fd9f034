/**
 What a draft says after the operations on it: its status, its contents, and why an operation is refused.
 */
module DraftHistory {
  import opened CanonicalJson
  import opened Crypto
  import opened Documents
  import opened RegistrarDraft
  import opened Wrappers
  import IssuedCredentials

  // ----- the status of a draft -----

  /** The status that an operation gives the draft, if it gives it one. */
  ghost function NewStatus(cfg: Config, s: Records, op: Op, id: string): Option<WorkflowStatus> {
    match op
    case Create(i, _, _, _, _, _) => if i == id then Some(Drafted) else None
    case Update(i, _, _, _, _) => if i == id && id !in s.cores then Some(Drafted) else None
    case Prove(i, _, _) => if i == id && Apply(cfg, s, op).1.None? then Some(ControlVerified) else None
    case Issue(i, _) => if i == id && Apply(cfg, s, op).1.None? then Some(CredentialIssued) else None
    case EndSubmit(request, accepted) =>
      if request in s.pending && s.pending[request].0 == id then Some(if accepted then Submitted else SubmitFailed) else None
    case _ => None
  }

  lemma OneStatus(cfg: Config, s: Records, op: Op, id: string)
    requires id in s.cores || NewStatus(cfg, s, op, id).Some?
    ensures var s', status := Apply(cfg, s, op).0, NewStatus(cfg, s, op, id);
      id in s'.cores && s'.cores[id].status == if status.Some? then status.value else s.cores[id].status
  {
    hide ControlProofError, HashDocument, HashJson, ProofJson, IssuedCredential, Signed, IsValid, BuildSubmission;
  }

  /** The status of a draft is what the last operation that gave it one says: a failed operation gives none. */
  lemma {:induction false} StatusIsLastGiven(cfg: Config, ops: seq<Op>, m: nat, n: nat, id: string)
    requires m < n <= |ops| && NewStatus(cfg, After(cfg, ops[..m]), ops[m], id).Some?
    requires forall k: nat :: m < k < n ==> NewStatus(cfg, After(cfg, ops[..k]), ops[k], id).None?
    ensures var s := After(cfg, ops[..n]);
      id in s.cores && s.cores[id].status == NewStatus(cfg, After(cfg, ops[..m]), ops[m], id).value
  {
    hide Apply, NewStatus;
    if m + 1 < n {
      StatusIsLastGiven(cfg, ops, m, n - 1, id);
    }
    assert ops[..n][..n - 1] == ops[..n - 1] && ops[..n][n - 1] == ops[n - 1];
    OneStatus(cfg, After(cfg, ops[..n - 1]), ops[n - 1], id);
  }

  // ----- the contents of a draft -----

  /** A fresh draft has the DID it was given, else its document's, else the fallback; an update writes what it brings and keeps the rest. */
  lemma WrittenContents(cfg: Config, s: Records, op: Op)
    requires op.Create? || op.Update?
    ensures var s' := Apply(cfg, s, op).0;
      && op.id in s'.cores && op.id in s'.controls && var core := s'.cores[op.id];
      && (op.Create? ==>
            && core.document == op.document && core.documentHash == None && core.reviewStatus == InDraft
            && core.agentDid == (if op.agentDid.Some? then op.agentDid.value
                                 else if op.document.Some? then op.document.value.id else op.fallbackDid)
            && core.metadata == (if op.metadata.Some? then op.metadata.value else Object(map[])))
      && (op.Update? && op.id in s.cores ==>
            && core.document == (if op.document.Some? then op.document else s.cores[op.id].document)
            && core.documentHash == (if op.document.Some? then Some(HashJson(cfg.c, DocumentJson(op.document.value))) else s.cores[op.id].documentHash)
            && core.agentDid == (if op.document.Some? then op.document.value.id
                                 else if op.agentDid.Some? then op.agentDid.value else s.cores[op.id].agentDid)
            && core.metadata == (if op.metadata.Some? then op.metadata.value else s.cores[op.id].metadata)
            && core.reviewStatus == s.cores[op.id].reviewStatus)
      && (op.credential.Some? ==> op.id in s'.credentials && s'.credentials[op.id] == op.credential.value)
      && (op.credential.None? && op.id in s.credentials ==> op.id in s'.credentials && s'.credentials[op.id] == s.credentials[op.id])
      && (op.Create? || op.document.Some? ==> s'.controls[op.id] == Control(NotStarted, None, None))
  {
    hide HashJson, DocumentJson;
  }

  /** An operation on one draft leaves every other as it was. */
  lemma OthersStay(cfg: Config, s: Records, op: Op, id: string)
    requires op.EndSubmit? ==> op.request in s.pending ==> s.pending[op.request].0 != id
    requires !op.EndSubmit? ==> op.id != id
    ensures var s' := Apply(cfg, s, op).0;
      && (id in s'.cores <==> id in s.cores) && (id in s.cores ==> s'.cores[id] == s.cores[id])
      && (id in s'.controls <==> id in s.controls) && (id in s.controls ==> s'.controls[id] == s.controls[id])
      && (id in s'.credentials <==> id in s.credentials) && (id in s.credentials ==> s'.credentials[id] == s.credentials[id])
  {
    hide ControlProofError, HashDocument, HashJson, ProofJson, IssuedCredential, Signed, IsValid, BuildSubmission, UpdatedDraft, CreatedCore;
  }

  // ----- refusals -----

  /** Why issuing is refused in a reachable state: it is never for a missing hash or proof. */
  lemma IssueErrorIsFirst(cfg: Config, ops: seq<Op>, id: string, now: int)
    ensures var s := After(cfg, ops);
      IsFirstFault([(id !in s.cores, DraftNotFound),
                    (id in s.cores && s.cores[id].reviewStatus == InDraft, NotValidated),
                    (id in s.controls && s.controls[id].status != Verified, ControlNotVerified)],
                   Apply(cfg, s, Issue(id, now)).1)
  {
    hide After, BundleChecked, IssuedCredential, HashDocument, AllOk, Signed;
    EveryRunKeepsOk(cfg, ops);
    var s := After(cfg, ops);
    if id in s.cores {
      RecordOk(cfg, s, id);
      IssuedCredentials.VerifiedIsComplete(cfg, id, s.cores[id], s.controls[id]);
    }
    var faults := [(id !in s.cores, DraftNotFound),
                   (id in s.cores && s.cores[id].reviewStatus == InDraft, NotValidated),
                   (id in s.controls && s.controls[id].status != Verified, ControlNotVerified)];
    var i := if faults[0].0 then 0 else if faults[1].0 then 1 else 2;
    assert Apply(cfg, s, Issue(id, now)).1.Some? ==> faults[i] == (true, Apply(cfg, s, Issue(id, now)).1.value);
  }

  /** Why a submission is refused before it is sent. */
  lemma SubmitErrorIsFirst(cfg: Config, ops: seq<Op>, id: string, request: nat)
    ensures var s := After(cfg, ops);
      IsFirstFault([(id !in s.cores, DraftNotFound),
                    (id in s.cores && s.cores[id].document.None?, MissingDidDocument),
                    (id !in s.credentials, MissingCredential),
                    (id in s.controls && s.controls[id].status != Verified, ProofMissing)],
                   Apply(cfg, s, BeginSubmit(id, request)).1)
  {
    hide After, BundleChecked, HashDocument, AllOk;
    EveryRunKeepsOk(cfg, ops);
    var s := After(cfg, ops);
    if id in s.cores {
      RecordOk(cfg, s, id);
    }
    var faults := [(id !in s.cores, DraftNotFound),
                   (id in s.cores && s.cores[id].document.None?, MissingDidDocument),
                   (id !in s.credentials, MissingCredential),
                   (id in s.controls && s.controls[id].status != Verified, ProofMissing)];
    var i := if faults[0].0 then 0 else if faults[1].0 then 1 else if faults[2].0 then 2 else 3;
    assert Apply(cfg, s, BeginSubmit(id, request)).1.Some? ==> faults[i] == (true, Apply(cfg, s, BeginSubmit(id, request)).1.value);
  }
}
