/**
 Admission of draft submissions: a semaphore bounds the requests at work and a set keeps two
 submissions of one draft apart. Each step below is atomic; requests interleave freely.
 */
module SubmitAdmission {

  type Request = nat

  /** Where an admission stands. A refused or removed one still holds its permit until it drops it. */
  datatype Phase = HasPermit(draft: string) | Admitted(draft: string) | Refused(draft: string) | Removed(draft: string)

  datatype State = State(free: nat, inflight: set<string>, phases: map<Request, Phase>)

  datatype Step =
    | TakePermit(request: Request, draft: string)
    | CheckAndInsert(request: Request)
    | RemoveDraft(request: Request)
    | DropPermit(request: Request)

  predicate Enabled(s: State, step: Step) {
    match step
    case TakePermit(r, _) => r !in s.phases
    case CheckAndInsert(r) => r in s.phases && s.phases[r].HasPermit?
    case RemoveDraft(r) => r in s.phases && s.phases[r].Admitted?
    case DropPermit(r) => r in s.phases && (s.phases[r].Refused? || s.phases[r].Removed?)
  }

  function Next(s: State, step: Step): State
    requires Enabled(s, step)
  {
    match step
    case TakePermit(r, draft) =>
      if s.free == 0 then s else s.(free := s.free - 1, phases := s.phases[r := HasPermit(draft)])
    case CheckAndInsert(r) =>
      var draft := s.phases[r].draft;
      if draft in s.inflight then s.(phases := s.phases[r := Refused(draft)])
      else s.(inflight := s.inflight + {draft}, phases := s.phases[r := Admitted(draft)])
    case RemoveDraft(r) =>
      var draft := s.phases[r].draft;
      s.(inflight := s.inflight - {draft}, phases := s.phases[r := Removed(draft)])
    case DropPermit(r) =>
      s.(free := s.free + 1, phases := s.phases - {r})
  }

  /** The semaphore and the set of a registrar, with the phases of its requests for the proof. */
  class Limiter {
    var free: nat
    var inflight: set<string>
    ghost var phases: map<Request, Phase>

    ghost function Now(): State
      reads this
    {
      State(free, inflight, phases)
    }

    constructor (limit: nat)
      ensures Now() == State(limit, {}, map[])
    {
      free, inflight, phases := limit, {}, map[];
    }

    /** `try_acquire_owned` */
    method TryAcquire(ghost r: Request, draft: string) returns (ok: bool)
      requires r !in phases
      modifies this
      ensures Now() == Next(old(Now()), TakePermit(r, draft))
      ensures ok <==> r in phases
    {
      if free == 0 {
        return false;
      }
      free := free - 1;
      phases := phases[r := HasPermit(draft)];
      return true;
    }

    /** The critical section on the in-flight set. */
    method Insert(ghost r: Request, draft: string) returns (ok: bool)
      requires r in phases && phases[r] == HasPermit(draft)
      modifies this
      ensures Now() == Next(old(Now()), CheckAndInsert(r))
      ensures ok <==> phases[r].Admitted?
    {
      if draft in inflight {
        phases := phases[r := Refused(draft)];
        return false;
      }
      inflight := inflight + {draft};
      phases := phases[r := Admitted(draft)];
      return true;
    }

    /** `Drop` removes the draft before the permit field is dropped. */
    method Remove(ghost r: Request, draft: string)
      requires r in phases && phases[r] == Admitted(draft)
      modifies this
      ensures Now() == Next(old(Now()), RemoveDraft(r))
    {
      inflight := inflight - {draft};
      phases := phases[r := Removed(draft)];
    }

    method Release(ghost r: Request)
      requires r in phases && (phases[r].Refused? || phases[r].Removed?)
      modifies this
      ensures Now() == Next(old(Now()), DropPermit(r))
    {
      free := free + 1;
      phases := phases - {r};
    }
  }

  // ----- interleavings -----

  predicate IsAdmitted(s: State, r: Request) {
    r in s.phases && s.phases[r].Admitted?
  }

  ghost predicate DraftAdmitted(s: State, draft: string) {
    exists r :: IsAdmitted(s, r) && s.phases[r].draft == draft
  }

  ghost predicate Invariant(limit: nat, s: State) {
    && s.free + |s.phases| == limit
    && (forall d :: d in s.inflight <==> DraftAdmitted(s, d))
    && (forall r, r' :: IsAdmitted(s, r) && IsAdmitted(s, r') && r != r' ==> s.phases[r].draft != s.phases[r'].draft)
  }

  ghost predicate IsRun(steps: seq<Step>, states: seq<State>) {
    && |states| == |steps| + 1
    && forall i :: 0 <= i < |steps| ==> Enabled(states[i], steps[i]) && states[i + 1] == Next(states[i], steps[i])
  }

  lemma StepKeepsInvariant(limit: nat, s: State, step: Step)
    requires Invariant(limit, s) && Enabled(s, step)
    ensures Invariant(limit, Next(s, step))
  {
    PermitsKept(s, step);
    InflightKept(s, step);
    AdmittedApart(s, step);
  }

  lemma PermitsKept(s: State, step: Step)
    requires Enabled(s, step)
    ensures Next(s, step).free + |Next(s, step).phases| == s.free + |s.phases|
  {
    var s', r := Next(s, step), step.request;
    assert |s.phases.Keys| == |s.phases| && |s'.phases.Keys| == |s'.phases|;
    match step
    case TakePermit(_, _) => assert s.free > 0 ==> s'.phases.Keys == s.phases.Keys + {r};
    case CheckAndInsert(_) => assert s'.phases.Keys == s.phases.Keys;
    case RemoveDraft(_) => assert s'.phases.Keys == s.phases.Keys;
    case DropPermit(_) => assert s.phases.Keys == s'.phases.Keys + {r};
  }

  lemma AdmittedApart(s: State, step: Step)
    requires Enabled(s, step)
    requires forall d :: d in s.inflight <==> DraftAdmitted(s, d)
    requires forall r, r' :: IsAdmitted(s, r) && IsAdmitted(s, r') && r != r' ==> s.phases[r].draft != s.phases[r'].draft
    ensures var s' := Next(s, step);
      forall r, r' :: IsAdmitted(s', r) && IsAdmitted(s', r') && r != r' ==> s'.phases[r].draft != s'.phases[r'].draft
  {
    assert forall r :: IsAdmitted(s, r) ==> DraftAdmitted(s, s.phases[r].draft);
  }

  lemma InflightKept(s: State, step: Step)
    requires Enabled(s, step)
    requires forall d :: d in s.inflight <==> DraftAdmitted(s, d)
    requires forall r, r' :: IsAdmitted(s, r) && IsAdmitted(s, r') && r != r' ==> s.phases[r].draft != s.phases[r'].draft
    ensures var s' := Next(s, step);
      forall d :: d in s'.inflight <==> DraftAdmitted(s', d)
  {
    var s' := Next(s, step);
    forall d
      ensures d in s'.inflight <==> DraftAdmitted(s', d)
    {
      if d in s'.inflight {
        if step.CheckAndInsert? && s'.inflight != s.inflight && d == s.phases[step.request].draft {
          assert IsAdmitted(s', step.request);
        } else {
          var r :| IsAdmitted(s, r) && s.phases[r].draft == d;
          assert IsAdmitted(s', r) && s'.phases[r].draft == d;
        }
      }
      if DraftAdmitted(s', d) {
        var r :| IsAdmitted(s', r) && s'.phases[r].draft == d;
        assert IsAdmitted(s, r) || (step.CheckAndInsert? && r == step.request);
      }
    }
  }

  /** Under any interleaving: permits are conserved, and the set is exactly the drafts admitted, each once. */
  lemma {:induction false} InvariantHolds(limit: nat, steps: seq<Step>, states: seq<State>, i: nat)
    requires IsRun(steps, states) && states[0] == State(limit, {}, map[])
    requires i <= |steps|
    ensures Invariant(limit, states[i])
  {
    if i > 0 {
      InvariantHolds(limit, steps, states, i - 1);
      StepKeepsInvariant(limit, states[i - 1], steps[i - 1]);
    }
  }

  /** A request is refused for backpressure exactly when `limit` requests hold permits, and for its draft exactly when that is admitted. */
  lemma RefusalReasons(limit: nat, steps: seq<Step>, states: seq<State>, i: nat)
    requires IsRun(steps, states) && states[0] == State(limit, {}, map[])
    requires i < |steps|
    ensures steps[i].TakePermit? ==>
      (steps[i].request !in states[i + 1].phases <==> |states[i].phases| == limit)
    ensures steps[i].CheckAndInsert? ==>
      (states[i + 1].phases[steps[i].request].Refused? <==> DraftAdmitted(states[i], states[i].phases[steps[i].request].draft))
  {
    InvariantHolds(limit, steps, states, i);
  }

  /** Once every request has ended, all permits are back and no draft is in flight. */
  lemma AllEndedRestores(limit: nat, steps: seq<Step>, states: seq<State>)
    requires IsRun(steps, states) && states[0] == State(limit, {}, map[])
    requires states[|steps|].phases == map[]
    ensures states[|steps|] == states[0]
  {
    InvariantHolds(limit, steps, states, |steps|);
    var s := states[|steps|];
    assert forall d :: !DraftAdmitted(s, d);
  }
}
