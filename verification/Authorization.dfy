/** Authorization requests, constraints and decisions, and when they are well formed. */
module Authorization {
  import opened Text

  datatype Outcome = Allow | Deny | OtherOutcome(text: string)

  datatype Constraints = Constraints(
    repositories: seq<Name>, resources: seq<Name>, actions: seq<Name>,
    argumentMax: map<Name, int>, maxResultBytes: int, maxDuration: Time)

  /** The authority dimensions of a request. `required` lists its mandatory text fields other
      than the request and policy identities. */
  datatype Scope = Scope(
    tenant: Name, policyProfile: Name, policyVersion: Name, required: seq<Name>, actor: Name,
    argumentDigest: Name, resourceDigest: Name, resources: seq<Name>, actions: seq<Name>, deadline: Time)

  datatype Request = Request(id: Name, scope: Scope)

  datatype Decision = Decision(
    id: Name, requestID: Name, contextDigest: Name, policyID: Name, policyVersion: Name,
    outcome: Outcome, reasons: seq<Name>, issuedAt: Time, notBefore: Time, expiresAt: Time,
    revocationEpoch: nat, checkpoint: Name, constraints: Constraints, evidence: Name)

  predicate Valid(text: Name) {
    ValidText(text.text, 512)
  }

  method ValidAuthorizationText(text: Name) returns (ok: bool)
    ensures ok <==> Valid(text)
  {
    ValidTextIff(text.text, 512);
    return text.text != "" && |text.text| <= 512 && TrimSpace(text.text) == text.text;
  }

  predicate Before(a: Name, b: Name) {
    Less(a.text, b.text)
  }

  // ---------------------------------------------------------------- normalized sets

  predicate StrictlySorted(values: seq<Name>) {
    forall i, j :: 0 <= i < j < |values| ==> Before(values[i], values[j])
  }

  predicate Normalized(values: seq<Name>) {
    (forall i :: 0 <= i < |values| ==> Valid(values[i])) && StrictlySorted(values)
  }

  /** The single pass over neighbours decides normalization of the whole list. */
  method ValidSet(values: seq<Name>) returns (ok: bool)
    ensures ok <==> Normalized(values)
  {
    var previous := Name("");
    for i := 0 to |values|
      invariant Normalized(values[..i])
      invariant previous == if i == 0 then Name("") else values[i - 1]
    {
      hide ValidText, Less;
      var value := values[i];
      var valid := ValidAuthorizationText(value);
      if !valid {
        return false;
      }
      if previous.text != "" && !Less(previous.text, value.text) {
        assert i > 0;
        return false;
      }
      AppendSorted(values[..i], value);
      assert values[..i + 1] == values[..i] + [value];
      previous := value;
    }
    assert values[..|values|] == values;
    return true;
  }

  lemma AppendSorted(values: seq<Name>, value: Name)
    requires Normalized(values) && Valid(value)
    requires values != [] && values[|values| - 1].text != "" ==> Before(values[|values| - 1], value)
    ensures Normalized(values + [value])
  {
    var all := values + [value];
    forall i, j | 0 <= i < j < |all| ensures Before(all[i], all[j]) {
      if j == |values| && i < j - 1 {
        LessTransitive(values[i].text, values[j - 1].text, value.text);
      }
    }
  }

  predicate ValidConstraints(c: Constraints) {
    && Normalized(c.repositories) && Normalized(c.resources) && Normalized(c.actions)
    && 0 <= c.maxResultBytes && 0 <= c.maxDuration
    && forall k :: k in c.argumentMax ==> Valid(k) && 0 <= c.argumentMax[k]
  }

  // ---------------------------------------------------------------- requests and decisions

  const ALLOWED := Name("allowed")

  const REASONS := {
    ALLOWED, Name("policy_denied"), Name("run_inactive"), Name("agent_version_denied"),
    Name("tool_denied"), Name("resource_denied"), Name("budget_exhausted"), Name("approval_required"),
    Name("revoked"), Name("decision_stale"), Name("dependency_unavailable"), Name("malformed_decision") }

  predicate ValidScope(s: Scope) {
    && Valid(s.tenant) && Valid(s.policyProfile) && Valid(s.policyVersion)
    && (forall i :: 0 <= i < |s.required| ==> Valid(s.required[i]))
    && (s.actor.text != "" ==> Valid(s.actor)) && s.deadline > 0
    && Normalized(s.resources) && Normalized(s.actions)
  }

  predicate ValidRequest(r: Request) {
    Valid(r.id) && ValidScope(r.scope)
  }

  predicate Complete(d: Decision) {
    && Valid(d.id) && Valid(d.contextDigest) && Valid(d.policyID) && Valid(d.evidence) && Valid(d.checkpoint)
    && d.issuedAt != ZERO_TIME && d.notBefore != ZERO_TIME && d.expiresAt != ZERO_TIME
    && d.issuedAt <= d.notBefore < d.expiresAt
  }

  predicate Consistent(d: Decision) {
    && !d.outcome.OtherOutcome? && d.reasons != []
    && (forall i :: 0 <= i < |d.reasons| ==> d.reasons[i] in REASONS)
    && (d.outcome.Allow? <==> ALLOWED in d.reasons)
  }

  /** ValidateFor succeeds. */
  predicate ValidFor(d: Decision, r: Request) {
    && ValidRequest(r) && Complete(d) && Consistent(d) && ValidConstraints(d.constraints)
    && d.requestID == r.id && d.policyVersion == r.scope.policyVersion
  }

  // ---------------------------------------------------------------- the checks in place

  method ValidateConstraints(c: Constraints) returns (ok: bool)
    ensures ok <==> ValidConstraints(c)
  {
    hide Normalized, Valid;
    var repositories := ValidSet(c.repositories);
    var resources := ValidSet(c.resources);
    var actions := ValidSet(c.actions);
    if !repositories || !resources || !actions || c.maxResultBytes < 0 || c.maxDuration < 0 {
      return false;
    }
    var pending := c.argumentMax.Keys;
    while pending != {}
      invariant pending <= c.argumentMax.Keys
      invariant forall k :: k in c.argumentMax && k !in pending ==> Valid(k) && 0 <= c.argumentMax[k]
    {
      var name :| name in pending;
      var valid := ValidAuthorizationText(name);
      if !valid || c.argumentMax[name] < 0 {
        return false;
      }
      pending := pending - {name};
    }
    return true;
  }

  method ValidateRequest(r: Request) returns (ok: bool)
    ensures ok <==> ValidRequest(r)
  {
    hide Normalized, Valid;
    var s := r.scope;
    var required := [r.id, s.tenant, s.policyProfile, s.policyVersion] + s.required;
    for i := 0 to |required|
      invariant forall j :: 0 <= j < i ==> Valid(required[j])
    {
      var valid := ValidAuthorizationText(required[i]);
      if !valid {
        assert i >= 4 ==> required[i] == s.required[i - 4];
        return false;
      }
    }
    assert Valid(required[0]) && Valid(required[1]) && Valid(required[2]) && Valid(required[3]);
    assert forall j :: 0 <= j < |s.required| ==> s.required[j] == required[j + 4];
    var actor := ValidAuthorizationText(s.actor);
    if (s.actor.text != "" && !actor) || s.deadline <= 0 {
      return false;
    }
    var resources := ValidSet(s.resources);
    var actions := ValidSet(s.actions);
    return resources && actions;
  }

  method KnownReason(reason: Name) returns (ok: bool)
    ensures ok <==> reason in REASONS
  {
    var r := reason.text;
    return r == "allowed" || r == "policy_denied" || r == "run_inactive" || r == "agent_version_denied"
      || r == "tool_denied" || r == "resource_denied" || r == "budget_exhausted" || r == "approval_required"
      || r == "revoked" || r == "decision_stale" || r == "dependency_unavailable" || r == "malformed_decision";
  }

  method ValidateDecision(d: Decision, r: Request) returns (ok: bool)
    ensures ok <==> ValidFor(d, r)
  {
    hide ValidRequest, ValidConstraints, Valid;
    var request := ValidateRequest(r);
    if !request {
      return false;
    }
    var id := ValidAuthorizationText(d.id);
    var digest := ValidAuthorizationText(d.contextDigest);
    var policy := ValidAuthorizationText(d.policyID);
    var evidence := ValidAuthorizationText(d.evidence);
    var checkpoint := ValidAuthorizationText(d.checkpoint);
    if !id || d.requestID != r.id || !digest || !policy || d.policyVersion != r.scope.policyVersion || !evidence
       || !checkpoint || d.issuedAt == ZERO_TIME || d.notBefore == ZERO_TIME || d.expiresAt == ZERO_TIME
       || d.notBefore < d.issuedAt || !(d.notBefore < d.expiresAt) {
      return false;
    }
    if (!d.outcome.Allow? && !d.outcome.Deny?) || |d.reasons| == 0 {
      return false;
    }
    var allowed := false;
    for i := 0 to |d.reasons|
      invariant forall j :: 0 <= j < i ==> d.reasons[j] in REASONS
      invariant allowed <==> exists j :: 0 <= j < i && d.reasons[j] == ALLOWED
    {
      var known := KnownReason(d.reasons[i]);
      if !known {
        return false;
      }
      allowed := allowed || d.reasons[i].text == "allowed";
    }
    assert allowed <==> ALLOWED in d.reasons;
    if (d.outcome.Allow? && !allowed) || (d.outcome.Deny? && allowed) {
      return false;
    }
    ok := ValidateConstraints(d.constraints);
  }
}
