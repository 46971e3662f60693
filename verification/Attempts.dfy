/** Fenced execution attempts of one invocation.

    Claim runs in a transaction that locks the invocation row; Finalize is one statement. Both
    are atomic steps here. Every caller passes its own `now`.
 */
module Attempts {
  import opened Text

  datatype Lease = Lease(owner: Name, claimedAt: Time, expiresAt: Time)

  datatype Outcome = NotSent | DefinitelyRejected | ConfirmedSuccess | TransientSafe | Unknown

  /** Absent evidence is recorded as an empty object. */
  function Recorded(e: JsonText): JsonText {
    if e.Absent? then JsonObject(Name("{}")) else e
  }

  datatype Result = Result(outcome: Outcome, ambiguity: Option<Name>, finishedAt: Time)

  /** A row of the attempts table; a finished attempt has given its lease up. */
  datatype Attempt = Attempt(
    fence: int, lease: Option<Lease>, startedAt: Time, evidence: JsonText, result: Option<Result>)

  /** The invocation's lifecycle state and its attempts, keyed by attempt number. */
  datatype Tables = Tables(ready: bool, attempts: map<nat, Attempt>)

  datatype ClaimRequest = ClaimRequest(owner: Name, now: Time, lease: Time, evidence: JsonText)

  predicate ValidClaim(q: ClaimRequest) {
    q.owner.text != "" && q.now != ZERO_TIME && 0 < q.lease <= 5 * MINUTE && !q.evidence.NotObject?
  }

  datatype Claim = Rejected | Ineligible | Busy(no: int) | Claimed(no: int, fence: int)

  // ---------------------------------------------------------------- the latest row

  ghost predicate IsLatest(attempts: map<nat, Attempt>, no: int) {
    no in attempts && forall m :: m in attempts ==> m <= no
  }

  predicate NoNewer(attempts: map<nat, Attempt>, no: int) {
    forall m :: m in attempts ==> m <= no
  }

  /** Unfinished and held past `now`. */
  predicate Live(a: Attempt, now: Time) {
    a.result.None? && a.lease.Some? && now < a.lease.value.expiresAt
  }

  /** What the fence check and the finalizing statement both ask of a row. */
  predicate Current(t: Tables, no: int, fence: int, owner: Name, now: Time) {
    && no in t.attempts && NoNewer(t.attempts, no)
    && var a := t.attempts[no];
    && a.fence == fence && Live(a, now) && a.lease.value.owner == owner
  }

  datatype Final = Final(
    no: int, fence: int, owner: Name, now: Time, outcome: Outcome, ambiguity: Option<Name>, evidence: JsonText)

  predicate ValidFinal(f: Final) {
    && f.no > 0 && f.fence > 0 && f.owner.text != "" && f.now != ZERO_TIME
    && !f.evidence.NotObject? && (f.outcome.Unknown? ==> f.ambiguity.Some?)
  }

  function Finished(a: Attempt, f: Final): Attempt {
    a.(lease := None, evidence := Recorded(f.evidence), result := Some(Result(f.outcome, f.ambiguity, f.now)))
  }

  /** The table also refuses to finish an attempt before it started. */
  function Finalize(t: Tables, f: Final): (Tables, bool) {
    if ValidFinal(f) && Current(t, f.no, f.fence, f.owner, f.now) && t.attempts[f.no].startedAt <= f.now then
      (t.(attempts := t.attempts[f.no := Finished(t.attempts[f.no], f)]), true)
    else (t, false)
  }

  function NewAttempt(fence: int, q: ClaimRequest): Attempt {
    Attempt(fence, Some(Lease(q.owner, q.now, q.now + q.lease)), q.now, Recorded(q.evidence), None)
  }

  /** Claim, given the number of the latest attempt (0 when there is none). */
  function ClaimAfter(t: Tables, q: ClaimRequest, latest: int): (Tables, Claim)
    requires latest == 0 || latest in t.attempts
  {
    if !ValidClaim(q) then (t, Rejected)
    else if !t.ready then (t, Ineligible)
    else if latest == 0 then (t.(attempts := t.attempts[1 := NewAttempt(1, q)]), Claimed(1, 1))
    else if Live(t.attempts[latest], q.now) then (t, Busy(latest))
    else
      var fence := t.attempts[latest].fence + 1;
      (t.(attempts := t.attempts[latest + 1 := NewAttempt(fence, q)]), Claimed(latest + 1, fence))
  }

  // ---------------------------------------------------------------- the table in place

  class AttemptClaimer {
    var ready: bool
    var attempts: map<nat, Attempt>

    function View(): Tables
      reads this
    {
      Tables(ready, attempts)
    }

    /** ORDER BY attempt_no DESC LIMIT 1. */
    method Latest() returns (no: int)
      ensures attempts == map[] ==> no == 0
      ensures attempts != map[] ==> IsLatest(attempts, no)
    {
      if attempts.Keys == {} {
        return 0;
      }
      no :| no in attempts.Keys;
      var pending := attempts.Keys - {no};
      while pending != {}
        invariant pending <= attempts.Keys && no in attempts
        invariant forall m :: m in attempts && m !in pending ==> m <= no
      {
        var m :| m in pending;
        if no < m {
          no := m;
        }
        pending := pending - {m};
      }
    }

    method TryClaim(q: ClaimRequest) returns (r: Claim)
      requires Numbered(View())
      modifies this
      ensures Numbered(View())
      ensures (View(), r) == ClaimAfter(old(View()), q, |old(attempts)|)
    {
      LatestIsCount(View());
      ClaimKeepsNumbered(View(), q);
      hide Numbered;
      if q.owner.text == "" || q.now == ZERO_TIME || q.lease <= 0 || q.lease > 300_000_000_000 || q.evidence.NotObject? {
        return Rejected;
      }
      if !ready {
        return Ineligible;
      }
      var latest := Latest();
      assert latest == |attempts|;
      hide IsLatest;
      if latest != 0 && attempts[latest].result.None? && attempts[latest].lease.Some?
         && q.now < attempts[latest].lease.value.expiresAt {
        return Busy(latest);
      }
      var no, fence := 1, 1;
      if latest != 0 {
        no, fence := latest + 1, attempts[latest].fence + 1;
      }
      var evidence := q.evidence;
      if evidence.Absent? {
        evidence := JsonObject(Name("{}"));
      }
      attempts := attempts[no := Attempt(fence, Some(Lease(q.owner, q.now, q.now + q.lease)), q.now, evidence, None)];
      return Claimed(no, fence);
    }

    /** The answer is an error on invalid fields. A yes names the one row that counts: the latest
        attempt, under its own fence, unfinished and leased to this owner past `now`; and it is
        exactly on a yes that the same worker could finalize at that instant. */
    method IsCurrent(no: int, fence: int, owner: Name, now: Time) returns (current: Option<bool>)
      ensures current.None? <==> no <= 0 || fence <= 0 || owner.text == "" || now == ZERO_TIME
      ensures Numbered(View()) && current == Some(true) ==>
                && no == fence == |attempts| && no in attempts
                && attempts[no].lease.Some? && attempts[no].lease.value.owner == owner
                && now < attempts[no].lease.value.expiresAt
      ensures current.Some? && no in attempts && attempts[no].startedAt <= now ==>
                (current.value <==>
                   Finalize(View(), Final(no, fence, owner, now, ConfirmedSuccess, None, Absent)).1)
      ensures current.Some? ==> current.value == Current(View(), no, fence, owner, now)
    {
      if no <= 0 || fence <= 0 || owner.text == "" || now == ZERO_TIME {
        return None;
      }
      if no !in attempts {
        return Some(false);
      }
      var a := attempts[no];
      if a.fence != fence || a.result.Some? || a.lease.None? || a.lease.value.owner != owner
         || !(now < a.lease.value.expiresAt) {
        return Some(false);
      }
      var pending := attempts.Keys;
      while pending != {}
        invariant pending <= attempts.Keys
        invariant forall m :: m in attempts && m !in pending ==> m <= no
      {
        var newer :| newer in pending;
        if newer > no {
          return Some(false);
        }
        pending := pending - {newer};
      }
      if Numbered(View()) {
        LatestIsCount(View());
        assert IsLatest(attempts, no);
      }
      return Some(true);
    }

    method TryFinalize(f: Final) returns (ok: bool)
      requires Numbered(View())
      modifies this
      ensures Numbered(View())
      ensures (View(), ok) == Finalize(old(View()), f)
    {
      FinalizeKeepsNumbered(View(), f);
      if f.evidence.NotObject? || (f.outcome.Unknown? && f.ambiguity.None?) {
        return false;
      }
      var current := IsCurrent(f.no, f.fence, f.owner, f.now);
      if current != Some(true) || f.now < attempts[f.no].startedAt {
        return false;
      }
      var a := attempts[f.no];
      var evidence := f.evidence;
      if evidence.Absent? {
        evidence := JsonObject(Name("{}"));
      }
      attempts := attempts[f.no := Attempt(a.fence, None, a.startedAt, evidence,
                                           Some(Result(f.outcome, f.ambiguity, f.now)))];
      return true;
    }
  }

  // ---------------------------------------------------------------- numbering

  /** Attempts are numbered 1..n, each with its number as fence, its lease given up exactly
      when it is finished. */
  ghost predicate Numbered(t: Tables) {
    && (forall m :: m in t.attempts <==> 1 <= m <= |t.attempts|)
    && (forall m :: m in t.attempts ==> t.attempts[m].fence == m)
    && (forall m :: m in t.attempts ==> (t.attempts[m].lease.None? <==> t.attempts[m].result.Some?))
  }

  lemma LatestIsCount(t: Tables)
    requires Numbered(t)
    ensures t.attempts != map[] ==> IsLatest(t.attempts, |t.attempts|)
    ensures forall no :: IsLatest(t.attempts, no) ==> no == |t.attempts|
  {
    if t.attempts != map[] {
      assert |t.attempts| > 0;
    }
  }

  lemma ClaimKeepsNumbered(t: Tables, q: ClaimRequest)
    requires Numbered(t)
    ensures Numbered(ClaimAfter(t, q, |t.attempts|).0)
  {
    var n := |t.attempts|;
    assert n + 1 !in t.attempts;
  }

  lemma FinalizeKeepsNumbered(t: Tables, f: Final)
    requires Numbered(t)
    ensures Numbered(Finalize(t, f).0)
  {
    var t' := Finalize(t, f).0;
    assert t'.attempts.Keys == t.attempts.Keys;
    assert |t'.attempts| == |t.attempts|;
  }

  // ---------------------------------------------------------------- what is answered and stored

  /** A claim is rejected on invalid fields, ineligible unless the invocation is ready, busy exactly
      while the latest attempt is unfinished and leased past its clock, and granted otherwise. */
  lemma ClaimAnswers(t: Tables, q: ClaimRequest)
    requires Numbered(t)
    ensures var n := |t.attempts|;
            var r := ClaimAfter(t, q, n).1;
            && (r.Rejected? <==> q.owner.text == "" || q.now == 0 || q.lease <= 0 || q.lease > 300_000_000_000
                                 || q.evidence.NotObject?)
            && (r.Ineligible? <==> !r.Rejected? && !t.ready)
            && (r.Busy? <==> !r.Rejected? && t.ready && n > 0 && t.attempts[n].lease.Some?
                             && q.now < t.attempts[n].lease.value.expiresAt)
            && (r.Busy? ==> r.no == n)
            && (r.Claimed? ==> r.no == r.fence == n + 1)
            && (!r.Claimed? ==> ClaimAfter(t, q, n).0 == t)
  {
  }

  /** A granted claim stores what was asked for, and nothing else changes. */
  lemma ClaimStores(t: Tables, q: ClaimRequest)
    requires Numbered(t) && ClaimAfter(t, q, |t.attempts|).1.Claimed?
    ensures var t' := ClaimAfter(t, q, |t.attempts|).0;
            var no := |t.attempts| + 1;
            && t'.ready == t.ready && t'.attempts.Keys == t.attempts.Keys + {no}
            && (forall m :: m in t.attempts ==> t'.attempts[m] == t.attempts[m])
            && var a := t'.attempts[no];
            && a.fence == no && a.startedAt == q.now && a.result.None?
            && a.lease.Some? && a.lease.value.owner == q.owner
            && a.lease.value.claimedAt == q.now && a.lease.value.expiresAt == q.now + q.lease
            && a.evidence == if q.evidence.Absent? then JsonObject(Name("{}")) else q.evidence
  {
  }

  /** A finalization that succeeds writes the outcome it was given on its own attempt, gives the
      lease up, and changes nothing else; one that fails changes nothing. */
  lemma FinalizeWrites(t: Tables, f: Final)
    ensures var (t', ok) := Finalize(t, f);
            && (!ok ==> t' == t)
            && (ok ==>
                  && f.no in t.attempts && t'.ready == t.ready && t'.attempts.Keys == t.attempts.Keys
                  && (forall m :: m in t.attempts && m != f.no ==> t'.attempts[m] == t.attempts[m])
                  && var a := t'.attempts[f.no];
                  && a.result == Some(Result(f.outcome, f.ambiguity, f.now)) && a.lease.None?
                  && a.fence == t.attempts[f.no].fence && a.startedAt == t.attempts[f.no].startedAt <= f.now
                  && (f.outcome.Unknown? ==> f.ambiguity.Some?) && !f.evidence.NotObject?
                  && a.evidence == if f.evidence.Absent? then JsonObject(Name("{}")) else f.evidence)
  {
  }

  // ---------------------------------------------------------------- runs

  datatype Step =
    | Claiming(request: ClaimRequest)
    | Finalizing(final: Final)
    | StateChanged(ready: bool)

  function ClaimNow(t: Tables, q: ClaimRequest): (Tables, Claim)
    requires Numbered(t)
  {
    ClaimAfter(t, q, |t.attempts|)
  }

  ghost function Next(t: Tables, step: Step): (t': Tables)
    requires Numbered(t)
    ensures Numbered(t')
  {
    match step
    case Claiming(q) => ClaimKeepsNumbered(t, q); ClaimNow(t, q).0
    case Finalizing(f) => FinalizeKeepsNumbered(t, f); Finalize(t, f).0
    case StateChanged(ready) => t.(ready := ready)
  }

  ghost function Run(steps: seq<Step>): (t: Tables)
    ensures Numbered(t)
  {
    if steps == [] then Tables(false, map[]) else Next(Run(steps[..|steps| - 1]), steps[|steps| - 1])
  }

  /** Attempts are never lost or renumbered; an attempt that is finished, or that has a
      successor, never changes again. */
  ghost predicate Extends(t: Tables, t': Tables) {
    && |t.attempts| <= |t'.attempts|
    && forall m :: m in t.attempts ==>
         && m in t'.attempts
         && (t.attempts[m].result.Some? || m < |t.attempts| ==> t'.attempts[m] == t.attempts[m])
  }

  lemma StepExtends(t: Tables, step: Step)
    requires Numbered(t)
    ensures Extends(t, Next(t, step))
  {
    hide ValidClaim, ValidFinal;
    if step.Finalizing? {
      assert Next(t, step).attempts.Keys == t.attempts.Keys;
      assert |Next(t, step).attempts| == |t.attempts|;
      assert t.attempts != map[] ==> |t.attempts| in t.attempts;
    }
  }

  /** Under arbitrary clocks: once a newer attempt exists the older one is frozen, and a
      finished one is finished for good with the same result. */
  lemma {:induction false} OlderAttemptsAreFrozen(steps: seq<Step>, more: seq<Step>)
    ensures Extends(Run(steps), Run(steps + more))
    decreases |more|
  {
    if more == [] {
      assert steps + more == steps;
    } else {
      var n := |more| - 1;
      assert (steps + more)[..|steps + more| - 1] == steps + more[..n];
      OlderAttemptsAreFrozen(steps, more[..n]);
      StepExtends(Run(steps + more[..n]), more[n]);
    }
  }

  /** What a finalization wrote stands for the rest of the run. */
  lemma OutcomeStands(steps: seq<Step>, more: seq<Step>, f: Final)
    requires Finalize(Run(steps), f).1
    ensures var t := Run(steps + [Finalizing(f)] + more);
            && f.no in t.attempts && t.attempts[f.no].result == Some(Result(f.outcome, f.ambiguity, f.now))
            && t.attempts[f.no].evidence == if f.evidence.Absent? then JsonObject(Name("{}")) else f.evidence
  {
    var first := steps + [Finalizing(f)];
    assert first[..|first| - 1] == steps;
    FinalizeWrites(Run(steps), f);
    OlderAttemptsAreFrozen(first, more);
    hide ValidFinal, Finalize, Run;
  }

  /** Finalizing succeeds at most once per attempt, and never after a successor exists. */
  lemma FinalizedOnce(steps: seq<Step>, more: seq<Step>, f: Final, g: Final)
    requires Finalize(Run(steps), f).1 && g.no == f.no
    ensures !Finalize(Run(steps + [Finalizing(f)] + more), g).1
  {
    hide ValidFinal;
    var first := steps + [Finalizing(f)];
    assert first[..|first| - 1] == steps;
    OlderAttemptsAreFrozen(first, more);
  }

  /** An attempt with a successor is never current again, whoever asks and whenever. */
  lemma OvertakenIsNeverCurrent(steps: seq<Step>, more: seq<Step>, no: int, fence: int, owner: Name, now: Time)
    requires no in Run(steps).attempts && no < |Run(steps).attempts|
    ensures !Current(Run(steps + more), no, fence, owner, now)
  {
    OlderAttemptsAreFrozen(steps, more);
    var t := Run(steps + more);
    assert |t.attempts| in t.attempts;
  }

  /** At any instant at most one attempt is current. */
  lemma OneIsCurrent(steps: seq<Step>, now: Time, a: int, fa: int, oa: Name, b: int, fb: int, ob: Name)
    requires Current(Run(steps), a, fa, oa, now) && Current(Run(steps), b, fb, ob, now)
    ensures a == b == |Run(steps).attempts| && fa == fb == a && oa == ob
  {
    assert a <= b && b <= a;
    assert |Run(steps).attempts| in Run(steps).attempts;
  }

  // ---------------------------------------------------------------- leases and clocks

  /** Claims come with non-decreasing clocks. */
  ghost predicate ClaimClocksAscend(steps: seq<Step>) {
    forall i, j :: 0 <= i < j < |steps| && steps[i].Claiming? && steps[j].Claiming? ==>
      steps[i].request.now <= steps[j].request.now
  }

  /** Unfinished attempts hold leases over disjoint stretches of time, in order. */
  ghost predicate LeasesInOrder(t: Tables) {
    forall i, j :: i in t.attempts && j in t.attempts && i < j
                   && t.attempts[i].lease.Some? && t.attempts[j].lease.Some? ==>
      t.attempts[i].lease.value.expiresAt <= t.attempts[j].lease.value.claimedAt
  }

  /** Every unfinished attempt that has a successor had expired by the latest claim. */
  ghost predicate OldLeasesOver(t: Tables, latest: Time) {
    forall i :: i in t.attempts && i < |t.attempts| && t.attempts[i].lease.Some? ==>
      t.attempts[i].lease.value.expiresAt <= latest
  }

  /** `latest` is the clock of the latest claim, if there was one. */
  ghost predicate TimeOk(t: Tables, latest: Option<Time>) {
    if latest.None? then t.attempts == map[] else LeasesInOrder(t) && OldLeasesOver(t, latest.value)
  }

  /** A claim that is granted keeps the leases in attempt order exactly when its clock is past
      every lease still unfinished. */
  lemma ClaimKeepsOrderIff(t: Tables, q: ClaimRequest)
    requires Numbered(t) && LeasesInOrder(t) && ClaimNow(t, q).1.Claimed?
    ensures LeasesInOrder(ClaimNow(t, q).0) <==>
            forall i :: i in t.attempts && t.attempts[i].lease.Some? ==> t.attempts[i].lease.value.expiresAt <= q.now
  {
    hide ValidClaim;
    var t' := ClaimNow(t, q).0;
    var n := |t.attempts|;
    assert n + 1 !in t.attempts;
    assert forall i :: i in t.attempts ==> i < n + 1 && t'.attempts[i] == t.attempts[i];
    assert t'.attempts[n + 1] == NewAttempt(n + 1, q);
  }

  lemma ClaimKeepsTime(t: Tables, q: ClaimRequest, latest: Option<Time>)
    requires Numbered(t) && TimeOk(t, latest) && (latest.Some? ==> latest.value <= q.now)
    ensures TimeOk(ClaimNow(t, q).0, Some(q.now))
  {
    hide ValidClaim;
    var (t', r) := ClaimNow(t, q);
    if r.Claimed? {
      assert forall i :: i in t.attempts && t.attempts[i].lease.Some? ==> t.attempts[i].lease.value.expiresAt <= q.now;
      assert OldLeasesOver(t', q.now) by {
        assert |t.attempts| + 1 !in t.attempts;
        hide LeasesInOrder;
      }
      hide ClaimAfter, OldLeasesOver;
      ClaimKeepsOrderIff(t, q);
    }
  }

  lemma FinalizeKeepsTime(t: Tables, f: Final, latest: Option<Time>)
    requires Numbered(t) && TimeOk(t, latest)
    ensures TimeOk(Finalize(t, f).0, latest)
  {
    hide ValidFinal;
    var t' := Finalize(t, f).0;
    assert t'.attempts.Keys == t.attempts.Keys;
    assert |t'.attempts| == |t.attempts|;
  }

  function LatestClock(steps: seq<Step>): Option<Time> {
    if steps == [] then None
    else if steps[|steps| - 1].Claiming? then Some(steps[|steps| - 1].request.now)
    else LatestClock(steps[..|steps| - 1])
  }

  lemma {:induction false} LatestClockBound(steps: seq<Step>, now: Time)
    requires forall i :: 0 <= i < |steps| && steps[i].Claiming? ==> steps[i].request.now <= now
    ensures LatestClock(steps).Some? ==> LatestClock(steps).value <= now
  {
    if steps != [] && !steps[|steps| - 1].Claiming? {
      LatestClockBound(steps[..|steps| - 1], now);
    }
  }

  lemma {:induction false} RunKeepsTime(steps: seq<Step>)
    requires ClaimClocksAscend(steps)
    ensures TimeOk(Run(steps), LatestClock(steps))
  {
    if steps != [] {
      var n := |steps| - 1;
      var before, last := steps[..n], steps[n];
      RunKeepsTime(before);
      match last
      case Claiming(q) =>
        LatestClockBound(before, q.now);
        ClaimKeepsTime(Run(before), q, LatestClock(before));
      case Finalizing(f) => FinalizeKeepsTime(Run(before), f, LatestClock(before));
      case StateChanged(_) =>
    }
  }

  /** `now` lies within the lease of an unfinished attempt. */
  ghost predicate HeldAt(t: Tables, no: int, now: Time) {
    no in t.attempts && t.attempts[no].lease.Some? &&
    t.attempts[no].lease.value.claimedAt <= now < t.attempts[no].lease.value.expiresAt
  }

  /** With claim clocks that never go back, no instant is covered by the leases of two
      unfinished attempts. */
  lemma NoTwoLiveLeases(steps: seq<Step>, now: Time, i: int, j: int)
    requires ClaimClocksAscend(steps)
    requires HeldAt(Run(steps), i, now) && HeldAt(Run(steps), j, now)
    ensures i == j
  {
    RunKeepsTime(steps);
  }

  // ---------------------------------------------------------------- exactly when leases overlap

  /** No instant lies within the leases of two unfinished attempts. */
  ghost predicate NoOverlap(t: Tables) {
    forall i, j, now :: HeldAt(t, i, now) && HeldAt(t, j, now) ==> i == j
  }

  ghost predicate LeasesProper(t: Tables) {
    forall i :: i in t.attempts && t.attempts[i].lease.Some? ==>
      t.attempts[i].lease.value.claimedAt < t.attempts[i].lease.value.expiresAt
  }

  /** The lease asked for lies wholly after or wholly before every unfinished one. */
  ghost predicate ClearOf(t: Tables, q: ClaimRequest) {
    forall i :: i in t.attempts && t.attempts[i].lease.Some? ==>
      t.attempts[i].lease.value.expiresAt <= q.now || q.now + q.lease <= t.attempts[i].lease.value.claimedAt
  }

  /** A granted claim keeps leases from overlapping if and only if the lease it asks for is clear of
      every unfinished one; the code looks at the latest attempt only. */
  lemma ClaimKeepsNoOverlapIff(t: Tables, q: ClaimRequest)
    requires Numbered(t) && LeasesProper(t) && NoOverlap(t) && ClaimNow(t, q).1.Claimed?
    ensures NoOverlap(ClaimNow(t, q).0) <==> ClearOf(t, q)
  {
    var t' := ClaimNow(t, q).0;
    var n := |t.attempts|;
    assert n + 1 !in t.attempts;
    assert t'.attempts[n + 1] == NewAttempt(n + 1, q);
    assert forall i :: i in t.attempts ==> t'.attempts[i] == t.attempts[i];
    if ClearOf(t, q) {
      forall i, j, now | HeldAt(t', i, now) && HeldAt(t', j, now) ensures i == j {
        assert i != n + 1 && j != n + 1 ==> HeldAt(t, i, now) && HeldAt(t, j, now);
      }
    } else {
      var i :| i in t.attempts && t.attempts[i].lease.Some?
        && !(t.attempts[i].lease.value.expiresAt <= q.now || q.now + q.lease <= t.attempts[i].lease.value.claimedAt);
      var start := t.attempts[i].lease.value.claimedAt;
      var both := if start < q.now then q.now else start;
      assert HeldAt(t', i, both) && HeldAt(t', n + 1, both);
    }
  }

  lemma NextKeepsProper(t: Tables, step: Step)
    requires Numbered(t) && LeasesProper(t)
    ensures LeasesProper(Next(t, step))
    ensures !step.Claiming? && NoOverlap(t) ==> NoOverlap(Next(t, step))
  {
    hide ValidFinal;
    if !step.Claiming? && NoOverlap(t) {
      var t' := Next(t, step);
      forall i, j, now | HeldAt(t', i, now) && HeldAt(t', j, now) ensures i == j {
        assert HeldAt(t, i, now) && HeldAt(t, j, now);
      }
    }
  }

  lemma {:induction false} RunKeepsProper(steps: seq<Step>)
    ensures LeasesProper(Run(steps))
  {
    if steps != [] {
      RunKeepsProper(steps[..|steps| - 1]);
      NextKeepsProper(Run(steps[..|steps| - 1]), steps[|steps| - 1]);
    }
  }

  ghost predicate Granted(steps: seq<Step>, k: nat) {
    k < |steps| && steps[k].Claiming? && ClaimNow(Run(steps[..k]), steps[k].request).1.Claimed?
  }

  ghost predicate ClearAt(steps: seq<Step>, k: nat) {
    Granted(steps, k) ==> ClearOf(Run(steps[..k]), steps[k].request)
  }

  ghost predicate GrantsAreClear(steps: seq<Step>) {
    forall k: nat :: ClearAt(steps, k)
  }

  ghost predicate FreeAt(steps: seq<Step>, n: nat) {
    n <= |steps| ==> NoOverlap(Run(steps[..n]))
  }

  ghost predicate NeverOverlaps(steps: seq<Step>) {
    forall n: nat :: FreeAt(steps, n)
  }

  lemma StepOverlapsIff(t: Tables, step: Step)
    requires Numbered(t) && LeasesProper(t) && NoOverlap(t)
    ensures NoOverlap(Next(t, step)) <==>
            (step.Claiming? && ClaimNow(t, step.request).1.Claimed? ==> ClearOf(t, step.request))
  {
    hide NoOverlap, ClearOf, LeasesProper, ValidClaim;
    NextKeepsProper(t, step);
    if step.Claiming? && ClaimNow(t, step.request).1.Claimed? {
      ClaimKeepsNoOverlapIff(t, step.request);
    }
  }

  lemma FrontOverlaps(steps: seq<Step>)
    requires steps != []
    ensures NeverOverlaps(steps) <==> NeverOverlaps(steps[..|steps| - 1]) && NoOverlap(Run(steps))
    ensures NeverOverlaps(steps[..|steps| - 1]) ==> NoOverlap(Run(steps[..|steps| - 1]))
  {
    hide NoOverlap, Run;
    var last := |steps| - 1;
    var front := steps[..last];
    assert steps[..last + 1] == steps && front[..last] == front;
    forall n: nat | n <= last ensures FreeAt(steps, n) <==> FreeAt(front, n) {
      assert front[..n] == steps[..n];
    }
    assert FreeAt(steps, last + 1) <==> NoOverlap(Run(steps));
    assert FreeAt(front, last) <==> NoOverlap(Run(front));
    forall n: nat | n > last ensures FreeAt(front, n) && (n > last + 1 ==> FreeAt(steps, n)) {
    }
  }

  lemma FrontIsClear(steps: seq<Step>)
    requires steps != []
    ensures GrantsAreClear(steps) <==> GrantsAreClear(steps[..|steps| - 1]) && ClearAt(steps, |steps| - 1)
  {
    hide ClearOf, Run, ClaimNow;
    var last := |steps| - 1;
    var front := steps[..last];
    forall k: nat | k < last ensures ClearAt(steps, k) <==> ClearAt(front, k) {
      assert front[..k] == steps[..k];
    }
    forall k: nat | k >= last ensures ClearAt(front, k) && (k > last ==> ClearAt(steps, k)) {
    }
  }

  /** Under arbitrary clocks, leases never overlap at any point of a run if and only if every claim
      it granted was clear of the leases unfinished at that point. */
  lemma {:induction false} NeverOverlapsIff(steps: seq<Step>)
    ensures NeverOverlaps(steps) <==> GrantsAreClear(steps)
  {
    hide NoOverlap, ClearOf, Next, ClaimNow, NeverOverlaps, GrantsAreClear;
    if steps == [] {
      NothingOverlaps();
    } else {
      var last := |steps| - 1;
      var front := steps[..last];
      NeverOverlapsIff(front);
      RunKeepsProper(front);
      FrontOverlaps(steps);
      FrontIsClear(steps);
      if NoOverlap(Run(front)) {
        StepOverlapsIff(Run(front), steps[last]);
      }
    }
  }

  lemma NothingOverlaps()
    ensures NeverOverlaps([]) && GrantsAreClear([])
  {
    var none: seq<Step> := [];
    assert none[..0] == none && Run(none).attempts == map[];
    assert forall n: nat :: FreeAt(none, n);
  }

  lemma RunOne(steps: seq<Step>, step: Step)
    ensures Run(steps + [step]) == Next(Run(steps), step)
  {
    assert (steps + [step])[..|steps|] == steps;
  }

  /** A clock that runs back does break it: the first attempt is overtaken unfinished, the second
      finishes, and a third is claimed inside the first one's lease. */
  lemma ClockRunningBack(owner: Name)
    requires owner.text != ""
    ensures var steps := [StateChanged(true), Claiming(ClaimRequest(owner, 100, 10, Absent)),
                          Claiming(ClaimRequest(owner, 200, 10, Absent)),
                          Finalizing(Final(2, 2, owner, 201, ConfirmedSuccess, None, Absent)),
                          Claiming(ClaimRequest(owner, 105, 10, Absent))];
            HeldAt(Run(steps), 1, 105) && HeldAt(Run(steps), 3, 105)
  {
    hide Run, Next, Numbered;
    var b := ClaimRequest(owner, 100, 10, Absent);
    var c, e := b.(now := 200), b.(now := 105);
    var d := Final(2, 2, owner, 201, ConfirmedSuccess, None, Absent);
    var s1 := [] + [StateChanged(true)];
    var s2 := s1 + [Claiming(b)];
    var s3 := s2 + [Claiming(c)];
    var s4 := s3 + [Finalizing(d)];
    RunOne([], StateChanged(true));
    RunOne(s1, Claiming(b));
    RunOne(s2, Claiming(c));
    RunOne(s3, Finalizing(d));
    RunOne(s4, Claiming(e));
    ReadyAtFirst();
    TwoClaims(Run(s1), b, c, d, e);
    assert s4 + [Claiming(e)] == [StateChanged(true), Claiming(b), Claiming(c), Finalizing(d), Claiming(e)];
  }

  lemma ReadyAtFirst()
    ensures Next(Run([]), StateChanged(true)) == Tables(true, map[])
  {
  }

  lemma TwoClaims(t: Tables, b: ClaimRequest, c: ClaimRequest, d: Final, e: ClaimRequest)
    requires t == Tables(true, map[]) && b.owner.text != ""
    requires b == ClaimRequest(b.owner, 100, 10, Absent) && c == b.(now := 200) && e == b.(now := 105)
    requires d == Final(2, 2, b.owner, 201, ConfirmedSuccess, None, Absent)
    ensures var t4 := Next(Next(Next(t, Claiming(b)), Claiming(c)), Finalizing(d));
            && t4 == Tables(true, map[1 := NewAttempt(1, b), 2 := Finished(NewAttempt(2, c), d)])
            && Next(t4, Claiming(e)).attempts == t4.attempts[3 := NewAttempt(3, e)]
  {
    var t2 := Next(t, Claiming(b));
    assert t2 == Tables(true, map[1 := NewAttempt(1, b)]);
    assert |t2.attempts| == 1;
    var t3 := Next(t2, Claiming(c));
    assert t3 == Tables(true, map[1 := NewAttempt(1, b), 2 := NewAttempt(2, c)]);
    assert |t3.attempts| == 2;
    var t4 := Next(t3, Finalizing(d));
    assert |t4.attempts| == 2;
  }
}
