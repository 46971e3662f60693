/** Concurrent calls of the fresh authorizer, split where other calls can run in between.

    The live authorizer is arbitrary. Revocation epochs only move forward; their checkpoints
    may change at any time.
 */
module FreshnessRuns {
  import opened Text
  import opened Bags
  import opened Authorization
  import opened Freshness

  type Profile = (Name, Name)

  /** What the live authorizer answered to a call that had read its clock at `at`. */
  datatype Ruling = Ruling(request: Request, decision: Decision, at: Time)

  datatype Phase =
    | Starting                         // clock read
    | Checking(current: Revocation)    // revocation state read, cache not yet consulted
    | Asking                           // waiting for the live authorizer
    | Confirming(decision: Decision)   // fresh answer, revocation state to be read again
    | Storing(decision: Decision, current: Revocation)

  /** `floor` is the revocation epoch visible when the call started. */
  datatype Call = Call(request: Request, now: Time, floor: nat, phase: Phase)

  /** `current` is the revocation state the call read last; without any configured it is NEVER. */
  datatype Answer = Answer(
    request: Request, now: Time, floor: nat, decision: Decision, current: Revocation, hit: bool)

  const NEVER := Revocation(0, Name(""))

  datatype System = System(
    config: Config, entries: Entries, visible: map<Profile, Revocation>,
    calls: map<nat, Call>, rulings: set<Ruling>, answers: seq<Answer>)

  datatype Step =
    | Begin(call: nat, request: Request, now: Time)
    | ReadState(call: nat)
    | LookUp(call: nat)
    | Ruled(call: nat, decision: Decision)
    | Confirm(call: nat)
    | Finish(call: nat)
    | Abandon(call: nat)               // any error: nothing is answered
    | Revoke(profile: Profile, revocation: Revocation)

  function ProfileOf(r: Request): Profile {
    (r.scope.tenant, r.scope.policyProfile)
  }

  function Visible(visible: map<Profile, Revocation>, p: Profile): Revocation {
    if p in visible then visible[p] else NEVER
  }

  function At(s: System, c: nat, phase: Phase): System
    requires c in s.calls
  {
    s.(calls := s.calls[c := s.calls[c].(phase := phase)])
  }

  function End(s: System, c: nat): System {
    s.(calls := Without(s.calls, c))
  }

  /** The call returns `d` and is over. */
  function Return(s: System, c: nat, d: Decision, current: Revocation, hit: bool): System
    requires c in s.calls
  {
    var call := s.calls[c];
    End(s, c).(answers := s.answers + [Answer(call.request, call.now, call.floor, d, current, hit)])
  }

  function DoBegin(s: System, c: nat, r: Request, now: Time): System {
    if c in s.calls || !ValidRequest(r) then s
    else
      var phase := if s.config.maxEntries > 0 then Starting else Asking;
      s.(calls := s.calls[c := Call(r, now, Visible(s.visible, ProfileOf(r)).epoch, phase)])
  }

  function DoLookUp(s: System, c: nat): System
    requires c in s.calls && s.calls[c].phase.Checking?
  {
    var call := s.calls[c];
    var (entries, found) := Cached(s.entries, call.request, call.now, call.phase.current);
    var t := s.(entries := entries);
    if found.Some? then Return(t, c, found.value, call.phase.current, true) else At(t, c, Asking)
  }

  function DoRule(s: System, c: nat, d: Decision): System
    requires c in s.calls
  {
    var call := s.calls[c];
    var t := s.(rulings := s.rulings + {Ruling(call.request, d, call.now)});
    if !Fresh(d, call.request, call.now) then End(t, c)
    else At(t, c, if s.config.revocations then Confirming(d) else Storing(d, NEVER))
  }

  function DoConfirm(s: System, c: nat): System
    requires c in s.calls && s.calls[c].phase.Confirming?
  {
    var call := s.calls[c];
    var current := Visible(s.visible, ProfileOf(call.request));
    if Matches(call.phase.decision, current) then At(s, c, Storing(call.phase.decision, current)) else End(s, c)
  }

  function DoFinish(s: System, c: nat): System
    requires c in s.calls && s.calls[c].phase.Storing?
  {
    var call := s.calls[c];
    var d := call.phase.decision;
    Return(s.(entries := Stored(s.config, s.entries, call.request.scope, d, call.now)), c, d, call.phase.current, false)
  }

  predicate Enabled(s: System, step: Step) {
    match step
    case Begin(c, _, _) => c !in s.calls
    case ReadState(c) => c in s.calls && s.calls[c].phase.Starting?
    case LookUp(c) => c in s.calls && s.calls[c].phase.Checking?
    case Ruled(c, _) => c in s.calls && s.calls[c].phase.Asking?
    case Confirm(c) => c in s.calls && s.calls[c].phase.Confirming?
    case Finish(c) => c in s.calls && s.calls[c].phase.Storing?
    case Abandon(c) => c in s.calls
    case Revoke(p, revocation) => Visible(s.visible, p).epoch <= revocation.epoch
  }

  function Next(s: System, step: Step): System {
    if !Enabled(s, step) then s
    else
      match step
      case Begin(c, r, now) => DoBegin(s, c, r, now)
      case ReadState(c) => At(s, c, Checking(Visible(s.visible, ProfileOf(s.calls[c].request))))
      case LookUp(c) => DoLookUp(s, c)
      case Ruled(c, d) => DoRule(s, c, d)
      case Confirm(c) => DoConfirm(s, c)
      case Finish(c) => DoFinish(s, c)
      case Abandon(c) => End(s, c)
      case Revoke(p, revocation) => s.(visible := s.visible[p := revocation])
  }

  function Run(config: Config, steps: seq<Step>): System {
    if steps == [] then System(config, map[], map[], map[], {}, [])
    else Next(Run(config, steps[..|steps| - 1]), steps[|steps| - 1])
  }

  // ---------------------------------------------------------------- invariants

  /** The entry holds what the live authorizer ruled for this scope, for no longer than the
      time to live of its outcome and the decision's own expiry. */
  predicate Holds(c: Config, rule: Ruling, key: Scope, e: Entry) {
    && rule.request.scope == key && rule.decision == e.decision
    && e.until <= rule.at + Ttl(c, e.decision) && e.until <= e.decision.expiresAt
  }

  predicate Backed(c: Config, rulings: set<Ruling>, key: Scope, e: Entry) {
    exists rule :: rule in rulings && Holds(c, rule, key, e)
  }

  ghost predicate EntriesOk(c: Config, entries: Entries, rulings: set<Ruling>) {
    && |entries| <= c.maxEntries
    && forall k :: k in entries ==> Backed(c, rulings, k, entries[k])
  }

  ghost predicate CallOk(c: Config, call: Call, visible: map<Profile, Revocation>, rulings: set<Ruling>) {
    && call.floor <= Visible(visible, ProfileOf(call.request)).epoch
    && (call.phase.Checking? ==> call.floor <= call.phase.current.epoch)
    && (call.phase.Confirming? || call.phase.Storing? ==>
          && Fresh(call.phase.decision, call.request, call.now)
          && Ruling(call.request, call.phase.decision, call.now) in rulings)
    && (call.phase.Storing? && c.revocations ==>
          call.floor <= call.phase.current.epoch && Matches(call.phase.decision, call.phase.current))
  }

  ghost predicate CallsOk(c: Config, calls: map<nat, Call>, visible: map<Profile, Revocation>, rulings: set<Ruling>) {
    forall k :: k in calls ==> CallOk(c, calls[k], visible, rulings)
  }

  /** The live authorizer ruled this for the same request up to its ID, early enough. */
  predicate Explains(c: Config, rule: Ruling, a: Answer) {
    && rule.request.scope == a.request.scope
    && a.decision == rule.decision.(requestID := a.request.id)
    && (if a.hit then a.now < rule.at + Ttl(c, rule.decision) else rule == Ruling(a.request, a.decision, a.now))
  }

  predicate Explained(c: Config, rulings: set<Ruling>, a: Answer) {
    exists rule :: rule in rulings && Explains(c, rule, a)
  }

  ghost predicate AnswerOk(c: Config, rulings: set<Ruling>, a: Answer) {
    && Fresh(a.decision, a.request, a.now)
    && (c.revocations ==> a.floor <= a.current.epoch && Matches(a.decision, a.current))
    && Explained(c, rulings, a)
  }

  ghost predicate AnswersOk(c: Config, rulings: set<Ruling>, answers: seq<Answer>) {
    forall i :: 0 <= i < |answers| ==> AnswerOk(c, rulings, answers[i])
  }

  ghost predicate Inv(s: System) {
    && ValidConfig(s.config)
    && EntriesOk(s.config, s.entries, s.rulings)
    && CallsOk(s.config, s.calls, s.visible, s.rulings)
    && AnswersOk(s.config, s.rulings, s.answers)
  }

  // ---------------------------------------------------------------- small steps of the proof

  lemma LookUpKeepsEntries(c: Config, entries: Entries, rulings: set<Ruling>, r: Request, now: Time, current: Revocation)
    requires EntriesOk(c, entries, rulings)
    ensures EntriesOk(c, Cached(entries, r, now, current).0, rulings)
  {
    hide Backed, Servable;
  }

  lemma StoreKeepsEntries(c: Config, entries: Entries, rulings: set<Ruling>, r: Request, d: Decision, now: Time)
    requires EntriesOk(c, entries, rulings) && Ruling(r, d, now) in rulings
    ensures EntriesOk(c, Stored(c, entries, r.scope, d, now), rulings)
  {
    if Stores(c, entries, r.scope, d, now) {
      assert Holds(c, Ruling(r, d, now), r.scope, Entry(d, Until(c, d, now)));
      hide Holds, Until;
      if r.scope in entries {
        assert entries[r.scope := Entry(d, Until(c, d, now))].Keys == entries.Keys;
      }
    }
  }

  lemma HitIsOk(c: Config, entries: Entries, rulings: set<Ruling>, call: Call)
    requires EntriesOk(c, entries, rulings) && call.phase.Checking? && call.floor <= call.phase.current.epoch
    requires Cached(entries, call.request, call.now, call.phase.current).1.Some?
    ensures var d := Cached(entries, call.request, call.now, call.phase.current).1.value;
            AnswerOk(c, rulings, Answer(call.request, call.now, call.floor, d, call.phase.current, true))
  {
    hide ValidFor;
    var e := entries[call.request.scope];
    assert Backed(c, rulings, call.request.scope, e);
    var rule :| rule in rulings && Holds(c, rule, call.request.scope, e);
    var d := e.decision.(requestID := call.request.id);
    assert Explains(c, rule, Answer(call.request, call.now, call.floor, d, call.phase.current, true));
  }

  lemma LiveIsOk(c: Config, rulings: set<Ruling>, visible: map<Profile, Revocation>, call: Call)
    requires call.phase.Storing? && CallOk(c, call, visible, rulings)
    ensures AnswerOk(c, rulings, Answer(call.request, call.now, call.floor, call.phase.decision, call.phase.current, false))
  {
    var d := call.phase.decision;
    var a := Answer(call.request, call.now, call.floor, d, call.phase.current, false);
    assert Explains(c, Ruling(call.request, d, call.now), a);
  }

  lemma MoreRulings(s: System, rulings: set<Ruling>)
    requires Inv(s) && s.rulings <= rulings
    ensures Inv(s.(rulings := rulings))
  {
    hide Holds, Explains, Fresh;
  }

  lemma AtKeeps(s: System, c: nat, phase: Phase)
    requires Inv(s) && c in s.calls && CallOk(s.config, s.calls[c].(phase := phase), s.visible, s.rulings)
    ensures Inv(At(s, c, phase))
  {
    hide EntriesOk, AnswersOk, CallOk;
  }

  lemma EndKeeps(s: System, c: nat)
    requires Inv(s)
    ensures Inv(End(s, c))
  {
    hide EntriesOk, AnswersOk, CallOk;
  }

  lemma ReturnKeeps(s: System, c: nat, d: Decision, current: Revocation, hit: bool)
    requires Inv(s) && c in s.calls
    requires AnswerOk(s.config, s.rulings, Answer(s.calls[c].request, s.calls[c].now, s.calls[c].floor, d, current, hit))
    ensures Inv(Return(s, c, d, current, hit))
  {
    EndKeeps(s, c);
    hide EntriesOk, CallsOk, AnswerOk;
  }

  lemma SetEntries(s: System, entries: Entries)
    requires Inv(s) && EntriesOk(s.config, entries, s.rulings)
    ensures Inv(s.(entries := entries))
  {
    hide EntriesOk, CallsOk, AnswersOk;
  }

  // ---------------------------------------------------------------- every step keeps the invariant

  lemma BeginKeeps(s: System, c: nat, r: Request, now: Time)
    requires Inv(s)
    ensures Inv(DoBegin(s, c, r, now))
  {
    hide EntriesOk, AnswersOk, ValidRequest, Fresh;
  }

  lemma LookUpKeeps(s: System, c: nat)
    requires Inv(s) && c in s.calls && s.calls[c].phase.Checking?
    ensures Inv(DoLookUp(s, c))
  {
    var call := s.calls[c];
    var found := Cached(s.entries, call.request, call.now, call.phase.current);
    LookUpKeepsEntries(s.config, s.entries, s.rulings, call.request, call.now, call.phase.current);
    var t := s.(entries := found.0);
    SetEntries(s, found.0);
    assert CallOk(s.config, call, s.visible, s.rulings);
    if found.1.Some? {
      HitIsOk(s.config, s.entries, s.rulings, call);
      hide Inv, Cached, AnswerOk;
      ReturnKeeps(t, c, found.1.value, call.phase.current, true);
    } else {
      assert CallOk(s.config, call.(phase := Asking), s.visible, s.rulings);
      hide Inv, Cached, CallOk;
      AtKeeps(t, c, Asking);
    }
  }

  lemma RuleKeeps(s: System, c: nat, d: Decision)
    requires Inv(s) && c in s.calls
    ensures Inv(DoRule(s, c, d))
  {
    var call := s.calls[c];
    var t := s.(rulings := s.rulings + {Ruling(call.request, d, call.now)});
    MoreRulings(s, t.rulings);
    assert CallOk(t.config, t.calls[c], t.visible, t.rulings);
    if !Fresh(d, call.request, call.now) {
      EndKeeps(t, c);
    } else {
      hide Fresh, EntriesOk, AnswersOk, CallsOk, Visible;
      AtKeeps(t, c, if s.config.revocations then Confirming(d) else Storing(d, NEVER));
    }
  }

  lemma ConfirmKeeps(s: System, c: nat)
    requires Inv(s) && c in s.calls && s.calls[c].phase.Confirming?
    ensures Inv(DoConfirm(s, c))
  {
    var call := s.calls[c];
    assert CallOk(s.config, call, s.visible, s.rulings);
    hide Fresh, EntriesOk, AnswersOk, CallsOk, Visible;
    var current := Visible(s.visible, ProfileOf(call.request));
    if Matches(call.phase.decision, current) {
      AtKeeps(s, c, Storing(call.phase.decision, current));
    } else {
      EndKeeps(s, c);
    }
  }

  lemma FinishKeeps(s: System, c: nat)
    requires Inv(s) && c in s.calls && s.calls[c].phase.Storing?
    ensures Inv(DoFinish(s, c))
  {
    var call := s.calls[c];
    assert CallOk(s.config, call, s.visible, s.rulings);
    LiveIsOk(s.config, s.rulings, s.visible, call);
    hide Fresh, EntriesOk, AnswersOk, CallsOk, AnswerOk, Stored;
    StoreKeepsEntries(s.config, s.entries, s.rulings, call.request, call.phase.decision, call.now);
    var entries := Stored(s.config, s.entries, call.request.scope, call.phase.decision, call.now);
    SetEntries(s, entries);
    ReturnKeeps(s.(entries := entries), c, call.phase.decision, call.phase.current, false);
  }

  lemma RevokeKeeps(s: System, p: Profile, revocation: Revocation)
    requires Inv(s) && Visible(s.visible, p).epoch <= revocation.epoch
    ensures Inv(s.(visible := s.visible[p := revocation]))
  {
    hide EntriesOk, AnswersOk, Fresh;
  }

  lemma ReadStateKeeps(s: System, c: nat)
    requires Inv(s) && c in s.calls && s.calls[c].phase.Starting?
    ensures Inv(At(s, c, Checking(Visible(s.visible, ProfileOf(s.calls[c].request)))))
  {
    assert CallOk(s.config, s.calls[c], s.visible, s.rulings);
    hide EntriesOk, AnswersOk, CallsOk, Fresh, Visible;
    AtKeeps(s, c, Checking(Visible(s.visible, ProfileOf(s.calls[c].request))));
  }

  lemma NextKeeps(s: System, step: Step)
    requires Inv(s)
    ensures Inv(Next(s, step)) && Next(s, step).config == s.config
  {
    hide Inv, Cached, Stored, Fresh, Matches, Visible;
    if Enabled(s, step) {
      match step
      case Begin(c, r, now) => BeginKeeps(s, c, r, now);
      case ReadState(c) => ReadStateKeeps(s, c);
      case LookUp(c) => LookUpKeeps(s, c);
      case Ruled(c, d) => RuleKeeps(s, c, d);
      case Confirm(c) => ConfirmKeeps(s, c);
      case Finish(c) => FinishKeeps(s, c);
      case Abandon(c) => EndKeeps(s, c);
      case Revoke(p, revocation) => RevokeKeeps(s, p, revocation);
    }
  }

  lemma {:induction false} RunKeeps(config: Config, steps: seq<Step>)
    requires ValidConfig(config)
    ensures Inv(Run(config, steps)) && Run(config, steps).config == config
  {
    if steps != [] {
      RunKeeps(config, steps[..|steps| - 1]);
      NextKeeps(Run(config, steps[..|steps| - 1]), steps[|steps| - 1]);
    }
  }

  // ---------------------------------------------------------------- theorems

  /** The call with this number is in progress after m steps. */
  predicate Live(config: Config, steps: seq<Step>, m: nat, c: nat) {
    m <= |steps| && c in Run(config, steps[..m]).calls
  }

  /** Step j began the call, with this epoch visible, and it has been in progress up to step n. */
  ghost predicate Opened(config: Config, steps: seq<Step>, j: nat, n: nat, c: nat, r: Request, now: Time, floor: nat) {
    && j < n <= |steps| && steps[j] == Begin(c, r, now)
    && Visible(Run(config, steps[..j]).visible, ProfileOf(r)).epoch == floor
    && forall m :: j < m <= n ==> Live(config, steps, m, c)
  }

  /** Step k is the call reading this revocation state. */
  predicate ReadBy(config: Config, steps: seq<Step>, k: nat, c: nat, r: Request, current: Revocation) {
    && k < |steps| && (steps[k] == ReadState(c) || steps[k] == Confirm(c))
    && Visible(Run(config, steps[..k]).visible, ProfileOf(r)) == current
  }

  predicate HasRead(phase: Phase) {
    phase.Checking? || phase.Storing?
  }

  /** A call appears only by beginning. */
  lemma NextBegins(s: System, step: Step, c: nat)
    requires c in Next(s, step).calls && c !in s.calls
    ensures var t := Next(s, step).calls[c];
            && step == Begin(c, t.request, t.now) && t.floor == Visible(s.visible, ProfileOf(t.request)).epoch
            && !HasRead(t.phase)
  {
    hide Cached, Stored, Fresh, Matches, Visible, ValidRequest;
  }

  /** What a step does to a call in progress. */
  lemma NextCall(s: System, step: Step, c: nat)
    requires c in s.calls && c in Next(s, step).calls
    ensures var t := Next(s, step).calls[c];
            && t.request == s.calls[c].request && t.now == s.calls[c].now && t.floor == s.calls[c].floor
            && (t == s.calls[c] || t.phase.Asking? || t.phase.Confirming?
                || (t.phase.Storing? && !s.config.revocations)
                || ((step == ReadState(c) || step == Confirm(c)) && HasRead(t.phase) &&
                    t.phase.current == Visible(s.visible, ProfileOf(t.request))))
  {
    hide Cached, Stored, Fresh, Matches, Visible, ValidRequest;
  }

  /** What a step that answers answers. */
  lemma NextAnswer(s: System, step: Step)
    ensures var answers := Next(s, step).answers;
            || answers == s.answers
            || (&& (step.LookUp? || step.Finish?) && step.call in s.calls
                && |answers| == |s.answers| + 1 && answers[..|s.answers|] == s.answers
                && var a, call := answers[|s.answers|], s.calls[step.call];
                && a.request == call.request && a.now == call.now && a.floor == call.floor
                && HasRead(call.phase) && a.current == call.phase.current)
  {
    hide Cached, Stored, Fresh, Matches, Visible, ValidRequest;
  }

  lemma OpenedLonger(config: Config, steps: seq<Step>, j: nat, n: nat, c: nat, r: Request, now: Time, floor: nat)
    requires steps != [] && Opened(config, steps[..|steps| - 1], j, n, c, r, now, floor)
    ensures Opened(config, steps, j, n, c, r, now, floor)
  {
    var front := steps[..|steps| - 1];
    assert front[..j] == steps[..j];
    forall m | j < m <= n ensures Live(config, steps, m, c) {
      assert Live(config, front, m, c) && front[..m] == steps[..m];
    }
  }

  lemma ReadLonger(config: Config, steps: seq<Step>, k: nat, c: nat, r: Request, current: Revocation)
    requires steps != [] && ReadBy(config, steps[..|steps| - 1], k, c, r, current)
    ensures ReadBy(config, steps, k, c, r, current)
  {
    assert steps[..|steps| - 1][..k] == steps[..k];
  }

  /** A call in progress was begun once, with the epoch it carries visible, and read the state it
      carries since. */
  lemma {:induction false} CallIsTraced(config: Config, steps: seq<Step>, c: nat) returns (j: nat, k: nat)
    requires ValidConfig(config) && c in Run(config, steps).calls
    ensures var call := Run(config, steps).calls[c];
            && Opened(config, steps, j, |steps|, c, call.request, call.now, call.floor)
            && (HasRead(call.phase) && config.revocations ==>
                  j < k && ReadBy(config, steps, k, c, call.request, call.phase.current))
  {
    hide Next, Inv, Visible, Opened, ReadBy;
    var n := |steps| - 1;
    var front := steps[..n];
    RunKeeps(config, front);
    var call := Run(config, steps).calls[c];
    if c in Run(config, front).calls {
      NextCall(Run(config, front), steps[n], c);
      j, k := CallIsTraced(config, front, c);
      OpenedLonger(config, steps, j, n, c, call.request, call.now, call.floor);
      OpenedNow(config, steps, j, n, c, call.request, call.now, call.floor);
      var was := Run(config, front).calls[c].phase;
      if HasRead(call.phase) && config.revocations {
        if HasRead(was) && call.phase.current == was.current {
          ReadLonger(config, steps, k, c, call.request, call.phase.current);
        } else {
          k := n;
          ReadNow(config, steps, c, call.request, call.phase.current);
        }
      }
    } else {
      NextBegins(Run(config, front), steps[n], c);
      j, k := n, n;
      OpenedHere(config, steps, c, call.request, call.now, call.floor);
    }
  }

  lemma OpenedNow(config: Config, steps: seq<Step>, j: nat, n: nat, c: nat, r: Request, now: Time, floor: nat)
    requires |steps| == n + 1 && Opened(config, steps, j, n, c, r, now, floor) && c in Run(config, steps).calls
    ensures Opened(config, steps, j, n + 1, c, r, now, floor) && j < n
  {
    hide Run;
    assert steps[..n + 1] == steps;
  }

  lemma OpenedHere(config: Config, steps: seq<Step>, c: nat, r: Request, now: Time, floor: nat)
    requires steps != [] && steps[|steps| - 1] == Begin(c, r, now) && c in Run(config, steps).calls
    requires Visible(Run(config, steps[..|steps| - 1]).visible, ProfileOf(r)).epoch == floor
    ensures Opened(config, steps, |steps| - 1, |steps|, c, r, now, floor)
  {
    hide Run;
    assert steps[..|steps|] == steps;
  }

  lemma ReadNow(config: Config, steps: seq<Step>, c: nat, r: Request, current: Revocation)
    requires steps != [] && (steps[|steps| - 1] == ReadState(c) || steps[|steps| - 1] == Confirm(c))
    requires Visible(Run(config, steps[..|steps| - 1]).visible, ProfileOf(r)) == current
    ensures ReadBy(config, steps, |steps| - 1, c, r, current)
  {
  }

  /** Step n is one call giving the i-th answer, and step j is where that call began, at the epoch
      the answer carries; the call was in progress all the way. */
  ghost predicate Serves(config: Config, steps: seq<Step>, i: nat, a: Answer, c: nat, j: nat, n: nat) {
    && n < |steps| && (steps[n] == LookUp(c) || steps[n] == Finish(c))
    && |Run(config, steps[..n]).answers| == i && Run(config, steps[..n + 1]).answers == Run(config, steps[..n]).answers + [a]
    && Opened(config, steps, j, n, c, a.request, a.now, a.floor)
  }

  /** Every answer was given by one call that began at the epoch it carries and, with revocation
      state configured, read the state it carries between its beginning and its answer. */
  lemma {:induction false} AnswerIsTraced(config: Config, steps: seq<Step>, i: nat)
    returns (c: nat, j: nat, k: nat, n: nat)
    requires ValidConfig(config) && i < |Run(config, steps).answers|
    ensures var a := Run(config, steps).answers[i];
            && Serves(config, steps, i, a, c, j, n)
            && (config.revocations ==> j < k < n && ReadBy(config, steps, k, c, a.request, a.current))
  {
    hide Next, Inv, Visible, Opened, ReadBy;
    var last := |steps| - 1;
    var front := steps[..last];
    var a := Run(config, steps).answers[i];
    NextAnswer(Run(config, front), steps[last]);
    if i < |Run(config, front).answers| {
      c, j, k, n := AnswerIsTraced(config, front, i);
      assert a == Run(config, front).answers[i];
      assert front[..n] == steps[..n] && front[..n + 1] == steps[..n + 1];
      OpenedLonger(config, steps, j, n, c, a.request, a.now, a.floor);
    } else {
      RunKeeps(config, front);
      c, n := steps[last].call, last;
      j, k := CallIsTraced(config, front, c);
      assert steps[..n + 1] == steps;
      assert Run(config, steps).answers == Run(config, front).answers + [a];
      OpenedLonger(config, steps, j, n, c, a.request, a.now, a.floor);
      KBefore(config, front, k, c, a.request, a.current);
    }
    if config.revocations {
      ReadLonger(config, steps, k, c, a.request, a.current);
    }
  }

  lemma KBefore(config: Config, steps: seq<Step>, k: nat, c: nat, r: Request, current: Revocation)
    ensures ReadBy(config, steps, k, c, r, current) ==> k < |steps|
  {
    hide Run;
  }

  /** An answer agrees with a revocation state that its own call read while in progress: it is not
      older than that epoch, and at the same epoch it carries the same checkpoint. */
  lemma AnswersMatchRevocation(config: Config, steps: seq<Step>, i: nat)
    requires ValidConfig(config) && config.revocations && i < |Run(config, steps).answers|
    ensures var a := Run(config, steps).answers[i];
            && (exists c: nat, j: nat, k: nat, n: nat ::
                  Serves(config, steps, i, a, c, j, n) && j < k < n && ReadBy(config, steps, k, c, a.request, a.current))
            && a.floor <= a.current.epoch <= a.decision.revocationEpoch
            && (a.decision.revocationEpoch == a.current.epoch ==> a.decision.checkpoint == a.current.checkpoint)
  {
    RunKeeps(config, steps);
    hide Run, Serves, ReadBy;
    var c, j, k, n := AnswerIsTraced(config, steps, i);
  }

  /** A call never returns a decision older than the revocation epoch visible when it began. */
  lemma NeverOlderThanTheEpoch(config: Config, steps: seq<Step>, i: nat)
    requires ValidConfig(config) && config.revocations && i < |Run(config, steps).answers|
    ensures var a := Run(config, steps).answers[i];
            && (exists c: nat, j: nat, n: nat :: Serves(config, steps, i, a, c, j, n))
            && a.floor <= a.decision.revocationEpoch
  {
    RunKeeps(config, steps);
    hide Run, Serves, ReadBy;
    var c, j, k, n := AnswerIsTraced(config, steps, i);
  }

  lemma RunOne(config: Config, steps: seq<Step>, step: Step)
    ensures Run(config, steps + [step]) == Next(Run(config, steps), step)
  {
    assert (steps + [step])[..|steps|] == steps;
  }

  /** That guarantee needs revocation state: it holds of all runs exactly when one is configured. */
  lemma NeverOlderIff(config: Config)
    requires ValidConfig(config)
    ensures config.revocations <==>
            forall steps, a :: a in Run(config, steps).answers ==> a.floor <= a.decision.revocationEpoch
  {
    if config.revocations {
      forall steps, a | a in Run(config, steps).answers ensures a.floor <= a.decision.revocationEpoch {
        RunKeeps(config, steps);
      }
    } else {
      var steps, a := StaleAnswer(config);
    }
  }

  lemma StaleAnswer(config: Config) returns (steps: seq<Step>, a: Answer)
    requires ValidConfig(config) && !config.revocations
    ensures a in Run(config, steps).answers && a.floor > a.decision.revocationEpoch
  {
    var n := Name("n");
    var r := Request(n, Scope(n, n, n, [], n, n, n, [], [], 1));
    var d := Decision(n, n, n, n, n, Allow, [ALLOWED], 1, 1, 9, 0, n, Constraints([], [], [], map[], 0, 0), n);
    assert Normalized([]);
    assert ValidFor(d, r);
    assert Fresh(d, r, 5);
    hide ValidFor, Fresh, Stored;
    steps := [] + [Revoke((n, n), Revocation(1, n))];
    RunOne(config, [], Revoke((n, n), Revocation(1, n)));
    RunOne(config, steps, Begin(0, r, 5));
    steps := steps + [Begin(0, r, 5)];
    assert Run(config, steps).calls[0] == Call(r, 5, 1, Asking) by { assert ValidRequest(r); }
    RunOne(config, steps, Ruled(0, d));
    steps := steps + [Ruled(0, d)];
    assert Run(config, steps).calls[0] == Call(r, 5, 1, Storing(d, NEVER));
    RunOne(config, steps, Finish(0));
    steps := steps + [Finish(0)];
    a := Answer(r, 5, 1, d, NEVER, false);
  }

  /** Hit or not, the answer is valid for the request at the call's time and is a decision of
      the live authorizer for the same request up to its ID; a hit is younger than its TTL. */
  lemma AnswersComeFromTheLiveAuthorizer(config: Config, steps: seq<Step>, a: Answer)
    requires ValidConfig(config) && a in Run(config, steps).answers
    ensures ValidFor(a.decision, a.request) && a.decision.requestID == a.request.id
    ensures a.decision.issuedAt <= a.now && a.decision.notBefore <= a.now < a.decision.expiresAt
    ensures a.decision.outcome.Allow? <==> Name("allowed") in a.decision.reasons
    ensures a.decision.outcome.Allow? || a.decision.outcome.Deny?
    ensures exists rule :: rule in Run(config, steps).rulings && Explains(config, rule, a) &&
              (a.hit ==> a.now < rule.at + if a.decision.outcome.Deny? then config.denyTTL else config.allowTTL)
  {
    RunKeeps(config, steps);
    var s := Run(config, steps);
    var i :| 0 <= i < |s.answers| && s.answers[i] == a;
    assert AnswerOk(config, s.rulings, a);
    var rule :| rule in s.rulings && Explains(config, rule, a);
    hide Run;
  }

  /** The cache is used: a run in which a second call, under another request ID, is answered from
      what the first one stored. */
  lemma HitIsReachable()
    ensures exists config: Config, steps: seq<Step> ::
              && ValidConfig(config) && |Run(config, steps).answers| == 2
              && !Run(config, steps).answers[0].hit && Run(config, steps).answers[1].hit
              && Run(config, steps).answers[0].request.id != Run(config, steps).answers[1].request.id
  {
    hide ValidFor, Run, FirstCall, SecondCall;
    var config := Config(10, 10, 1, true);
    var r, q := Request(Name("n"), SAMPLE_SCOPE), Request(Name("m"), SAMPLE_SCOPE);
    var d := SAMPLE_DECISION;
    SampleIsValid();
    EmptyRun(config);
    var s0 := Run(config, []);
    FirstCallStores(s0, SAMPLE_SCOPE, Name("n"), d);
    SecondCallHits(FirstCall(s0, r, d), SAMPLE_SCOPE, Name("m"), d);
    NineSteps(config, r, q, d);
    var steps := [] + [Begin(0, r, 5)] + [ReadState(0)] + [LookUp(0)] + [Ruled(0, d)] + [Confirm(0)]
      + [Finish(0)] + [Begin(1, q, 6)] + [ReadState(1)] + [LookUp(1)];
    assert Run(config, steps).answers == [Answer(r, 5, 0, d, NEVER, false)]
                                         + [Answer(q, 6, 0, d.(requestID := Name("m")), NEVER, true)];
    assert r.id != q.id by { assert "n"[0] != "m"[0]; }
  }

  const SAMPLE_SCOPE: Scope :=
    Scope(Name("n"), Name("n"), Name("n"), [], Name("n"), Name("n"), Name("n"), [], [], 1)

  const SAMPLE_DECISION: Decision := Decision(
    Name("n"), Name("n"), Name("n"), Name("n"), Name("n"), Allow, [ALLOWED], 1, 1, 9, 1, Name("n"),
    Constraints([], [], [], map[], 0, 0), Name("n"))

  lemma SampleIsValid()
    ensures ValidFor(SAMPLE_DECISION, Request(Name("n"), SAMPLE_SCOPE))
    ensures ValidFor(SAMPLE_DECISION.(requestID := Name("m")), Request(Name("m"), SAMPLE_SCOPE))
  {
    assert Normalized([]);
  }

  lemma EmptyRun(config: Config)
    ensures Run(config, []) == System(config, map[], map[], map[], {}, [])
  {
  }

  function FirstCall(s: System, r: Request, d: Decision): System {
    Next(Next(Next(Next(Next(Next(s, Begin(0, r, 5)), ReadState(0)), LookUp(0)), Ruled(0, d)), Confirm(0)), Finish(0))
  }

  function SecondCall(s: System, r: Request): System {
    Next(Next(Next(s, Begin(1, r, 6)), ReadState(1)), LookUp(1))
  }

  lemma NineSteps(config: Config, r: Request, q: Request, d: Decision)
    ensures Run(config, [] + [Begin(0, r, 5)] + [ReadState(0)] + [LookUp(0)] + [Ruled(0, d)] + [Confirm(0)]
                        + [Finish(0)] + [Begin(1, q, 6)] + [ReadState(1)] + [LookUp(1)])
            == SecondCall(FirstCall(Run(config, []), r, d), q)
  {
    hide Run, Next;
    var a := [] + [Begin(0, r, 5)];
    RunOne(config, [], Begin(0, r, 5));
    RunOne(config, a, ReadState(0));
    RunOne(config, a + [ReadState(0)], LookUp(0));
    var b := a + [ReadState(0)] + [LookUp(0)];
    RunOne(config, b, Ruled(0, d));
    RunOne(config, b + [Ruled(0, d)], Confirm(0));
    RunOne(config, b + [Ruled(0, d)] + [Confirm(0)], Finish(0));
    var e := b + [Ruled(0, d)] + [Confirm(0)] + [Finish(0)];
    RunOne(config, e, Begin(1, q, 6));
    RunOne(config, e + [Begin(1, q, 6)], ReadState(1));
    RunOne(config, e + [Begin(1, q, 6)] + [ReadState(1)], LookUp(1));
  }

  lemma FirstCallStores(s: System, scope: Scope, id: Name, d: Decision)
    requires s == System(Config(10, 10, 1, true), map[], map[], map[], {}, [])
    requires ValidFor(d, Request(id, scope)) && d.outcome.Allow? && d.revocationEpoch == 1
    requires d.issuedAt == d.notBefore == 1 && d.expiresAt == 9
    ensures var t := FirstCall(s, Request(id, scope), d);
            && t.config == s.config && t.visible == map[] && t.calls == map[]
            && t.entries == map[scope := Entry(d, 9)]
            && t.answers == [Answer(Request(id, scope), 5, 0, d, NEVER, false)]
  {
    hide ValidFor;
    var r := Request(id, scope);
    assert ValidRequest(r) by { RequestOfValid(d, r); }
    hide ValidRequest;
    var s1 := Next(s, Begin(0, r, 5));
    assert s1 == s.(calls := map[0 := Call(r, 5, 0, Starting)]);
    var s2 := Next(s1, ReadState(0));
    assert s2 == s.(calls := map[0 := Call(r, 5, 0, Checking(NEVER))]);
    var s3 := Next(s2, LookUp(0));
    assert s3 == s.(calls := map[0 := Call(r, 5, 0, Asking)]);
    var s4 := Next(s3, Ruled(0, d));
    assert s4 == s.(calls := map[0 := Call(r, 5, 0, Confirming(d))], rulings := {Ruling(r, d, 5)});
    var s5 := Next(s4, Confirm(0));
    assert s5 == s4.(calls := map[0 := Call(r, 5, 0, Storing(d, NEVER))]);
  }

  lemma RequestOfValid(d: Decision, r: Request)
    requires ValidFor(d, r)
    ensures ValidRequest(r)
  {
  }

  lemma SecondCallHits(s: System, scope: Scope, id: Name, d: Decision)
    requires s.config == Config(10, 10, 1, true) && s.visible == map[] && s.calls == map[]
    requires s.entries == map[scope := Entry(d, 9)]
    requires ValidFor(d.(requestID := id), Request(id, scope)) && d.revocationEpoch == 1
    requires d.issuedAt == d.notBefore == 1 && d.expiresAt == 9
    ensures SecondCall(s, Request(id, scope)).answers ==
            s.answers + [Answer(Request(id, scope), 6, 0, d.(requestID := id), NEVER, true)]
  {
    hide ValidFor;
    var r := Request(id, scope);
    assert ValidRequest(r) by { RequestOfValid(d.(requestID := id), r); }
    hide ValidRequest;
    var s1 := Next(s, Begin(1, r, 6));
    assert s1.calls == map[1 := Call(r, 6, 0, Starting)];
    var s2 := Next(s1, ReadState(1));
    assert s2.calls == map[1 := Call(r, 6, 0, Checking(NEVER))];
  }

  /** However many calls miss at once, the table stays within its bound. */
  lemma CacheStaysBounded(config: Config, steps: seq<Step>)
    requires ValidConfig(config)
    ensures |Run(config, steps).entries| <= config.maxEntries
  {
    RunKeeps(config, steps);
  }
}
