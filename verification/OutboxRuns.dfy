/** Many publishers over one outbox table, in any interleaving.

    A publisher claims, hands the message to the sink, and settles; a crash may end it
    after any step, leaving the claim behind. The times are whatever the publishers' clocks
    say.
 */
module OutboxRuns {
  import opened Text
  import opened Bags
  import opened Outbox

  datatype System = System(
    rows: Rows,
    publishers: map<nat, Publisher>,
    accepted: set<(Id, Name)>,   // what the sink has acknowledged, under which reference
    rescheduled: multiset<Id>,   // successful releases for retry
    lost: multiset<Id>)          // claims that expired and were taken over

  datatype Step =
    | Enqueue(id: Id, createdAt: Time, availableAt: Time)
    | Claim(publisher: nat, config: Config, id: Id, now: Time, locked: set<Id>)
    | Answered(publisher: nat, answer: Answer)
    | Settling(publisher: nat, config: Config, now: Time, delay: Time)
    | Crash(publisher: nat)

  function DoEnqueue(s: System, id: Id, createdAt: Time, availableAt: Time): System {
    if id in s.rows || availableAt < createdAt then s
    else s.(rows := s.rows[id := Message(createdAt, availableAt, None, 0, None, None, None)])
  }

  ghost function DoClaim(s: System, p: nat, config: Config, id: Id, now: Time, locked: set<Id>): System {
    if p in s.publishers || !First(s.rows, locked, now, id) then s
    else s.(rows := s.rows[id := Claimed(s.rows[id], config, now)],
            publishers := s.publishers[p := Sending(TicketFor(s.rows, config, now, id))],
            lost := if s.rows[id].claim.Some? then s.lost + multiset{id} else s.lost)
  }

  function DoAnswer(s: System, p: nat, answer: Answer): System {
    if p !in s.publishers || !s.publishers[p].Sending? then s
    else
      var t := s.publishers[p].ticket;
      s.(publishers := s.publishers[p := Digest(t, answer)],
         accepted := if answer.Acknowledged? then s.accepted + {(t.id, answer.ref)} else s.accepted)
  }

  function DoSettle(s: System, p: nat, config: Config, now: Time, delay: Time): System {
    if p !in s.publishers || s.publishers[p].Sending? then s
    else
      var t := s.publishers[p].ticket;
      var how := Disposition(s.publishers[p], config, now, delay);
      var (rows, ok) := Apply(s.rows, t, how);
      s.(rows := rows, publishers := Without(s.publishers, p),
         rescheduled := if ok && how.Retry? then s.rescheduled + multiset{t.id} else s.rescheduled)
  }

  ghost function Next(s: System, step: Step): System {
    match step
    case Enqueue(id, createdAt, availableAt) => DoEnqueue(s, id, createdAt, availableAt)
    case Claim(p, config, id, now, locked) => DoClaim(s, p, config, id, now, locked)
    case Answered(p, answer) => DoAnswer(s, p, answer)
    case Settling(p, config, now, delay) => DoSettle(s, p, config, now, delay)
    case Crash(p) => s.(publishers := Without(s.publishers, p))
  }

  ghost function Run(steps: seq<Step>): System {
    if steps == [] then System(map[], map[], {}, multiset{}, multiset{})
    else Next(Run(steps[..|steps| - 1]), steps[|steps| - 1])
  }

  /** No publisher of the run allows more than `most` attempts. */
  predicate Within(step: Step, most: nat) {
    step.Settling? ==> step.config.maxAttempts <= most
  }

  ghost predicate AllWithin(steps: seq<Step>, most: nat) {
    forall k :: 0 <= k < |steps| ==> Within(steps[k], most)
  }

  // ---------------------------------------------------------------- invariants

  /** One while a claim is open or after it settled the message. */
  function Open(m: Message): nat {
    if m.claim.Some? || m.Settled() then 1 else 0
  }

  ghost predicate RowOk(m: Message, rescheduled: nat, lost: nat) {
    && !(m.published.Some? && m.dead.Some?)
    && (m.Settled() ==> m.claim.None?)
    && m.attempts == rescheduled + lost + Open(m)
  }

  ghost predicate RowsOk(rows: Rows, rescheduled: multiset<Id>, lost: multiset<Id>) {
    && (forall id :: id in rows ==> RowOk(rows[id], rescheduled[id], lost[id]))
    && (forall id :: id !in rows ==> rescheduled[id] == 0 && lost[id] == 0)
  }

  ghost predicate TicketsOk(rows: Rows, publishers: map<nat, Publisher>) {
    forall p :: p in publishers ==>
      var t := publishers[p].ticket;
      t.id in rows && 1 <= t.attempt <= rows[t.id].attempts
  }

  ghost predicate SameTicket(publishers: map<nat, Publisher>, p: nat, q: nat) {
    && p in publishers && q in publishers
    && publishers[p].ticket.id == publishers[q].ticket.id
    && publishers[p].ticket.attempt == publishers[q].ticket.attempt
  }

  ghost predicate TicketsDiffer(publishers: map<nat, Publisher>) {
    forall p, q :: SameTicket(publishers, p, q) ==> p == q
  }

  ghost predicate SinkOk(rows: Rows, publishers: map<nat, Publisher>, accepted: set<(Id, Name)>) {
    && (forall id :: id in rows && rows[id].published.Some? ==>
          (id, rows[id].published.value) in accepted && !Blank(rows[id].published.value))
    && (forall p :: p in publishers && publishers[p].Accepted? ==>
          (publishers[p].ticket.id, publishers[p].ref) in accepted && !Blank(publishers[p].ref))
  }

  ghost predicate Inv(s: System) {
    && RowsOk(s.rows, s.rescheduled, s.lost)
    && TicketsOk(s.rows, s.publishers)
    && TicketsDiffer(s.publishers)
    && SinkOk(s.rows, s.publishers, s.accepted)
  }

  lemma EnqueueKeeps(s: System, id: Id, createdAt: Time, availableAt: Time)
    requires Inv(s)
    ensures Inv(DoEnqueue(s, id, createdAt, availableAt))
  {
    hide Blank;
  }

  lemma ClaimKeepsRows(s: System, p: nat, config: Config, id: Id, now: Time, locked: set<Id>)
    requires RowsOk(s.rows, s.rescheduled, s.lost)
    ensures var s' := DoClaim(s, p, config, id, now, locked); RowsOk(s'.rows, s'.rescheduled, s'.lost)
  {
  }

  lemma ClaimKeepsTickets(s: System, p: nat, config: Config, id: Id, now: Time, locked: set<Id>)
    requires TicketsOk(s.rows, s.publishers) && TicketsDiffer(s.publishers)
    ensures var s' := DoClaim(s, p, config, id, now, locked);
            TicketsOk(s'.rows, s'.publishers) && TicketsDiffer(s'.publishers)
  {
    hide Earlier, Ready;
    var ps := DoClaim(s, p, config, id, now, locked).publishers;
    forall a, b | SameTicket(ps, a, b) ensures a == b {
      assert a != p && b != p ==> SameTicket(s.publishers, a, b);
    }
  }

  lemma ClaimKeepsSink(s: System, p: nat, config: Config, id: Id, now: Time, locked: set<Id>)
    requires SinkOk(s.rows, s.publishers, s.accepted)
    ensures var s' := DoClaim(s, p, config, id, now, locked); SinkOk(s'.rows, s'.publishers, s'.accepted)
  {
    hide Blank, Earlier, Ready;
  }

  lemma ClaimKeeps(s: System, p: nat, config: Config, id: Id, now: Time, locked: set<Id>)
    requires Inv(s)
    ensures Inv(DoClaim(s, p, config, id, now, locked))
  {
    ClaimKeepsRows(s, p, config, id, now, locked);
    ClaimKeepsTickets(s, p, config, id, now, locked);
    ClaimKeepsSink(s, p, config, id, now, locked);
    hide First, RowsOk, TicketsOk, TicketsDiffer, SinkOk;
  }

  lemma AnswerKeeps(s: System, p: nat, answer: Answer)
    requires Inv(s)
    ensures Inv(DoAnswer(s, p, answer))
  {
    hide RowsOk;
    var ps := DoAnswer(s, p, answer).publishers;
    forall a, b | SameTicket(ps, a, b) ensures a == b {
      assert SameTicket(s.publishers, a, b);
    }
  }

  lemma DropKeeps(rows: Rows, publishers: map<nat, Publisher>, p: nat)
    requires TicketsOk(rows, publishers) && TicketsDiffer(publishers)
    ensures TicketsOk(rows, Without(publishers, p)) && TicketsDiffer(Without(publishers, p))
  {
    var ps := Without(publishers, p);
    forall a, b | SameTicket(ps, a, b) ensures a == b {
      assert SameTicket(publishers, a, b);
    }
  }

  lemma SettleKeepsRow(m: Message, how: Settlement, rescheduled: nat, lost: nat)
    requires RowOk(m, rescheduled, lost) && m.claim.Some? && !m.Settled()
    ensures RowOk(Settle(m, how), rescheduled + if how.Retry? then 1 else 0, lost)
  {
  }

  lemma SettleKeepsRows(s: System, p: nat, config: Config, now: Time, delay: Time)
    requires RowsOk(s.rows, s.rescheduled, s.lost)
    ensures var s' := DoSettle(s, p, config, now, delay); RowsOk(s'.rows, s'.rescheduled, s'.lost)
  {
    if p in s.publishers && !s.publishers[p].Sending? {
      var t := s.publishers[p].ticket;
      var how := Disposition(s.publishers[p], config, now, delay);
      if Takes(s.rows, t, how) {
        SettleKeepsRow(s.rows[t.id], how, s.rescheduled[t.id], s.lost[t.id]);
      }
    }
    hide IsDead, Disposition, RowOk, Settle;
  }

  lemma SettleKeepsAttempts(s: System, p: nat, config: Config, now: Time, delay: Time)
    ensures var rows := DoSettle(s, p, config, now, delay).rows;
            rows.Keys == s.rows.Keys && forall id :: id in rows ==> rows[id].attempts == s.rows[id].attempts
  {
    hide IsDead;
  }

  lemma SettleKeepsSink(s: System, p: nat, config: Config, now: Time, delay: Time)
    requires SinkOk(s.rows, s.publishers, s.accepted)
    ensures var s' := DoSettle(s, p, config, now, delay); SinkOk(s'.rows, s'.publishers, s'.accepted)
  {
    hide IsDead;
  }

  lemma SettleKeeps(s: System, p: nat, config: Config, now: Time, delay: Time)
    requires Inv(s)
    ensures Inv(DoSettle(s, p, config, now, delay))
  {
    SettleKeepsRows(s, p, config, now, delay);
    SettleKeepsAttempts(s, p, config, now, delay);
    SettleKeepsSink(s, p, config, now, delay);
    DropKeeps(s.rows, s.publishers, p);
    hide TicketsDiffer, RowsOk, SinkOk, Apply, Disposition, Without;
  }

  lemma NextKeeps(s: System, step: Step)
    requires Inv(s)
    ensures Inv(Next(s, step))
  {
    hide Inv;
    match step
    case Enqueue(id, createdAt, availableAt) => EnqueueKeeps(s, id, createdAt, availableAt);
    case Claim(p, config, id, now, locked) => ClaimKeeps(s, p, config, id, now, locked);
    case Answered(p, answer) => AnswerKeeps(s, p, answer);
    case Settling(p, config, now, delay) => SettleKeeps(s, p, config, now, delay);
    case Crash(p) => CrashKeeps(s, p);
  }

  lemma CrashKeeps(s: System, p: nat)
    requires Inv(s)
    ensures Inv(s.(publishers := Without(s.publishers, p)))
  {
    DropKeeps(s.rows, s.publishers, p);
    hide TicketsDiffer, TicketsOk, RowsOk;
  }

  lemma {:induction false} RunKeeps(steps: seq<Step>)
    ensures Inv(Run(steps))
  {
    if steps != [] {
      RunKeeps(steps[..|steps| - 1]);
      NextKeeps(Run(steps[..|steps| - 1]), steps[|steps| - 1]);
    }
  }

  // ---------------------------------------------------------------- what a run does to one row

  /** Rows never vanish, their attempt count never falls, and a settled row is frozen. */
  ghost predicate Extends(s: System, s': System) {
    forall id :: id in s.rows ==>
      && id in s'.rows && s.rows[id].attempts <= s'.rows[id].attempts
      && (s.rows[id].Settled() ==> s'.rows[id] == s.rows[id])
  }

  lemma NextExtends(s: System, step: Step)
    ensures Extends(s, Next(s, step))
  {
    hide Digest, Disposition, Earlier;
  }

  lemma {:induction false} RunExtends(steps: seq<Step>, more: seq<Step>)
    ensures Extends(Run(steps), Run(steps + more))
  {
    if more == [] {
      assert steps + more == steps;
    } else {
      var front := more[..|more| - 1];
      RunExtends(steps, front);
      assert (steps + more)[..|steps + more| - 1] == steps + front;
      NextExtends(Run(steps + front), more[|more| - 1]);
    }
  }

  // ---------------------------------------------------------------- theorems

  /** A message goes in as it was given, under a free identity and not before its creation. */
  lemma EnqueueStores(steps: seq<Step>, id: Id, createdAt: Time, availableAt: Time)
    ensures var s, t := Run(steps), Run(steps + [Enqueue(id, createdAt, availableAt)]);
            if id in s.rows || availableAt < createdAt then t == s
            else t == s.(rows := s.rows[id := Message(createdAt, availableAt, None, 0, None, None, None)])
  {
    RunOne(steps, Enqueue(id, createdAt, availableAt));
    hide Run;
  }

  /** A free publisher claims a message exactly if nothing unlocked and ready comes before it; the
      claim changes that row only, and the publisher holds its latest ticket. */
  lemma ClaimTakesTheFirst(steps: seq<Step>, p: nat, config: Config, id: Id, now: Time, locked: set<Id>)
    ensures var s, t := Run(steps), Run(steps + [Claim(p, config, id, now, locked)]);
            var first := && Candidate(s.rows, locked, now, id)
                         && forall j :: Candidate(s.rows, locked, now, j) && j != id ==>
                              ComesFirst(s.rows[id], id, s.rows[j], j);
            if p in s.publishers || !first then t == s
            else
              && t.rows.Keys == s.rows.Keys && (forall j :: j in s.rows && j != id ==> t.rows[j] == s.rows[j])
              && t.rows[id] == s.rows[id].(claim := Some(Lease(config.owner, now + config.lease)),
                                           attempts := s.rows[id].attempts + 1)
              && t.publishers ==
                 s.publishers[p := Sending(Ticket(id, config.owner, now + config.lease, t.rows[id].attempts))]
  {
    RunOne(steps, Claim(p, config, id, now, locked));
    hide Run, Ready, ComesFirst, Earlier;
    var s := Run(steps);
    forall j | j in s.rows && id in s.rows ensures Earlier(s.rows, id, j) <==> ComesFirst(s.rows[id], id, s.rows[j], j) {
      OrderIsLexicographic(s.rows, id, j);
    }
  }

  /** What a run makes of the sink's answer while the publisher's ticket owns its message. */
  lemma AnswerIsFollowed(steps: seq<Step>, p: nat, answer: Answer, config: Config, now: Time, delay: Time)
    requires p in Run(steps).publishers && Run(steps).publishers[p].Sending?
    requires Owns(Run(steps).rows, Run(steps).publishers[p].ticket)
    ensures var s, t := Run(steps), Run(steps + [Answered(p, answer)] + [Settling(p, config, now, delay)]);
            var id := s.publishers[p].ticket.id;
            var m := s.rows[id];
            var good := answer.Acknowledged? && exists c :: c in answer.ref.text && !Space(c);
            var kind := if answer.Failed? then answer.kind else Poison;
            var dead := kind == Permanent || kind == Poison || m.attempts >= config.maxAttempts;
            && t.rows.Keys == s.rows.Keys && (forall j :: j in s.rows && j != id ==> t.rows[j] == s.rows[j])
            && t.rows[id] == (
                 if good then m.(published := Some(answer.ref), claim := None)
                 else if dead then m.(dead := Some(kind), lastError := Some(kind), claim := None)
                 else if m.createdAt <= now + delay then
                   m.(availableAt := now + delay, lastError := Some(kind), claim := None)
                 else m)
            && p !in t.publishers
  {
    RunOne(steps, Answered(p, answer));
    RunOne(steps + [Answered(p, answer)], Settling(p, config, now, delay));
    hide Run, Apply, Disposition, Digest;
    var s := Run(steps);
    AnswerDecides(s.rows, s.publishers[p].ticket, answer, config, now, delay);
    DigestAnswers(s.publishers[p].ticket, answer);
  }

  lemma DigestAnswers(t: Ticket, answer: Answer)
    ensures !Digest(t, answer).Sending? && Digest(t, answer).ticket == t
  {
  }

  /** A message ends at most one way, and stays as it ended. */
  lemma SettledForGood(steps: seq<Step>, more: seq<Step>, id: Id)
    requires id in Run(steps).rows && Run(steps).rows[id].Settled()
    ensures id in Run(steps + more).rows && Run(steps + more).rows[id] == Run(steps).rows[id]
    ensures Run(steps).rows[id].published.Some? <==> Run(steps).rows[id].dead.None?
  {
    RunKeeps(steps);
    RunExtends(steps, more);
  }

  /** Publication is recorded only for an identity the sink acknowledged, and under the reference
      it gave, which is not blank. */
  lemma PublishedWasAccepted(steps: seq<Step>, id: Id)
    requires id in Run(steps).rows && Run(steps).rows[id].published.Some?
    ensures var ref := Run(steps).rows[id].published.value;
            && (exists k :: 0 <= k < |steps| && Acknowledges(Run(steps[..k]), steps[k], id, ref))
            && exists c :: c in ref.text && !Space(c)
  {
    RunKeeps(steps);
    AcceptedWasAcknowledged(steps, id, Run(steps).rows[id].published.value);
  }

  /** The step is a sink acknowledgement of this very message under this reference. */
  ghost predicate Acknowledges(s: System, step: Step, id: Id, ref: Name) {
    && step.Answered? && step.answer == Acknowledged(ref)
    && step.publisher in s.publishers && s.publishers[step.publisher].ticket.id == id
  }

  lemma {:induction false} AcceptedWasAcknowledged(steps: seq<Step>, id: Id, ref: Name)
    requires (id, ref) in Run(steps).accepted
    ensures exists k :: 0 <= k < |steps| && Acknowledges(Run(steps[..k]), steps[k], id, ref)
  {
    hide Next, Acknowledges;
    var n := |steps| - 1;
    var front := steps[..n];
    if (id, ref) in Run(front).accepted {
      AcceptedWasAcknowledged(front, id, ref);
      var k :| 0 <= k < |front| && Acknowledges(Run(front[..k]), front[k], id, ref);
      assert front[..k] == steps[..k] && front[k] == steps[k];
    } else {
      AcceptsNow(Run(front), steps[n], id, ref);
    }
  }

  lemma AcceptsNow(s: System, step: Step, id: Id, ref: Name)
    requires (id, ref) !in s.accepted && (id, ref) in Next(s, step).accepted
    ensures Acknowledges(s, step, id, ref)
  {
    hide First, Apply, Disposition, Digest;
  }

  /** The step settles or reschedules a message that was not settled. */
  ghost predicate Disposes(s: System, step: Step, id: Id) {
    && id in s.rows && !s.rows[id].Settled()
    && var after := Next(s, step);
       (id in after.rows && after.rows[id].Settled()) || after.rescheduled[id] != s.rescheduled[id]
  }

  lemma SettlesWithTicket(s: System, step: Step, id: Id)
    requires Disposes(s, step, id)
    ensures id in s.rows
    ensures && step.Settling? && step.publisher in s.publishers
            && s.publishers[step.publisher].ticket.id == id
            && s.publishers[step.publisher].ticket.attempt == s.rows[id].attempts
  {
    hide First, IsDead;
  }

  /** A message is settled or rescheduled only by the one publisher whose ticket carries the
      latest attempt number; every other ticket for it is older. */
  lemma OnlyTheLatestSettles(steps: seq<Step>, step: Step, id: Id)
    ensures var s := Run(steps);
            Disposes(s, step, id) ==>
            && step.Settling? && step.publisher in s.publishers
            && s.publishers[step.publisher].ticket.id == id
            && s.publishers[step.publisher].ticket.attempt == s.rows[id].attempts
            && forall q :: q in s.publishers && q != step.publisher && s.publishers[q].ticket.id == id
                 ==> s.publishers[q].ticket.attempt < s.rows[id].attempts
  {
    hide Run, Next, RowsOk, SinkOk, Disposes;
    var s := Run(steps);
    RunKeeps(steps);
    if Disposes(s, step, id) {
      SettlesWithTicket(s, step, id);
      var p := step.publisher;
      forall q | q in s.publishers && q != p && s.publishers[q].ticket.id == id
        ensures s.publishers[q].ticket.attempt < s.rows[id].attempts
      {
        assert !SameTicket(s.publishers, p, q);
      }
    }
  }

  lemma SettleKeepsWaiting(s: System, p: nat, config: Config, now: Time, delay: Time, id: Id)
    requires id in s.rows
    ensures var t := DoSettle(s, p, config, now, delay);
            && id in t.rows && s.rescheduled[id] <= t.rescheduled[id]
            && (t.rescheduled[id] == s.rescheduled[id] ==> t.rows[id].availableAt == s.rows[id].availableAt)
  {
    hide IsDead;
  }

  /** What a row waits for changes only when it is rescheduled. */
  lemma NextKeepsWaiting(s: System, step: Step, id: Id)
    requires id in s.rows
    ensures var t := Next(s, step);
            && id in t.rows && s.rescheduled[id] <= t.rescheduled[id]
            && (t.rescheduled[id] == s.rescheduled[id] ==> t.rows[id].availableAt == s.rows[id].availableAt)
  {
    hide First, TicketFor, Digest, DoSettle;
    if step.Settling? {
      SettleKeepsWaiting(s, step.publisher, step.config, step.now, step.delay, id);
    }
  }

  lemma {:induction false} KeepsWaiting(steps: seq<Step>, more: seq<Step>, id: Id)
    requires id in Run(steps).rows
    ensures var s, t := Run(steps), Run(steps + more);
            && id in t.rows && s.rescheduled[id] <= t.rescheduled[id]
            && (t.rescheduled[id] == s.rescheduled[id] ==> t.rows[id].availableAt == s.rows[id].availableAt)
  {
    hide Next;
    if more == [] {
      assert steps + more == steps;
    } else {
      var front := more[..|more| - 1];
      KeepsWaiting(steps, front, id);
      assert (steps + more)[..|steps + more| - 1] == steps + front;
      NextKeepsWaiting(Run(steps + front), more[|more| - 1], id);
    }
  }

  /** Until it is rescheduled again, a message is not claimed by any clock that has not reached
      its availability, nor by one within the lease of a claim still open. */
  lemma ClaimsWait(steps: seq<Step>, more: seq<Step>, step: Step)
    requires step.Claim?
    ensures var s, t := Run(steps), Run(steps + more);
            step.id in s.rows && t.rescheduled[step.id] == s.rescheduled[step.id] && Next(t, step).rows != t.rows ==>
            && step.id in t.rows && s.rows[step.id].availableAt <= step.now
            && (t.rows[step.id].claim.Some? ==> t.rows[step.id].claim.value.until <= step.now)
  {
    if step.id in Run(steps).rows {
      KeepsWaiting(steps, more, step.id);
    }
  }

  /** Every claim is accounted for: it was rescheduled, it was lost to a successor, or it is
      the one that is open or that settled the message. */
  lemma AttemptsAreAccountedFor(steps: seq<Step>, id: Id)
    requires id in Run(steps).rows
    ensures var s := Run(steps);
            s.rows[id].attempts == s.rescheduled[id] + s.lost[id] + Open(s.rows[id])
  {
    RunKeeps(steps);
  }

  /** At most `most - 1` releases for retry, so more than `most` attempts need lost claims. */
  lemma {:induction false} ReschedulesAreBounded(steps: seq<Step>, most: nat, id: Id)
    requires most >= 1 && AllWithin(steps, most)
    ensures Run(steps).rescheduled[id] <= most - 1
    ensures id in Run(steps).rows ==> Run(steps).rows[id].attempts <= most + Run(steps).lost[id]
  {
    if steps != [] {
      var front := steps[..|steps| - 1];
      var last := steps[|steps| - 1];
      ReschedulesAreBounded(front, most, id);
      RunKeeps(front);
      assert Within(last, most);
      NextReschedules(Run(front), last, most, id);
      RunKeeps(steps);
    }
  }

  lemma SettleReschedules(s: System, p: nat, config: Config, now: Time, delay: Time, most: nat, id: Id)
    requires RowsOk(s.rows, s.rescheduled, s.lost) && config.maxAttempts <= most && s.rescheduled[id] <= most - 1
    ensures DoSettle(s, p, config, now, delay).rescheduled[id] <= most - 1
  {
  }

  lemma NextReschedules(s: System, step: Step, most: nat, id: Id)
    requires Inv(s) && most >= 1 && Within(step, most) && s.rescheduled[id] <= most - 1
    ensures Next(s, step).rescheduled[id] <= most - 1
  {
    hide TicketsOk, TicketsDiffer, SinkOk, RowsOk, First, DoSettle;
    if step.Settling? {
      SettleReschedules(s, step.publisher, step.config, step.now, step.delay, most, id);
    }
  }

  /** An unsettled row that has used up its attempts is still claimed: nobody releases it. */
  ghost predicate SpentAreHeld(rows: Rows, most: nat) {
    forall id :: id in rows && !rows[id].Settled() && rows[id].attempts >= most ==> rows[id].claim.Some?
  }

  lemma NextKeepsSpent(s: System, step: Step, most: nat)
    requires most >= 1 && Within(step, most) && SpentAreHeld(s.rows, most)
    ensures SpentAreHeld(Next(s, step).rows, most)
  {
    hide First;
  }

  lemma {:induction false} SpentStayHeld(steps: seq<Step>, most: nat)
    requires most >= 1 && AllWithin(steps, most)
    ensures SpentAreHeld(Run(steps).rows, most)
  {
    if steps != [] {
      var front := steps[..|steps| - 1];
      hide Next;
      SpentStayHeld(front, most);
      assert Within(steps[|steps| - 1], most);
      NextKeepsSpent(Run(front), steps[|steps| - 1], most);
    }
  }

  /** A claim takes a message past the maximum if and only if it takes over an expired claim of a
      message that has used up its attempts; the query does not look at the count. */
  lemma ClaimExceedsIff(steps: seq<Step>, step: Step, most: nat)
    requires most >= 1 && AllWithin(steps, most)
    requires step.Claim? && step.id in Run(steps).rows && Next(Run(steps), step).rows != Run(steps).rows
    ensures var m := Run(steps).rows[step.id];
            Next(Run(steps), step).rows[step.id].attempts > most <==> m.claim.Some? && m.attempts >= most
  {
    SpentStayHeld(steps, most);
  }

  lemma RunOne(steps: seq<Step>, step: Step)
    ensures Run(steps + [step]) == Next(Run(steps), step)
  {
    assert (steps + [step])[..|steps|] == steps;
  }

  /** Attempts can pass the configured maximum: a publisher dies holding the only attempt it
      allows, and its successor claims once more. */
  lemma CrashesOutrunMaxAttempts()
    ensures exists steps: seq<Step>, id: Id ::
              AllWithin(steps, 1) && id in Run(steps).rows && Run(steps).rows[id].attempts > 1
  {
    var id := Id(Name("t"), Name("m"));
    var config := Config(Name("w"), 5, 1);
    var clean := Message(0, 0, None, 0, None, None, None);
    var held := clean.(claim := Some(Lease(Name("w"), 5)), attempts := 1);
    var a := Enqueue(id, 0, 0);
    var b := Claim(0, config, id, 0, {});
    var c := Crash(0);
    var d := Claim(0, config, id, 5, {});
    RunOne([], a);
    assert First(map[id := clean], {}, 0, id);
    RunOne([] + [a], b);
    RunOne([] + [a] + [b], c);
    var s := Run([] + [a] + [b] + [c]);
    assert s.rows == map[id := held] && 0 !in s.publishers;
    assert First(map[id := held], {}, 5, id);
    RunOne([] + [a] + [b] + [c], d);
    assert AllWithin([] + [a] + [b] + [c] + [d], 1);
  }
}
