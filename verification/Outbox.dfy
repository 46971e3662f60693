/** The outbox table, its publishers, and the retry backoff.

    Claiming is one transaction and settling is one statement; both are atomic here. A
    publisher may stop between any two of its steps.
 */
module Outbox {
  import opened Text

  datatype Id = Id(tenant: Name, outbox: Name)

  datatype ErrorClass = Transient | Permanent | Poison | UnknownError

  datatype Lease = Lease(owner: Name, until: Time)

  datatype Message = Message(
    createdAt: Time, availableAt: Time, claim: Option<Lease>, attempts: nat,
    lastError: Option<ErrorClass>, published: Option<Name>, dead: Option<ErrorClass>)
  {
    predicate Settled() {
      published.Some? || dead.Some?
    }
  }

  type Rows = map<Id, Message>

  datatype Config = Config(owner: Name, lease: Time, maxAttempts: nat)

  // ---------------------------------------------------------------- claiming

  predicate Ready(m: Message, now: Time) {
    !m.Settled() && m.availableAt <= now && (m.claim.Some? ==> m.claim.value.until <= now)
  }

  lemma ReadyIff(m: Message, now: Time)
    ensures Ready(m, now) <==> m.published.None? && m.dead.None? && m.availableAt <= now
                               && (m.claim.None? || m.claim.value.until <= now)
  {
  }

  /** ORDER BY available_at, tenant_id, outbox_id. */
  predicate Earlier(rows: Rows, a: Id, b: Id)
    requires a in rows && b in rows
  {
    var x, y := rows[a].availableAt, rows[b].availableAt;
    if x != y then x < y
    else if a.tenant != b.tenant then Less(a.tenant.text, b.tenant.text)
    else Less(a.outbox.text, b.outbox.text)
  }

  /** A candidate the statement may take: ready and not locked by another transaction. */
  predicate Candidate(rows: Rows, locked: set<Id>, now: Time, id: Id) {
    id in rows && id !in locked && Ready(rows[id], now)
  }

  ghost predicate FirstAmong(rows: Rows, ids: set<Id>, locked: set<Id>, now: Time, id: Id)
    requires ids <= rows.Keys
  {
    && Candidate(rows, locked, now, id)
    && forall j :: j in ids && j != id && Candidate(rows, locked, now, j) ==> Earlier(rows, id, j)
  }

  ghost predicate First(rows: Rows, locked: set<Id>, now: Time, id: Id) {
    FirstAmong(rows, rows.Keys, locked, now, id)
  }

  lemma EarlierTotal(rows: Rows, a: Id, b: Id)
    requires a in rows && b in rows
    ensures a == b <==> !Earlier(rows, a, b) && !Earlier(rows, b, a)
    ensures !(Earlier(rows, a, b) && Earlier(rows, b, a))
  {
    LessTotal(a.tenant.text, b.tenant.text);
    LessTotal(a.outbox.text, b.outbox.text);
  }

  lemma EarlierTransitive(rows: Rows, a: Id, b: Id, c: Id)
    requires a in rows && b in rows && c in rows && Earlier(rows, a, b) && Earlier(rows, b, c)
    ensures Earlier(rows, a, c)
  {
    LessTotal(a.tenant.text, b.tenant.text);
    LessTotal(b.tenant.text, c.tenant.text);
    if a.tenant == b.tenant == c.tenant {
      if rows[a].availableAt == rows[b].availableAt == rows[c].availableAt {
        LessTransitive(a.outbox.text, b.outbox.text, c.outbox.text);
      }
    } else if a.tenant != b.tenant && b.tenant != c.tenant && Less(a.tenant.text, b.tenant.text)
              && Less(b.tenant.text, c.tenant.text) {
      LessTransitive(a.tenant.text, b.tenant.text, c.tenant.text);
      LessTotal(a.tenant.text, c.tenant.text);
    }
  }

  function Claimed(m: Message, config: Config, now: Time): Message {
    m.(claim := Some(Lease(config.owner, now + config.lease)), attempts := m.attempts + 1)
  }

  /** What the publisher remembers of its claim. */
  datatype Ticket = Ticket(id: Id, owner: Name, until: Time, attempt: nat)

  function TicketFor(rows: Rows, config: Config, now: Time, id: Id): Ticket
    requires id in rows
  {
    Ticket(id, config.owner, now + config.lease, rows[id].attempts + 1)
  }

  // ---------------------------------------------------------------- settling

  /** The guard shared by the three settling statements. */
  predicate Owns(rows: Rows, t: Ticket) {
    && t.id in rows
    && rows[t.id].claim == Some(Lease(t.owner, t.until)) && rows[t.id].attempts == t.attempt
    && !rows[t.id].Settled()
  }

  datatype Answer = Acknowledged(ref: Name) | Failed(kind: ErrorClass)

  /** A publisher between its steps: sending, or with the sink's answer in hand. */
  datatype Publisher = Sending(ticket: Ticket) | Accepted(ticket: Ticket, ref: Name)
                     | Refused(ticket: Ticket, kind: ErrorClass)

  predicate Blank(ref: Name) {
    forall c :: c in ref.text ==> Space(c)
  }

  /** A reference of white space only counts as a poisonous answer. */
  function Digest(t: Ticket, answer: Answer): Publisher {
    match answer
    case Failed(kind) => Refused(t, kind)
    case Acknowledged(ref) => if Blank(ref) then Refused(t, Poison) else Accepted(t, ref)
  }

  datatype Settlement = Publish(ref: Name) | DeadLetter(kind: ErrorClass) | Retry(kind: ErrorClass, at: Time)

  function Settle(m: Message, s: Settlement): Message {
    match s
    case Publish(ref) => m.(published := Some(ref), claim := None)
    case DeadLetter(kind) => m.(dead := Some(kind), lastError := Some(kind), claim := None)
    case Retry(kind, at) => m.(availableAt := at, lastError := Some(kind), claim := None)
  }

  /** The update takes effect when the ticket still owns the row; a retry before the message
      was created is refused by the table. */
  predicate Takes(rows: Rows, t: Ticket, s: Settlement) {
    Owns(rows, t) && (s.Retry? ==> rows[t.id].createdAt <= s.at)
  }

  function Apply(rows: Rows, t: Ticket, s: Settlement): (Rows, bool) {
    if Takes(rows, t, s) then (rows[t.id := Settle(rows[t.id], s)], true) else (rows, false)
  }

  /** How a failed publication is disposed of. */
  predicate IsDead(config: Config, t: Ticket, kind: ErrorClass) {
    kind.Permanent? || kind.Poison? || t.attempt >= config.maxAttempts
  }

  function Disposition(p: Publisher, config: Config, now: Time, delay: Time): Settlement
    requires !p.Sending?
  {
    if p.Accepted? then Publish(p.ref)
    else if IsDead(config, p.ticket, p.kind) then DeadLetter(p.kind)
    else Retry(p.kind, now + delay)
  }

  /** What becomes of a message whose ticket still owns it: published under the sink's own reference
      if that is not blank; dead if the failure is permanent or poisonous or the attempts are used
      up; otherwise waiting for the retry, if the table admits its time. */
  lemma AnswerDecides(rows: Rows, t: Ticket, answer: Answer, config: Config, now: Time, delay: Time)
    requires Owns(rows, t)
    ensures var m := rows[t.id];
            var (after, ok) := Apply(rows, t, Disposition(Digest(t, answer), config, now, delay));
            var good := answer.Acknowledged? && exists c :: c in answer.ref.text && !Space(c);
            var kind := if answer.Failed? then answer.kind else Poison;
            var dead := kind == Permanent || kind == Poison || m.attempts >= config.maxAttempts;
            && t.id in after && after.Keys == rows.Keys
            && (forall id :: id in rows && id != t.id ==> after[id] == rows[id])
            && after[t.id] == (
                 if good then m.(published := Some(answer.ref), claim := None)
                 else if dead then m.(dead := Some(kind), lastError := Some(kind), claim := None)
                 else if m.createdAt <= now + delay then
                   m.(availableAt := now + delay, lastError := Some(kind), claim := None)
                 else m)
            && (ok <==> good || dead || m.createdAt <= now + delay)
  {
  }

  /** A claimed message is the same message, counted once more and ready again, if it was to be
      available, exactly when the lease that was asked for has run out. */
  lemma ClaimHoldsForItsLease(m: Message, config: Config, now: Time, later: Time)
    requires Ready(m, now)
    ensures var c := Claimed(m, config, now);
            && c == m.(claim := c.claim, attempts := m.attempts + 1)
            && c.claim.Some? && c.claim.value.owner == config.owner
            && (Ready(c, later) <==> m.availableAt <= later && now + config.lease <= later)
  {
  }

  // ---------------------------------------------------------------- the table in place

  class OutboxTable {
    var rows: Rows

    /** SELECT ... ORDER BY ... SKIP LOCKED LIMIT 1, then claim it. */
    method ClaimOne(config: Config, now: Time, locked: set<Id>) returns (ticket: Option<Ticket>)
      modifies this
      ensures ticket.None? ==> rows == old(rows) && forall j :: !Candidate(rows, locked, now, j)
      ensures ticket.Some? ==>
                && First(old(rows), locked, now, ticket.value.id)
                && ticket.value == TicketFor(old(rows), config, now, ticket.value.id)
                && rows == old(rows)[ticket.value.id := Claimed(old(rows)[ticket.value.id], config, now)]
    {
      var best := FindFirst(rows, locked, now);
      if best.None? {
        return None;
      }
      var id := best.value;
      var until := now + config.lease;
      var m := rows[id];
      rows := rows[id := Message(m.createdAt, m.availableAt, Some(Lease(config.owner, until)), m.attempts + 1,
                                 m.lastError, m.published, m.dead)];
      return Some(Ticket(id, config.owner, until, m.attempts + 1));
    }

    /** UPDATE ... WHERE: every row is tried, and exactly one must have been affected. A retry
        the table refuses fails the statement as a whole. */
    method Update(t: Ticket, s: Settlement) returns (ok: bool)
      modifies this
      ensures (rows, ok) == Apply(old(rows), t, s)
    {
      if s.Retry? && Owns(rows, t) && s.at < rows[t.id].createdAt {
        return false;
      }
      var affected := 0;
      var pending := rows.Keys;
      while pending != {}
        invariant pending <= rows.Keys == old(rows).Keys
        invariant forall id :: id in pending ==> rows[id] == old(rows)[id]
        invariant if t.id !in pending && Owns(old(rows), t) then
                    affected == 1 && rows == old(rows)[t.id := Settle(old(rows)[t.id], s)]
                  else affected == 0 && rows == old(rows)
      {
        var id :| id in pending;
        var m := rows[id];
        if id == t.id && m.claim == Some(Lease(t.owner, t.until)) && m.attempts == t.attempt
           && m.published.None? && m.dead.None? {
          match s {
            case Publish(ref) =>
              rows := rows[id := m.(published := Some(ref), claim := None)];
            case DeadLetter(kind) =>
              rows := rows[id := m.(dead := Some(kind), lastError := Some(kind), claim := None)];
            case Retry(kind, at) =>
              rows := rows[id := m.(availableAt := at, lastError := Some(kind), claim := None)];
          }
          affected := affected + 1;
        }
        pending := pending - {id};
      }
      return affected == 1;
    }

    /** What PublishOne does with the sink's answer. */
    method Conclude(config: Config, t: Ticket, answer: Answer, now: Time, delay: Time) returns (ok: bool)
      modifies this
      ensures (rows, ok) == Apply(old(rows), t, Disposition(Digest(t, answer), config, now, delay))
    {
      var kind := Poison;
      match answer {
        case Acknowledged(ref) =>
          if exists c :: c in ref.text && !Space(c) {
            ok := Update(t, Publish(ref));
            return;
          }
        case Failed(failure) =>
          kind := failure;
      }
      if kind == Permanent || kind == Poison || t.attempt >= config.maxAttempts {
        ok := Update(t, DeadLetter(kind));
      } else {
        ok := Update(t, Retry(kind, now + delay));
      }
    }
  }

  /** What a settling statement may touch: the ticket's own row, claimed under that attempt. It
      gives the claim up, settles the message or moves its availability, and keeps the count. */
  lemma SettlementIsExact(rows: Rows, t: Ticket, s: Settlement, id: Id)
    requires id in rows
    ensures var (after, ok) := Apply(rows, t, s);
            && id in after
            && (after[id] != rows[id] ==> ok && id == t.id && rows[id].attempts == t.attempt && rows[id].claim.Some?)
            && after[id].attempts == rows[id].attempts && after[id].createdAt == rows[id].createdAt
            && (ok && id == t.id ==>
                  && after[id].claim.None? && (after[id].Settled() <==> !s.Retry?)
                  && (s.Retry? ==> after[id].availableAt == s.at))
  {
  }

  method FindFirst(rows: Rows, locked: set<Id>, now: Time) returns (best: Option<Id>)
    ensures best.None? ==> forall j :: !Candidate(rows, locked, now, j)
    ensures best.Some? ==> First(rows, locked, now, best.value)
  {
    best := None;
    var pending := rows.Keys;
    while pending != {}
      invariant pending <= rows.Keys
      invariant best.None? ==> forall j :: j in rows && j !in pending ==> !Candidate(rows, locked, now, j)
      invariant best.Some? ==> FirstAmong(rows, rows.Keys - pending, locked, now, best.value)
    {
      hide Ready, Earlier;
      var id :| id in pending;
      var m := rows[id];
      assert Candidate(rows, locked, now, id) <==>
             id !in locked && m.published.None? && m.dead.None? && m.availableAt <= now
             && (m.claim.None? || m.claim.value.until <= now) by { ReadyIff(m, now); }
      if id !in locked && m.published.None? && m.dead.None? && m.availableAt <= now
         && (m.claim.None? || m.claim.value.until <= now) {
        if best.None? {
          best := Some(id);
        } else {
          KeepBetter(rows, rows.Keys - pending, locked, now, best.value, id);
          OrderIsLexicographic(rows, id, best.value);
          if ComesFirst(rows[id], id, rows[best.value], best.value) {
            best := Some(id);
          }
        }
      }
      pending := pending - {id};
      assert rows.Keys - pending == rows.Keys - (pending + {id}) + {id};
    }
    assert rows.Keys - pending == rows.Keys;
  }

  /** ORDER BY as a comparison of rows. */
  predicate ComesFirst(m: Message, a: Id, n: Message, b: Id) {
    || m.availableAt < n.availableAt
    || (m.availableAt == n.availableAt && Less(a.tenant.text, b.tenant.text))
    || (m.availableAt == n.availableAt && a.tenant == b.tenant && Less(a.outbox.text, b.outbox.text))
  }

  lemma OrderIsLexicographic(rows: Rows, a: Id, b: Id)
    requires a in rows && b in rows
    ensures Earlier(rows, a, b) <==> ComesFirst(rows[a], a, rows[b], b)
  {
    LessTotal(a.tenant.text, b.tenant.text);
  }

  lemma KeepBetter(rows: Rows, ids: set<Id>, locked: set<Id>, now: Time, best: Id, id: Id)
    requires ids <= rows.Keys && FirstAmong(rows, ids, locked, now, best)
    requires Candidate(rows, locked, now, id)
    ensures if Earlier(rows, id, best) then FirstAmong(rows, ids + {id}, locked, now, id)
            else FirstAmong(rows, ids + {id}, locked, now, best)
  {
    hide Earlier, Ready;
    EarlierTotal(rows, id, best);
    if Earlier(rows, id, best) {
      forall j | j in ids + {id} && j != id && Candidate(rows, locked, now, j) ensures Earlier(rows, id, j) {
        if j != best {
          EarlierTransitive(rows, id, best, j);
        }
      }
    }
  }

  // ---------------------------------------------------------------- backoff

  function Power2(n: nat): nat {
    if n == 0 then 1 else 2 * Power2(n - 1)
  }

  function Capped(base: nat, attempt: nat, max: nat): nat {
    var d := base * Power2(if attempt == 0 then 0 else attempt - 1);
    if d < max then d else max
  }

  /** time.Duration: 64-bit nanoseconds, so every intermediate value must fit. */
  newtype Duration = x: int | -0x8000_0000_0000_0000 <= x < 0x8000_0000_0000_0000

  /** The doubling loop is exact, and no value on the way exceeds `max`. */
  method Backoff(base: Duration, max: Duration, attempt: int) returns (delay: Duration)
    requires 0 < base <= max
    ensures delay as int == Capped(base as nat, if attempt < 0 then 0 else attempt, max as nat)
  {
    delay := base;
    var i := 1;
    while i < attempt && delay < max
      invariant 1 <= i && (i <= attempt || i == 1)
      invariant base <= delay <= max
      invariant delay as int == Capped(base as nat, i, max as nat)
      decreases attempt - i
    {
      Doubled(base as nat, i);
      if delay > max / 2 {
        delay := max;
      } else {
        delay := delay * 2;
      }
      i := i + 1;
    }
    if i < attempt {
      PowersGrow(base as nat, i - 1, attempt - 1);
    }
    if delay > max {
      delay := max;
    }
  }

  lemma Doubled(base: nat, i: nat)
    requires i >= 1
    ensures base * Power2(i) == 2 * (base * Power2(i - 1))
  {
  }

  lemma {:induction false} PowersGrow(base: nat, m: nat, n: nat)
    requires m <= n
    ensures base * Power2(m) <= base * Power2(n)
    decreases n
  {
    if m < n {
      PowersGrow(base, m, n - 1);
      assert base * Power2(n) == 2 * (base * Power2(n - 1));
    }
  }

  lemma BackoffNeverShrinks(base: nat, max: nat, m: nat, n: nat)
    requires m <= n
    ensures Capped(base, m, max) <= Capped(base, n, max) <= max
  {
    PowersGrow(base, if m == 0 then 0 else m - 1, if n == 0 then 0 else n - 1);
  }

  /** The delay with jitter, over the reals; `random` is drawn from [0, 1). */
  function Jittered(delay: nat, jitter: real, random: real): real {
    delay as real * (1.0 - jitter + 2.0 * jitter * random)
  }

  lemma JitterStaysInBand(delay: nat, jitter: real, random: real)
    requires 0.0 <= jitter <= 1.0 && 0.0 <= random < 1.0
    ensures delay as real * (1.0 - jitter) <= Jittered(delay, jitter, random) <= delay as real * (1.0 + jitter)
  {
    var d := delay as real;
    var f := 1.0 - jitter + 2.0 * jitter * random;
    NonNegative(jitter, random);
    NonNegative(jitter, 1.0 - random);
    assert f == 1.0 - jitter + 2.0 * (jitter * random);
    assert f == 1.0 + jitter - 2.0 * (jitter * (1.0 - random));
    Scaled(d, 1.0 - jitter, f);
    Scaled(d, f, 1.0 + jitter);
  }

  /** The random number moves the delay evenly from one end of the band to the other. */
  lemma JitterIsEven(delay: nat, jitter: real, random: real)
    ensures Jittered(delay, jitter, 0.0) == delay as real * (1.0 - jitter)
    ensures Jittered(delay, jitter, 1.0) == delay as real * (1.0 + jitter)
    ensures Jittered(delay, jitter, random) ==
            Jittered(delay, jitter, 0.0) + random * (Jittered(delay, jitter, 1.0) - Jittered(delay, jitter, 0.0))
  {
    var d := delay as real;
    var f := 1.0 - jitter + 2.0 * jitter * random;
    assert Jittered(delay, jitter, 1.0) - Jittered(delay, jitter, 0.0) == d * (2.0 * jitter);
    assert random * (d * (2.0 * jitter)) == d * (2.0 * jitter * random);
    assert d * f == d * (1.0 - jitter) + d * (2.0 * jitter * random);
  }

  lemma NonNegative(x: real, y: real)
    requires 0.0 <= x && 0.0 <= y
    ensures 0.0 <= x * y
  {
  }

  lemma Scaled(d: real, x: real, y: real)
    requires 0.0 <= d && x <= y
    ensures d * x <= d * y
  {
    NonNegative(d, y - x);
    assert d * (y - x) == d * y - d * x;
  }
}
