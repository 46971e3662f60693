/** The decision cache in front of the live authorizer.

    A decision is cached under everything in the request but its request ID, so the key here
    is the request's scope.
 */
module Freshness {
  import opened Text
  import opened Bags
  import opened Authorization

  datatype Config = Config(allowTTL: Time, denyTTL: Time, maxEntries: nat, revocations: bool)

  predicate ValidConfig(c: Config) {
    && 0 <= c.allowTTL && 0 <= c.denyTTL
    && (c.maxEntries > 0 ==> c.revocations && (c.allowTTL != 0 || c.denyTTL != 0))
  }

  datatype Entry = Entry(decision: Decision, until: Time)

  type Entries = map<Scope, Entry>

  datatype Revocation = Revocation(epoch: nat, checkpoint: Name)

  predicate ValidAt(d: Decision, now: Time) {
    d.issuedAt <= now && d.notBefore <= now < d.expiresAt
  }

  /** validateFreshDecision succeeds. */
  predicate Fresh(d: Decision, r: Request, now: Time) {
    ValidFor(d, r) && ValidAt(d, now)
  }

  predicate Matches(d: Decision, current: Revocation) {
    current.epoch <= d.revocationEpoch && (d.revocationEpoch == current.epoch ==> d.checkpoint == current.checkpoint)
  }

  predicate Servable(e: Entry, r: Request, now: Time, current: Revocation) {
    var d := e.decision.(requestID := r.id);
    now < e.until && Fresh(d, r, now) && Matches(d, current)
  }

  /** A hit is re-labelled with the caller's request ID; an unusable entry is dropped. */
  function Cached(entries: Entries, r: Request, now: Time, current: Revocation): (Entries, Option<Decision>) {
    if r.scope !in entries then (entries, None)
    else if Servable(entries[r.scope], r, now, current)
    then (entries, Some(entries[r.scope].decision.(requestID := r.id)))
    else (Without(entries, r.scope), None)
  }

  function Ttl(c: Config, d: Decision): Time {
    if d.outcome.Deny? then c.denyTTL else c.allowTTL
  }

  function Until(c: Config, d: Decision, now: Time): Time {
    if d.expiresAt < now + Ttl(c, d) then d.expiresAt else now + Ttl(c, d)
  }

  predicate Stores(c: Config, entries: Entries, key: Scope, d: Decision, now: Time) {
    && c.maxEntries != 0 && Ttl(c, d) != 0 && now < Until(c, d, now)
    && (key in entries || |entries| < c.maxEntries)
  }

  function Stored(c: Config, entries: Entries, key: Scope, d: Decision, now: Time): Entries {
    if Stores(c, entries, key, d, now) then entries[key := Entry(d, Until(c, d, now))] else entries
  }

  /** What was stored is served: to the same scope, until its time to live or its expiry, as long as
      it is valid for the request and agrees with the revocation state. */
  lemma StoredIsServed(c: Config, entries: Entries, d: Decision, now: Time, r: Request, later: Time, current: Revocation)
    requires c.maxEntries > 0 && now < d.expiresAt && (r.scope in entries || |entries| < c.maxEntries)
    requires now <= later
    requires Fresh(d.(requestID := r.id), r, later)
    requires current.epoch < d.revocationEpoch || (current.epoch == d.revocationEpoch && current.checkpoint == d.checkpoint)
    requires if d.outcome.Deny? then later < now + c.denyTTL else later < now + c.allowTTL
    ensures Cached(Stored(c, entries, r.scope, d, now), r, later, current).1 == Some(d.(requestID := r.id))
  {
    hide ValidFor;
  }

  method ValidateFresh(d: Decision, r: Request, now: Time) returns (ok: bool)
    ensures ok <==> Fresh(d, r, now)
  {
    hide ValidFor;
    var valid := ValidateDecision(d, r);
    if !valid {
      return false;
    }
    return !(now < d.issuedAt || now < d.notBefore || !(now < d.expiresAt));
  }

  class FreshAuthorizer {
    const config: Config
    var entries: Entries

    constructor (config: Config)
      requires ValidConfig(config)
      ensures this.config == config && entries == map[]
    {
      this.config := config;
      entries := map[];
    }

    method LookUp(r: Request, now: Time, current: Revocation) returns (decision: Option<Decision>)
      modifies this
      ensures (entries, decision) == Cached(old(entries), r, now, current)
    {
      var key := r.scope;
      if key !in entries {
        return None;
      }
      var entry := entries[key];
      var relabelled := entry.decision.(requestID := r.id);
      var valid := ValidateFresh(relabelled, r, now);
      if !(now < entry.until) || !valid
         || relabelled.revocationEpoch < current.epoch
         || (relabelled.revocationEpoch == current.epoch && relabelled.checkpoint != current.checkpoint) {
        entries := Without(entries, key);
        return None;
      }
      return Some(relabelled);
    }

    method Store(key: Scope, d: Decision, now: Time)
      modifies this
      ensures entries == Stored(config, old(entries), key, d, now)
    {
      if config.maxEntries == 0 {
        return;
      }
      var ttl := config.allowTTL;
      if d.outcome.Deny? {
        ttl := config.denyTTL;
      }
      if ttl == 0 {
        return;
      }
      var until := now + ttl;
      if d.expiresAt < until {
        until := d.expiresAt;
      }
      if !(now < until) {
        return;
      }
      if key !in entries && |entries| >= config.maxEntries {
        return;
      }
      entries := entries[key := Entry(d, until)];
    }
  }
}
