/** The credential provider cache: its lock sections, one operation each.

    `Cache` is the state guarded by the mutex and `Lookup`, `Publish`, `Drop`, ... say what
    each critical section does to it. `ProviderCache` runs the same sections in place, with
    the loops over the entry table, and is proved to refine them.
 */
module CredentialCache {
  import opened Text
  import opened Preimages
  import opened Bags

  /** Identity of one capability object handed out by the provider. */
  type Source = nat

  datatype Selector = Selector(toolID: string, version: string, credentialSelector: string)

  datatype Binding = Binding(
    id: Name, tenant: Name, connector: Name, selectors: seq<Selector>,
    providerType: Name, providerRef: Name, kind: Name,
    audiences: seq<string>, resources: seq<string>, scopes: seq<string>,
    delegationMode: Name, trustedIssuer: Name,
    maximumTTL: Time, expirySkew: Time,
    revocationEpoch: Name, policyTags: seq<string>, enabled: bool)

  datatype Governed = Governed(subject: Name, runID: Name)

  datatype Metadata = Metadata(
    kind: Name, providerRef: Name, revocationEpoch: Name,
    audiences: seq<string>, resources: seq<string>, scopes: seq<string>, expiresAt: Time)

  datatype Config = Config(maxEntries: int, maximumTTL: Time, expirySkew: Time)

  const HOUR: Time := 3_600_000_000_000

  predicate ValidConfig(config: Config) {
    && 1 <= config.maxEntries <= 10000
    && 0 < config.maximumTTL <= 24 * HOUR
    && 0 <= config.expirySkew < config.maximumTTL
  }

  // ---------------------------------------------------------------- cache key

  /** What a cache key tells apart: fifteen fixed fields, and the lists run together. */
  datatype Key = Key(
    id: Name, tenant: Name, connector: Name, providerType: Name, providerRef: Name, kind: Name,
    delegationMode: Name, trustedIssuer: Name, revocationEpoch: Name, enabled: bool,
    maximumTTL: Time, expirySkew: Time, subject: Name, runID: Name, epoch: Name,
    lists: seq<string>)

  /** The parts hashed for a key, in order. */
  function KeyParts(k: Key): (parts: seq<string>)
    ensures |parts| == 15 + |k.lists|
  {
    [k.id.text, k.tenant.text, k.connector.text, k.providerType.text, k.providerRef.text, k.kind.text,
     k.delegationMode.text, k.trustedIssuer.text, k.revocationEpoch.text, if k.enabled then "true" else "false",
     FormatInt(k.maximumTTL), FormatInt(k.expirySkew), k.subject.text, k.runID.text, k.epoch.text] + k.lists
  }

  function SelectorParts(selectors: seq<Selector>): seq<string> {
    if selectors == [] then []
    else [selectors[0].toolID, selectors[0].version, selectors[0].credentialSelector] + SelectorParts(selectors[1..])
  }

  function ListParts(b: Binding): seq<string> {
    SelectorParts(b.selectors) + b.audiences + b.resources + b.scopes + b.policyTags
  }

  function CacheKey(b: Binding, g: Governed, epoch: Name): Key {
    Key(b.id, b.tenant, b.connector, b.providerType, b.providerRef, b.kind, b.delegationMode, b.trustedIssuer,
        b.revocationEpoch, b.enabled, b.maximumTTL, b.expirySkew, g.subject, g.runID, epoch, ListParts(b))
  }

  lemma KeyPartsInjective(k1: Key, k2: Key)
    requires KeyParts(k1) == KeyParts(k2)
    ensures k1 == k2
  {
    var p, q := KeyParts(k1), KeyParts(k2);
    assert p[0] == q[0] && p[1] == q[1] && p[2] == q[2] && p[3] == q[3] && p[4] == q[4];
    assert p[5] == q[5] && p[6] == q[6] && p[7] == q[7] && p[8] == q[8] && p[9] == q[9];
    assert p[10] == q[10] && p[11] == q[11] && p[12] == q[12] && p[13] == q[13] && p[14] == q[14];
    assert |"true"| != |"false"|;
    FormatIntInjective(k1.maximumTTL, k2.maximumTTL);
    FormatIntInjective(k1.expirySkew, k2.expirySkew);
    assert p[15..] == k1.lists && q[15..] == k2.lists;
  }

  /** The bytes hashed for two keys agree exactly when the keys do. */
  lemma HashedKeyFaithful(k1: Key, k2: Key)
    requires Sized(KeyParts(k1)) && Sized(KeyParts(k2))
    ensures LengthPrefixed(KeyParts(k1)) == LengthPrefixed(KeyParts(k2)) <==> k1 == k2
  {
    if LengthPrefixed(KeyParts(k1)) == LengthPrefixed(KeyParts(k2)) {
      LengthPrefixedInjective(KeyParts(k1), KeyParts(k2));
      KeyPartsInjective(k1, k2);
    }
  }

  /** Moving the last audience to the front of the resources leaves the key alone, so the
      key does not tell where one list ends. */
  lemma ListBoundaryIsNotHashed(b: Binding, g: Governed, epoch: Name)
    requires b.audiences != []
    ensures var n := |b.audiences| - 1;
            var b' := b.(audiences := b.audiences[..n], resources := [b.audiences[n]] + b.resources);
            CacheKey(b', g, epoch) == CacheKey(b, g, epoch) && b' != b
  {
    var n := |b.audiences| - 1;
    var b' := b.(audiences := b.audiences[..n], resources := [b.audiences[n]] + b.resources);
    assert b.audiences[..n] + ([b.audiences[n]] + b.resources) == b.audiences + b.resources;
    var s := SelectorParts(b.selectors);
    assert s + b'.audiences + b'.resources == s + (b'.audiences + b'.resources);
    assert s + b.audiences + b.resources == s + (b.audiences + b.resources);
    assert |b'.audiences| != |b.audiences|;
  }

  /** Under equal list lengths the key determines the whole binding. */
  lemma CacheKeyDeterminesLists(b1: Binding, g1: Governed, e1: Name, b2: Binding, g2: Governed, e2: Name)
    requires |b1.selectors| == |b2.selectors| && |b1.audiences| == |b2.audiences|
    requires |b1.resources| == |b2.resources| && |b1.scopes| == |b2.scopes|
    ensures CacheKey(b1, g1, e1) == CacheKey(b2, g2, e2) <==> b1 == b2 && g1 == g2 && e1 == e2
  {
    if CacheKey(b1, g1, e1) == CacheKey(b2, g2, e2) {
      var x, y := ListParts(b1), ListParts(b2);
      SelectorPartsLength(b1.selectors);
      SelectorPartsLength(b2.selectors);
      var i := 3 * |b1.selectors|;
      var j := i + |b1.audiences|;
      var k := j + |b1.resources|;
      var l := k + |b1.scopes|;
      assert x[..i] == SelectorParts(b1.selectors) && y[..i] == SelectorParts(b2.selectors);
      assert x[i..j] == b1.audiences && y[i..j] == b2.audiences;
      assert x[j..k] == b1.resources && y[j..k] == b2.resources;
      assert x[k..l] == b1.scopes && y[k..l] == b2.scopes;
      assert x[l..] == b1.policyTags && y[l..] == b2.policyTags;
      SelectorPartsInjective(b1.selectors, b2.selectors);
    }
  }

  lemma {:induction false} SelectorPartsLength(s: seq<Selector>)
    ensures |SelectorParts(s)| == 3 * |s|
  {
    if s != [] {
      SelectorPartsLength(s[1..]);
    }
  }

  lemma {:induction false} SelectorPartsInjective(s: seq<Selector>, t: seq<Selector>)
    requires |s| == |t| && SelectorParts(s) == SelectorParts(t)
    ensures s == t
  {
    if s != [] {
      var x, y := SelectorParts(s), SelectorParts(t);
      assert x[0] == y[0] && x[1] == y[1] && x[2] == y[2];
      assert x[3..] == SelectorParts(s[1..]) && y[3..] == SelectorParts(t[1..]);
      SelectorPartsInjective(s[1..], t[1..]);
      assert s == [s[0]] + s[1..] && t == [t[0]] + t[1..];
    }
  }

  // ---------------------------------------------------------------- entries

  datatype Entry = Entry(
    source: Source, expiresAt: Time, tenant: Name, bindingID: Name, runID: Name,
    providerType: Name, revocationEpoch: Name, lastUsed: nat)

  function Min(a: int, b: int): int {
    if a < b then a else b
  }

  function Max(a: int, b: int): int {
    if a < b then b else a
  }

  predicate MetadataMatches(m: Metadata, b: Binding) {
    && m.kind == b.kind && m.providerRef == b.providerRef && m.revocationEpoch == b.revocationEpoch
    && m.audiences == b.audiences && m.resources == b.resources && m.scopes == b.scopes
  }

  function EffectiveTTL(config: Config, b: Binding): Time {
    if 0 < b.maximumTTL < config.maximumTTL then b.maximumTTL else config.maximumTTL
  }

  /** When an entry loaded at `now` stops being served. */
  function Expiry(config: Config, b: Binding, m: Metadata, now: Time): (at: Time)
    ensures at <= m.expiresAt - config.expirySkew && at <= m.expiresAt - b.expirySkew
    ensures at <= now + config.maximumTTL
    ensures b.maximumTTL > 0 ==> at <= now + b.maximumTTL
    ensures || at == m.expiresAt - config.expirySkew || at == m.expiresAt - b.expirySkew
            || at == now + config.maximumTTL || (b.maximumTTL > 0 && at == now + b.maximumTTL)
  {
    Min(m.expiresAt - Max(config.expirySkew, b.expirySkew), now + EffectiveTTL(config, b))
  }

  /** The provider's answer: possibly a capability, possibly an error, possibly both. */
  datatype Loaded = Loaded(source: Option<(Source, Metadata)>, failed: bool)

  function PrepareEntry(config: Config, b: Binding, g: Governed, now: Time, l: Loaded): Option<Entry> {
    if l.failed || l.source.None? then None
    else
      var (source, m) := l.source.value;
      var at := Expiry(config, b, m, now);
      if !MetadataMatches(m, b) || !(now < at) then None
      else Some(Entry(source, at, b.tenant, b.id, g.runID, b.providerType, b.revocationEpoch, 0))
  }

  // ---------------------------------------------------------------- cache state

  type Entries = map<Key, Entry>

  datatype Cache = Cache(
    entries: Entries, inflight: set<Key>, epochs: map<Name, Name>,
    sequence: nat, closed: bool, released: multiset<Source>)

  const NO_EPOCH: Name := Name("")

  const EMPTY: Cache := Cache(map[], {}, map[], 0, false, multiset{})

  function EpochOf(c: Cache, providerType: Name): Name {
    if providerType in c.epochs then c.epochs[providerType] else NO_EPOCH
  }

  function SourceOf(e: Entry): multiset<Source> {
    multiset{e.source}
  }

  /** Sources held by a table, counted once per entry. */
  ghost function Sources(m: Entries): multiset<Source> {
    Bag(m, SourceOf)
  }

  /** Which entries an eviction removes. */
  datatype Filter =
    | All
    | OfBinding(tenant: Name, bindingID: Name)
    | OfRun(tenant: Name, runID: Name)
    | OfProvider(providerType: Name)
    | ExpiredAt(now: Time)
    | RevokedFor(tenant: Name, bindingID: Name, revocationEpoch: Name)
  {
    predicate Hits(e: Entry) {
      match this
      case All => true
      case OfBinding(tenant, bindingID) => e.tenant == tenant && e.bindingID == bindingID
      case OfRun(tenant, runID) => e.tenant == tenant && e.runID == runID
      case OfProvider(providerType) => e.providerType == providerType
      case ExpiredAt(now) => !(now < e.expiresAt)
      case RevokedFor(tenant, bindingID, epoch) =>
        e.tenant == tenant && e.bindingID == bindingID && e.revocationEpoch != epoch
    }
  }

  function Selected(m: Entries, f: Filter): (ks: set<Key>)
    ensures ks <= m.Keys
  {
    set k | k in m && f.Hits(m[k])
  }

  /** Drop the entries at `ks`, releasing their sources. */
  ghost function Discard(c: Cache, ks: set<Key>): Cache
    requires ks <= c.entries.Keys
  {
    c.(entries := Drop(c.entries, ks), released := c.released + BagOver(ks, c.entries, SourceOf))
  }

  /** Drop every entry the filter hits. */
  ghost function Evict(c: Cache, f: Filter): Cache {
    Discard(c, Selected(c.entries, f))
  }

  /** An eviction leaves what its filter does not hit, as it is. */
  lemma EvictLeaves(c: Cache, f: Filter, k: Key)
    ensures k in Evict(c, f).entries <==> k in c.entries && !f.Hits(c.entries[k])
    ensures k in Evict(c, f).entries ==> Evict(c, f).entries[k] == c.entries[k]
  {
    hide BagOver;
  }

  /** Which entries each eviction is for. */
  lemma FilterMeans(e: Entry, tenant: Name, binding: Name, run: Name, provider: Name, epoch: Name, now: Time)
    ensures OfBinding(tenant, binding).Hits(e) <==> e.tenant == tenant && e.bindingID == binding
    ensures OfRun(tenant, run).Hits(e) <==> e.tenant == tenant && e.runID == run
    ensures OfProvider(provider).Hits(e) <==> e.providerType == provider
    ensures ExpiredAt(now).Hits(e) <==> e.expiresAt <= now
    ensures RevokedFor(tenant, binding, epoch).Hits(e) <==>
            e.tenant == tenant && e.bindingID == binding && e.revocationEpoch != epoch
    ensures All.Hits(e)
  {
  }

  lemma RunEvictionLeaves(c: Cache, tenant: Name, run: Name, k: Key)
    ensures k in Evict(c, OfRun(tenant, run)).entries <==>
            k in c.entries && (c.entries[k].tenant != tenant || c.entries[k].runID != run)
    ensures k in Evict(c, OfRun(tenant, run)).entries ==> Evict(c, OfRun(tenant, run)).entries[k] == c.entries[k]
  {
    hide Evict;
    EvictLeaves(c, OfRun(tenant, run), k);
  }

  lemma BindingEvictionLeaves(c: Cache, tenant: Name, id: Name, k: Key)
    ensures k in Evict(c, OfBinding(tenant, id)).entries <==>
            k in c.entries && (c.entries[k].tenant != tenant || c.entries[k].bindingID != id)
    ensures k in Evict(c, OfBinding(tenant, id)).entries ==> Evict(c, OfBinding(tenant, id)).entries[k] == c.entries[k]
  {
    hide Evict;
    EvictLeaves(c, OfBinding(tenant, id), k);
  }

  lemma ProviderEvictionLeaves(c: Cache, provider: Name, k: Key)
    ensures k in Evict(c, OfProvider(provider)).entries <==> k in c.entries && c.entries[k].providerType != provider
    ensures k in Evict(c, OfProvider(provider)).entries ==> Evict(c, OfProvider(provider)).entries[k] == c.entries[k]
  {
    hide Evict;
    EvictLeaves(c, OfProvider(provider), k);
  }

  /** Before every lookup, what has expired goes, and what this binding has been revoked for; all
      else stays as it is. */
  lemma PurgeLeaves(c: Cache, now: Time, b: Binding, k: Key)
    ensures k in Purge(c, now, b).entries <==>
            k in c.entries && now < c.entries[k].expiresAt &&
            (c.entries[k].tenant == b.tenant && c.entries[k].bindingID == b.id ==>
               c.entries[k].revocationEpoch == b.revocationEpoch)
    ensures k in Purge(c, now, b).entries ==> Purge(c, now, b).entries[k] == c.entries[k]
  {
    hide Evict;
    var f := RevokedFor(b.tenant, b.id, b.revocationEpoch);
    EvictLeaves(c, f, k);
    EvictLeaves(Evict(c, f), ExpiredAt(now), k);
  }

  // ---------------------------------------------------------------- least recently used

  ghost predicate OldestAmong(m: Entries, ks: set<Key>, k: Key)
    requires ks <= m.Keys
  {
    k in ks && forall j :: j in ks ==> m[k].lastUsed <= m[j].lastUsed
  }

  ghost predicate IsOldest(m: Entries, k: Key) {
    OldestAmong(m, m.Keys, k)
  }

  lemma {:induction false} OldestExists(m: Entries, ks: set<Key>)
    requires ks != {} && ks <= m.Keys
    ensures exists k :: OldestAmong(m, ks, k)
  {
    var j :| j in ks;
    var rest := ks - {j};
    if rest == {} {
      assert ks == {j};
      assert OldestAmong(m, ks, j);
    } else {
      OldestExists(m, rest);
      var k :| OldestAmong(m, rest, k);
      assert ks == rest + {j};
      assert OldestAmong(m, ks, if m[j].lastUsed < m[k].lastUsed then j else k);
    }
  }

  ghost predicate SameUse(m: Entries, j: Key, k: Key) {
    j in m && k in m && m[j].lastUsed == m[k].lastUsed
  }

  ghost predicate DistinctUse(m: Entries) {
    forall j, k :: SameUse(m, j, k) ==> j == k
  }

  lemma FewerStayDistinct(m: Entries, r: Entries)
    requires DistinctUse(m) && r.Keys <= m.Keys && forall k :: k in r ==> r[k] == m[k]
    ensures DistinctUse(r)
  {
    forall j, k | SameUse(r, j, k) ensures j == k {
      assert SameUse(m, j, k);
    }
  }

  lemma NewestStaysDistinct(m: Entries, key: Key, e: Entry)
    requires DistinctUse(m) && forall k :: k in m ==> m[k].lastUsed < e.lastUsed
    ensures DistinctUse(m[key := e])
  {
    var m' := m[key := e];
    forall j, k | SameUse(m', j, k) ensures j == k {
      assert j != key && k != key ==> SameUse(m, j, k);
    }
  }

  ghost function Oldest(m: Entries): (k: Key)
    requires m != map[]
    ensures IsOldest(m, k)
  {
    assert m.Keys != {};
    OldestExists(m, m.Keys);
    var k :| OldestAmong(m, m.Keys, k);
    k
  }

  /** The least recently used entries beyond `limit`. */
  ghost function Surplus(m: Entries, limit: nat): (ks: set<Key>)
    ensures ks <= m.Keys
    ensures |m| <= limit ==> ks == {}
    decreases |m|
  {
    if |m| <= limit then {}
    else var k := Oldest(m); {k} + Surplus(Without(m, k), limit)
  }

  lemma {:induction false} SurplusSize(m: Entries, limit: nat)
    ensures |Drop(m, Surplus(m, limit))| <= limit
    decreases |m|
  {
    if |m| <= limit {
      assert Drop(m, {}) == m;
    } else {
      var k := Oldest(m);
      SurplusSize(Without(m, k), limit);
      DropAgain(m, k, Surplus(Without(m, k), limit));
    }
  }

  lemma {:induction false} SurplusLeavesSome(m: Entries, limit: nat) returns (k: Key)
    requires limit > 0 && m != map[]
    ensures k in m && k !in Surplus(m, limit)
    decreases |m|
  {
    if |m| <= limit {
      k :| k in m.Keys;
    } else {
      var o := Oldest(m);
      assert |Without(m, o)| > 0;
      k := SurplusLeavesSome(Without(m, o), limit);
    }
  }

  /** Whatever is evicted was used before everything that stays. */
  lemma {:induction false} SurplusIsLRU(m: Entries, limit: nat, gone: Key, kept: Key)
    requires DistinctUse(m)
    requires gone in Surplus(m, limit) && kept in m && kept !in Surplus(m, limit)
    ensures m[gone].lastUsed < m[kept].lastUsed
    decreases |m|
  {
    var k := Oldest(m);
    FewerStayDistinct(m, Without(m, k));
    assert !SameUse(m, k, kept);
    if gone != k {
      SurplusIsLRU(Without(m, k), limit, gone, kept);
    }
  }

  /** With distinct stamps the oldest entry is unique, so any scan finds the same one. */
  lemma SurplusStep(m: Entries, k: Key, limit: nat)
    requires DistinctUse(m) && IsOldest(m, k) && |m| > limit
    ensures Surplus(m, limit) == {k} + Surplus(Without(m, k), limit)
    ensures DistinctUse(Without(m, k))
  {
    assert SameUse(m, Oldest(m), k);
    FewerStayDistinct(m, Without(m, k));
  }

  // ---------------------------------------------------------------- lock sections

  datatype LookupResult =
    | Closed
    | Hit(key: Key, source: Source)
    | Wait(key: Key)
    | Reserved(key: Key, epoch: Name)

  /** Drop what the binding's revocation epoch or the clock has made stale. */
  ghost function Purge(c: Cache, now: Time, b: Binding): Cache {
    Evict(Evict(c, RevokedFor(b.tenant, b.id, b.revocationEpoch)), ExpiredAt(now))
  }

  /** Make an entry the most recently used one. */
  function Touch(c: Cache, key: Key): Cache
    requires key in c.entries
  {
    c.(sequence := c.sequence + 1, entries := c.entries[key := c.entries[key].(lastUsed := c.sequence + 1)])
  }

  /** Put a prepared entry in the table as the most recently used one. */
  function Insert(c: Cache, key: Key, e: Entry): Cache {
    c.(sequence := c.sequence + 1, entries := c.entries[key := e.(lastUsed := c.sequence + 1)])
  }

  ghost function Trim(c: Cache, limit: nat): Cache {
    Discard(c, Surplus(c.entries, limit))
  }

  ghost function Lookup(c: Cache, now: Time, b: Binding, g: Governed): (Cache, LookupResult) {
    if c.closed then (c, Closed)
    else
      var epoch := EpochOf(c, b.providerType);
      var key := CacheKey(b, g, epoch);
      var c1 := Purge(c, now, b);
      if key in c1.entries && now < c1.entries[key].expiresAt then (Touch(c1, key), Hit(key, c1.entries[key].source))
      else if key in c1.inflight then (c1, Wait(key))
      else (c1.(inflight := c1.inflight + {key}), Reserved(key, epoch))
  }

  /** Finish a load: store the prepared entry, or give the source back. */
  ghost function Publish(c: Cache, config: Config, key: Key, epoch: Name, providerType: Name,
                         source: Option<Source>, entry: Option<Entry>): (Cache, bool)
    requires ValidConfig(config)
  {
    var c1 := c.(inflight := c.inflight - {key});
    if entry.Some? && !c.closed && EpochOf(c, providerType) == epoch then
      (Trim(Insert(c1, key, entry.value), config.maxEntries), true)
    else if source.Some? then (c1.(released := c.released + multiset{source.value}), false)
    else (c1, false)
  }

  /** Drop one entry, if it is still the one the caller saw. */
  ghost function DropEntry(c: Cache, key: Key, source: Source): Cache {
    if key in c.entries && c.entries[key].source == source then
      Discard(c, {key})
    else c
  }

  /** Dropping a stored entry gives its source back once and touches nothing else. */
  lemma DropLeaves(c: Cache, key: Key, source: Source, k: Key)
    requires key in c.entries && c.entries[key].source == source
    ensures var d := DropEntry(c, key, source);
            && d.released == c.released + multiset{source} && d.epochs == c.epochs
            && key !in d.entries
            && (k != key && k in c.entries ==> k in d.entries && d.entries[k] == c.entries[k])
  {
    BagOne(key, c.entries, SourceOf);
    hide BagOver;
  }

  /** A hit is on the stored entry of the caller's own key. */
  lemma HitIsStored(c: Cache, now: Time, b: Binding, g: Governed)
    ensures var h := Lookup(c, now, b, g).1;
            h.Hit? ==>
            && h.key == CacheKey(b, g, EpochOf(c, b.providerType)) && h.key in c.entries
            && h.source == c.entries[h.key].source
  {
    var key := CacheKey(b, g, EpochOf(c, b.providerType));
    hide CacheKey;
    PurgeLeaves(c, now, b, key);
    hide Purge;
  }

  predicate ValidName(n: Name) {
    ValidText(n.text, 512) && NoControls(n.text)
  }

  ghost function SetEpoch(c: Cache, providerType: Name, epoch: Name): (Cache, bool) {
    if !ValidName(providerType) || !(epoch == NO_EPOCH || ValidName(epoch)) || c.closed then (c, false)
    else if EpochOf(c, providerType) == epoch then (c, true)
    else (Evict(c.(epochs := c.epochs[providerType := epoch]), OfProvider(providerType)), true)
  }

  ghost function Shut(c: Cache): Cache {
    Evict(c.(closed := true), All)
  }

  // ---------------------------------------------------------------- what every section keeps

  /** Use stamps are distinct and never ahead of the counter, the table is bounded, and a
      closed cache is empty. */
  ghost predicate ValidCache(c: Cache, config: Config) {
    && ValidConfig(config)
    && DistinctUse(c.entries)
    && (forall k :: k in c.entries ==> c.entries[k].lastUsed <= c.sequence)
    && |c.entries| <= config.maxEntries
    && (c.closed ==> c.entries == map[])
  }

  lemma EvictKeepsValid(c: Cache, f: Filter, config: Config)
    requires ValidCache(c, config)
    ensures ValidCache(Evict(c, f), config)
  {
    DropSize(c.entries, Selected(c.entries, f));
    FewerStayDistinct(c.entries, Evict(c, f).entries);
  }

  lemma PurgeKeepsValid(c: Cache, now: Time, b: Binding, config: Config)
    requires ValidCache(c, config)
    ensures ValidCache(Purge(c, now, b), config)
  {
    hide BagOver;
    EvictKeepsValid(c, RevokedFor(b.tenant, b.id, b.revocationEpoch), config);
    EvictKeepsValid(Evict(c, RevokedFor(b.tenant, b.id, b.revocationEpoch)), ExpiredAt(now), config);
  }

  lemma LookupKeepsValid(c: Cache, now: Time, b: Binding, g: Governed, config: Config)
    requires ValidCache(c, config)
    ensures ValidCache(Lookup(c, now, b, g).0, config)
  {
    hide BagOver, Purge;
    if !c.closed {
      PurgeKeepsValid(c, now, b, config);
      var r := Lookup(c, now, b, g).1;
      if r.Hit? {
        TouchKeepsValid(Purge(c, now, b), r.key, config);
      }
    }
  }

  lemma TouchKeepsValid(c: Cache, key: Key, config: Config)
    requires ValidCache(c, config) && key in c.entries
    ensures ValidCache(Touch(c, key), config)
  {
    assert Touch(c, key).entries.Keys == c.entries.Keys;
    NewestStaysDistinct(c.entries, key, Touch(c, key).entries[key]);
  }

  /** A stored entry is in the table afterwards, as its most recently used entry. */
  lemma PublishKeepsValid(c: Cache, config: Config, key: Key, epoch: Name, providerType: Name,
                          source: Option<Source>, entry: Option<Entry>)
    requires ValidCache(c, config)
    ensures var (c', stored) := Publish(c, config, key, epoch, providerType, source, entry);
            && ValidCache(c', config)
            && c'.inflight == c.inflight - {key} && c'.epochs == c.epochs
            && (!stored ==> c'.entries == c.entries)
            && (stored <==> entry.Some? && !c.closed && EpochOf(c, providerType) == epoch)
            && (stored ==>
                  && c'.sequence == c.sequence + 1
                  && key in c'.entries && c'.entries[key] == entry.value.(lastUsed := c'.sequence)
                  && (forall k :: k in c'.entries && k != key ==>
                        && k in c.entries && c'.entries[k] == c.entries[k]
                        && c'.entries[k].lastUsed < c'.sequence))
  {
    var (c', stored) := Publish(c, config, key, epoch, providerType, source, entry);
    if stored {
      InsertTrimmed(c.(inflight := c.inflight - {key}), config, key, entry.value);
    }
  }

  lemma InsertDistinct(c: Cache, config: Config, key: Key, e: Entry)
    requires ValidCache(c, config)
    ensures DistinctUse(Insert(c, key, e).entries)
  {
    NewestStaysDistinct(c.entries, key, e.(lastUsed := c.sequence + 1));
  }

  lemma InsertTrimmed(c: Cache, config: Config, key: Key, e: Entry)
    requires ValidCache(c, config) && !c.closed
    ensures ValidCache(Trim(Insert(c, key, e), config.maxEntries), config)
    ensures key in Trim(Insert(c, key, e), config.maxEntries).entries
  {
    var grown := Insert(c, key, e).entries;
    var ks := Surplus(grown, config.maxEntries);
    InsertDistinct(c, config, key, e);
    FewerStayDistinct(grown, Drop(grown, ks));
    SurplusSize(grown, config.maxEntries);
    var other := SurplusLeavesSome(grown, config.maxEntries);
    if key in ks {
      SurplusIsLRU(grown, config.maxEntries, key, other);
    }
  }

  lemma DropKeepsValid(c: Cache, key: Key, source: Source, config: Config)
    requires ValidCache(c, config)
    ensures ValidCache(DropEntry(c, key, source), config)
  {
    DropSize(c.entries, {key});
    FewerStayDistinct(c.entries, DropEntry(c, key, source).entries);
  }

  lemma SetEpochKeepsValid(c: Cache, providerType: Name, epoch: Name, config: Config)
    requires ValidCache(c, config)
    ensures ValidCache(SetEpoch(c, providerType, epoch).0, config)
  {
    EvictKeepsValid(c.(epochs := c.epochs[providerType := epoch]), OfProvider(providerType), config);
  }

  // ---------------------------------------------------------------- the cache in place

  /** The shared shape of the range loops that release and delete. */
  method Sweep(entries: Entries, released: multiset<Source>, f: Filter)
    returns (kept: Entries, gone: multiset<Source>)
    ensures kept == Drop(entries, Selected(entries, f))
    ensures gone == released + BagOver(Selected(entries, f), entries, SourceOf)
  {
    hide Moved, Drop, Without, BagOver;
    kept, gone := entries, released;
    var pending := entries.Keys;
    ghost var done: set<Key> := {};
    MoveNone(entries, SourceOf, released);
    while pending != {}
      invariant pending <= entries.Keys && pending <= kept.Keys && done == Selected(entries, f) - pending
      invariant forall k :: k in pending ==> kept[k] == entries[k]
      invariant Moved(entries, kept, done, SourceOf, released, gone)
      decreases pending
    {
      var key :| key in pending;
      if f.Hits(kept[key]) {
        MoveOne(entries, kept, done, SourceOf, released, gone, key);
        gone := gone + multiset{kept[key].source};
        kept := Without(kept, key);
        done := done + {key};
      }
      pending := pending - {key};
    }
    assert done == Selected(entries, f);
    MovedBag(entries, kept, done, SourceOf, released, gone);
  }

  /** Scan for the entry with the smallest use stamp. */
  method FindOldest(entries: Entries) returns (oldest: Key)
    requires entries != map[]
    ensures IsOldest(entries, oldest)
  {
    oldest :| oldest in entries.Keys;
    var pending := entries.Keys - {oldest};
    while pending != {}
      invariant pending <= entries.Keys
      invariant OldestAmong(entries, entries.Keys - pending, oldest)
    {
      var key :| key in pending;
      if entries[key].lastUsed < entries[oldest].lastUsed {
        oldest := key;
      }
      pending := pending - {key};
    }
    assert entries.Keys - pending == entries.Keys;
  }

  /** Release the oldest entries until at most `limit` remain. */
  method EvictLRU(entries: Entries, released: multiset<Source>, limit: nat)
    returns (kept: Entries, gone: multiset<Source>)
    requires DistinctUse(entries)
    ensures kept == Drop(entries, Surplus(entries, limit))
    ensures gone == released + BagOver(Surplus(entries, limit), entries, SourceOf)
  {
    hide Moved, Drop, Without, Surplus, DistinctUse, BagOver;
    kept, gone := entries, released;
    ghost var done: set<Key> := {};
    MoveNone(entries, SourceOf, released);
    while |kept| > limit
      invariant DistinctUse(kept)
      invariant Surplus(entries, limit) == done + Surplus(kept, limit)
      invariant Moved(entries, kept, done, SourceOf, released, gone)
      decreases |kept|
    {
      var key := FindOldest(kept);
      SurplusStep(kept, key, limit);
      MoveOne(entries, kept, done, SourceOf, released, gone, key);
      gone := gone + multiset{kept[key].source};
      kept := Without(kept, key);
      done := done + {key};
    }
    assert done == Surplus(entries, limit);
    MovedBag(entries, kept, done, SourceOf, released, gone);
  }

  class ProviderCache {
    const config: Config
    var entries: map<Key, Entry>
    var inflight: set<Key>
    var epochs: map<Name, Name>
    var sequence: nat
    var closed: bool
    var released: multiset<Source>

    ghost function View(): Cache
      reads this
    {
      Cache(entries, inflight, epochs, sequence, closed, released)
    }

    ghost predicate Valid()
      reads this
    {
      ValidCache(View(), config)
    }

    constructor (config: Config)
      requires ValidConfig(config)
      ensures Valid() && View() == EMPTY && this.config == config
    {
      this.config := config;
      entries, inflight, epochs, sequence, closed, released := map[], {}, map[], 0, false, multiset{};
    }

    function Epoch(providerType: Name): (e: Name)
      reads this
      ensures e == EpochOf(View(), providerType)
    {
      if providerType in epochs then epochs[providerType] else NO_EPOCH
    }

    /** What a load becomes: an entry, or an error for the caller. */
    method Prepare(l: Loaded, b: Binding, g: Governed, now: Time) returns (entry: Option<Entry>)
      ensures entry == PrepareEntry(config, b, g, now, l)
    {
      if l.failed {
        return None;
      }
      if l.source.None? {
        return None;
      }
      var (source, m) := l.source.value;
      if m.kind != b.kind || m.providerRef != b.providerRef || m.revocationEpoch != b.revocationEpoch
         || m.audiences != b.audiences || m.resources != b.resources || m.scopes != b.scopes {
        return None;
      }
      var ttl := config.maximumTTL;
      if b.maximumTTL > 0 && b.maximumTTL < ttl {
        ttl := b.maximumTTL;
      }
      var skew := config.expirySkew;
      if b.expirySkew > skew {
        skew := b.expirySkew;
      }
      var expiresAt := m.expiresAt - skew;
      if now + ttl < expiresAt {
        expiresAt := now + ttl;
      }
      if !(now < expiresAt) {
        return None;
      }
      return Some(Entry(source, expiresAt, b.tenant, b.id, g.runID, b.providerType, b.revocationEpoch, 0));
    }

    method RemoveStale(now: Time, b: Binding)
      modifies this`entries, this`released
      ensures View() == Purge(old(View()), now, b)
    {
      var kept, gone := Sweep(entries, released, RevokedFor(b.tenant, b.id, b.revocationEpoch));
      entries, released := Sweep(kept, gone, ExpiredAt(now));
    }

    /** First lock section of Resolve: serve, wait, or reserve the load. */
    method LookupOrReserve(now: Time, b: Binding, g: Governed) returns (r: LookupResult)
      requires Valid()
      modifies this
      ensures Valid()
      ensures (View(), r) == Lookup(old(View()), now, b, g)
    {
      hide ValidCache, Purge, CacheKey, Discard;
      ghost var start := View();
      LookupKeepsValid(start, now, b, g, config);
      if closed {
        return Closed;
      }
      var epoch := Epoch(b.providerType);
      var key := CacheKey(b, g, epoch);
      RemoveStale(now, b);
      if key in entries && now < entries[key].expiresAt {
        r := Hit(key, entries[key].source);
        sequence, entries := sequence + 1, entries[key := entries[key].(lastUsed := sequence + 1)];
        assert View() == Touch(Purge(start, now, b), key);
      } else if key in inflight {
        r := Wait(key);
      } else {
        r := Reserved(key, epoch);
        inflight := inflight + {key};
      }
    }

    method Store(key: Key, e: Entry)
      requires ValidConfig(config) && DistinctUse(Insert(View(), key, e).entries)
      modifies this`sequence, this`entries, this`released
      ensures View() == Trim(Insert(old(View()), key, e), config.maxEntries)
    {
      hide DistinctUse, Surplus, BagOver, Drop;
      var kept, gone := EvictLRU(entries[key := e.(lastUsed := sequence + 1)], released, config.maxEntries);
      sequence, entries, released := sequence + 1, kept, gone;
    }

    /** Second lock section of Resolve: publish the load or give its source back. */
    method FinishLoad(key: Key, epoch: Name, providerType: Name, source: Option<Source>, entry: Option<Entry>)
      returns (stored: bool)
      requires Valid()
      modifies this
      ensures Valid()
      ensures (View(), stored) == Publish(old(View()), config, key, epoch, providerType, source, entry)
    {
      hide ValidCache, Trim, DistinctUse;
      PublishKeepsValid(View(), config, key, epoch, providerType, source, entry);
      if entry.Some? {
        InsertDistinct(View(), config, key, entry.value);
      }
      inflight := inflight - {key};
      stored := entry.Some? && !closed && Epoch(providerType) == epoch;
      if stored {
        Store(key, entry.value);
      } else if source.Some? {
        released := released + multiset{source.value};
      }
    }

    method RemoveEntry(key: Key, source: Source)
      requires Valid()
      modifies this
      ensures Valid()
      ensures View() == DropEntry(old(View()), key, source)
    {
      hide ValidCache, BagOver;
      DropKeepsValid(View(), key, source, config);
      if key in entries && entries[key].source == source {
        BagOne(key, entries, SourceOf);
        released, entries := released + multiset{source}, Drop(entries, {key});
      }
    }

    method EvictBinding(tenant: Name, bindingID: Name)
      requires Valid()
      modifies this
      ensures Valid()
      ensures View() == Evict(old(View()), OfBinding(tenant, bindingID))
    {
      EvictKeepsValid(View(), OfBinding(tenant, bindingID), config);
      entries, released := Sweep(entries, released, OfBinding(tenant, bindingID));
    }

    method EvictRun(tenant: Name, runID: Name)
      requires Valid()
      modifies this
      ensures Valid()
      ensures View() == Evict(old(View()), OfRun(tenant, runID))
    {
      EvictKeepsValid(View(), OfRun(tenant, runID), config);
      entries, released := Sweep(entries, released, OfRun(tenant, runID));
    }

    method SetProviderEpoch(providerType: Name, epoch: Name) returns (ok: bool)
      requires Valid()
      modifies this
      ensures Valid()
      ensures (View(), ok) == SetEpoch(old(View()), providerType, epoch)
    {
      hide ValidCache, BagOver, ValidText, NoControls;
      SetEpochKeepsValid(View(), providerType, epoch, config);
      var provider := SafeText(providerType.text, 512);
      var valid := SafeText(epoch.text, 512);
      if !provider || (epoch.text != "" && !valid) || closed {
        return false;
      }
      if Epoch(providerType) == epoch {
        return true;
      }
      epochs := epochs[providerType := epoch];
      entries, released := Sweep(entries, released, OfProvider(providerType));
      return true;
    }

    method Close()
      requires Valid()
      modifies this
      ensures Valid()
      ensures View() == Shut(old(View())) && closed && entries == map[]
    {
      closed := true;
      entries, released := Sweep(entries, released, All);
    }
  }
}
