/** Every interleaving of Resolve calls, evictions, epoch changes and Close.

    A Resolve that misses is a loader: it holds the reservation of its key while the
    provider works, and the provider's source until the second lock section. One step is one
    lock section or one provider answer, so a run is any sequence of steps; a step that
    cannot happen leaves the system alone.
 */
module CredentialCacheRuns {
  import opened Text
  import opened Bags
  import opened CredentialCache

  datatype Loader =
    | Loading(key: Key, epoch: Name, binding: Binding, governed: Governed)
    | Answered(key: Key, epoch: Name, binding: Binding, governed: Governed,
               source: Option<Source>, entry: Option<Entry>)

  /** Under which request, and when, the provider handed out a source. */
  datatype Load = Load(key: Key, binding: Binding, governed: Governed, epoch: Name,
                       metadata: Metadata, at: Time)

  datatype System = System(cache: Cache, loaders: map<nat, Loader>, loads: map<Source, Load>)

  const START: System := System(EMPTY, map[], map[])

  datatype Step =
    | Resolve(caller: nat, now: Time, binding: Binding, governed: Governed)
    | Answer(caller: nat, now: Time, answer: Loaded)
    | Finish(caller: nat)
    | CloneFailed(key: Key, source: Source)
    | BindingEvicted(tenant: Name, bindingID: Name)
    | RunEvicted(tenant: Name, runID: Name)
    | EpochSet(providerType: Name, epoch: Name)
    | CacheClosed

  /** The provider hands out sources it has not handed out before. */
  predicate FreshAnswer(s: System, answer: Loaded) {
    answer.source.Some? ==> answer.source.value.0 !in s.loads
  }

  ghost function Next(config: Config, s: System, step: Step): System
    requires ValidConfig(config)
  {
    match step
    case Resolve(t, now, b, g) =>
      if t in s.loaders then s
      else
        var (c, r) := Lookup(s.cache, now, b, g);
        if r.Reserved? then s.(cache := c, loaders := s.loaders[t := Loading(r.key, r.epoch, b, g)])
        else s.(cache := c)
    case Answer(t, now, answer) =>
      if t !in s.loaders || !s.loaders[t].Loading? || !FreshAnswer(s, answer) then s
      else Answering(config, s, t, now, answer)
    case Finish(t) =>
      if t !in s.loaders || !s.loaders[t].Answered? then s
      else
        var l := s.loaders[t];
        s.(cache := Publish(s.cache, config, l.key, l.epoch, l.binding.providerType, l.source, l.entry).0,
           loaders := Without(s.loaders, t))
    case CloneFailed(key, source) => s.(cache := DropEntry(s.cache, key, source))
    case BindingEvicted(tenant, id) => s.(cache := Evict(s.cache, OfBinding(tenant, id)))
    case RunEvicted(tenant, run) => s.(cache := Evict(s.cache, OfRun(tenant, run)))
    case EpochSet(p, e) => s.(cache := SetEpoch(s.cache, p, e).0)
    case CacheClosed => s.(cache := Shut(s.cache))
  }

  function Answering(config: Config, s: System, t: nat, now: Time, answer: Loaded): System
    requires t in s.loaders && s.loaders[t].Loading?
  {
    var l := s.loaders[t];
    var entry := PrepareEntry(config, l.binding, l.governed, now, answer);
    if answer.source.None? then
      s.(loaders := s.loaders[t := Answered(l.key, l.epoch, l.binding, l.governed, None, entry)])
    else
      var (source, m) := answer.source.value;
      s.(loaders := s.loaders[t := Answered(l.key, l.epoch, l.binding, l.governed, Some(source), entry)],
         loads := s.loads[source := Load(l.key, l.binding, l.governed, l.epoch, m, now)])
  }

  ghost function Run(config: Config, steps: seq<Step>): System
    requires ValidConfig(config)
  {
    if steps == [] then START else Next(config, Run(config, steps[..|steps| - 1]), steps[|steps| - 1])
  }

  // ---------------------------------------------------------------- invariant

  function Held(l: Loader): multiset<Source> {
    if l.Answered? && l.source.Some? then multiset{l.source.value} else multiset{}
  }

  function Reservation(l: Loader): multiset<Key> {
    multiset{l.key}
  }

  /** Every source ever handed out is in exactly one place: with its loader, in one entry of
      the table, or released once. */
  ghost predicate Conserved(s: System) {
    multiset(s.loads.Keys) == Bag(s.loaders, Held) + Sources(s.cache.entries) + s.cache.released
  }

  /** Reservations are exactly the keys of the loaders, one loader each. */
  ghost predicate SingleFlight(s: System) {
    && Bag(s.loaders, Reservation) == multiset(s.cache.inflight)
    && s.cache.entries.Keys !! s.cache.inflight
  }

  /** The entry was prepared from a source loaded under this very key. */
  ghost predicate WellLoaded(config: Config, loads: map<Source, Load>, key: Key, e: Entry) {
    && e.source in loads
    && var l := loads[e.source];
    && l.key == key == CacheKey(l.binding, l.governed, l.epoch)
    && MetadataMatches(l.metadata, l.binding)
    && e.expiresAt == Expiry(config, l.binding, l.metadata, l.at)
    && e.tenant == key.tenant && e.bindingID == key.id && e.runID == key.runID
    && e.providerType == key.providerType && e.revocationEpoch == key.revocationEpoch
  }

  ghost predicate EntriesWellLoaded(config: Config, s: System) {
    forall k :: k in s.cache.entries ==>
      && WellLoaded(config, s.loads, k, s.cache.entries[k])
      && k.epoch == EpochOf(s.cache, k.providerType)
  }

  ghost predicate LoaderOk(config: Config, loads: map<Source, Load>, l: Loader) {
    && l.key == CacheKey(l.binding, l.governed, l.epoch)
    && (l.Answered? && l.entry.Some? ==>
          l.source == Some(l.entry.value.source) && WellLoaded(config, loads, l.key, l.entry.value))
  }

  ghost predicate LoadersOk(config: Config, loads: map<Source, Load>, loaders: map<nat, Loader>) {
    forall t :: t in loaders ==> LoaderOk(config, loads, loaders[t])
  }

  ghost predicate Inv(config: Config, s: System) {
    && ValidConfig(config)
    && ValidCache(s.cache, config)
    && Conserved(s)
    && SingleFlight(s)
    && EntriesWellLoaded(config, s)
    && LoadersOk(config, s.loads, s.loaders)
  }

  // ---------------------------------------------------------------- steps on the table

  /** Entries may go, releasing their sources; those that stay change their use stamp only. */
  ghost predicate Settles(c: Cache, c': Cache) {
    && c'.entries.Keys <= c.entries.Keys
    && (forall k :: k in c'.entries ==> c'.entries[k] == c.entries[k].(lastUsed := c'.entries[k].lastUsed))
    && Sources(c'.entries) + c'.released == Sources(c.entries) + c.released
  }

  lemma DiscardSettles(c: Cache, ks: set<Key>)
    requires ks <= c.entries.Keys
    ensures Settles(c, Discard(c, ks))
  {
    DropBag(c.entries, ks, SourceOf);
  }

  lemma TouchSettles(c: Cache, key: Key)
    requires key in c.entries
    ensures Settles(c, Touch(c, key))
  {
    var e := c.entries[key].(lastUsed := c.sequence + 1);
    BagReplace(c.entries, SourceOf, key, e);
    Cancel(Sources(c.entries[key := e]), Sources(c.entries), SourceOf(e));
  }

  lemma SettlesTwice(c: Cache, c1: Cache, c2: Cache)
    requires Settles(c, c1) && Settles(c1, c2)
    ensures Settles(c, c2)
  {
  }

  lemma PurgeSettles(c: Cache, now: Time, b: Binding)
    ensures Settles(c, Purge(c, now, b))
    ensures Purge(c, now, b) == c.(entries := Purge(c, now, b).entries, released := Purge(c, now, b).released)
  {
    hide Settles, BagOver;
    var f := RevokedFor(b.tenant, b.id, b.revocationEpoch);
    DiscardSettles(c, Selected(c.entries, f));
    DiscardSettles(Evict(c, f), Selected(Evict(c, f).entries, ExpiredAt(now)));
    SettlesTwice(c, Evict(c, f), Purge(c, now, b));
  }

  /** What a step that settles the table keeps, when epochs and reservations stay. */
  lemma SettledInv(config: Config, s: System, c: Cache)
    requires Inv(config, s) && ValidCache(c, config) && Settles(s.cache, c)
    requires c.inflight == s.cache.inflight && c.epochs == s.cache.epochs
    ensures Inv(config, s.(cache := c))
  {
    hide ValidCache, LoadersOk, BagOver, Expiry, MetadataMatches, CacheKey;
    SettledConserves(s, s.cache, c);
    forall k | k in c.entries
      ensures WellLoaded(config, s.loads, k, c.entries[k]) && k.epoch == EpochOf(c, k.providerType)
    {
      assert WellLoaded(config, s.loads, k, s.cache.entries[k]);
    }
  }

  // ---------------------------------------------------------------- each step

  lemma PurgedAreFresh(c: Cache, now: Time, b: Binding, key: Key)
    requires key in Purge(c, now, b).entries
    ensures now < Purge(c, now, b).entries[key].expiresAt
  {
    hide BagOver;
    var c1 := Evict(c, RevokedFor(b.tenant, b.id, b.revocationEpoch));
    assert key !in Selected(c1.entries, ExpiredAt(now));
  }

  lemma ReserveKeeps(config: Config, s: System, t: nat, b: Binding, g: Governed)
    requires Inv(config, s) && t !in s.loaders
    requires var key := CacheKey(b, g, EpochOf(s.cache, b.providerType));
             key !in s.cache.entries && key !in s.cache.inflight
    ensures var epoch := EpochOf(s.cache, b.providerType);
            var key := CacheKey(b, g, epoch);
            Inv(config, s.(cache := s.cache.(inflight := s.cache.inflight + {key}),
                           loaders := s.loaders[t := Loading(key, epoch, b, g)]))
  {
    hide BagOver, CacheKey, Expiry, WellLoaded, DistinctUse;
    var epoch := EpochOf(s.cache, b.providerType);
    var key := CacheKey(b, g, epoch);
    var l := Loading(key, epoch, b, g);
    BagAdd(s.loaders, Held, t, l);
    BagAdd(s.loaders, Reservation, t, l);
    assert multiset(s.cache.inflight + {key}) == multiset(s.cache.inflight) + multiset{key};
  }

  lemma ResolveKeeps(config: Config, s: System, t: nat, now: Time, b: Binding, g: Governed)
    requires Inv(config, s)
    ensures Inv(config, Next(config, s, Resolve(t, now, b, g)))
  {
    hide ValidCache, Purge, CacheKey, EntriesWellLoaded, LoadersOk, Settles, Conserved, SingleFlight;
    if t !in s.loaders && !s.cache.closed {
      var key := CacheKey(b, g, EpochOf(s.cache, b.providerType));
      var c1 := Purge(s.cache, now, b);
      PurgeKeepsValid(s.cache, now, b, config);
      PurgeSettles(s.cache, now, b);
      SettledInv(config, s, c1);
      if key in c1.entries {
        PurgedAreFresh(s.cache, now, b, key);
        TouchKeepsValid(c1, key, config);
        TouchSettles(c1, key);
        SettledInv(config, s.(cache := c1), Touch(c1, key));
      } else if key !in c1.inflight {
        ReserveKeeps(config, s.(cache := c1), t, b, g);
      }
    }
  }

  lemma PreparedIsWellLoaded(config: Config, loads: map<Source, Load>, b: Binding, g: Governed, epoch: Name,
                             now: Time, answer: Loaded)
    requires PrepareEntry(config, b, g, now, answer).Some?
    requires var (source, m) := answer.source.value;
             source in loads && loads[source] == Load(CacheKey(b, g, epoch), b, g, epoch, m, now)
    ensures var e := PrepareEntry(config, b, g, now, answer).value;
            && e.source == answer.source.value.0
            && WellLoaded(config, loads, CacheKey(b, g, epoch), e)
  {
    hide Expiry, MetadataMatches, ListParts;
  }

  lemma WellLoadedLater(config: Config, loads: map<Source, Load>, source: Source, l: Load, key: Key, e: Entry)
    requires WellLoaded(config, loads, key, e) && source !in loads
    ensures WellLoaded(config, loads[source := l], key, e)
  {
    hide Expiry, MetadataMatches, CacheKey;
  }

  /** Replacing a loader by what it becomes adds what it now holds. */
  lemma LoaderAnswers(loaders: map<nat, Loader>, t: nat, l: Loader)
    requires t in loaders && loaders[t].Loading? && l.key == loaders[t].key
    ensures Bag(loaders[t := l], Held) == Bag(loaders, Held) + Held(l)
    ensures Bag(loaders[t := l], Reservation) == Bag(loaders, Reservation)
  {
    hide BagOver;
    BagReplace(loaders, Held, t, l);
    BagReplace(loaders, Reservation, t, l);
    hide Bag;
    assert Held(loaders[t]) == multiset{};
    Cancel(Bag(loaders[t := l], Reservation), Bag(loaders, Reservation), Reservation(l));
  }

  /** The answer puts a fresh source into the loader's hands. */
  lemma AnswerConserves(config: Config, s: System, t: nat, now: Time, answer: Loaded)
    requires Conserved(s) && SingleFlight(s)
    requires t in s.loaders && s.loaders[t].Loading? && FreshAnswer(s, answer)
    ensures Conserved(Answering(config, s, t, now, answer))
    ensures SingleFlight(Answering(config, s, t, now, answer))
  {
    hide Bag, PrepareEntry, Sources;
    var s' := Answering(config, s, t, now, answer);
    LoaderAnswers(s.loaders, t, s'.loaders[t]);
    assert s'.loaders == s.loaders[t := s'.loaders[t]];
    if answer.source.Some? {
      var source := answer.source.value.0;
      assert s'.loads.Keys == s.loads.Keys + {source};
      assert multiset(s'.loads.Keys) == multiset(s.loads.Keys) + multiset{source};
    }
  }

  lemma AnswerKeeps(config: Config, s: System, t: nat, now: Time, answer: Loaded)
    requires Inv(config, s) && t in s.loaders && s.loaders[t].Loading? && FreshAnswer(s, answer)
    ensures Inv(config, Answering(config, s, t, now, answer))
  {
    hide ValidCache, Conserved, SingleFlight, CacheKey, WellLoaded;
    var s' := Answering(config, s, t, now, answer);
    AnswerConserves(config, s, t, now, answer);
    assert LoaderOk(config, s.loads, s.loaders[t]);
    if answer.source.Some? {
      var source := answer.source.value.0;
      var l := s'.loads[source];
      if s'.loaders[t].entry.Some? {
        PreparedIsWellLoaded(config, s'.loads, l.binding, l.governed, l.epoch, now, answer);
      }
      forall k, e | WellLoaded(config, s.loads, k, e) ensures WellLoaded(config, s'.loads, k, e) {
        WellLoadedLater(config, s.loads, source, l, k, e);
      }
    }
    assert LoaderOk(config, s'.loads, s'.loaders[t]);
    assert forall u :: u in s.loaders && u != t ==> LoaderOk(config, s'.loads, s.loaders[u]);
  }

  lemma LoaderHoldsKey(config: Config, s: System, t: nat)
    requires SingleFlight(s) && t in s.loaders
    ensures s.loaders[t].key in s.cache.inflight && s.loaders[t].key !in s.cache.entries
  {
    hide BagOver;
    BagMember(s.loaders, Reservation, t);
    assert s.loaders[t].key in multiset(s.cache.inflight);
  }

  /** Storing moves the source from the loader to the table, and eviction on to the released. */
  lemma StoreConserves(c: Cache, key: Key, entry: Entry, limit: nat)
    requires key !in c.entries
    ensures var c' := Trim(Insert(c, key, entry), limit);
            Sources(c'.entries) + c'.released == multiset{entry.source} + Sources(c.entries) + c.released
  {
    hide BagOver, Surplus;
    var e := entry.(lastUsed := c.sequence + 1);
    var grown := c.entries[key := e];
    BagAdd(c.entries, SourceOf, key, e);
    DropBag(grown, Surplus(grown, limit), SourceOf);
  }

  /** Finishing a load stores its source or releases it. */
  lemma PublishConserves(config: Config, c: Cache, l: Loader)
    requires ValidConfig(config) && l.Answered? && l.key !in c.entries
    requires l.entry.Some? ==> l.source == Some(l.entry.value.source)
    ensures var c' := Publish(c, config, l.key, l.epoch, l.binding.providerType, l.source, l.entry).0;
            Sources(c'.entries) + c'.released == Held(l) + Sources(c.entries) + c.released
  {
    hide BagOver, Surplus, Trim, Insert, Sources;
    if l.entry.Some? {
      StoreConserves(c.(inflight := c.inflight - {l.key}), l.key, l.entry.value, config.maxEntries);
    }
  }

  lemma FinishConserves(config: Config, s: System, t: nat)
    requires Inv(config, s) && t in s.loaders && s.loaders[t].Answered?
    ensures Conserved(Next(config, s, Finish(t)))
  {
    hide BagOver, ValidCache, EntriesWellLoaded, WellLoaded, CacheKey, Publish;
    var l := s.loaders[t];
    assert LoaderOk(config, s.loads, l);
    LoaderHoldsKey(config, s, t);
    BagRemove(s.loaders, Held, t);
    PublishConserves(config, s.cache, l);
    var s' := Next(config, s, Finish(t));
    var rest := Bag(s'.loaders, Held);
    assert rest + Sources(s'.cache.entries) + s'.cache.released == rest + (Sources(s'.cache.entries) + s'.cache.released);
  }

  lemma FinishFreesKey(config: Config, s: System, t: nat)
    requires Inv(config, s) && t in s.loaders && s.loaders[t].Answered?
    ensures SingleFlight(Next(config, s, Finish(t)))
  {
    hide BagOver, ValidCache, EntriesWellLoaded, LoadersOk, Publish, Conserved;
    var l := s.loaders[t];
    PublishKeepsValid(s.cache, config, l.key, l.epoch, l.binding.providerType, l.source, l.entry);
    LoaderHoldsKey(config, s, t);
    BagRemove(s.loaders, Reservation, t);
    assert multiset(s.cache.inflight) == multiset(s.cache.inflight - {l.key}) + multiset{l.key};
    Cancel(Bag(Without(s.loaders, t), Reservation), multiset(s.cache.inflight - {l.key}), multiset{l.key});
    var s' := Next(config, s, Finish(t));
    assert s'.cache.entries.Keys <= s.cache.entries.Keys + {l.key};
  }

  lemma StampIsFree(config: Config, loads: map<Source, Load>, key: Key, e: Entry, stamp: nat)
    requires WellLoaded(config, loads, key, e)
    ensures WellLoaded(config, loads, key, e.(lastUsed := stamp))
  {
    hide Expiry, MetadataMatches, CacheKey;
  }

  lemma LoaderKey(config: Config, s: System, t: nat)
    requires LoadersOk(config, s.loads, s.loaders) && t in s.loaders
    ensures var l := s.loaders[t];
            && l.key.providerType == l.binding.providerType && l.key.epoch == l.epoch
            && (l.Answered? && l.entry.Some? ==> WellLoaded(config, s.loads, l.key, l.entry.value))
  {
    hide WellLoaded, ListParts;
    assert LoaderOk(config, s.loads, s.loaders[t]);
  }

  lemma FinishWellLoaded(config: Config, s: System, t: nat)
    requires Inv(config, s) && t in s.loaders && s.loaders[t].Answered?
    ensures EntriesWellLoaded(config, Next(config, s, Finish(t)))
  {
    hide ValidCache, Publish, Conserved, SingleFlight, WellLoaded, LoadersOk;
    var l := s.loaders[t];
    PublishKeepsValid(s.cache, config, l.key, l.epoch, l.binding.providerType, l.source, l.entry);
    LoaderKey(config, s, t);
    if l.entry.Some? {
      StampIsFree(config, s.loads, l.key, l.entry.value, s.cache.sequence + 1);
    }
  }

  lemma FinishKeeps(config: Config, s: System, t: nat)
    requires Inv(config, s) && t in s.loaders && s.loaders[t].Answered?
    ensures Inv(config, Next(config, s, Finish(t)))
  {
    hide ValidCache, Conserved, SingleFlight, EntriesWellLoaded, LoaderOk, Publish;
    var l := s.loaders[t];
    PublishKeepsValid(s.cache, config, l.key, l.epoch, l.binding.providerType, l.source, l.entry);
    FinishConserves(config, s, t);
    FinishFreesKey(config, s, t);
    FinishWellLoaded(config, s, t);
  }

  lemma EvictKeeps(config: Config, s: System, f: Filter)
    requires Inv(config, s)
    ensures Inv(config, s.(cache := Evict(s.cache, f)))
  {
    hide ValidCache, Settles, Conserved, SingleFlight, EntriesWellLoaded, LoadersOk;
    EvictKeepsValid(s.cache, f, config);
    DiscardSettles(s.cache, Selected(s.cache.entries, f));
    SettledInv(config, s, Evict(s.cache, f));
  }

  lemma CloneFailedKeeps(config: Config, s: System, key: Key, source: Source)
    requires Inv(config, s)
    ensures Inv(config, Next(config, s, CloneFailed(key, source)))
  {
    hide ValidCache, Settles, Conserved, SingleFlight, EntriesWellLoaded, LoadersOk;
    if key in s.cache.entries && s.cache.entries[key].source == source {
      DropKeepsValid(s.cache, key, source, config);
      DiscardSettles(s.cache, {key});
      SettledInv(config, s, DropEntry(s.cache, key, source));
    }
  }

  /** A new epoch empties the table of its provider type, so no entry outlives its epoch. */
  lemma EpochSetKeeps(config: Config, s: System, providerType: Name, epoch: Name)
    requires Inv(config, s)
    ensures Inv(config, Next(config, s, EpochSet(providerType, epoch)))
  {
    hide ValidCache, LoadersOk, BagOver, WellLoaded, ValidName, Settles, Conserved, SingleFlight;
    SetEpochKeepsValid(s.cache, providerType, epoch, config);
    var c := SetEpoch(s.cache, providerType, epoch).0;
    if c != s.cache {
      var c1 := s.cache.(epochs := s.cache.epochs[providerType := epoch]);
      DiscardSettles(c1, Selected(c1.entries, OfProvider(providerType)));
      SettledConserves(s, c1, c);
      forall k | k in c.entries
        ensures WellLoaded(config, s.loads, k, c.entries[k]) && k.epoch == EpochOf(c, k.providerType)
      {
        ProviderOfEntry(config, s, k);
        assert k !in Selected(c1.entries, OfProvider(providerType));
      }
    }
  }

  lemma SettledConserves(s: System, c1: Cache, c: Cache)
    requires Conserved(s) && SingleFlight(s) && Settles(c1, c)
    requires c1.entries == s.cache.entries && c1.released == s.cache.released
    requires c.inflight == s.cache.inflight
    ensures Conserved(s.(cache := c)) && SingleFlight(s.(cache := c))
  {
    hide BagOver;
    assert Bag(s.loaders, Held) + Sources(c.entries) + c.released ==
           Bag(s.loaders, Held) + (Sources(c.entries) + c.released);
  }

  lemma ProviderOfEntry(config: Config, s: System, k: Key)
    requires EntriesWellLoaded(config, s) && k in s.cache.entries
    ensures s.cache.entries[k].providerType == k.providerType
  {
  }

  lemma CloseKeeps(config: Config, s: System)
    requires Inv(config, s)
    ensures Inv(config, Next(config, s, CacheClosed)) && Next(config, s, CacheClosed).cache.entries == map[]
  {
    hide LoadersOk, BagOver, WellLoaded, SingleFlight, Conserved;
    var c1 := s.cache.(closed := true);
    var c := Shut(s.cache);
    assert c.entries.Keys == {};
    assert c.entries == map[];
    DiscardSettles(c1, Selected(c1.entries, All));
    assert Settles(s.cache, c);
    SettledInv(config, s, c);
  }

  lemma NextKeeps(config: Config, s: System, step: Step)
    requires Inv(config, s)
    ensures Inv(config, Next(config, s, step))
  {
    hide Inv, Answering, Publish, Lookup, Evict, DropEntry, SetEpoch, Shut;
    match step
    case Resolve(t, now, b, g) => ResolveKeeps(config, s, t, now, b, g);
    case Answer(t, now, answer) =>
      if t in s.loaders && s.loaders[t].Loading? && FreshAnswer(s, answer) {
        AnswerKeeps(config, s, t, now, answer);
      }
    case Finish(t) =>
      if t in s.loaders && s.loaders[t].Answered? {
        FinishKeeps(config, s, t);
      }
    case CloneFailed(key, source) => CloneFailedKeeps(config, s, key, source);
    case BindingEvicted(tenant, id) => EvictKeeps(config, s, OfBinding(tenant, id));
    case RunEvicted(tenant, run) => EvictKeeps(config, s, OfRun(tenant, run));
    case EpochSet(p, e) => EpochSetKeeps(config, s, p, e);
    case CacheClosed => CloseKeeps(config, s);
  }

  /** The invariant holds after every run. */
  lemma {:induction false} RunKeeps(config: Config, steps: seq<Step>)
    requires ValidConfig(config)
    ensures Inv(config, Run(config, steps))
  {
    if steps != [] {
      RunKeeps(config, steps[..|steps| - 1]);
      NextKeeps(config, Run(config, steps[..|steps| - 1]), steps[|steps| - 1]);
    }
  }

  // ---------------------------------------------------------------- theorems about every run

  /** Conservation, source by source: a source handed out has exactly one owner, any other none. */
  lemma EverySourceHasOneOwner(config: Config, steps: seq<Step>, source: Source)
    requires ValidConfig(config)
    ensures var s := Run(config, steps);
            Bag(s.loaders, Held)[source] + Sources(s.cache.entries)[source] + s.cache.released[source] ==
            if source in s.loads then 1 else 0
  {
    hide BagOver, Next, ValidCache, SingleFlight, EntriesWellLoaded, LoadersOk;
    RunKeeps(config, steps);
    var s := Run(config, steps);
    assert multiset(s.loads.Keys)[source] == if source in s.loads then 1 else 0;
  }

  /** At most one load per key is in flight, and never for a key the table holds. */
  lemma OneLoadPerKey(config: Config, steps: seq<Step>, t: nat, u: nat)
    requires ValidConfig(config)
    requires t in Run(config, steps).loaders
    ensures var s := Run(config, steps);
            && (u in s.loaders && u != t ==> s.loaders[t].key != s.loaders[u].key)
            && s.loaders[t].key in s.cache.inflight && s.loaders[t].key !in s.cache.entries
  {
    hide BagOver, Next, ValidCache, Conserved, EntriesWellLoaded, LoadersOk;
    RunKeeps(config, steps);
    var s := Run(config, steps);
    BagRemove(s.loaders, Reservation, t);
    if u in s.loaders && u != t {
      BagMember(Without(s.loaders, t), Reservation, u);
    }
    LoaderHoldsKey(config, s, t);
    assert multiset(s.cache.inflight)[s.loaders[t].key] == 1;
  }

  /** Table bounds: never more than the configured entries, stamps all different, no entry
      whose epoch is not its provider's current one. */
  lemma TableStaysInBounds(config: Config, steps: seq<Step>, j: Key, k: Key)
    requires ValidConfig(config)
    ensures var c := Run(config, steps).cache;
            && |c.entries| <= config.maxEntries
            && (j in c.entries && k in c.entries && j != k ==> c.entries[j].lastUsed != c.entries[k].lastUsed)
            && (k in c.entries ==> k.epoch == EpochOf(c, k.providerType))
  {
    hide BagOver, Next, WellLoaded, LoadersOk, Conserved, SingleFlight;
    RunKeeps(config, steps);
    var c := Run(config, steps).cache;
    assert SameUse(c.entries, j, k) ==> j == k;
  }

  /** A hit is on an entry the table held before, unexpired, and makes it the newest. */
  lemma HitIsNewest(config: Config, before: Cache, now: Time, b: Binding, g: Governed)
    requires ValidCache(before, config)
    ensures var (c, r) := Lookup(before, now, b, g);
            r.Hit? ==>
            && r.key == CacheKey(b, g, EpochOf(before, b.providerType)) && r.key in before.entries
            && r.source == before.entries[r.key].source && now < before.entries[r.key].expiresAt
            && r.key in c.entries && c.entries[r.key].lastUsed == c.sequence
            && forall k :: k in c.entries && k != r.key ==> c.entries[k].lastUsed < c.sequence
  {
    hide BagOver, Purge, CacheKey, DistinctUse, Evict, Sources;
    PurgeSettles(before, now, b);
    PurgeKeepsValid(before, now, b, config);
  }

  /** What a cache hit hands out. */
  lemma ServedIsSound(config: Config, steps: seq<Step>, now: Time, b: Binding, g: Governed)
    requires ValidConfig(config)
    ensures var s := Run(config, steps);
            var (c, r) := Lookup(s.cache, now, b, g);
            r.Hit? ==>
            && r.source in s.loads && s.cache.released[r.source] == 0
            && var l := s.loads[r.source];
            && r.key == l.key == CacheKey(b, g, EpochOf(s.cache, b.providerType))
            && l.governed == g && l.epoch == EpochOf(s.cache, b.providerType)
            && l.metadata.kind == b.kind && l.metadata.providerRef == b.providerRef
            && l.metadata.revocationEpoch == b.revocationEpoch
            && now < l.metadata.expiresAt - Max(config.expirySkew, b.expirySkew)
            && now < l.at + config.maximumTTL
            && (b.maximumTTL > 0 ==> now < l.at + b.maximumTTL)
            && r.key in c.entries && c.entries[r.key].lastUsed == c.sequence
            && forall k :: k in c.entries && k != r.key ==> c.entries[k].lastUsed < c.sequence
  {
    hide BagOver, Next, Run, SingleFlight, LoadersOk, ListParts, Lookup, ValidCache;
    RunKeeps(config, steps);
    var s := Run(config, steps);
    HitIsNewest(config, s.cache, now, b, g);
    var (c, r) := Lookup(s.cache, now, b, g);
    if r.Hit? {
      assert WellLoaded(config, s.loads, r.key, s.cache.entries[r.key]);
      BagMember(s.cache.entries, SourceOf, r.key);
      assert multiset(s.loads.Keys)[r.source] == 1;
    }
  }

  /** The binding a hit was loaded for is the requested one if and only if their lists have the
      same lengths; then the capability is the requested one in every list too. With as many
      selectors, equal lengths of the compared lists are exactly what makes its metadata match. */
  lemma ServedBindingIff(config: Config, steps: seq<Step>, now: Time, b: Binding, g: Governed)
    requires ValidConfig(config)
    ensures var s := Run(config, steps);
            var r := Lookup(s.cache, now, b, g).1;
            r.Hit? ==>
            && r.source in s.loads
            && var l := s.loads[r.source];
            && l.binding.tenant == b.tenant && l.binding.id == b.id
            && (l.binding == b <==> |l.binding.selectors| == |b.selectors| && SameLengths(l.binding, b))
            && (l.binding == b ==> MetadataMatches(l.metadata, b))
            && (|l.binding.selectors| == |b.selectors| ==> (MetadataMatches(l.metadata, b) <==> SameLengths(l.binding, b)))
  {
    hide BagOver, Next, Run, SingleFlight, LoadersOk, ListParts, Lookup, ValidCache, CacheKey;
    RunKeeps(config, steps);
    var s := Run(config, steps);
    HitIsNewest(config, s.cache, now, b, g);
    var r := Lookup(s.cache, now, b, g).1;
    if r.Hit? {
      assert WellLoaded(config, s.loads, r.key, s.cache.entries[r.key]);
      var l := s.loads[r.source];
      SameKeySameNames(l.binding, l.governed, l.epoch, b, g, EpochOf(s.cache, b.providerType));
      if |l.binding.selectors| == |b.selectors| && SameLengths(l.binding, b) {
        CacheKeyDeterminesLists(l.binding, l.governed, l.epoch, b, g, EpochOf(s.cache, b.providerType));
      }
    }
  }

  lemma SameKeySameNames(a: Binding, g: Governed, e: Name, b: Binding, h: Governed, f: Name)
    ensures CacheKey(a, g, e) == CacheKey(b, h, f) ==> a.tenant == b.tenant && a.id == b.id
  {
    hide ListParts;
  }

  /** The lists that loading compares with the capability's metadata. */
  predicate SameLengths(a: Binding, b: Binding) {
    |a.audiences| == |b.audiences| && |a.resources| == |b.resources| && |a.scopes| == |b.scopes|
  }

  /** Step k is a call of Resolve with this binding and context. */
  predicate RequestedAt(steps: seq<Step>, k: nat, b: Binding, g: Governed) {
    k < |steps| && steps[k].Resolve? && steps[k].binding == b && steps[k].governed == g
  }

  ghost predicate Requested(steps: seq<Step>, b: Binding, g: Governed) {
    exists k: nat :: RequestedAt(steps, k, b, g)
  }

  /** Someone loads, or has loaded, for this binding and context. */
  ghost predicate Involves(s: System, b: Binding, g: Governed) {
    || (exists t :: t in s.loaders && s.loaders[t].binding == b && s.loaders[t].governed == g)
    || (exists source :: source in s.loads && s.loads[source].binding == b && s.loads[source].governed == g)
  }

  lemma NextLoader(config: Config, s: System, step: Step, t: nat)
    requires ValidConfig(config) && t in Next(config, s, step).loaders
    ensures var l := Next(config, s, step).loaders[t];
            || (t in s.loaders && l.binding == s.loaders[t].binding && l.governed == s.loaders[t].governed)
            || (step.Resolve? && l.binding == step.binding && l.governed == step.governed)
  {
    hide BagOver, Lookup, Publish, PrepareEntry, DropEntry, Evict, SetEpoch, Shut;
  }

  lemma NextLoad(config: Config, s: System, step: Step, source: Source)
    requires ValidConfig(config) && source in Next(config, s, step).loads
    ensures var l := Next(config, s, step).loads[source];
            || (source in s.loads && s.loads[source] == l)
            || (step.Answer? && step.caller in s.loaders
                && l.binding == s.loaders[step.caller].binding && l.governed == s.loaders[step.caller].governed)
  {
    hide BagOver, Lookup, Publish, PrepareEntry, DropEntry, Evict, SetEpoch, Shut;
  }

  lemma NextInvolves(config: Config, s: System, step: Step, b: Binding, g: Governed)
    requires ValidConfig(config) && Involves(Next(config, s, step), b, g)
    ensures Involves(s, b, g) || (step.Resolve? && step.binding == b && step.governed == g)
  {
    hide Next;
    var s' := Next(config, s, step);
    if t :| t in s'.loaders && s'.loaders[t].binding == b && s'.loaders[t].governed == g {
      NextLoader(config, s, step, t);
    } else {
      var source :| source in s'.loads && s'.loads[source].binding == b && s'.loads[source].governed == g;
      NextLoad(config, s, step, source);
    }
  }

  /** Whatever is loaded was asked for in an earlier call. */
  lemma {:induction false} LoadsWereRequested(config: Config, steps: seq<Step>, b: Binding, g: Governed)
    requires ValidConfig(config)
    ensures Involves(Run(config, steps), b, g) ==> Requested(steps, b, g)
  {
    hide Next;
    if steps != [] && Involves(Run(config, steps), b, g) {
      var n := |steps| - 1;
      LoadsWereRequested(config, steps[..n], b, g);
      NextInvolves(config, Run(config, steps[..n]), steps[n], b, g);
      if Involves(Run(config, steps[..n]), b, g) {
        var k: nat :| RequestedAt(steps[..n], k, b, g);
        assert RequestedAt(steps, k, b, g);
      } else {
        assert RequestedAt(steps, n, b, g);
      }
    }
  }

  /** All calls so far for this tenant's binding, in this context, had lists of these lengths. */
  ghost predicate SameShape(steps: seq<Step>, b: Binding, g: Governed) {
    forall k :: 0 <= k < |steps| && steps[k].Resolve? && steps[k].governed == g
                && steps[k].binding.tenant == b.tenant && steps[k].binding.id == b.id ==>
      |steps[k].binding.selectors| == |b.selectors| && SameLengths(steps[k].binding, b)
  }

  /** So a caller whose earlier requests under that tenant, binding ID and context had the same list
      lengths is only ever served what was loaded for the very binding asked for. */
  lemma SameShapeIsServedFaithfully(config: Config, steps: seq<Step>, now: Time, b: Binding, g: Governed)
    requires ValidConfig(config) && SameShape(steps, b, g)
    ensures var s := Run(config, steps);
            var r := Lookup(s.cache, now, b, g).1;
            r.Hit? ==>
            && r.source in s.loads && s.loads[r.source].binding == b
            && MetadataMatches(s.loads[r.source].metadata, b)
  {
    hide Run, Lookup, MetadataMatches, SameLengths;
    var s := Run(config, steps);
    var r := Lookup(s.cache, now, b, g).1;
    ServedIsSound(config, steps, now, b, g);
    ServedBindingIff(config, steps, now, b, g);
    if r.Hit? {
      var l := s.loads[r.source];
      assert Involves(s, l.binding, l.governed);
      LoadsWereRequested(config, steps, l.binding, l.governed);
      var k: nat :| RequestedAt(steps, k, l.binding, l.governed);
      assert steps[k].binding == l.binding;
    }
  }

  // ---------------------------------------------------------------- a load in flight

  lemma RunOne(config: Config, steps: seq<Step>, step: Step)
    requires ValidConfig(config)
    ensures Run(config, steps + [step]) == Next(config, Run(config, steps), step)
  {
    assert (steps + [step])[..|steps|] == steps;
  }

  /** A caller whose load is answered and prepared, with the epoch it reserved under current. */
  ghost predicate ReadyToStore(config: Config, s: System, t: nat)
    requires ValidConfig(config)
  {
    && t in s.loaders && s.loaders[t].Answered? && s.loaders[t].entry.Some? && !s.cache.closed
    && EpochOf(s.cache, s.loaders[t].binding.providerType) == s.loaders[t].epoch
  }

  function Loading0(now: Time, b: Binding, g: Governed, source: Source, m: Metadata): seq<Step> {
    [] + [Resolve(0, now, b, g)] + [Answer(0, now, Loaded(Some((source, m)), false))]
  }

  lemma FirstPurge(now: Time, b: Binding)
    ensures Purge(EMPTY, now, b) == EMPTY
  {
    var f := RevokedFor(b.tenant, b.id, b.revocationEpoch);
    assert Selected(EMPTY.entries, f) == {};
    assert Evict(EMPTY, f) == EMPTY;
    assert Selected(EMPTY.entries, ExpiredAt(now)) == {};
  }

  /** Whatever the provider answers with matching metadata that is not about to expire, a first
      load gets there. */
  lemma LoadGetsReady(config: Config, now: Time, b: Binding, g: Governed, source: Source, m: Metadata)
    requires ValidConfig(config) && MetadataMatches(m, b) && now < Expiry(config, b, m, now)
    ensures var s := Run(config, Loading0(now, b, g, source, m));
            && ReadyToStore(config, s, 0)
            && s.loaders[0] == Answered(CacheKey(b, g, NO_EPOCH), NO_EPOCH, b, g, Some(source), s.loaders[0].entry)
            && s.loaders[0].entry == PrepareEntry(config, b, g, now, Loaded(Some((source, m)), false))
            && s.cache == EMPTY.(inflight := {CacheKey(b, g, NO_EPOCH)})
            && s.loads == map[source := Load(CacheKey(b, g, NO_EPOCH), b, g, NO_EPOCH, m, now)]
  {
    hide CacheKey, Expiry, MetadataMatches, Purge;
    FirstPurge(now, b);
    var resolve := Resolve(0, now, b, g);
    var answer := Answer(0, now, Loaded(Some((source, m)), false));
    RunOne(config, [], resolve);
    assert Run(config, []) == START;
    RunOne(config, [] + [resolve], answer);
  }

  lemma {:induction false} ClosedStays(config: Config, steps: seq<Step>, more: seq<Step>)
    requires ValidConfig(config) && Run(config, steps).cache.closed
    ensures Run(config, steps + more).cache.closed
    decreases |more|
  {
    hide Next;
    if more == [] {
      assert steps + more == steps;
    } else {
      var n := |more| - 1;
      ClosedStays(config, steps, more[..n]);
      var all := steps + more;
      assert all[..|all| - 1] == steps + more[..n];
      StepStaysClosed(config, Run(config, steps + more[..n]), more[n]);
    }
  }

  lemma StepStaysClosed(config: Config, s: System, step: Step)
    requires ValidConfig(config) && s.cache.closed
    ensures Next(config, s, step).cache.closed
  {
    hide BagOver, Purge, Surplus, PrepareEntry;
  }

  /** After Close the table is empty for good, and once the loads in flight have drained
      every source ever handed out has been released, each exactly once. */
  lemma CloseReleasesEverything(config: Config, steps: seq<Step>, more: seq<Step>)
    requires ValidConfig(config) && Run(config, steps).cache.closed
    ensures var s := Run(config, steps + more);
            && s.cache.closed && s.cache.entries == map[]
            && (s.loaders == map[] ==> s.cache.released == multiset(s.loads.Keys))
  {
    hide Next, SingleFlight, LoadersOk, EntriesWellLoaded;
    ClosedStays(config, steps, more);
    RunKeeps(config, steps + more);
  }

  // ---------------------------------------------------------------- what evictions reach

  lemma RunOneKeeps(config: Config, steps: seq<Step>, step: Step)
    requires ValidConfig(config)
    ensures Inv(config, Run(config, steps)) && Inv(config, Run(config, steps + [step]))
    ensures Run(config, steps + [step]) == Next(config, Run(config, steps), step)
  {
    hide Next, Inv;
    RunKeeps(config, steps);
    RunKeeps(config, steps + [step]);
    RunOne(config, steps, step);
  }

  /** A hit is on an entry that carries the names of what was asked for. */
  lemma HitNames(config: Config, s: System, now: Time, b: Binding, g: Governed)
    requires Inv(config, s) && Lookup(s.cache, now, b, g).1.Hit?
    ensures var r := Lookup(s.cache, now, b, g).1;
            && r.key in s.cache.entries
            && var e := s.cache.entries[r.key];
            && e.tenant == b.tenant && e.bindingID == b.id && e.runID == g.runID && e.providerType == b.providerType
  {
    HitIsNewest(config, s.cache, now, b, g);
    var r := Lookup(s.cache, now, b, g).1;
    assert WellLoaded(config, s.loads, r.key, s.cache.entries[r.key]);
    KeyNames(b, g, EpochOf(s.cache, b.providerType));
    hide Lookup, Conserved, SingleFlight, LoadersOk, ValidCache, CacheKey;
  }

  lemma KeyNames(b: Binding, g: Governed, epoch: Name)
    ensures var k := CacheKey(b, g, epoch);
            k.tenant == b.tenant && k.id == b.id && k.runID == g.runID && k.providerType == b.providerType
  {
    hide ListParts;
  }

  /** Right after a run is evicted nothing of that tenant's run is served from the cache, and every
      entry of another tenant or run is what it was. */
  lemma EvictedRunIsGone(config: Config, steps: seq<Step>, tenant: Name, run: Name,
                         now: Time, b: Binding, g: Governed, k: Key)
    requires ValidConfig(config)
    ensures var s, s' := Run(config, steps), Run(config, steps + [RunEvicted(tenant, run)]);
            && (b.tenant == tenant && g.runID == run ==> !Lookup(s'.cache, now, b, g).1.Hit?)
            && (k in s.cache.entries && (s.cache.entries[k].tenant != tenant || s.cache.entries[k].runID != run) ==>
                  k in s'.cache.entries && s'.cache.entries[k] == s.cache.entries[k])
  {
    hide Inv, Run, Evict, Lookup;
    RunOneKeeps(config, steps, RunEvicted(tenant, run));
    var s, s' := Run(config, steps), Run(config, steps + [RunEvicted(tenant, run)]);
    RunEvictionLeaves(s.cache, tenant, run, k);
    if Lookup(s'.cache, now, b, g).1.Hit? {
      HitNames(config, s', now, b, g);
      RunEvictionLeaves(s.cache, tenant, run, Lookup(s'.cache, now, b, g).1.key);
    }
  }

  /** The same for a binding. */
  lemma EvictedBindingIsGone(config: Config, steps: seq<Step>, tenant: Name, id: Name,
                             now: Time, b: Binding, g: Governed, k: Key)
    requires ValidConfig(config)
    ensures var s, s' := Run(config, steps), Run(config, steps + [BindingEvicted(tenant, id)]);
            && (b.tenant == tenant && b.id == id ==> !Lookup(s'.cache, now, b, g).1.Hit?)
            && (k in s.cache.entries && (s.cache.entries[k].tenant != tenant || s.cache.entries[k].bindingID != id) ==>
                  k in s'.cache.entries && s'.cache.entries[k] == s.cache.entries[k])
  {
    hide Inv, Run, Evict, Lookup;
    RunOneKeeps(config, steps, BindingEvicted(tenant, id));
    var s, s' := Run(config, steps), Run(config, steps + [BindingEvicted(tenant, id)]);
    BindingEvictionLeaves(s.cache, tenant, id, k);
    if Lookup(s'.cache, now, b, g).1.Hit? {
      HitNames(config, s', now, b, g);
      BindingEvictionLeaves(s.cache, tenant, id, Lookup(s'.cache, now, b, g).1.key);
    }
  }

  /** Right after a provider's epoch changes none of its entries is served, and every other
      provider's entries and epoch are what they were; setting the same epoch changes nothing. */
  lemma ChangedEpochIsGone(config: Config, steps: seq<Step>, provider: Name, epoch: Name,
                           now: Time, b: Binding, g: Governed, k: Key)
    requires ValidConfig(config) && ValidName(provider) && (epoch == NO_EPOCH || ValidName(epoch))
    ensures var s, s' := Run(config, steps), Run(config, steps + [EpochSet(provider, epoch)]);
            !s.cache.closed ==>
            && EpochOf(s'.cache, provider) == epoch
            && (EpochOf(s.cache, provider) == epoch ==> s' == s)
            && (EpochOf(s.cache, provider) != epoch && b.providerType == provider ==> !Lookup(s'.cache, now, b, g).1.Hit?)
            && (b.providerType != provider ==> EpochOf(s'.cache, b.providerType) == EpochOf(s.cache, b.providerType))
            && (k in s.cache.entries && s.cache.entries[k].providerType != provider ==>
                  k in s'.cache.entries && s'.cache.entries[k] == s.cache.entries[k])
  {
    hide Inv, Run, Lookup, ValidName, Evict;
    RunOneKeeps(config, steps, EpochSet(provider, epoch));
    var s, s' := Run(config, steps), Run(config, steps + [EpochSet(provider, epoch)]);
    if !s.cache.closed && EpochOf(s.cache, provider) != epoch {
      var c := s.cache.(epochs := s.cache.epochs[provider := epoch]);
      EvictKeepsRest(c, OfProvider(provider));
      ProviderEvictionLeaves(c, provider, k);
      if Lookup(s'.cache, now, b, g).1.Hit? {
        HitNames(config, s', now, b, g);
        ProviderEvictionLeaves(c, provider, Lookup(s'.cache, now, b, g).1.key);
      }
    }
  }

  /** A hit whose copy cannot be made gives its source back once and is not served again; no other
      entry is touched. */
  lemma UncloneableIsGone(config: Config, steps: seq<Step>, now: Time, later: Time, b: Binding, g: Governed, k: Key)
    requires ValidConfig(config) && Lookup(Run(config, steps).cache, now, b, g).1.Hit?
    ensures var s := Run(config, steps);
            var h := Lookup(s.cache, now, b, g).1;
            var s' := Run(config, steps + [CloneFailed(h.key, h.source)]);
            && s'.cache.released == s.cache.released + multiset{h.source}
            && !Lookup(s'.cache, later, b, g).1.Hit?
            && (k != h.key && k in s.cache.entries ==> k in s'.cache.entries && s'.cache.entries[k] == s.cache.entries[k])
  {
    hide Inv, Run, Lookup, DropEntry, CacheKey;
    var s := Run(config, steps);
    var h := Lookup(s.cache, now, b, g).1;
    RunOneKeeps(config, steps, CloneFailed(h.key, h.source));
    HitIsStored(s.cache, now, b, g);
    DropLeaves(s.cache, h.key, h.source, k);
    DropLeaves(s.cache, h.key, h.source, h.key);
    HitIsStored(Run(config, steps + [CloneFailed(h.key, h.source)]).cache, later, b, g);
  }

  // ---------------------------------------------------------------- limits of eviction

  /** No eviction, of a binding or of a run, reaches loads in flight: after it, an answered load is
      stored if and only if it would have been before. */
  lemma EvictionMissesLoadsInFlight(config: Config, steps: seq<Step>, t: nat, evict: Step)
    requires ValidConfig(config) && (evict.BindingEvicted? || evict.RunEvicted?)
    ensures var s := Run(config, steps);
            t in s.loaders && s.loaders[t].Answered? ==>
            (ReadyToStore(config, s, t) <==>
             s.loaders[t].key in Next(config, Next(config, s, evict), Finish(t)).cache.entries)
  {
    hide BagOver, Publish, ValidCache, SingleFlight, Conserved, EntriesWellLoaded, LoadersOk, Run, Evict, Next;
    RunKeeps(config, steps);
    var s := Run(config, steps);
    if t in s.loaders && s.loaders[t].Answered? {
      var l := s.loaders[t];
      var f := FilterOf(evict);
      EvictKeeps(config, s, f);
      EvictKeepsRest(s.cache, f);
      var c := Evict(s.cache, f);
      LoaderHoldsKey(config, s.(cache := c), t);
      EvictThenFinish(config, s, t, evict);
      PublishKeepsValid(c, config, l.key, l.epoch, l.binding.providerType, l.source, l.entry);
    }
  }

  function FilterOf(evict: Step): Filter
    requires evict.BindingEvicted? || evict.RunEvicted?
  {
    if evict.BindingEvicted? then OfBinding(evict.tenant, evict.bindingID) else OfRun(evict.tenant, evict.runID)
  }

  lemma EvictThenFinish(config: Config, s: System, t: nat, evict: Step)
    requires ValidConfig(config) && t in s.loaders && s.loaders[t].Answered?
    requires evict.BindingEvicted? || evict.RunEvicted?
    ensures var l := s.loaders[t];
            Next(config, Next(config, s, evict), Finish(t)).cache ==
            Publish(Evict(s.cache, FilterOf(evict)), config, l.key, l.epoch, l.binding.providerType, l.source, l.entry).0
  {
    hide BagOver, Publish, Evict;
  }

  lemma EvictKeepsRest(c: Cache, f: Filter)
    ensures Evict(c, f).closed == c.closed && Evict(c, f).epochs == c.epochs
  {
  }

  /** An answered load is stored exactly when the cache is open and its provider's epoch reads
      as it did at the reservation; so an epoch that changes and comes back lets it in. */
  lemma EpochThatReturns(config: Config, steps: seq<Step>, t: nat, other: Name)
    requires ValidConfig(config) && ValidName(other)
    ensures var s := Run(config, steps);
            ReadyToStore(config, s, t) && ValidName(s.loaders[t].binding.providerType) && other != s.loaders[t].epoch
            && (s.loaders[t].epoch == NO_EPOCH || ValidName(s.loaders[t].epoch)) ==>
            var l := s.loaders[t];
            var changed := Next(config, s, EpochSet(l.binding.providerType, other));
            var returned := Next(config, changed, EpochSet(l.binding.providerType, l.epoch));
            && l.key !in Next(config, changed, Finish(t)).cache.entries
            && l.key in Next(config, returned, Finish(t)).cache.entries
  {
    hide BagOver, Publish, ValidCache, SingleFlight, Conserved, EntriesWellLoaded, ValidName, LoadersOk, Run;
    RunKeeps(config, steps);
    var s := Run(config, steps);
    if ReadyToStore(config, s, t) && ValidName(s.loaders[t].binding.providerType) && other != s.loaders[t].epoch
       && (s.loaders[t].epoch == NO_EPOCH || ValidName(s.loaders[t].epoch)) {
      var l := s.loaders[t];
      EpochSetKeeps(config, s, l.binding.providerType, other);
      var changed := Next(config, s, EpochSet(l.binding.providerType, other));
      EpochSetKeeps(config, changed, l.binding.providerType, l.epoch);
      var returned := Next(config, changed, EpochSet(l.binding.providerType, l.epoch));
      LoaderHoldsKey(config, changed, t);
      PublishKeepsValid(changed.cache, config, l.key, l.epoch, l.binding.providerType, l.source, l.entry);
      PublishKeepsValid(returned.cache, config, l.key, l.epoch, l.binding.providerType, l.source, l.entry);
    }
  }

  /** An unexpired entry of the caller's key and revocation epoch is a hit. */
  lemma EntryIsServed(c: Cache, now: Time, b: Binding, g: Governed, key: Key)
    requires !c.closed && key == CacheKey(b, g, EpochOf(c, b.providerType)) && key in c.entries
    requires now < c.entries[key].expiresAt && c.entries[key].revocationEpoch == b.revocationEpoch
    ensures Lookup(c, now, b, g).1 == Hit(key, c.entries[key].source)
  {
    hide CacheKey;
    PurgeLeaves(c, now, b, key);
    hide Purge;
  }

  /** A first load that is stored is served to every binding with its key. */
  lemma StoredIsServed(config: Config, now: Time, b: Binding, g: Governed, source: Source, m: Metadata, asked: Binding)
    requires ValidConfig(config) && MetadataMatches(m, b) && now < Expiry(config, b, m, now)
    requires CacheKey(asked, g, NO_EPOCH) == CacheKey(b, g, NO_EPOCH)
    ensures var s := Run(config, Loading0(now, b, g, source, m) + [Finish(0)]);
            && Lookup(s.cache, now, asked, g).1 == Hit(CacheKey(b, g, NO_EPOCH), source)
            && source in s.loads && s.loads[source].metadata == m
  {
    var key := CacheKey(b, g, NO_EPOCH);
    assert asked.revocationEpoch == b.revocationEpoch && asked.providerType == b.providerType;
    hide CacheKey, Expiry, MetadataMatches, Lookup, Publish, Loading0, ValidCache;
    LoadGetsReady(config, now, b, g, source, m);
    var steps := Loading0(now, b, g, source, m);
    RunKeeps(config, steps);
    var before := Run(config, steps);
    var l := before.loaders[0];
    RunOne(config, steps, Finish(0));
    PublishKeepsValid(before.cache, config, l.key, l.epoch, l.binding.providerType, l.source, l.entry);
    var s := Run(config, steps + [Finish(0)]);
    EntryIsServed(s.cache, now, asked, g, key);
  }

  const SAMPLE: Binding := Binding(
    Name("b"), Name("t"), Name("c"), [Selector("a.b", "1.0.0", "s")], Name("p"), Name("r"), Name("k"), ["a"], [], [],
    Name("m"), Name("i"), 0, 0, Name("v"), [], true)

  const SAMPLE_CONFIG: Config := Config(1, 100, 0)

  lemma SampleNamesAreValid()
    ensures ValidName(Name("e")) && ValidName(SAMPLE.providerType)
  {
  }

  /** Both limits are met by a run: a load in flight that an eviction misses, and that gets in
      when the epoch is set to another value and back. */
  lemma LimitsAreReached()
    ensures exists config: Config, steps: seq<Step>, t: nat, other: Name ::
              && ValidConfig(config) && ReadyToStore(config, Run(config, steps), t)
              && ValidName(other) && ValidName(Run(config, steps).loaders[t].binding.providerType)
              && other != Run(config, steps).loaders[t].epoch == NO_EPOCH
  {
    var m := Metadata(Name("k"), Name("r"), Name("v"), ["a"], [], [], 1000);
    LoadGetsReady(SAMPLE_CONFIG, 1, SAMPLE, Governed(Name("s"), Name("n")), 7, m);
    var other := Name("e");
    SampleNamesAreValid();
    hide Run, ReadyToStore, ValidName;
    var steps := Loading0(1, SAMPLE, Governed(Name("s"), Name("n")), 7, m);
    assert ReadyToStore(SAMPLE_CONFIG, Run(SAMPLE_CONFIG, steps), 0);
  }

  /** A hit that is not what was asked for: the audience `a` was loaded, and a binding that names
      `a` as a resource instead, and no audience, is served that capability. */
  lemma HitWithOtherAudiences()
    ensures exists config: Config, steps: seq<Step>, now: Time, b: Binding, g: Governed ::
              && ValidConfig(config)
              && var s := Run(config, steps);
                 var r := Lookup(s.cache, now, b, g).1;
              && r.Hit? && r.source in s.loads && s.loads[r.source].metadata.audiences != b.audiences
              && !MetadataMatches(s.loads[r.source].metadata, b)
  {
    var g := Governed(Name("s"), Name("n"));
    var m := Metadata(Name("k"), Name("r"), Name("v"), ["a"], [], [], 1000);
    var b := SAMPLE.(audiences := [], resources := ["a"]);
    var steps := Loading0(1, SAMPLE, g, 7, m) + [Finish(0)];
    var key := CacheKey(SAMPLE, g, NO_EPOCH);
    ListBoundaryIsNotHashed(SAMPLE, g, NO_EPOCH);
    assert CacheKey(b, g, NO_EPOCH) == key by {
      assert SAMPLE.audiences[..0] == [] && [SAMPLE.audiences[0]] + SAMPLE.resources == ["a"];
    }
    StoredIsServed(SAMPLE_CONFIG, 1, SAMPLE, g, 7, m, b);
    assert m.audiences != b.audiences by { assert |m.audiences| == 1 && |b.audiences| == 0; }
    hide Run, Lookup, CacheKey;
  }
}
