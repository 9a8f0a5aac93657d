/** The repository that keeps aggregates in a memory cache, used by one request at a time. */
module Caching {
  import opened Outcomes
  import opened Aggregates
  import opened EventLogs
  import opened SqlStore
  import opened Sessions

  /** The cache's entry for one id. A load that found no events is cached as a null. */
  datatype Entry<S, P> = Untracked | TrackedNull | Tracked(agg: Agg<S, P>)

  datatype Answer<S, P> = Got(agg: Agg<S, P>) | GotNull | Throws(error: StoreError)

  /** Loading through the inner repository and caching whatever came back. */
  function LoadAndCache<S, P>(b: Behaviour<S, P>, log: seq<Event<P>>): (Entry<S, P>, Answer<S, P>) {
    var events := Query(log, -1);
    if |events| == 0 then (TrackedNull, GotNull)
    else
      var (a, ok) := Loaded(b, Fresh(b), events);
      if ok then (Tracked(a), Got(a)) else (Untracked, Throws(OutOfOrder))
  }

  /** CacheRepository.GetAsync: catch up the cached aggregate, or load afresh; any exception evicts. */
  function CacheGet<S, P>(b: Behaviour<S, P>, log: seq<Event<P>>, entry: Entry<S, P>, storeUp: bool)
    : (Entry<S, P>, Answer<S, P>)
  {
    if entry.TrackedNull? then (Untracked, Throws(NullReference))
    else if !storeUp then (Untracked, Throws(StoreDown))
    else if entry.Untracked? then LoadAndCache(b, log)
    else
      var events := Query(log, entry.agg.version);
      if |events| != 0 && events[0].version != entry.agg.version + 1 then LoadAndCache(b, log)
      else
        var (a, ok) := Loaded(b, entry.agg, events);
        if ok then (Tracked(a), Got(a)) else (Untracked, Throws(OutOfOrder))
  }

  /** What a get comes to in each case: an evicted null, a store that is down, a catch-up of the cached aggregate, and
      otherwise -- nothing cached, or events missing in between -- a load of all events into a fresh one. */
  lemma CacheGetCases<S, P>(b: Behaviour<S, P>, log: seq<Event<P>>, entry: Entry<S, P>, storeUp: bool)
    ensures var (entry', answer) := CacheGet(b, log, entry, storeUp);
            var newer := if entry.Tracked? then Query(log, entry.agg.version) else [];
            var all := Query(log, -1);
            if entry == TrackedNull then entry' == Untracked && answer == Throws(NullReference)
            else if !storeUp then entry' == Untracked && answer == Throws(StoreDown)
            else if entry.Tracked? && (newer == [] || newer[0].version == entry.agg.version + 1) then
              if Loaded(b, entry.agg, newer).1
              then answer == Got(Loaded(b, entry.agg, newer).0) && entry' == Tracked(Loaded(b, entry.agg, newer).0)
              else answer == Throws(OutOfOrder) && entry' == Untracked
            else if all == [] then answer == GotNull && entry' == TrackedNull
            else if Loaded(b, Fresh(b), all).1
            then answer == Got(Loaded(b, Fresh(b), all).0) && entry' == Tracked(Loaded(b, Fresh(b), all).0)
            else answer == Throws(OutOfOrder) && entry' == Untracked
  {
    hide Loaded, Query;
  }

  class CacheRepository<S, P> {
    const repository: Repository<S, P>
    var cache: map<string, AggregateRoot?<S, P>>

    constructor (repository: Repository<S, P>)
      ensures this.repository == repository && cache == map[] && Valid()
    {
      this.repository, cache := repository, map[];
    }

    ghost predicate Valid()
      reads this
    {
      forall id :: id in cache && cache[id] != null ==> cache[id].behaviour == repository.behaviour
    }

    ghost function Cached(id: string): set<object>
      reads this
    {
      if id in cache && cache[id] != null then {cache[id]} else {}
    }

    ghost function EntryOf(id: string): Entry<S, P>
      reads this, Cached(id)
    {
      if id !in cache then Untracked
      else if cache[id] == null then TrackedNull
      else Tracked(cache[id].Value())
    }

    /** What a call that produced `answer` hands back. */
    ghost predicate Returned(id: string, answer: Answer<S, P>, aggregate: AggregateRoot?<S, P>,
                             r: Result<(), StoreError>)
      reads this, Cached(id)
    {
      match answer
      case Got(a) => r.Success? && aggregate != null && id in cache && cache[id] == aggregate
          && EntryOf(id) == Tracked(a)
      case GotNull => r.Success? && aggregate == null
      case Throws(error) => r.Failure? && r.error == error && aggregate == null
    }

    method LoadAndCacheAsync(id: string) returns (aggregate: AggregateRoot?<S, P>, r: Result<(), StoreError>)
      requires Valid() && id !in cache
      modifies this
      ensures Valid() && cache.Keys <= old(cache).Keys + {id}
          && (forall other :: other in old(cache) ==> other in cache && cache[other] == old(cache)[other])
      ensures var (entry, answer) := LoadAndCache(repository.behaviour, RowsOf(repository.store.rows, id));
              EntryOf(id) == entry && Returned(id, answer, aggregate, r)
    {
      hide Query, Loaded, Held, Contiguous, OwnedBy;
      aggregate, r := repository.GetAsync(id);
      if r.Success? {
        cache := cache[id := aggregate];
      }
    }

    /** Hands out the cached object itself, so that every caller shares it. */
    method GetAsync(id: string, storeUp: bool) returns (aggregate: AggregateRoot?<S, P>, r: Result<(), StoreError>)
      requires Valid()
      modifies this, Cached(id)
      ensures Valid()
      ensures var (entry, answer) :=
                CacheGet(repository.behaviour, RowsOf(repository.store.rows, id), old(EntryOf(id)), storeUp);
              EntryOf(id) == entry && Returned(id, answer, aggregate, r)
      ensures forall other :: other != id ==>
                (other in cache <==> other in old(cache)) && (other in cache ==> cache[other] == old(cache)[other])
    {
      if id in cache {
        var known := cache[id];
        if known == null || !storeUp {
          cache := cache - {id};
          return null, Failure(if known == null then NullReference else StoreDown);
        }
        var events := repository.store.GetAsync(id, known.Version);
        if |events| == 0 || events[0].version == known.Version + 1 {
          r := known.LoadFromHistory(events);
          if r.Success? {
            return known, r;
          }
          cache := cache - {id};
          return null, r;
        }
        cache := cache - {id};
      }
      if !storeUp {
        return null, Failure(StoreDown);
      }
      aggregate, r := LoadAndCacheAsync(id);
    }

    /** Caches the aggregate unless something is cached under its id, saves it, and evicts on any failure. */
    method SaveAsync(aggregate: AggregateRoot<S, P>, expected: Option<int>, faults: nat -> Fault)
      returns (r: Result<(), StoreError>)
      requires Valid() && aggregate.behaviour == repository.behaviour
      modifies this, aggregate, repository.store
      ensures Valid()
      ensures SavedBatch(old(repository.store.rows), repository.store.rows, old(aggregate.Value()), expected, faults,
          r.Success?)
      ensures r == Failure(Concurrency) <==>
          !PassesCheck(RowsOf(old(repository.store.rows), old(aggregate.Id)), expected)
      ensures r == Failure(MissingId) <==> r != Failure(Concurrency) && !CanFlush(old(aggregate.Value()))
      ensures r == Failure(Concurrency) ==> aggregate.Value() == old(aggregate.Value())
      ensures r != Failure(Concurrency) && r != Failure(MissingId) ==>
          aggregate.Value() == AfterFlush(old(aggregate.Value()))
      ensures cache == if r.Failure? then old(cache) - {old(aggregate.Id)}
                       else if old(aggregate.Id) != "" && old(aggregate.Id) !in old(cache)
                            then old(cache)[old(aggregate.Id) := aggregate]
                       else old(cache)
    {
      hide SavedBatch;
      ghost var was := cache;
      if aggregate.Id != "" && aggregate.Id !in cache {
        cache := cache[aggregate.Id := aggregate];
      }
      r := repository.SaveAsync(aggregate, expected, faults);
      if r.Failure? {
        cache := cache - {aggregate.Id};
        assert cache == was - {aggregate.Id};
      }
    }
  }
}
