/** The repository over the event store, and the session that tracks aggregates and commits them. */
module Sessions {
  import opened Outcomes
  import opened Aggregates
  import opened EventLogs
  import opened RedisLists
  import opened SqlStore

  /** Whether the version check lets a save through: no stored event is newer than expected. */
  predicate PassesCheck<P>(log: seq<Event<P>>, expected: Option<int>) {
    expected == None || |Query(log, expected.value)| == 0
  }

  lemma CheckMeaning<P>(log: seq<Event<P>>, expected: Option<int>)
    ensures PassesCheck(log, expected) <==>
              expected.None? || forall i :: 0 <= i < |log| ==> log[i].version <= expected.value
  {
    if expected.Some? {
      QueryCount(log, expected.value);
    }
  }

  lemma CheckRefuses<P>(rows: map<string, seq<Event<P>>>, id: string, expected: Option<int>)
    ensures !PassesCheck(RowsOf(rows, id), expected) <==>
              expected.Some? && id in rows && exists i :: 0 <= i < |rows[id]| && rows[id][i].version > expected.value
    ensures PassesCheck(RowsOf(rows, id), expected) <==>
              expected.None? || |Query(RowsOf(rows, id), expected.value)| == 0
  {
    CheckMeaning(RowsOf(rows, id), expected);
  }

  lemma {:induction false} QueryCount<P>(log: seq<Event<P>>, from: int)
    ensures |Query(log, from)| == 0 <==> forall i :: 0 <= i < |log| ==> log[i].version <= from
  {
    OrderSorts(Newer(log, from));
    assert |multiset(Query(log, from))| == |multiset(Newer(log, from))|;
    NewerEmpty(log, from);
  }

  lemma {:induction false} NewerEmpty<P>(log: seq<Event<P>>, from: int)
    ensures |Newer(log, from)| == 0 <==> forall i :: 0 <= i < |log| ==> log[i].version <= from
  {
    if |log| != 0 {
      NewerEmpty(log[1..], from);
      assert forall i :: 0 <= i < |log[1..]| ==> log[1..][i] == log[i + 1];
      assert forall i :: 0 < i < |log| ==> log[i] == log[1..][i - 1];
    }
  }

  /** What saving aggregate value `a` makes of the store, and whether the save returns: nothing and no if a
      newer event is stored or an event cannot be stamped, otherwise the longest storable prefix of its batch. */
  ghost predicate SavedBatch<S, P>(rows: map<string, seq<Event<P>>>, rows': map<string, seq<Event<P>>>, a: Agg<S, P>,
                                   expected: Option<int>, faults: nat -> Fault, ok: bool)
  {
    if PassesCheck(RowsOf(rows, a.id), expected) && CanFlush(a) then
      exists n: nat ::
        && StoresExactly(rows, Flushed(a), faults, n)
        && Extended(rows, rows', Flushed(a)[..n])
        && (ok <==> n == |Flushed(a)|)
    else
      !ok && rows' == rows
  }

  /** The same for one aggregate's log, when every event of the batch is its own. */
  ghost predicate SavedAs<S, P>(rows: map<string, seq<Event<P>>>, id: string, a: Agg<S, P>, expected: Option<int>,
                                faults: nat -> Fault, log: seq<Event<P>>, ok: bool)
  {
    if PassesCheck(RowsOf(rows, id), expected) && CanFlush(a) then
      exists n: nat ::
        && StoresExactly(rows, Flushed(a), faults, n)
        && log == RowsOf(rows, id) + Flushed(a)[..n]
        && (ok <==> n == |Flushed(a)|)
    else
      !ok && log == RowsOf(rows, id)
  }

  /** Storability of one aggregate's batch looks at that aggregate's rows only. */
  lemma StoresLocally<P>(rows: map<string, seq<Event<P>>>, rows': map<string, seq<Event<P>>>, id: string,
                         es: seq<Event<P>>, faults: nat -> Fault, n: nat)
    requires OwnedBy(es, id) && RowsOf(rows, id) == RowsOf(rows', id)
    ensures StoresExactly(rows, es, faults, n) ==> StoresExactly(rows', es, faults, n)
  {
    assert forall j: nat :: j < |es| ==> StorableAt(rows, es, faults, j) == StorableAt(rows', es, faults, j);
  }

  lemma OneLogGrows<P>(rows: map<string, seq<Event<P>>>, rows': map<string, seq<Event<P>>>, es: seq<Event<P>>,
                       id: string)
    requires OwnedBy(es, id) && Extended(rows, rows', es)
    ensures RowsOf(rows', id) == RowsOf(rows, id) + es
    ensures forall other :: other != id ==> RowsOf(rows', other) == RowsOf(rows, other)
  {
    OfOneId(es, id);
  }

  /** Saving an aggregate's own events concerns its own log only. */
  lemma {:induction false} SavedOwn<S, P>(rows: map<string, seq<Event<P>>>, rows': map<string, seq<Event<P>>>,
                                          a: Agg<S, P>, expected: Option<int>, faults: nat -> Fault, ok: bool)
    requires OwnChanges(a.changes, a.id) && SavedBatch(rows, rows', a, expected, faults, ok)
    ensures SavedAs(rows, a.id, a, expected, faults, RowsOf(rows', a.id), ok)
    ensures forall other :: other != a.id ==> RowsOf(rows', other) == RowsOf(rows, other)
  {
    if PassesCheck(RowsOf(rows, a.id), expected) && CanFlush(a) {
      assert OwnedBy(Flushed(a), a.id);
      hide StoresExactly, Extended, Flushed, PassesCheck, CanFlush;
      var n: nat :| StoresExactly(rows, Flushed(a), faults, n) && Extended(rows, rows', Flushed(a)[..n])
                    && (ok <==> n == |Flushed(a)|);
      OneLogGrows(rows, rows', Flushed(a)[..n], a.id);
    }
  }

  lemma SavedLocally<S, P>(rows: map<string, seq<Event<P>>>, rows': map<string, seq<Event<P>>>, id: string,
                           a: Agg<S, P>, expected: Option<int>, faults: nat -> Fault, log: seq<Event<P>>, ok: bool)
    requires a.id == id && OwnChanges(a.changes, id) && RowsOf(rows, id) == RowsOf(rows', id)
    requires SavedAs(rows, id, a, expected, faults, log, ok)
    ensures SavedAs(rows', id, a, expected, faults, log, ok)
  {
    if PassesCheck(RowsOf(rows, id), expected) && CanFlush(a) {
      var n: nat :| StoresExactly(rows, Flushed(a), faults, n) && log == RowsOf(rows, id) + Flushed(a)[..n]
                    && (ok <==> n == |Flushed(a)|);
      StoresLocally(rows, rows', id, Flushed(a), faults, n);
    }
  }

  class Repository<S, P> {
    const behaviour: Behaviour<S, P>
    const store: SqlEventStore<P>

    constructor (behaviour: Behaviour<S, P>, store: SqlEventStore<P>)
      ensures this.behaviour == behaviour && this.store == store
    {
      this.behaviour, this.store := behaviour, store;
    }

    /** Check, then flush, then append. The aggregate counts its changes as saved before the store does;
        whatever happens, its state and the events it counts or holds stay the same. */
    method SaveAsync(aggregate: AggregateRoot<S, P>, expected: Option<int>, faults: nat -> Fault)
      returns (r: Result<(), StoreError>)
      modifies aggregate, store
      ensures SavedBatch(old(store.rows), store.rows, old(aggregate.Value()), expected, faults, r.Success?)
      ensures r == Failure(Concurrency) <==> !PassesCheck(RowsOf(old(store.rows), old(aggregate.Id)), expected)
      ensures r == Failure(Concurrency) <==>
                && expected.Some? && old(aggregate.Id) in old(store.rows)
                && exists i :: 0 <= i < |old(store.rows)[old(aggregate.Id)]|
                               && old(store.rows)[old(aggregate.Id)][i].version > expected.value
      ensures r == Failure(MissingId) <==> r != Failure(Concurrency) && !CanFlush(old(aggregate.Value()))
      ensures r == Failure(Concurrency) ==> aggregate.Value() == old(aggregate.Value())
      ensures r != Failure(Concurrency) && r != Failure(MissingId) ==>
          aggregate.Value() == AfterFlush(old(aggregate.Value()))
      ensures aggregate.Id == old(aggregate.Id) && aggregate.State == old(aggregate.State)
      ensures aggregate.Version + |aggregate.changes| == old(aggregate.Version + |aggregate.changes|)
    {
      hide StoresExactly, Extended, Query, Flushed, CanFlush, PassesCheck, RowsOf;
      CheckRefuses(store.rows, aggregate.Id, expected);
      if expected.Some? {
        var newer := store.GetAsync(aggregate.Id, expected.value);
        if |newer| != 0 {
          return Failure(Concurrency);
        }
      }
      ghost var before, was := aggregate.Value(), store.rows;
      var changes := aggregate.FlushUncommitedChanges();
      if changes.Failure? {
        return Failure(changes.error);
      }
      var saved := store.SaveAsync(changes.value, faults);
      ghost var n := if saved.Saved? then |changes.value| else saved.at;
      assert StoresExactly(was, Flushed(before), faults, n) && Extended(was, store.rows, Flushed(before)[..n]);
      r := if saved.Saved? then Success(()) else Failure(saved.error);
    }

    /** No aggregate at all for an id without events; a log that holds versions 1..N always loads. */
    method GetAsync(id: string) returns (aggregate: AggregateRoot?<S, P>, r: Result<(), StoreError>)
      ensures var log := RowsOf(store.rows, id);
              var (a, ok) := Loaded(behaviour, Fresh(behaviour), Query(log, -1));
              && (|Query(log, -1)| == 0 ==> aggregate == null && r == Success(()))
              && (|Query(log, -1)| != 0 && ok ==> aggregate != null && r.Success? && aggregate.Value() == a)
              && (!ok ==> aggregate == null && r == Failure(OutOfOrder))
              && (Contiguous(log) && OwnedBy(log, id) && |log| != 0 ==>
                    aggregate != null && aggregate.Value() == Held(behaviour, id, log, []))
      ensures aggregate != null ==> fresh(aggregate) && aggregate.behaviour == behaviour
    {
      var events := store.GetAsync(id, -1);
      ghost var log := RowsOf(store.rows, id);
      if Contiguous(log) && OwnedBy(log, id) { LoadWholeLog(behaviour, id, log); }
      if |events| == 0 {
        return null, Success(());
      }
      aggregate := new AggregateRoot(behaviour);
      r := aggregate.LoadFromHistory(events);
      if r.Failure? {
        aggregate := null;
      }
    }
  }

  /** A tracked aggregate object and the version it had when tracking began. */
  datatype Descriptor<S, P> = Descriptor(aggregate: AggregateRoot<S, P>, version: int)

  // ---- saving many aggregates one after the other -----------------------------------------

  ghost predicate SavedNext<S, P>(rows: map<string, seq<Event<P>>>, rows': map<string, seq<Event<P>>>, id: string,
                                  values: map<string, Agg<S, P>>, versions: map<string, int>,
                                  faults: string -> nat -> Fault, failed: set<string>)
    requires id in values && id in versions
  {
    SavedBatch(rows, rows', values[id], Some(versions[id]), faults(id), id !in failed)
  }

  /** The store after the aggregates in `order` were saved in that order, those outside `failed` in full. */
  ghost predicate SavedInOrder<S, P(!new)>(was: map<string, seq<Event<P>>>, rows: map<string, seq<Event<P>>>,
                                           order: seq<string>,
                                           values: map<string, Agg<S, P>>, versions: map<string, int>,
                                           faults: string -> nat -> Fault, failed: set<string>)
    requires versions.Keys == values.Keys && forall id :: id in order ==> id in values
    decreases |order|
  {
    if |order| == 0 then rows == was
    else
      var front, last := order[..|order| - 1], order[|order| - 1];
      exists between ::
        && SavedInOrder(was, between, front, values, versions, faults, failed)
        && SavedNext(between, rows, last, values, versions, faults, failed)
  }

  lemma NothingSaved<S, P(!new)>(rows: map<string, seq<Event<P>>>, values: map<string, Agg<S, P>>,
                                 versions: map<string, int>, faults: string -> nat -> Fault)
    requires versions.Keys == values.Keys
    ensures SavedInOrder(rows, rows, [], values, versions, faults, {}) && NoDup<string>([])
  {
  }

  lemma {:induction false} OthersMayFail<S, P(!new)>(was: map<string, seq<Event<P>>>, rows: map<string, seq<Event<P>>>,
                                                     order: seq<string>,
                                                     values: map<string, Agg<S, P>>, versions: map<string, int>,
                                                     faults: string -> nat -> Fault, failed: set<string>, key: string)
    requires versions.Keys == values.Keys && (forall id :: id in order ==> id in values) && key !in order
    requires SavedInOrder(was, rows, order, values, versions, faults, failed)
    ensures SavedInOrder(was, rows, order, values, versions, faults, failed + {key})
    decreases |order|
  {
    if |order| != 0 {
      var front, last := order[..|order| - 1], order[|order| - 1];
      hide SavedBatch;
      var between :|
        && SavedInOrder(was, between, front, values, versions, faults, failed)
        && SavedNext(between, rows, last, values, versions, faults, failed);
      OthersMayFail(was, between, front, values, versions, faults, failed, key);
    }
  }

  /** The ids given up so far, and which of them failed. */
  ghost predicate Drained(left: set<string>, all: set<string>, failed: set<string>, order: seq<string>) {
    && NoDup(order) && left <= all && (forall id :: id in order ==> id in all && id !in left)
    && (forall id :: id in all ==> id in left || id in order)
    && (forall id :: id in failed ==> id in order)
  }

  lemma DrainedStep(left: set<string>, all: set<string>, failed: set<string>, order: seq<string>, key: string)
    requires Drained(left, all, failed, order) && key in left
    ensures Drained(left - {key}, all, failed, order + [key])
    ensures Drained(left - {key}, all, failed + {key}, order + [key])
    ensures key in all && key !in order && key !in failed && forall id :: id in order ==> id in all
  {
  }

  lemma OneSavedMore<S, P(!new)>(was: map<string, seq<Event<P>>>, rows: map<string, seq<Event<P>>>,
                                 rows': map<string, seq<Event<P>>>,
                                 order: seq<string>, values: map<string, Agg<S, P>>, versions: map<string, int>,
                                 faults: string -> nat -> Fault, failed: set<string>, key: string, ok: bool)
    requires versions.Keys == values.Keys && (forall id :: id in order ==> id in values)
    requires key in values && key !in order && key !in failed
    requires SavedInOrder(was, rows, order, values, versions, faults, failed)
    requires SavedBatch(rows, rows', values[key], Some(versions[key]), faults(key), ok)
    ensures SavedInOrder(was, rows', order + [key], values, versions, faults, if ok then failed else failed + {key})
  {
    hide SavedBatch;
    var failed' := if ok then failed else failed + {key};
    if !ok { OthersMayFail(was, rows, order, values, versions, faults, failed, key); }
    var all := order + [key];
    assert all[..|all| - 1] == order && all[|all| - 1] == key;
    assert SavedInOrder(was, rows, all[..|all| - 1], values, versions, faults, failed')
        && SavedNext(rows, rows', all[|all| - 1], values, versions, faults, failed');
  }

  /** When every change is its aggregate's own, the order makes no difference: each aggregate is saved as if
      it were alone. */
  lemma {:induction false} SavedIndependently<S, P(!new)>(was: map<string, seq<Event<P>>>,
                                                          rows: map<string, seq<Event<P>>>,
                                                          order: seq<string>, values: map<string, Agg<S, P>>,
                                                          versions: map<string, int>, faults: string -> nat -> Fault,
                                                          failed: set<string>)
    requires versions.Keys == values.Keys && (forall id :: id in order ==> id in values) && NoDup(order)
    requires forall id :: id in order ==> values[id].id == id && OwnChanges(values[id].changes, id)
    requires SavedInOrder(was, rows, order, values, versions, faults, failed)
    ensures forall id :: id !in order ==> RowsOf(rows, id) == RowsOf(was, id)
    ensures forall id :: id in order ==>
              SavedAs(was, id, values[id], Some(versions[id]), faults(id), RowsOf(rows, id), id !in failed)
    decreases |order|
  {
    hide SavedBatch, SavedAs, RowsOf;
    if |order| != 0 {
      var front, last := order[..|order| - 1], order[|order| - 1];
      var between :|
        && SavedInOrder(was, between, front, values, versions, faults, failed)
        && SavedNext(between, rows, last, values, versions, faults, failed);
      assert last !in front && forall id :: id in order <==> id in front || id == last;
      SavedIndependently(was, between, front, values, versions, faults, failed);
      SavedOwn(between, rows, values[last], Some(versions[last]), faults(last), last !in failed);
      SavedLocally(between, was, last, values[last], Some(versions[last]), faults(last), RowsOf(rows, last),
          last !in failed);
    }
  }

  class Session<S, P(!new)> {
    const repository: Repository<S, P>
    var tracked: map<string, Descriptor<S, P>>

    constructor (repository: Repository<S, P>)
      ensures this.repository == repository && tracked == map[] && Valid()
    {
      this.repository, tracked := repository, map[];
    }

    ghost function Aggregates(): set<object>
      reads this
    {
      set id | id in tracked :: tracked[id].aggregate
    }

    ghost function Values(): map<string, Agg<S, P>>
      reads this, Aggregates()
    {
      map id | id in tracked :: tracked[id].aggregate.Value()
    }

    ghost function Versions(): map<string, int>
      reads this
    {
      map id | id in tracked :: tracked[id].version
    }

    /** The identity map files every aggregate under its own id, so no object is tracked twice. */
    ghost predicate Valid()
      reads this, Aggregates()
    {
      forall id :: id in tracked ==> tracked[id].aggregate.Id == id
    }

    /** Refuses a second object for an id that is already tracked. */
    method AddAsync(aggregate: AggregateRoot<S, P>) returns (r: Result<(), StoreError>)
      requires Valid()
      modifies this
      ensures Valid()
      ensures r == if aggregate.Id in old(tracked) && old(tracked)[aggregate.Id].aggregate != aggregate
                   then Failure(Concurrency) else Success(())
      ensures tracked == if aggregate.Id in old(tracked) then old(tracked)
                         else old(tracked)[aggregate.Id := Descriptor(aggregate, aggregate.Version)]
    {
      if aggregate.Id !in tracked {
        tracked := tracked[aggregate.Id := Descriptor(aggregate, aggregate.Version)];
      } else if tracked[aggregate.Id].aggregate != aggregate {
        return Failure(Concurrency);
      }
      r := Success(());
    }

    /** A call that hands nothing out leaves the identity map as it `was`. */
    ghost predicate Refused(aggregate: AggregateRoot?<S, P>, r: Result<(), StoreError>, answer: Result<(), StoreError>,
                            was: map<string, Descriptor<S, P>>)
      reads this
    {
      aggregate == null && r == answer && tracked == was
    }

    /** The tracked object when there is one and it has the expected version; otherwise a fresh load of that
        version, tracked from now on under the id its events carry. */
    method GetAsync(id: string, expected: Option<int>)
      returns (aggregate: AggregateRoot?<S, P>, r: Result<(), StoreError>)
      requires Valid()
      modifies this
      ensures Valid()
      ensures id in old(tracked) ==>
                var known := old(tracked)[id].aggregate;
                if expected.None? || known.Version == expected.value
                then aggregate == known && r.Success? && tracked == old(tracked)
                else Refused(aggregate, r, Failure(Concurrency), old(tracked))
      ensures id !in old(tracked) ==>
                var events := Query(RowsOf(repository.store.rows, id), -1);
                var (a, ok) := Loaded(repository.behaviour, Fresh(repository.behaviour), events);
                if |events| == 0 then Refused(aggregate, r, Success(()), old(tracked))
                else if !ok then Refused(aggregate, r, Failure(OutOfOrder), old(tracked))
                else if (expected.Some? && a.version != expected.value) || a.id in old(tracked)
                then Refused(aggregate, r, Failure(Concurrency), old(tracked))
                else && aggregate != null && fresh(aggregate) && r.Success? && aggregate.Value() == a
                     && tracked == old(tracked)[a.id := Descriptor(aggregate, a.version)]
    {
      if id in tracked {
        var known := tracked[id].aggregate;
        if expected.Some? && known.Version != expected.value {
          return null, Failure(Concurrency);
        }
        return known, Success(());
      }
      aggregate, r := repository.GetAsync(id);
      if aggregate == null {
        return null, r;
      }
      if expected.Some? && aggregate.Version != expected.value {
        return null, Failure(Concurrency);
      }
      r := AddAsync(aggregate);
      if r.Failure? {
        aggregate := null;
      }
    }

    /** Takes one aggregate off the identity map and saves it against the version it was tracked at. */
    method SaveTracked(key: string, faults: nat -> Fault) returns (r: Result<(), StoreError>)
      requires Valid() && key in tracked
      modifies this, tracked[key].aggregate, repository.store
      ensures Valid() && tracked == old(tracked) - {key}
      ensures SavedBatch(old(repository.store.rows), repository.store.rows, old(tracked[key].aggregate.Value()),
                         Some(old(tracked)[key].version), faults, r.Success?)
      ensures forall id :: id in tracked ==> tracked[id].aggregate.Value() == old(tracked[id].aggregate.Value())
    {
      hide SavedBatch;
      var descriptor := tracked[key];
      tracked := tracked - {key};
      assert forall id :: id in tracked ==> tracked[id].aggregate != descriptor.aggregate
                                            && (tracked[id].aggregate as object) != repository.store;
      r := repository.SaveAsync(descriptor.aggregate, Some(descriptor.version), faults);
    }

    /** What is still tracked has not been touched since the commit began. */
    ghost predicate Untouched(all: map<string, Descriptor<S, P>>, values: map<string, Agg<S, P>>,
                              versions: map<string, int>)
      requires versions.Keys == values.Keys == all.Keys
      reads this, Aggregates()
    {
      forall id :: id in tracked ==>
        && id in all && tracked[id] == all[id]
        && versions[id] == all[id].version && tracked[id].aggregate.Value() == values[id]
    }

    /** Where a draining commit stands: the ids in `order` are saved or have failed, the others untouched. */
    ghost predicate Draining(was: map<string, seq<Event<P>>>, all: map<string, Descriptor<S, P>>,
                             values: map<string, Agg<S, P>>, versions: map<string, int>,
                             faults: string -> nat -> Fault, errors: map<string, StoreError>, order: seq<string>)
      requires versions.Keys == values.Keys == all.Keys
      reads this, Aggregates(), repository, repository.store
    {
      && Untouched(all, values, versions)
      && Drained(tracked.Keys, all.Keys, errors.Keys, order)
      && SavedInOrder(was, repository.store.rows, order, values, versions, faults, errors.Keys)
    }

    /** One turn of the commit's loop. */
    method DrainOne(key: string, errors: map<string, StoreError>, faults: string -> nat -> Fault,
                    ghost order: seq<string>,
                    ghost was: map<string, seq<Event<P>>>, ghost all: map<string, Descriptor<S, P>>,
                    ghost values: map<string, Agg<S, P>>, ghost versions: map<string, int>)
      returns (errors': map<string, StoreError>)
      requires Valid() && key in tracked && versions.Keys == values.Keys == all.Keys
      requires Draining(was, all, values, versions, faults, errors, order)
      modifies this, tracked[key].aggregate, repository.store
      ensures Valid() && tracked == old(tracked) - {key}
      ensures Draining(was, all, values, versions, faults, errors', order + [key])
    {
      hide SavedBatch, SavedInOrder, NoDup, RowsOf, OwnChanges, PassesCheck, Drained;
      DrainedStep(tracked.Keys, all.Keys, errors.Keys, order, key);
      ghost var before, left := repository.store.rows, tracked;
      var saved := SaveTracked(key, faults(key));
      errors' := if saved.Failure? then errors[key := saved.error] else errors;
      assert errors'.Keys == if saved.Success? then errors.Keys else errors.Keys + {key};
      assert tracked.Keys == left.Keys - {key};
      OneSavedMore(was, before, repository.store.rows, order, values, versions, faults, errors.Keys, key,
                   saved.Success?);
    }

    /** Drains the identity map, saving every aggregate against the version it was tracked at; `order` is the
        order in which the map gave them up. A failing save does not stop the others; the commit throws the
        collected errors, so it returns normally exactly when every aggregate was stored in full. */
    method CommitAsync(faults: string -> nat -> Fault) returns (errors: map<string, StoreError>, order: seq<string>)
      requires Valid()
      modifies this, Aggregates(), repository.store
      ensures tracked == map[] && Valid()
      ensures NoDup(order) && (forall id :: id in order <==> id in old(tracked)) && errors.Keys <= old(tracked).Keys
      ensures SavedInOrder(old(repository.store.rows), repository.store.rows, order, old(Values()), old(Versions()),
                           faults, errors.Keys)
      ensures (forall id :: id in old(tracked) ==> OwnChanges(old(tracked[id].aggregate.changes), id)) ==>
                && (forall id :: id !in old(tracked) ==>
                      RowsOf(repository.store.rows, id) == RowsOf(old(repository.store.rows), id))
                && (forall id :: id in old(tracked) ==>
                      SavedAs(old(repository.store.rows), id, old(Values())[id], Some(old(tracked)[id].version),
                              faults(id), RowsOf(repository.store.rows, id), id !in errors))
    {
      hide SavedBatch, SavedAs, SavedInOrder, NoDup, RowsOf, OwnChanges;
      ghost var all, was, values, versions := tracked, repository.store.rows, Values(), Versions();
      errors, order := map[], [];
      NothingSaved(was, values, versions, faults);
      assert errors.Keys == {} && forall id :: id in tracked ==> tracked[id].aggregate.Value() == values[id];
      while tracked.Keys != {}
        invariant Valid() && Draining(was, all, values, versions, faults, errors, order)
        decreases tracked.Keys
      {
        var key :| key in tracked;
        errors := DrainOne(key, errors, faults, order, was, all, values, versions);
        order := order + [key];
      }
      if forall id :: id in all ==> OwnChanges(values[id].changes, id) {
        SavedIndependently(was, repository.store.rows, order, values, versions, faults, errors.Keys);
      }
    }
  }
}
