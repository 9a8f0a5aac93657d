/** The Redis event store: per aggregate a list of commit ids, pointing into a hash of events. */
module RedisStore {
  import opened Outcomes
  import opened RedisLists
  import opened Aggregates
  import opened EventLogs

  /** How the environment treats one try of the list transaction. */
  datatype Try = LengthThrows | ExecuteThrows | RaceLost | Executed(published: bool)

  /** The contents of the store. Hash partitions are left out: an id always falls into the same one. */
  datatype Redis<P> = Redis(lists: map<string, seq<nat>>, hash: map<nat, Event<P>>, published: seq<Event<P>>)

  function ListOf<P>(r: Redis<P>, id: string): seq<nat> {
    if id in r.lists then r.lists[id] else []
  }

  /** The first try that is not a lost race; when all are lost, a lost race. */
  function Decisive(tries: nat -> Try, i: nat, retryCount: nat): Try
    decreases retryCount - i
  {
    if i >= retryCount then RaceLost
    else if tries(i) != RaceLost then tries(i)
    else Decisive(tries, i + 1, retryCount)
  }

  lemma {:induction false} DecisiveIsFirst(tries: nat -> Try, i: nat, retryCount: nat)
    requires i <= retryCount
    ensures Decisive(tries, i, retryCount) == RaceLost <==>
              forall j: nat :: i <= j < retryCount ==> tries(j) == RaceLost
    ensures forall j: nat :: i <= j < retryCount && tries(j) != RaceLost
                             && (forall k: nat :: i <= k < j ==> tries(k) == RaceLost) ==>
              Decisive(tries, i, retryCount) == tries(j)
    decreases retryCount - i
  {
    if i < retryCount { DecisiveIsFirst(tries, i + 1, retryCount); }
  }

  /** The store after a save that wrote its hash entry and whose list transaction came out as `t`. */
  function AfterTry<P>(r: Redis<P>, e: Event<P>, commit: nat, t: Try): Redis<P> {
    match t
    case Executed(true) =>
      Redis(r.lists[e.id := ListOf(r, e.id) + [commit]], r.hash[commit := e], r.published + [e])
    case LengthThrows => r.(hash := r.hash[commit := e])
    case _ => r
  }

  /** What the call answers when its list transaction came out as `t`. */
  function Answer(t: Try): Result<(), StoreError> {
    match t
    case Executed(true) => Success(())
    case Executed(false) => Failure(PublishFailed)
    case RaceLost => Failure(Concurrency)
    case LengthThrows | ExecuteThrows => Failure(StoreDown)
  }

  /** Nothing in the store mentions this commit id. */
  predicate Unused<P>(r: Redis<P>, commit: nat) {
    commit !in r.hash && forall id :: id in r.lists ==> commit !in r.lists[id]
  }

  /** Redis drops the key of a list that becomes empty. */
  ghost predicate NoEmptyList<P>(r: Redis<P>) {
    forall id :: id in r.lists ==> r.lists[id] != []
  }

  /** The events listed for an aggregate, in list order; None when a commit id has no event. */
  function Resolve<P>(r: Redis<P>, commits: seq<nat>): Option<seq<Event<P>>> {
    if |commits| == 0 then Some([])
    else if commits[0] !in r.hash then None
    else match Resolve(r, commits[1..])
         case None => None
         case Some(rest) => Some([r.hash[commits[0]]] + rest)
  }

  class RedisEventStore<P> {
    const retryCount: nat
    var lists: map<string, seq<nat>>
    var hash: map<nat, Event<P>>
    var published: seq<Event<P>>

    constructor (retryCount: nat)
      ensures this.retryCount == retryCount && Value() == Redis(map[], map[], []) && NoEmptyList(Value())
    {
      this.retryCount := retryCount;
      lists, hash, published := map[], map[], [];
    }

    ghost function Value(): Redis<P>
      reads this
    {
      Redis(lists, hash, published)
    }

    /** The list transaction that went through, then publishing; a failed publish takes the commit id back. */
    method PushAndPublish(e: Event<P>, commit: nat, ok: bool)
      requires NoEmptyList(Value())
      modifies this`lists, this`published
      ensures NoEmptyList(Value())
      ensures lists == if ok then old(lists)[e.id := ListOf(old(Value()), e.id) + [commit]] else old(lists)
      ensures published == if ok then old(published) + [e] else old(published)
    {
      ghost var was := lists;
      var list := if e.id in lists then lists[e.id] else [];
      lists := lists[e.id := list + [commit]];
      if ok {
        published := published + [e];
      } else {
        RemoveWhatWasPushed(list, commit);
        var left := RemoveLast(lists[e.id], commit);
        lists := if |left| == 0 then lists - {e.id} else lists[e.id := left];
        assert lists == was;
      }
    }

    /** One event: hash entry first, then the list transaction until it is decided. */
    method SaveEvent(e: Event<P>, commit: nat, tries: nat -> Try) returns (r: Result<(), StoreError>)
      requires Unused(Value(), commit) && NoEmptyList(Value())
      modifies this
      ensures NoEmptyList(Value())
      ensures Value() == AfterTry(old(Value()), e, commit, Decisive(tries, 0, retryCount))
      ensures r == Answer(Decisive(tries, 0, retryCount))
      ensures r == Failure(Concurrency) <==> forall j: nat :: j < retryCount ==> tries(j) == RaceLost
      ensures r == Failure(Concurrency) ==> Value() == old(Value())
      ensures forall i: nat ::
                (i < retryCount && tries(i) != RaceLost && forall j: nat :: j < i ==> tries(j) == RaceLost) ==>
                match tries(i)
                case Executed(true) =>
                  && r == Success(()) && hash == old(hash)[commit := e] && published == old(published) + [e]
                  && lists == old(lists)[e.id := (if e.id in old(lists) then old(lists)[e.id] else []) + [commit]]
                case Executed(false) => r == Failure(PublishFailed) && Value() == old(Value())
                case LengthThrows =>
                  && r == Failure(StoreDown) && hash == old(hash)[commit := e]
                  && lists == old(lists) && published == old(published)
                case ExecuteThrows => r == Failure(StoreDown) && Value() == old(Value())
    {
      DecisiveIsFirst(tries, 0, retryCount);
      ghost var before := Value();
      hash := hash[commit := e];
      assert hash - {commit} == before.hash;
      var attempt := 0;
      while attempt < retryCount
        invariant 0 <= attempt <= retryCount
        invariant Value() == before.(hash := before.hash[commit := e]) && hash - {commit} == before.hash
        invariant Decisive(tries, 0, retryCount) == Decisive(tries, attempt, retryCount)
      {
        match tries(attempt) {
          case LengthThrows =>
            return Failure(StoreDown);
          case ExecuteThrows =>
            hash := hash - {commit};
            return Failure(StoreDown);
          case RaceLost =>
          case Executed(ok) =>
            PushAndPublish(e, commit, ok);
            if ok {
              return Success(());
            }
            hash := hash - {commit};
            return Failure(PublishFailed);
        }
        attempt := attempt + 1;
      }
      hash := hash - {commit};
      r := Failure(Concurrency);
    }

    /** Appends and publishes the first event of the batch and nothing more: the call returns as soon as one
        event is stored. A throw leaves no trace, except that a throw while reading the list length
        leaves the hash entry behind. */
    method SaveAsync(events: seq<Event<P>>, commit: nat, hashUp: bool, tries: nat -> Try)
      returns (r: Result<(), StoreError>)
      requires Unused(Value(), commit) && NoEmptyList(Value())
      modifies this
      ensures NoEmptyList(Value())
      ensures |events| == 0 ==> Value() == old(Value()) && r == Success(())
      ensures |events| > 0 && !hashUp ==> Value() == old(Value()) && r == Failure(StoreDown)
      ensures |events| > 0 && hashUp ==>
                && Value() == AfterTry(old(Value()), events[0], commit, Decisive(tries, 0, retryCount))
                && r == Answer(Decisive(tries, 0, retryCount))
    {
      for i := 0 to |events|
        invariant i == 0 && Value() == old(Value())
      {
        if !hashUp {
          return Failure(StoreDown);
        }
        r := SaveEvent(events[i], commit, tries);
        return;
      }
      r := Success(());
    }
  }

  lemma RemoveWhatWasPushed(list: seq<nat>, commit: nat)
    ensures RemoveLast(list + [commit], commit) == list
  {
  }

  /** RedisEventStore.GetAsync: the events at list positions from `from` on, or from the start for a
      negative `from`, ordered by version. */
  function RedisQuery<P>(r: Redis<P>, id: string, from: int): Result<seq<Event<P>>, StoreError> {
    var list := ListOf(r, id);
    match Resolve(r, list[Clamp(from, |list|)..])
    case None => Failure(NullReference)
    case Some(events) => Success(OrderByVersion(events))
  }

  // ---- runs of serial saves ---------------------------------------------------------------

  /** One load-change-save of one aggregate, discarded afterwards. */
  datatype Call<P> = Call(id: string, payload: P, commit: nat, hashUp: bool, tries: nat -> Try)

  /** The event such a save writes: the change, stamped by an aggregate loaded from this very store. */
  function NextEvent<S, P>(b: Behaviour<S, P>, r: Redis<P>, call: Call<P>): Option<Event<P>> {
    match RedisQuery(r, call.id, -1)
    case Failure(_) => None
    case Success(events) =>
      var (a, ok) := Loaded(b, Fresh(b), events);
      var held := Applied(b, a.(id := call.id), Event("", 0, call.payload));
      if ok then Some(Flushed(held)[0]) else None
  }

  function Do<S, P>(b: Behaviour<S, P>, retryCount: nat, r: Redis<P>, call: Call<P>): Redis<P> {
    match NextEvent(b, r, call)
    case None => r
    case Some(e) =>
      if call.id == "" || !call.hashUp || !Unused(r, call.commit) then r
      else AfterTry(r, e, call.commit, Decisive(call.tries, 0, retryCount))
  }

  function Run<S, P>(b: Behaviour<S, P>, retryCount: nat, calls: seq<Call<P>>): Redis<P> {
    if |calls| == 0 then Redis(map[], map[], [])
    else Do(b, retryCount, Run(b, retryCount, calls[..|calls| - 1]), calls[|calls| - 1])
  }

  /** List position i resolves to this aggregate's event of version i + 1. */
  ghost predicate Indexed<P>(r: Redis<P>, id: string) {
    var list := ListOf(r, id);
    forall i :: 0 <= i < |list| ==> list[i] in r.hash && r.hash[list[i]].version == i + 1 && r.hash[list[i]].id == id
  }

  function EventsOf<P>(r: Redis<P>, commits: seq<nat>): (es: seq<Event<P>>)
    requires forall i :: 0 <= i < |commits| ==> commits[i] in r.hash
    ensures |es| == |commits| && forall i :: 0 <= i < |es| ==> es[i] == r.hash[commits[i]]
  {
    seq(|commits|, i requires 0 <= i < |commits| => r.hash[commits[i]])
  }

  lemma {:induction false} ResolveAll<P>(r: Redis<P>, commits: seq<nat>)
    requires forall i :: 0 <= i < |commits| ==> commits[i] in r.hash
    ensures Resolve(r, commits) == Some(EventsOf(r, commits))
  {
    if |commits| != 0 {
      ResolveAll(r, commits[1..]);
      assert EventsOf(r, commits) == [r.hash[commits[0]]] + EventsOf(r, commits[1..]);
    }
  }

  lemma EventsOfTail<P>(r: Redis<P>, commits: seq<nat>, k: nat)
    requires k <= |commits| && forall i :: 0 <= i < |commits| ==> commits[i] in r.hash
    ensures EventsOf(r, commits[k..]) == EventsOf(r, commits)[k..]
  {
  }

  lemma {:induction false} ResolveFails<P>(r: Redis<P>, commits: seq<nat>)
    ensures Resolve(r, commits).None? <==> exists i :: 0 <= i < |commits| && commits[i] !in r.hash
  {
    if |commits| != 0 && commits[0] in r.hash {
      ResolveFails(r, commits[1..]);
      assert forall i :: 0 <= i < |commits[1..]| ==> commits[1..][i] == commits[i + 1];
      if i :| 0 <= i < |commits| && commits[i] !in r.hash {
        assert commits[1..][i - 1] == commits[i];
      }
    }
  }

  /** A query throws exactly when a commit id at one of its positions has no event; otherwise it answers the events at
      these positions, ordered by version. */
  lemma {:induction false} QueryThrowsIff<P>(r: Redis<P>, id: string, from: int)
    ensures var list, answer := ListOf(r, id), RedisQuery(r, id, from);
            var slice := list[if from < 0 then 0 else if from > |list| then |list| else from..];
            && (answer == Failure(NullReference) <==> answer.Failure?)
            && (answer.Failure? <==> exists i :: 0 <= i < |slice| && slice[i] !in r.hash)
            && (answer.Success? ==>
                  && Ascending(answer.value)
                  && multiset(answer.value) == multiset(seq(|slice|, i requires 0 <= i < |slice| && slice[i] in r.hash
                                                                     => r.hash[slice[i]])))
  {
    hide OrderByVersion, Resolve;
    var list := ListOf(r, id);
    var slice := list[Clamp(from, |list|)..];
    ResolveFails(r, slice);
    if Resolve(r, slice).Some? {
      assert forall i :: 0 <= i < |slice| ==> slice[i] in r.hash;
      ResolveAll(r, slice);
      OrderSorts(EventsOf(r, slice));
      assert EventsOf(r, slice) == seq(|slice|, i requires 0 <= i < |slice| && slice[i] in r.hash => r.hash[slice[i]]);
    }
  }

  /** Slicing the list by position answers what the SQL store's version filter answers. */
  lemma {:induction false} SliceIsVersionFilter<P>(r: Redis<P>, id: string, from: int)
    requires Indexed(r, id)
    ensures var log := EventsOf(r, ListOf(r, id));
            && Contiguous(log) && OwnedBy(log, id)
            && RedisQuery(r, id, from) == Success(Query(log, from))
            && Query(log, from) == log[Clamp(from, |log|)..]
  {
    IndexedSlice(r, id, from);
    QueryIsSlice(EventsOf(r, ListOf(r, id)), from);
  }

  lemma IndexedSlice<P>(r: Redis<P>, id: string, from: int)
    requires Indexed(r, id)
    ensures var log := EventsOf(r, ListOf(r, id));
            && Contiguous(log) && OwnedBy(log, id)
            && RedisQuery(r, id, from) == Success(log[Clamp(from, |log|)..])
  {
    var list := ListOf(r, id);
    var log, k := EventsOf(r, list), Clamp(from, |list|);
    assert Contiguous(log);
    ResolveAll(r, list[k..]);
    EventsOfTail(r, list, k);
    OrderAscending(log[k..]);
  }

  lemma NextEventContinues<S, P>(b: Behaviour<S, P>, r: Redis<P>, call: Call<P>)
    requires Indexed(r, call.id) && call.id != ""
    ensures NextEvent(b, r, call) == Some(Event(call.id, |ListOf(r, call.id)| + 1, call.payload))
  {
    SliceIsVersionFilter(r, call.id, -1);
    var log := EventsOf(r, ListOf(r, call.id));
    LoadWholeLog(b, call.id, log);
  }

  /** A save that comes to push after lost races only appends its change, as the version after the list's length; one
      whose tries are all lost races stores nothing. */
  lemma {:induction false} CallStores<S, P>(b: Behaviour<S, P>, retryCount: nat, r: Redis<P>, call: Call<P>, i: nat)
    requires Indexed(r, call.id) && call.id != "" && call.hashUp && Unused(r, call.commit) && i <= retryCount
    requires (forall j: nat :: j < i ==> call.tries(j) == RaceLost)
             && (i < retryCount ==> call.tries(i) == Executed(true))
    ensures var r', list := Do(b, retryCount, r, call), ListOf(r, call.id);
            var e := Event(call.id, |list| + 1, call.payload);
            if i < retryCount then
              && ListOf(r', call.id) == list + [call.commit] && r'.published == r.published + [e]
              && r'.hash == r.hash[call.commit := e]
              && forall other :: other != call.id ==> ListOf(r', other) == ListOf(r, other)
            else r' == r
  {
    NextEventContinues(b, r, call);
    DecisiveIsFirst(call.tries, 0, retryCount);
    hide NextEvent, Decisive;
  }

  lemma {:induction false} AlwaysIndexed<S, P>(b: Behaviour<S, P>, retryCount: nat, calls: seq<Call<P>>, id: string)
    ensures Indexed(Run(b, retryCount, calls), id)
  {
    if |calls| != 0 {
      var r, call := Run(b, retryCount, calls[..|calls| - 1]), calls[|calls| - 1];
      AlwaysIndexed(b, retryCount, calls[..|calls| - 1], id);
      AlwaysIndexed(b, retryCount, calls[..|calls| - 1], call.id);
      if call.id != "" {
        NextEventContinues(b, r, call);
      }
    }
  }

  /** Over every run of serial saves, failed and compensated ones included, the Redis store answers every
      query exactly as a log of versions 1..N under the SQL query does. */
  lemma {:induction false} RedisAnswersLikeSql<S, P>(b: Behaviour<S, P>, retryCount: nat, calls: seq<Call<P>>,
                                                     id: string, from: int)
    ensures var r := Run(b, retryCount, calls);
            Indexed(r, id) &&
            var log := EventsOf(r, ListOf(r, id));
            Contiguous(log) && OwnedBy(log, id) && RedisQuery(r, id, from) == Success(Query(log, from))
  {
    AlwaysIndexed(b, retryCount, calls, id);
    SliceIsVersionFilter(Run(b, retryCount, calls), id, from);
  }
}
