/** What racing saves make of the order of an aggregate's list in the Redis store, which takes no optimistic lock. */
module RedisRaces {
  import opened Aggregates
  import opened EventLogs
  import opened RedisLists
  import opened RedisStoreProtocol
  import Store = RedisStore

  lemma Then<P>(retryCount: nat, steps: seq<Step<P>>, step: Step<P>)
    ensures Run(retryCount, steps + [step]) == Do(retryCount, Run(retryCount, steps), step)
  {
    assert (steps + [step])[..|steps|] == steps;
  }

  /** A save that nobody disturbs gets as far as its push. */
  lemma UndisturbedSavePushes<P>(retryCount: nat, db: Db<P>, c: nat) returns (after: Db<P>)
    requires retryCount > 0 && c in db.savers && db.savers[c].phase == Begun
    ensures after == Do(retryCount, Do(retryCount, Do(retryCount, db, WriteHash(c, true)), ReadLength(c, true)),
        Execute(c, true))
    ensures after.savers == db.savers[c := db.savers[c].(phase := Pushed)]
    ensures Store.ListOf(after.redis, db.savers[c].e.id) == Store.ListOf(db.redis, db.savers[c].e.id) + [c]
  {
    var me := db.savers[c];
    var hashed := Do(retryCount, db, WriteHash(c, true));
    assert hashed.savers == db.savers[c := me.(phase := Hashed)] && hashed.redis.lists == db.redis.lists;
    var counted := Do(retryCount, hashed, ReadLength(c, true));
    assert counted.savers == db.savers[c := me.(phase := Counted(|Store.ListOf(db.redis, me.e.id)|))];
    assert counted.redis.lists == db.redis.lists;
    after := Do(retryCount, counted, Execute(c, true));
  }

  /** A save that nobody disturbs goes through whatever version its event carries: the condition is on the
      length of the list only. */
  lemma {:induction false} UndisturbedSaveReturns<P>(retryCount: nat, steps: seq<Step<P>>, c: nat)
    returns (more: seq<Step<P>>)
    requires retryCount > 0
    requires c in Run(retryCount, steps).savers && Run(retryCount, steps).savers[c].phase == Begun
    ensures more == steps + [WriteHash(c, true), ReadLength(c, true), Execute(c, true), Publish(c, true)]
    ensures var db, db' := Run(retryCount, steps), Run(retryCount, more);
            && db'.savers == db.savers[c := db.savers[c].(phase := Returned)]
            && Store.ListOf(db'.redis, db.savers[c].e.id) == Store.ListOf(db.redis, db.savers[c].e.id) + [c]
  {
    var db := Run(retryCount, steps);
    var s1 := steps + [WriteHash(c, true)];
    var s2 := s1 + [ReadLength(c, true)];
    var s3 := s2 + [Execute(c, true)];
    more := s3 + [Publish(c, true)];
    Then(retryCount, steps, WriteHash(c, true));
    Then(retryCount, s1, ReadLength(c, true));
    Then(retryCount, s2, Execute(c, true));
    Then(retryCount, s3, Publish(c, true));
    hide Run;
    var pushed := UndisturbedSavePushes(retryCount, db, c);
  }

  /** So two writers that loaded the same log can both return, with two events of one version in the list. */
  lemma {:induction false} RacingWritersShareAVersion<P>(retryCount: nat, e: Event<P>, f: Event<P>)
    returns (steps: seq<Step<P>>)
    requires retryCount > 0 && e.id == f.id && e.version == f.version
    ensures var db := Run(retryCount, steps);
            && 0 in db.savers && db.savers[0] == Saver(Returned, e, 0)
            && 1 in db.savers && db.savers[1] == Saver(Returned, f, 0)
            && Store.ListOf(db.redis, e.id) == [0, 1]
  {
    var s1 := [Begin(0, e)];
    var s2 := s1 + [Begin(1, f)];
    assert [] + [Begin(0, e)] == s1;
    Then(retryCount, [], Begin(0, e));
    Then(retryCount, s1, Begin(1, f));
    var db := Run(retryCount, s2);
    assert db.savers == map[0 := Saver(Begun, e, 0), 1 := Saver(Begun, f, 0)] && Store.ListOf(db.redis, e.id) == [];
    hide Run, Do;
    var s3 := UndisturbedSaveReturns(retryCount, s2, 0);
    steps := UndisturbedSaveReturns(retryCount, s3, 1);
  }

  // ---- which steps keep the versions in order ---------------------------------------------

  /** The guard that the code does not have: a push carries the next version, a take-back takes the right end. */
  predicate Orderly<P>(db: Db<P>, step: Step<P>, id: string) {
    step.c in db.savers && db.savers[step.c].e.id == id ==>
      var me, list := db.savers[step.c], Store.ListOf(db.redis, id);
      if step.Execute? && step.up && me.phase == Counted(|list|) then me.e.version == |list| + 1
      else if step.TakeBack? && me.phase == Unpublished then |list| != 0 && list[|list| - 1] == step.c
      else true
  }

  /** A push of any version but the next breaks the order. */
  lemma {:induction false} PushKeepsIndexedIff<P>(retryCount: nat, db: Db<P>, c: nat)
    requires Inv(db) && c in db.savers && Store.Indexed(db.redis, db.savers[c].e.id)
    requires db.savers[c].phase == Counted(|Store.ListOf(db.redis, db.savers[c].e.id)|)
    ensures var e := db.savers[c].e;
            Store.Indexed(Do(retryCount, db, Execute(c, true)).redis, e.id) <==>
                e.version == |Store.ListOf(db.redis, e.id)| + 1
  {
    var e := db.savers[c].e;
    assert SaverOk(db.redis, c, db.savers[c]);
    var list, list' := Store.ListOf(db.redis, e.id), Store.ListOf(Do(retryCount, db, Execute(c, true)).redis, e.id);
    assert list' == list + [c] && list'[|list|] == c;
  }

  /** Where a take-back finds its commit id, and what it leaves. */
  lemma TakenFrom<P>(retryCount: nat, db: Db<P>, c: nat) returns (k: nat)
    requires Inv(db) && c in db.savers && db.savers[c].phase == Unpublished
    ensures var id := db.savers[c].e.id;
            var list, r' := Store.ListOf(db.redis, id), Do(retryCount, db, TakeBack(c)).redis;
            && k < |list| && list[k] == c && r'.hash == db.redis.hash
               && Store.ListOf(r', id) == list[..k] + list[k + 1..]
            && (list[|list| - 1] == c <==> k == |list| - 1)
  {
    var id := db.savers[c].e.id;
    assert SaverOk(db.redis, c, db.savers[c]);
    var list := Store.ListOf(db.redis, id);
    k :| k < |list| && list[k] == c;
    assert ListOk(db, id);
    RemoveLastAt(list, k);
  }

  /** A take-back from anywhere but the right end breaks the order. */
  lemma {:induction false} TakeBackKeepsIndexedIff<P>(retryCount: nat, db: Db<P>, c: nat)
    requires Inv(db) && c in db.savers && db.savers[c].phase == Unpublished
        && Store.Indexed(db.redis, db.savers[c].e.id)
    ensures var id := db.savers[c].e.id;
            var list := Store.ListOf(db.redis, id);
            && list != []
            && (Store.Indexed(Do(retryCount, db, TakeBack(c)).redis, id) <==> list[|list| - 1] == c)
  {
    var k := TakenFrom(retryCount, db, c);
    hide Inv, Do, Store.Indexed, Store.ListOf;
    OneLessIndexed(db.redis, Do(retryCount, db, TakeBack(c)).redis, db.savers[c].e.id, k);
  }

  lemma OneLessIndexed<P>(r: Store.Redis<P>, r': Store.Redis<P>, id: string, k: nat)
    requires Store.Indexed(r, id) && r'.hash == r.hash && k < |Store.ListOf(r, id)|
    requires Store.ListOf(r', id) == Store.ListOf(r, id)[..k] + Store.ListOf(r, id)[k + 1..]
    ensures Store.Indexed(r', id) <==> k == |Store.ListOf(r, id)| - 1
  {
    var list, list' := Store.ListOf(r, id), Store.ListOf(r', id);
    hide Store.ListOf;
    assert forall i :: 0 <= i < |list'| ==> list'[i] == list[if i < k then i else i + 1];
    if k < |list| - 1 {
      assert r'.hash[list'[k]].version == k + 2;
    }
  }

  lemma {:induction false} RemoveLastAt(list: seq<nat>, k: nat)
    requires NoDup(list) && k < |list|
    ensures RemoveLast(list, list[k]) == list[..k] + list[k + 1..]
  {
    var n := |list| - 1;
    if k < n {
      var front := list[..n];
      assert NoDup(front) && list[n] != list[k];
      hide NoDup;
      assert front[k] == list[k];
      RemoveLastAt(front, k);
      assert front[..k] == list[..k] && list[k + 1..] == front[k + 1..] + [list[n]];
    }
  }

  /** In every state of every run with the order intact, a step keeps it if and only if it is orderly. */
  lemma {:induction false} StepKeepsIndexedIff<P>(retryCount: nat, db: Db<P>, step: Step<P>, id: string)
    requires Inv(db) && Store.Indexed(db.redis, id)
    ensures Store.Indexed(Do(retryCount, db, step).redis, id) <==> Orderly(db, step, id)
  {
    var c := step.c;
    var pushes := step.Execute? && step.up && c in db.savers
        && db.savers[c].phase == Counted(|Store.ListOf(db.redis, db.savers[c].e.id)|);
    var takes := step.TakeBack? && c in db.savers && db.savers[c].phase == Unpublished;
    if pushes && db.savers[c].e.id == id {
      PushKeepsIndexedIff(retryCount, db, c);
    } else if takes && db.savers[c].e.id == id {
      TakeBackKeepsIndexedIff(retryCount, db, c);
    } else {
      OtherStepKeepsList(retryCount, db, step, id);
    }
  }

  lemma ListedHashStays<P>(retryCount: nat, db: Db<P>, step: Step<P>, d: nat)
    requires d in db.redis.hash && d in db.savers && Listed(db.savers[d].phase)
    ensures var r' := Do(retryCount, db, step).redis; d in r'.hash && r'.hash[d] == db.redis.hash[d]
  {
    hide Store.ListOf, RemoveLast;
  }

  lemma ListSame<P>(retryCount: nat, db: Db<P>, step: Step<P>, id: string)
    requires step.c in db.savers && db.savers[step.c].e.id == id ==>
               && !(step.Execute? && step.up && db.savers[step.c].phase == Counted(|Store.ListOf(db.redis, id)|))
               && !(step.TakeBack? && db.savers[step.c].phase == Unpublished)
    ensures Store.ListOf(Do(retryCount, db, step).redis, id) == Store.ListOf(db.redis, id)
  {
    hide RemoveLast;
  }

  lemma OtherStepKeepsList<P>(retryCount: nat, db: Db<P>, step: Step<P>, id: string)
    requires Inv(db) && Store.Indexed(db.redis, id)
    requires step.c in db.savers && db.savers[step.c].e.id == id ==>
               && !(step.Execute? && step.up && db.savers[step.c].phase == Counted(|Store.ListOf(db.redis, id)|))
               && !(step.TakeBack? && db.savers[step.c].phase == Unpublished)
    ensures Store.Indexed(Do(retryCount, db, step).redis, id)
  {
    hide Do, NoDup, Store.ListOf;
    ListSame(retryCount, db, step, id);
    assert ListOk(db, id);
    forall d | d in Store.ListOf(db.redis, id)
      ensures var r' := Do(retryCount, db, step).redis; d in r'.hash && r'.hash[d] == db.redis.hash[d]
    {
      assert SaverOk(db.redis, d, db.savers[d]);
      ListedHashStays(retryCount, db, step, d);
    }
    hide Inv;
  }

  predicate OrderlyAt<P>(retryCount: nat, steps: seq<Step<P>>, k: nat, id: string)
    requires k < |steps|
  {
    Orderly(Run(retryCount, steps[..k]), steps[k], id)
  }

  ghost predicate IndexedAt<P>(retryCount: nat, steps: seq<Step<P>>, k: nat, id: string)
    requires k <= |steps|
  {
    Store.Indexed(Run(retryCount, steps[..k]).redis, id)
  }

  lemma {:induction false} NextIndexedIff<P>(retryCount: nat, steps: seq<Step<P>>, k: nat, id: string)
    requires k < |steps| && IndexedAt(retryCount, steps, k, id)
    ensures IndexedAt(retryCount, steps, k + 1, id) <==> OrderlyAt(retryCount, steps, k, id)
  {
    AlwaysOk(retryCount, steps[..k]);
    Then(retryCount, steps[..k], steps[k]);
    assert steps[..k] + [steps[k]] == steps[..k + 1];
    hide Run;
    StepKeepsIndexedIff(retryCount, Run(retryCount, steps[..k]), steps[k], id);
  }

  /** Over a whole run of racing saves: list positions and versions stay in step throughout if and only if
      every step is orderly. */
  lemma {:induction false} AlwaysIndexedIff<P>(retryCount: nat, steps: seq<Step<P>>, n: nat, id: string)
    requires n <= |steps|
    ensures (forall k: nat :: k <= n ==> IndexedAt(retryCount, steps, k, id))
            <==> forall k: nat :: k < n ==> OrderlyAt(retryCount, steps, k, id)
  {
    if n == 0 {
      assert IndexedAt(retryCount, steps, 0, id);
    } else {
      hide IndexedAt, OrderlyAt;
      AlwaysIndexedIff(retryCount, steps, n - 1, id);
      if IndexedAt(retryCount, steps, n - 1, id) {
        NextIndexedIff(retryCount, steps, n - 1, id);
      }
    }
  }

  /** While the order is intact the lock holds after all: no two saves of one version have both returned. */
  lemma {:induction false} IndexedHasOneWinner<P>(retryCount: nat, steps: seq<Step<P>>, c: nat, d: nat)
    requires var db := Run(retryCount, steps);
             && c in db.savers && db.savers[c].phase == Returned && d in db.savers && db.savers[d].phase == Returned
             && db.savers[c].e.id == db.savers[d].e.id && db.savers[c].e.version == db.savers[d].e.version
             && Store.Indexed(db.redis, db.savers[c].e.id)
    ensures c == d
  {
    AlwaysOk(retryCount, steps);
    var db := Run(retryCount, steps);
    assert SaverOk(db.redis, c, db.savers[c]) && SaverOk(db.redis, d, db.savers[d]);
  }

  // ---- what a broken order does to readers ------------------------------------------------

  /** A load of the aggregate returns. */
  ghost predicate Loads<T, P>(b: Behaviour<T, P>, r: Store.Redis<P>, id: string) {
    var answer := Store.RedisQuery(r, id, -1);
    answer.Success? && Loaded(b, Fresh(b), answer.value).1
  }

  lemma {:induction false} OrderKeepsLength<P>(rows: seq<Event<P>>)
    ensures |OrderByVersion(rows)| == |rows|
  {
    if |rows| != 0 {
      OrderKeepsLength(rows[1..]);
      InsertLengthens(rows[0], OrderByVersion(rows[1..]));
    }
  }

  lemma {:induction false} InsertLengthens<P>(e: Event<P>, sorted: seq<Event<P>>)
    ensures |InsertByVersion(e, sorted)| == |sorted| + 1
  {
    if |sorted| != 0 && e.version > sorted[0].version {
      InsertLengthens(e, sorted[1..]);
    }
  }

  /** A load sorts what the list resolves to, and returns if and only if that numbers 1..N. */
  lemma LoadsIffNumbered<T, P(!new)>(b: Behaviour<T, P>, r: Store.Redis<P>, id: string)
    requires forall c :: c in Store.ListOf(r, id) ==> c in r.hash
    ensures var list := Store.ListOf(r, id);
            Loads(b, r, id) <==> Contiguous(OrderByVersion(Store.EventsOf(r, list)))
  {
    var list := Store.ListOf(r, id);
    assert list[0..] == list;
    Store.ResolveAll(r, list);
    LoadIffContiguous(b, Fresh(b), OrderByVersion(Store.EventsOf(r, list)));
  }

  lemma IndexedLoads<T, P(!new)>(b: Behaviour<T, P>, r: Store.Redis<P>, id: string)
    requires Store.Indexed(r, id)
    ensures Loads(b, r, id)
  {
    LoadsIffNumbered(b, r, id);
    OrderAscending(Store.EventsOf(r, Store.ListOf(r, id)));
  }

  /** One more event on top of versions 1..N sorts to 1..N+1 if and only if it is number N+1. */
  lemma {:induction false} NumberedWithOneMore<P>(log: seq<Event<P>>, e: Event<P>)
    requires Contiguous(log)
    ensures Contiguous(OrderByVersion(log + [e])) <==> e.version == |log| + 1
  {
    hide OrderByVersion;
    var rows := log + [e];
    OrderKeepsLength(rows);
    OrderSorts(rows);
    if e.version == |log| + 1 {
      OrderAscending(rows);
    }
    if Contiguous(OrderByVersion(rows)) {
      NewestIsLast(log, e, OrderByVersion(rows));
    }
  }

  lemma NewestIsLast<P>(log: seq<Event<P>>, e: Event<P>, sorted: seq<Event<P>>)
    requires Contiguous(log) && Contiguous(sorted) && |sorted| == |log| + 1
    requires multiset(sorted) == multiset(log + [e])
    ensures e.version == |log| + 1
  {
    var last := sorted[|log|];
    assert last in multiset(log + [e]);
    var i :| 0 <= i < |log + [e]| && (log + [e])[i] == last;
    assert i == |log|;
  }

  /** One event less leaves versions 1..N-1 if and only if it was the last. */
  lemma {:induction false} NumberedWithOneLess<P(!new)>(log: seq<Event<P>>, k: nat)
    requires Contiguous(log) && k < |log|
    ensures Contiguous(OrderByVersion(log[..k] + log[k + 1..])) <==> k == |log| - 1
  {
    var rows := log[..k] + log[k + 1..];
    assert forall i :: 0 <= i < |rows| ==> rows[i] == log[if i < k then i else i + 1];
    OrderAscending(rows);
    assert k < |log| - 1 ==> rows[k].version == k + 2;
  }

  /** So an orderly step leaves a list that loads, and after any other one every load throws. */
  lemma {:induction false} LoadsIffOrderly<T, P(!new)>(b: Behaviour<T, P>, retryCount: nat, db: Db<P>, step: Step<P>,
                                                       id: string)
    requires Inv(db) && Store.Indexed(db.redis, id)
    ensures Loads(b, Do(retryCount, db, step).redis, id) <==> Orderly(db, step, id)
  {
    var c := step.c;
    if c in db.savers && db.savers[c].e.id == id && step.Execute? && step.up
       && db.savers[c].phase == Counted(|Store.ListOf(db.redis, id)|) {
      LoadsAfterPush(b, retryCount, db, c);
    } else if c in db.savers && db.savers[c].e.id == id && step.TakeBack? && db.savers[c].phase == Unpublished {
      LoadsAfterTakeBack(b, retryCount, db, c);
    } else {
      OtherStepKeepsList(retryCount, db, step, id);
      hide Do, Store.Indexed, Loads;
      IndexedLoads(b, Do(retryCount, db, step).redis, id);
    }
  }

  lemma LoadsAfterPush<T, P(!new)>(b: Behaviour<T, P>, retryCount: nat, db: Db<P>, c: nat)
    requires Inv(db) && c in db.savers && Store.Indexed(db.redis, db.savers[c].e.id)
    requires db.savers[c].phase == Counted(|Store.ListOf(db.redis, db.savers[c].e.id)|)
    ensures var id := db.savers[c].e.id;
            Loads(b, Do(retryCount, db, Execute(c, true)).redis, id)
            <==> db.savers[c].e.version == |Store.ListOf(db.redis, id)| + 1
  {
    var me := db.savers[c];
    assert SaverOk(db.redis, c, me);
    var list, r' := Store.ListOf(db.redis, me.e.id), Do(retryCount, db, Execute(c, true)).redis;
    assert Store.ListOf(r', me.e.id) == list + [c] && r'.hash == db.redis.hash;
    var log := Store.EventsOf(db.redis, list);
    assert Store.EventsOf(r', list + [c]) == log + [me.e];
    assert Contiguous(log);
    hide Loads, Do, Inv, Store.Indexed, SaverOk, Contiguous;
    LoadsIffNumbered(b, r', me.e.id);
    NumberedWithOneMore(log, me.e);
  }

  lemma LoadsAfterTakeBack<T, P(!new)>(b: Behaviour<T, P>, retryCount: nat, db: Db<P>, c: nat)
    requires Inv(db) && c in db.savers && db.savers[c].phase == Unpublished
        && Store.Indexed(db.redis, db.savers[c].e.id)
    ensures var id := db.savers[c].e.id;
            var list := Store.ListOf(db.redis, id);
            && list != []
            && (Loads(b, Do(retryCount, db, TakeBack(c)).redis, id) <==> list[|list| - 1] == c)
  {
    var k := TakenFrom(retryCount, db, c);
    hide Inv, Do;
    LoadsOneLess(b, db.redis, Do(retryCount, db, TakeBack(c)).redis, db.savers[c].e.id, k);
  }

  lemma LoadsOneLess<T, P(!new)>(b: Behaviour<T, P>, r: Store.Redis<P>, r': Store.Redis<P>, id: string, k: nat)
    requires Store.Indexed(r, id) && r'.hash == r.hash && k < |Store.ListOf(r, id)|
    requires Store.ListOf(r', id) == Store.ListOf(r, id)[..k] + Store.ListOf(r, id)[k + 1..]
    ensures Loads(b, r', id) <==> k == |Store.ListOf(r, id)| - 1
  {
    var list, left := Store.ListOf(r, id), Store.ListOf(r', id);
    hide Store.ListOf, Loads;
    var log := Store.EventsOf(r, list);
    assert Contiguous(log);
    assert forall d :: d in left ==> d in list;
    assert Store.EventsOf(r', left) == log[..k] + log[k + 1..];
    hide Store.Indexed, Contiguous;
    LoadsIffNumbered(b, r', id);
    NumberedWithOneLess(log, k);
  }

  /** The first writer's event is listed and not yet published when the second writer begins. */
  lemma {:induction false} SecondBeginsBeforePublish<P>(retryCount: nat, e: Event<P>, f: Event<P>)
    returns (steps: seq<Step<P>>)
    requires retryCount > 0 && e.id == f.id
    ensures var db := Run(retryCount, steps);
            && 0 in db.savers && db.savers[0] == Saver(Pushed, e, 0)
            && 1 in db.savers && db.savers[1] == Saver(Begun, f, 0)
            && Store.ListOf(db.redis, e.id) == [0]
  {
    var s1 := [] + [Begin(0, e)];
    var s2 := s1 + [WriteHash(0, true)];
    var s3 := s2 + [ReadLength(0, true)];
    var s4 := s3 + [Execute(0, true)];
    steps := s4 + [Begin(1, f)];
    Then(retryCount, [], Begin(0, e));
    Then(retryCount, s1, WriteHash(0, true));
    Then(retryCount, s2, ReadLength(0, true));
    Then(retryCount, s3, Execute(0, true));
    Then(retryCount, s4, Begin(1, f));
    var d1 := Run(retryCount, s1);
    assert d1.savers == map[0 := Saver(Begun, e, 0)] && Store.ListOf(d1.redis, e.id) == [];
    hide Run, Store.ListOf;
    var d4 := UndisturbedSavePushes(retryCount, d1, 0);
    assert [] + [0] == [0];
  }

  /** Such a take-back: a second writer loads the first one's event before its publish fails, and pushes the next
      version. What is left starts at version 2. */
  lemma {:induction false} TakeBackLeavesGap<T, P(!new)>(b: Behaviour<T, P>, retryCount: nat, e: Event<P>, f: Event<P>)
    returns (steps: seq<Step<P>>)
    requires retryCount > 0 && e.id == f.id && e.version == 1 && f.version == 2
    ensures var db := Run(retryCount, steps);
            && 0 in db.savers && db.savers[0] == Saver(Undoing, e, 0)
            && 1 in db.savers && db.savers[1] == Saver(Returned, f, 0)
            && Store.ListOf(db.redis, e.id) == [1] && !Loads(b, db.redis, e.id)
  {
    var s1 := SecondBeginsBeforePublish(retryCount, e, f);
    var s2 := UndisturbedSaveReturns(retryCount, s1, 1);
    var s3 := s2 + [Publish(0, false)];
    steps := s3 + [TakeBack(0)];
    Then(retryCount, s2, Publish(0, false));
    Then(retryCount, s3, TakeBack(0));
    AlwaysOk(retryCount, s3);
    hide Run, Loads;
    PublishFailedBelow(b, retryCount, Run(retryCount, s2), e, f);
  }

  lemma PublishFailedBelow<T, P(!new)>(b: Behaviour<T, P>, retryCount: nat, db: Db<P>, e: Event<P>, f: Event<P>)
    requires e.id == f.id && e.version == 1 && f.version == 2
    requires Inv(Do(retryCount, db, Publish(0, false)))
    requires 0 in db.savers && db.savers[0] == Saver(Pushed, e, 0)
    requires 1 in db.savers && db.savers[1] == Saver(Returned, f, 0)
    requires Store.ListOf(db.redis, e.id) == [0, 1]
    ensures var after := Do(retryCount, Do(retryCount, db, Publish(0, false)), TakeBack(0));
            && 0 in after.savers && after.savers[0] == Saver(Undoing, e, 0)
            && 1 in after.savers && after.savers[1] == Saver(Returned, f, 0)
            && Store.ListOf(after.redis, e.id) == [1] && !Loads(b, after.redis, e.id)
  {
    hide Inv, Store.Indexed, Loads, SaverOk, Store.ListOf, RemoveLast;
    var failed := Do(retryCount, db, Publish(0, false));
    assert failed.redis == db.redis && 0 in failed.savers && failed.savers[0] == Saver(Unpublished, e, 0);
    assert 1 in failed.savers && failed.savers[1] == Saver(Returned, f, 0);
    GapIsIndexed(failed, e, f);
    LoadsAfterTakeBack(b, retryCount, failed, 0);
    TakenBack(retryCount, failed, 0, 1);
  }

  lemma TakenBack<P>(retryCount: nat, db: Db<P>, c: nat, d: nat)
    requires c != d && c in db.savers && db.savers[c].phase == Unpublished && d in db.savers
    requires Store.ListOf(db.redis, db.savers[c].e.id) == [c, d]
    ensures var after := Do(retryCount, db, TakeBack(c));
            && c in after.savers && after.savers[c] == db.savers[c].(phase := Undoing)
            && d in after.savers && after.savers[d] == db.savers[d]
            && Store.ListOf(after.redis, db.savers[c].e.id) == [d]
  {
    assert RemoveLast([c, d], c) == [d] by {
      RemoveLastAt([c, d], 0);
    }
    hide RemoveLast;
  }

  lemma GapIsIndexed<P>(db: Db<P>, e: Event<P>, f: Event<P>)
    requires Inv(db) && e.id == f.id && e.version == 1 && f.version == 2
    requires 0 in db.savers && db.savers[0] == Saver(Unpublished, e, 0)
    requires 1 in db.savers && db.savers[1] == Saver(Returned, f, 0)
    requires Store.ListOf(db.redis, e.id) == [0, 1]
    ensures Store.Indexed(db.redis, e.id)
  {
    assert SaverOk(db.redis, 0, db.savers[0]) && SaverOk(db.redis, 1, db.savers[1]);
  }
}
