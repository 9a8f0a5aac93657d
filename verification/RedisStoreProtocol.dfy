/** Any number of one-event saves racing in the Redis store, step by step, with every failure that takes
    no effect. A save is named by its commit id. */
module RedisStoreProtocol {
  import opened Outcomes
  import opened Aggregates
  import opened RedisLists
  import opened RedisStore

  datatype Phase =
    | Begun
    | Hashed                 // the hash entry is written
    | Counted(length: nat)   // the list length is read, the push is conditional on it
    | Pushed                 // the commit id is in the list
    | Unpublished            // publishing threw, the commit id is to be taken back
    | Undoing                // the hash entry is to be deleted
    | Returned
    | Threw
    | ThrewCounting          // reading the list length threw, outside the code's try block

  datatype Saver<P> = Saver(phase: Phase, e: Event<P>, tries: nat)

  datatype Db<P> = Db(redis: Redis<P>, savers: map<nat, Saver<P>>)

  datatype Step<P> =
    | Begin(c: nat, e: Event<P>)
    | WriteHash(c: nat, up: bool)
    | ReadLength(c: nat, up: bool)
    | Execute(c: nat, up: bool)
    | Publish(c: nat, up: bool)
    | TakeBack(c: nat)
    | DeleteHash(c: nat)

  function At<P>(db: Db<P>, c: nat, phase: Phase): Db<P>
    requires c in db.savers
  {
    db.(savers := db.savers[c := db.savers[c].(phase := phase)])
  }

  /** One step of one save; a step that is not enabled changes nothing. */
  function Do<P>(retryCount: nat, db: Db<P>, step: Step<P>): Db<P> {
    var c := step.c;
    if step.Begin? then
      if c in db.savers then db else db.(savers := db.savers[c := Saver(Begun, step.e, 0)])
    else if c !in db.savers then db
    else
      var me, r := db.savers[c], db.redis;
      match step
      case Begin(_, _) => db
      case WriteHash(_, up) =>
        if me.phase != Begun then db
        else if !up then At(db, c, Threw)
        else At(db, c, if retryCount == 0 then Undoing else Hashed).(redis := r.(hash := r.hash[c := me.e]))
      case ReadLength(_, up) =>
        if me.phase != Hashed then db
        else At(db, c, if up then Counted(|ListOf(r, me.e.id)|) else ThrewCounting)
      case Execute(_, up) =>
        if !me.phase.Counted? then db
        else if !up then At(db, c, Undoing)
        else if |ListOf(r, me.e.id)| == me.phase.length then
          At(db, c, Pushed).(redis := r.(lists := r.lists[me.e.id := ListOf(r, me.e.id) + [c]]))
        else
          var phase := if me.tries + 1 < retryCount then Hashed else Undoing;
          db.(savers := db.savers[c := Saver(phase, me.e, me.tries + 1)])
      case Publish(_, up) =>
        if me.phase != Pushed then db
        else if up then At(db, c, Returned).(redis := r.(published := r.published + [me.e]))
        else At(db, c, Unpublished)
      case TakeBack(_) =>
        if me.phase != Unpublished then db
        else At(db, c, Undoing).(redis := r.(lists := r.lists[me.e.id := RemoveLast(ListOf(r, me.e.id), c)]))
      case DeleteHash(_) =>
        if me.phase != Undoing then db
        else At(db, c, Threw).(redis := r.(hash := r.hash - {c}))
  }

  function Run<P>(retryCount: nat, steps: seq<Step<P>>): Db<P> {
    if |steps| == 0 then Db(Redis(map[], map[], []), map[])
    else Do(retryCount, Run(retryCount, steps[..|steps| - 1]), steps[|steps| - 1])
  }

  predicate Listed(phase: Phase) {
    phase == Pushed || phase == Unpublished || phase == Returned
  }

  predicate InHash(phase: Phase) {
    phase != Begun && phase != Threw
  }

  /** A save is in the hash and in its list exactly in the phases between writing and taking back. */
  ghost predicate SaverOk<P>(r: Redis<P>, c: nat, me: Saver<P>) {
    && (c in r.hash <==> InHash(me.phase))
    && (InHash(me.phase) ==> r.hash[c] == me.e)
    && (c in ListOf(r, me.e.id) <==> Listed(me.phase))
    && (me.phase == Returned ==> me.e in r.published)
  }

  /** Every listed commit id is a save of this aggregate, and none is listed twice. */
  ghost predicate ListOk<P>(db: Db<P>, id: string) {
    && (forall c :: c in ListOf(db.redis, id) ==> c in db.savers && db.savers[c].e.id == id)
    && NoDup(ListOf(db.redis, id))
  }

  ghost predicate Inv<P>(db: Db<P>) {
    && (forall c :: c in db.savers ==> SaverOk(db.redis, c, db.savers[c]))
    && (forall c :: c in db.redis.hash ==> c in db.savers)
    && (forall id :: ListOk(db, id))
  }

  /** The lists after a step of save `c` for aggregate `own`: only `c` may come or go, in its own list. */
  ghost predicate ListsMoved<P>(r: Redis<P>, r': Redis<P>, c: nat, own: string) {
    forall id :: ListMoved(ListOf(r, id), ListOf(r', id), c, id == own)
  }

  ghost predicate ListMoved(list: seq<nat>, list': seq<nat>, c: nat, own: bool) {
    && (forall d :: d != c ==> (d in list' <==> d in list))
    && (!own ==> c !in list')
    && NoDup(list')
  }

  lemma SaverStays<P>(r: Redis<P>, r': Redis<P>, c: nat, own: string, d: nat, it: Saver<P>)
    requires SaverOk(r, d, it) && d != c && ListMoved(ListOf(r, it.e.id), ListOf(r', it.e.id), c, it.e.id == own)
    requires (d in r'.hash <==> d in r.hash) && (d in r.hash ==> r'.hash[d] == r.hash[d]) && r.published <= r'.published
    ensures SaverOk(r', d, it)
  {
    hide NoDup, ListOf;
  }

  lemma ListStays<P>(db: Db<P>, db': Db<P>, c: nat, id: string)
    requires ListOk(db, id) && c in db'.savers
    requires ListMoved(ListOf(db.redis, id), ListOf(db'.redis, id), c, id == db'.savers[c].e.id)
    requires forall d :: d != c && d in db.savers ==> d in db'.savers && db'.savers[d] == db.savers[d]
    ensures ListOk(db', id)
  {
    hide NoDup, ListOf;
  }

  /** A step concerns one commit id; whatever holds of the other saves goes on holding. */
  lemma OneMoved<P>(db: Db<P>, db': Db<P>, c: nat)
    requires Inv(db) && c in db'.savers
    requires forall d :: d != c ==>
        (d in db'.savers <==> d in db.savers) && (d in db.savers ==> db'.savers[d] == db.savers[d])
    requires forall d :: d != c ==> (d in db'.redis.hash <==> d in db.redis.hash)
                                    && (d in db.redis.hash ==> db'.redis.hash[d] == db.redis.hash[d])
    requires ListsMoved(db.redis, db'.redis, c, db'.savers[c].e.id)
    requires db.redis.published <= db'.redis.published
    requires SaverOk(db'.redis, c, db'.savers[c])
    ensures Inv(db')
  {
    hide NoDup, SaverOk, ListMoved, ListOk, ListOf;
    forall id ensures ListOk(db', id) {
      ListStays(db, db', c, id);
    }
    forall d | d in db'.savers ensures SaverOk(db'.redis, d, db'.savers[d]) {
      if d != c {
        SaverStays(db.redis, db'.redis, c, db'.savers[c].e.id, d, db.savers[d]);
      }
    }
  }

  lemma ListsUntouched<P>(db: Db<P>, r': Redis<P>, c: nat, own: string)
    requires Inv(db) && r'.lists == db.redis.lists
    requires c in db.savers ==> db.savers[c].e.id == own
    ensures ListsMoved(db.redis, r', c, own)
  {
    hide NoDup, SaverOk;
    forall id ensures ListMoved(ListOf(db.redis, id), ListOf(r', id), c, id == own) {
      assert ListOf(r', id) == ListOf(db.redis, id) && ListOk(db, id);
    }
  }

  lemma OneListMoved<P>(db: Db<P>, r': Redis<P>, c: nat, own: string, list: seq<nat>)
    requires Inv(db) && r'.lists == db.redis.lists[own := list]
    requires c in db.savers && db.savers[c].e.id == own && ListMoved(ListOf(db.redis, own), list, c, true)
    ensures ListsMoved(db.redis, r', c, own)
  {
    hide NoDup, SaverOk;
    forall id ensures ListMoved(ListOf(db.redis, id), ListOf(r', id), c, id == own) {
      assert ListOf(r', id) == if id == own then list else ListOf(db.redis, id);
      assert ListOk(db, id);
    }
  }

  lemma PushMoves(list: seq<nat>, c: nat)
    requires NoDup(list) && c !in list
    ensures ListMoved(list, list + [c], c, true)
  {
  }

  lemma TakeBackMoves(list: seq<nat>, c: nat)
    requires NoDup(list)
    ensures ListMoved(list, RemoveLast(list, c), c, true) && c !in RemoveLast(list, c)
  {
    RemoveLastIsRemoveAll(list, c);
    NoDupWithout(list, {c});
    hide NoDup, RemoveLast;
  }

  lemma PushKeeps<P>(retryCount: nat, db: Db<P>, c: nat)
    requires Inv(db) && c in db.savers && db.savers[c].phase.Counted?
    requires |ListOf(db.redis, db.savers[c].e.id)| == db.savers[c].phase.length
    ensures Inv(Do(retryCount, db, Execute(c, true)))
  {
    hide NoDup, ListMoved, ListsMoved;
    var me, db' := db.savers[c], Do(retryCount, db, Execute(c, true));
    assert SaverOk(db.redis, c, me) && ListOk(db, me.e.id);
    var list := ListOf(db.redis, me.e.id);
    PushMoves(list, c);
    OneListMoved(db, db'.redis, c, me.e.id, list + [c]);
    assert SaverOk(db'.redis, c, db'.savers[c]);
    hide Inv, SaverOk, ListOf;
    OneMoved(db, db', c);
  }

  lemma TakeBackKeeps<P>(retryCount: nat, db: Db<P>, c: nat)
    requires Inv(db) && c in db.savers && db.savers[c].phase == Unpublished
    ensures Inv(Do(retryCount, db, TakeBack(c)))
  {
    hide NoDup, ListMoved, ListsMoved, RemoveLast;
    var me, db' := db.savers[c], Do(retryCount, db, TakeBack(c));
    assert SaverOk(db.redis, c, me) && ListOk(db, me.e.id);
    var list := ListOf(db.redis, me.e.id);
    TakeBackMoves(list, c);
    OneListMoved(db, db'.redis, c, me.e.id, RemoveLast(list, c));
    assert SaverOk(db'.redis, c, db'.savers[c]);
    hide Inv, SaverOk, ListOf;
    OneMoved(db, db', c);
  }

  lemma {:induction false} StepKeeps<P>(retryCount: nat, db: Db<P>, step: Step<P>)
    requires Inv(db)
    ensures Inv(Do(retryCount, db, step))
  {
    hide Inv;
    var c, db' := step.c, Do(retryCount, db, step);
    if db' == db {
    } else if step.TakeBack? {
      TakeBackKeeps(retryCount, db, c);
    } else if step.Execute? && step.up && |ListOf(db.redis, db.savers[c].e.id)| == db.savers[c].phase.length {
      PushKeeps(retryCount, db, c);
    } else {
      HashKeeps(retryCount, db, step);
    }
  }

  /** Every other step leaves the lists alone, and the hash entries of the other saves. */
  lemma OnlyHashMoves<P>(retryCount: nat, db: Db<P>, step: Step<P>)
    requires Do(retryCount, db, step) != db && !step.TakeBack?
    requires step.Execute? && step.up ==> |ListOf(db.redis, db.savers[step.c].e.id)| != db.savers[step.c].phase.length
    ensures var c, db' := step.c, Do(retryCount, db, step);
            && db'.redis.lists == db.redis.lists && db.redis.published <= db'.redis.published
            && (forall d :: d != c ==> (d in db'.redis.hash <==> d in db.redis.hash)
                                       && (d in db.redis.hash ==> db'.redis.hash[d] == db.redis.hash[d]))
            && c in db'.savers && (forall d :: d != c ==> (d in db'.savers <==> d in db.savers)
                                                          && (d in db.savers ==> db'.savers[d] == db.savers[d]))
            && (c in db.savers ==> db'.savers[c].e == db.savers[c].e)
            && (c !in db.savers ==> step.Begin? && db'.savers[c] == Saver(Begun, step.e, 0) && db'.redis == db.redis)
  {
    hide SaverOk, ListOf;
  }

  lemma HashKeeps<P>(retryCount: nat, db: Db<P>, step: Step<P>)
    requires Inv(db) && Do(retryCount, db, step) != db && !step.TakeBack?
    requires step.Execute? && step.up ==> |ListOf(db.redis, db.savers[step.c].e.id)| != db.savers[step.c].phase.length
    ensures Inv(Do(retryCount, db, step))
  {
    hide NoDup, ListMoved, ListsMoved, Do;
    var c, db' := step.c, Do(retryCount, db, step);
    OnlyHashMoves(retryCount, db, step);
    ListsUntouched(db, db'.redis, c, db'.savers[c].e.id);
    MoverOk(retryCount, db, step);
    hide Inv, SaverOk;
    OneMoved(db, db', c);
  }

  lemma MoverOk<P>(retryCount: nat, db: Db<P>, step: Step<P>)
    requires Inv(db) && Do(retryCount, db, step) != db && !step.TakeBack?
    requires step.Execute? && step.up ==> |ListOf(db.redis, db.savers[step.c].e.id)| != db.savers[step.c].phase.length
    requires step.c in Do(retryCount, db, step).savers
    ensures SaverOk(Do(retryCount, db, step).redis, step.c, Do(retryCount, db, step).savers[step.c])
  {
    hide NoDup;
    var c, db' := step.c, Do(retryCount, db, step);
    if c in db.savers {
      UnderWayOk(retryCount, db, step);
    } else {
      assert ListOk(db, step.e.id);
      assert db'.redis == db.redis && c !in db.redis.hash && c !in ListOf(db.redis, step.e.id);
    }
  }

  lemma UnderWayOk<P>(retryCount: nat, db: Db<P>, step: Step<P>)
    requires step.c in db.savers && SaverOk(db.redis, step.c, db.savers[step.c])
    requires Do(retryCount, db, step) != db && !step.TakeBack?
    requires step.Execute? && step.up ==> |ListOf(db.redis, db.savers[step.c].e.id)| != db.savers[step.c].phase.length
    ensures SaverOk(Do(retryCount, db, step).redis, step.c, Do(retryCount, db, step).savers[step.c])
  {
    var c, db' := step.c, Do(retryCount, db, step);
    SameLists(db.redis, db'.redis, db.savers[c].e.id);
    hide ListOf;
  }

  lemma SameLists<P>(r: Redis<P>, r': Redis<P>, id: string)
    ensures r'.lists == r.lists ==> ListOf(r', id) == ListOf(r, id)
  {
  }

  lemma {:induction false} AlwaysOk<P>(retryCount: nat, steps: seq<Step<P>>)
    ensures Inv(Run(retryCount, steps))
  {
    if |steps| != 0 {
      AlwaysOk(retryCount, steps[..|steps| - 1]);
      StepKeeps(retryCount, Run(retryCount, steps[..|steps| - 1]), steps[|steps| - 1]);
    }
  }

  /** At every step of every run, each commit id in an aggregate's list resolves to an event of that
      aggregate, and no list names a commit twice. */
  lemma {:induction false} ListsResolve<P>(retryCount: nat, steps: seq<Step<P>>, id: string, c: nat)
    ensures var r := Run(retryCount, steps).redis;
            && NoDup(ListOf(r, id))
            && (c in ListOf(r, id) ==> c in r.hash && r.hash[c].id == id)
  {
    AlwaysOk(retryCount, steps);
    var db := Run(retryCount, steps);
    assert ListOk(db, id);
    if c in ListOf(db.redis, id) { assert SaverOk(db.redis, c, db.savers[c]); }
  }

  /** A save that returned left its event listed, stored and published. One that threw left it in no list;
      it left it out of the hash as well exactly when it did not throw while reading the list length. */
  lemma {:induction false} OutcomeIsExact<P>(retryCount: nat, steps: seq<Step<P>>, c: nat)
    ensures var db := Run(retryCount, steps);
            c in db.savers ==>
              var me, r := db.savers[c], db.redis;
              && (me.phase == Returned ==>
                    c in ListOf(r, me.e.id) && c in r.hash && r.hash[c] == me.e && me.e in r.published)
              && (me.phase == Threw || me.phase == ThrewCounting ==>
                    && (forall id :: c !in ListOf(r, id))
                    && (c !in r.hash <==> me.phase == Threw))
  {
    AlwaysOk(retryCount, steps);
    var db := Run(retryCount, steps);
    hide Run, NoDup;
    if c in db.savers {
      assert SaverOk(db.redis, c, db.savers[c]);
      forall id ensures c in ListOf(db.redis, id) ==> id == db.savers[c].e.id {
        assert ListOk(db, id);
      }
      hide Inv;
    }
  }

  // ---- a get reads the list first and each event later -------------------------------------

  function StoreAfter<P>(retryCount: nat, steps: seq<Step<P>>, n: nat): Redis<P> {
    Run(retryCount, if n <= |steps| then steps[..n] else steps).redis
  }

  /** The events of `commits`, each read from the hash after as many steps as `at` says; None when one is missing,
      and the get throws. */
  function Fetched<P>(retryCount: nat, steps: seq<Step<P>>, commits: seq<nat>, at: nat -> nat): Option<seq<Event<P>>> {
    if |commits| == 0 then Some([])
    else if commits[0] !in StoreAfter(retryCount, steps, at(commits[0])).hash then None
    else match Fetched(retryCount, steps, commits[1..], at)
         case None => None
         case Some(rest) => Some([StoreAfter(retryCount, steps, at(commits[0])).hash[commits[0]]] + rest)
  }

  /** The save of commit `c` has thrown by the time its event is read. */
  ghost predicate ThrewBy<P>(retryCount: nat, steps: seq<Step<P>>, c: nat, n: nat) {
    n <= |steps| && c in Run(retryCount, steps[..n]).savers && Run(retryCount, steps[..n]).savers[c].phase == Threw
  }

  /** A save under way goes on as a save of the same event. */
  lemma {:induction false} SaverPersists<P>(retryCount: nat, steps: seq<Step<P>>, t: nat, n: nat, c: nat)
    requires t <= n <= |steps| && c in Run(retryCount, steps[..t]).savers
    requires Run(retryCount, steps[..t]).savers[c].phase != Begun
    ensures var db, db' := Run(retryCount, steps[..t]), Run(retryCount, steps[..n]);
            c in db'.savers && db'.savers[c].e == db.savers[c].e && db'.savers[c].phase != Begun
    decreases n
  {
    if t < n {
      SaverPersists(retryCount, steps, t, n - 1, c);
      assert steps[..n][..n - 1] == steps[..n - 1];
      hide RemoveLast, ListOf;
      var db := Run(retryCount, steps[..n - 1]);
      assert Run(retryCount, steps[..n]) == Do(retryCount, db, steps[n - 1]);
    }
  }

  /** What one read finds for a commit id that was listed before. */
  lemma FetchOne<P>(retryCount: nat, steps: seq<Step<P>>, id: string, t: nat, n: nat, c: nat)
    requires t <= n <= |steps| && c in ListOf(Run(retryCount, steps[..t]).redis, id)
    ensures var db, r := Run(retryCount, steps[..t]), StoreAfter(retryCount, steps, n);
            && (c !in r.hash <==> ThrewBy(retryCount, steps, c, n))
            && c in db.savers && db.savers[c].e.id == id && (c in r.hash ==> r.hash[c] == db.savers[c].e)
  {
    hide Run, NoDup;
    AlwaysOk(retryCount, steps[..t]);
    AlwaysOk(retryCount, steps[..n]);
    var db, db' := Run(retryCount, steps[..t]), Run(retryCount, steps[..n]);
    assert ListOk(db, id);
    assert SaverOk(db.redis, c, db.savers[c]);
    SaverPersists(retryCount, steps, t, n, c);
    assert SaverOk(db'.redis, c, db'.savers[c]);
  }

  /** A get that read the list after `t` steps and each event at some instant since throws exactly when the save of a
      commit id it read has thrown by then, its push taken back; otherwise it finds the event of each. */
  lemma {:induction false} GetThrowsIff<P>(retryCount: nat, steps: seq<Step<P>>, id: string, t: nat,
                                           commits: seq<nat>, at: nat -> nat)
    requires t <= |steps|
    requires forall c :: c in commits ==> c in ListOf(Run(retryCount, steps[..t]).redis, id) && t <= at(c) <= |steps|
    ensures var events, db := Fetched(retryCount, steps, commits, at), Run(retryCount, steps[..t]);
            && (events.None? <==> exists c :: c in commits && ThrewBy(retryCount, steps, c, at(c)))
            && (forall c :: c in commits ==> c in db.savers && db.savers[c].e.id == id)
            && (events.Some? ==> |events.value| == |commits|
                                 && forall i :: 0 <= i < |commits| ==> events.value[i] == db.savers[commits[i]].e)
    decreases |commits|
  {
    hide Run, ThrewBy, StoreAfter, ListOf;
    if |commits| != 0 {
      FetchOne(retryCount, steps, id, t, at(commits[0]), commits[0]);
      assert forall c :: c in commits <==> c == commits[0] || c in commits[1..];
      GetThrowsIff(retryCount, steps, id, t, commits[1..], at);
    }
  }

  // ---- lost races are retried -------------------------------------------------------------

  /** Whether this step is a push of save `c` that finds the list longer or shorter than it was counted. */
  predicate LosesRace<P>(db: Db<P>, step: Step<P>, c: nat) {
    && step == Execute(c, true) && c in db.savers && db.savers[c].phase.Counted?
    && |ListOf(db.redis, db.savers[c].e.id)| != db.savers[c].phase.length
  }

  /** How many races save `c` has lost. */
  function RacesLost<P>(retryCount: nat, steps: seq<Step<P>>, c: nat): nat {
    if |steps| == 0 then 0
    else
      var front := steps[..|steps| - 1];
      RacesLost(retryCount, front, c) + if LosesRace(Run(retryCount, front), steps[|steps| - 1], c) then 1 else 0
  }

  predicate CanStillPush(phase: Phase) {
    Listed(phase) || phase == Hashed || phase.Counted?
  }

  lemma StepTries<P>(retryCount: nat, db: Db<P>, step: Step<P>, c: nat)
    ensures var db' := Do(retryCount, db, step);
            var more := if LosesRace(db, step, c) then 1 else 0;
            if c in db.savers
            then && c in db'.savers && db'.savers[c].tries == db.savers[c].tries + more
                 && (CanStillPush(db'.savers[c].phase) ==>
                       || (CanStillPush(db.savers[c].phase) && more == 0)
                       || (db.savers[c].phase == Begun && more == 0 && retryCount > 0)
                       || db'.savers[c].tries < retryCount)
                 && (db'.savers[c].phase == Begun ==> db.savers[c].phase == Begun)
            else more == 0 && (c in db'.savers ==> db'.savers[c].tries == 0 && db'.savers[c].phase == Begun)
  {
    hide RemoveLast, ListOf;
  }

  lemma {:induction false} TriesAreRacesLost<P>(retryCount: nat, steps: seq<Step<P>>, c: nat)
    ensures var db, lost := Run(retryCount, steps), RacesLost(retryCount, steps, c);
            if c in db.savers
            then && db.savers[c].tries == lost && (CanStillPush(db.savers[c].phase) ==> lost < retryCount)
                 && (db.savers[c].phase == Begun ==> lost == 0)
            else lost == 0
  {
    if |steps| != 0 {
      TriesAreRacesLost(retryCount, steps[..|steps| - 1], c);
      StepTries(retryCount, Run(retryCount, steps[..|steps| - 1]), steps[|steps| - 1], c);
      hide Do, LosesRace, CanStillPush;
    }
  }

  /** A lost race sends a save back to counting the list until it has lost as many as it has tries; only then is it
      undone. */
  lemma {:induction false} GivesUpAfterAllTries<P>(retryCount: nat, steps: seq<Step<P>>, c: nat)
    requires LosesRace(Run(retryCount, steps), Execute(c, true), c)
    ensures var db, db' := Run(retryCount, steps), Run(retryCount, steps + [Execute(c, true)]);
            var lost := RacesLost(retryCount, steps + [Execute(c, true)], c);
            && db'.redis == db.redis && c in db'.savers && db'.savers[c].e == db.savers[c].e
            && db'.savers[c].phase == if lost < retryCount then Hashed else Undoing
  {
    hide RemoveLast, ListOf;
    TriesAreRacesLost(retryCount, steps, c);
    assert (steps + [Execute(c, true)])[..|steps|] == steps;
  }

  /** A save whose hash write throws leaves the store as it was. */
  lemma HashDownIsARun<P>(retryCount: nat, db: Db<P>, c: nat, e: Event<P>)
    requires c !in db.savers
    ensures var after := Do(retryCount, Do(retryCount, db, Begin(c, e)), WriteHash(c, false));
            after.redis == db.redis && after.savers == db.savers[c := Saver(Threw, e, 0)]
  {
  }

  // ---- an undisturbed save ----------------------------------------------------------------

  function DoAll<P>(retryCount: nat, db: Db<P>, steps: seq<Step<P>>): Db<P>
    decreases |steps|
  {
    if |steps| == 0 then db else DoAll(retryCount, Do(retryCount, db, steps[0]), steps[1..])
  }

  lemma DoFirst<P>(retryCount: nat, db: Db<P>, step: Step<P>, rest: seq<Step<P>>)
    ensures DoAll(retryCount, db, [step] + rest) == DoAll(retryCount, Do(retryCount, db, step), rest)
  {
    assert ([step] + rest)[1..] == rest;
  }

  lemma DoOne<P>(retryCount: nat, db: Db<P>, step: Step<P>)
    ensures DoAll(retryCount, db, [step]) == Do(retryCount, db, step)
  {
    hide Do;
    assert [step][1..] == [];
  }

  lemma DoThree<P>(retryCount: nat, db: Db<P>, x: Step<P>, y: Step<P>, z: Step<P>)
    ensures DoAll(retryCount, db, [x, y, z]) == Do(retryCount, Do(retryCount, Do(retryCount, db, x), y), z)
  {
    hide Do, DoAll;
    assert [x] + [y, z] == [x, y, z] && [y] + [z] == [y, z];
    DoFirst(retryCount, db, x, [y, z]);
    DoFirst(retryCount, Do(retryCount, db, x), y, [z]);
    DoOne(retryCount, Do(retryCount, Do(retryCount, db, x), y), z);
  }

  /** The steps after the hash entry is written, when the list transaction comes out as `t`. */
  function TrySteps<P>(c: nat, t: Try): seq<Step<P>> {
    match t
    case LengthThrows => [ReadLength(c, false)]
    case ExecuteThrows => [ReadLength(c, true), Execute(c, false), DeleteHash(c)]
    case RaceLost => [DeleteHash(c)]
    case Executed(true) => [ReadLength(c, true), Execute(c, true), Publish(c, true)]
    case Executed(false) => [ReadLength(c, true), Execute(c, true), Publish(c, false), TakeBack(c), DeleteHash(c)]
  }

  /** The same store, an empty list and none at all not being told apart. */
  ghost predicate SameStore<P>(r: Redis<P>, r': Redis<P>) {
    r.hash == r'.hash && r.published == r'.published && forall id :: ListOf(r, id) == ListOf(r', id)
  }

  /** `AfterTry` is what the steps of one save come to when nobody else takes any; it returned if and only if
      the call answers success. Undisturbed, a race is lost only when there are no tries at all. */
  lemma {:induction false} SaveIsARun<P>(retryCount: nat, db: Db<P>, c: nat, e: Event<P>, t: Try)
    requires c !in db.savers && Unused(db.redis, c) && (t == RaceLost <==> retryCount == 0)
    ensures var begun := Do(retryCount, Do(retryCount, db, Begin(c, e)), WriteHash(c, true));
            var after := DoAll(retryCount, begun, TrySteps(c, t));
            && SameStore(after.redis, AfterTry(db.redis, e, c, t))
            && c in after.savers && (after.savers[c].phase == Returned <==> Answer(t).Success?)
  {
    var begun := Do(retryCount, Do(retryCount, db, Begin(c, e)), WriteHash(c, true));
    assert begun.redis == db.redis.(hash := db.redis.hash[c := e]);
    assert c in begun.savers && begun.savers[c] == Saver(if retryCount == 0 then Undoing else Hashed, e, 0);
    assert db.redis.hash[c := e] - {c} == db.redis.hash;
    TryIsARun(retryCount, begun, db.redis, c, e, t);
  }

  lemma TryIsARun<P>(retryCount: nat, begun: Db<P>, r: Redis<P>, c: nat, e: Event<P>, t: Try)
    requires begun.redis == r.(hash := r.hash[c := e]) && r.hash[c := e] - {c} == r.hash
        && (t == RaceLost <==> retryCount == 0)
    requires c in begun.savers && begun.savers[c] == Saver(if retryCount == 0 then Undoing else Hashed, e, 0)
    ensures var after := DoAll(retryCount, begun, TrySteps(c, t));
            && SameStore(after.redis, AfterTry(r, e, c, t))
            && c in after.savers && (after.savers[c].phase == Returned <==> Answer(t).Success?)
  {
    hide DoAll;
    match t
    case RaceLost => DoOne(retryCount, begun, DeleteHash(c));
    case LengthThrows => DoOne(retryCount, begun, ReadLength(c, false));
    case ExecuteThrows => DoThree(retryCount, begun, ReadLength(c, true), Execute(c, false), DeleteHash(c));
    case Executed(true) =>
      DoThree(retryCount, begun, ReadLength(c, true), Execute(c, true), Publish(c, true));
      var pushed := PushedOn(retryCount, begun, r, c, e);
      hide AfterTry;
      PublishIsARun(retryCount, pushed, r, c, e);
    case Executed(false) =>
      var pushed := PushedOn(retryCount, begun, r, c, e);
      var rest := [Publish(c, false), TakeBack(c), DeleteHash(c)];
      var d1 := Do(retryCount, begun, ReadLength(c, true));
      assert [Execute(c, true)] + rest == [Execute(c, true), Publish(c, false), TakeBack(c), DeleteHash(c)];
      assert [ReadLength(c, true)] + ([Execute(c, true)] + rest) == TrySteps(c, t);
      DoFirst(retryCount, begun, ReadLength(c, true), [Execute(c, true)] + rest);
      DoFirst(retryCount, d1, Execute(c, true), rest);
      DoThree(retryCount, pushed, Publish(c, false), TakeBack(c), DeleteHash(c));
      TakeBackIsARun(retryCount, pushed, r, c, e);
  }

  lemma PushedOn<P>(retryCount: nat, begun: Db<P>, r: Redis<P>, c: nat, e: Event<P>) returns (pushed: Db<P>)
    requires begun.redis == r.(hash := r.hash[c := e]) && c in begun.savers && begun.savers[c] == Saver(Hashed, e, 0)
    ensures pushed == Do(retryCount, Do(retryCount, begun, ReadLength(c, true)), Execute(c, true))
    ensures pushed.redis == Redis(r.lists[e.id := ListOf(r, e.id) + [c]], r.hash[c := e], r.published)
    ensures c in pushed.savers && pushed.savers[c] == Saver(Pushed, e, 0)
  {
    var d1 := Do(retryCount, begun, ReadLength(c, true));
    assert d1.redis == begun.redis && c in d1.savers && d1.savers[c] == Saver(Counted(|ListOf(r, e.id)|), e, 0);
    pushed := Do(retryCount, d1, Execute(c, true));
  }

  lemma PublishIsARun<P>(retryCount: nat, pushed: Db<P>, r: Redis<P>, c: nat, e: Event<P>)
    requires pushed.redis == Redis(r.lists[e.id := ListOf(r, e.id) + [c]], r.hash[c := e], r.published)
    requires c in pushed.savers && pushed.savers[c] == Saver(Pushed, e, 0)
    ensures var after := Do(retryCount, pushed, Publish(c, true));
            && SameStore(after.redis, AfterTry(r, e, c, Executed(true)))
            && c in after.savers && after.savers[c].phase == Returned
  {
  }

  lemma TakeBackIsARun<P>(retryCount: nat, pushed: Db<P>, r: Redis<P>, c: nat, e: Event<P>)
    requires r.hash[c := e] - {c} == r.hash
    requires pushed.redis == Redis(r.lists[e.id := ListOf(r, e.id) + [c]], r.hash[c := e], r.published)
    requires c in pushed.savers && pushed.savers[c] == Saver(Pushed, e, 0)
    ensures var after := Do(retryCount, Do(retryCount, Do(retryCount, pushed, Publish(c, false)), TakeBack(c)),
        DeleteHash(c));
            && SameStore(after.redis, AfterTry(r, e, c, Executed(false)))
            && c in after.savers && after.savers[c].phase == Threw
  {
    hide RemoveLast;
    var d1 := Do(retryCount, pushed, Publish(c, false));
    assert d1.redis == pushed.redis && c in d1.savers && d1.savers[c] == Saver(Unpublished, e, 0);
    RemoveWhatWasPushed(ListOf(r, e.id), c);
    var d2 := Do(retryCount, d1, TakeBack(c));
    assert c in d2.savers && d2.savers[c] == Saver(Undoing, e, 0) && d2.redis.hash == r.hash[c := e];
    assert d2.redis.lists == r.lists[e.id := ListOf(r, e.id)];
    var d3 := Do(retryCount, d2, DeleteHash(c));
    assert d3.redis == Redis(r.lists[e.id := ListOf(r, e.id)], r.hash, r.published);
  }

  /** A run in which a get throws: it reads the list between a push and the publish that fails. */
  lemma {:induction false} TakeBackUnderGet<P>(retryCount: nat, e: Event<P>)
    requires retryCount > 0
    ensures var steps := [Begin(0, e), WriteHash(0, true), ReadLength(0, true), Execute(0, true), Publish(0, false),
                          TakeBack(0), DeleteHash(0)];
            ListOf(Run(retryCount, steps[..4]).redis, e.id) == [0] && Fetched(retryCount, steps, [0], _ => 7) == None
  {
    hide Run, Do, Inv, RemoveLast, ListOf, Fetched, StoreAfter;
    var begin := [Begin(0, e)] + [WriteHash(0, true)];
    var early := begin + [ReadLength(0, true)] + [Execute(0, true)];
    var steps := early + [Publish(0, false)] + [TakeBack(0)] + [DeleteHash(0)];
    BegunOn(retryCount, e);
    RunMore(retryCount, begin, ReadLength(0, true));
    RunMore(retryCount, begin + [ReadLength(0, true)], Execute(0, true));
    RunMore(retryCount, early, Publish(0, false));
    RunMore(retryCount, early + [Publish(0, false)], TakeBack(0));
    RunMore(retryCount, early + [Publish(0, false)] + [TakeBack(0)], DeleteHash(0));
    var none := Redis(map[], map[], []);
    var pushed := PushedOn(retryCount, Run(retryCount, begin), none, 0, e);
    assert none.hash[0 := e] - {0} == none.hash;
    TakeBackIsARun(retryCount, pushed, none, 0, e);
    OnlyPush(pushed, none, e);
    assert early == steps[..4];
    NothingFetched(retryCount, steps);
    assert steps == [Begin(0, e), WriteHash(0, true), ReadLength(0, true), Execute(0, true), Publish(0, false),
                     TakeBack(0), DeleteHash(0)];
  }

  lemma RunMore<P>(retryCount: nat, steps: seq<Step<P>>, step: Step<P>)
    ensures Run(retryCount, steps + [step]) == Do(retryCount, Run(retryCount, steps), step)
  {
    hide Do;
    assert (steps + [step])[..|steps|] == steps;
  }

  lemma OnlyPush<P>(pushed: Db<P>, r: Redis<P>, e: Event<P>)
    requires r == Redis(map[], map[], []) && pushed.redis.lists == r.lists[e.id := ListOf(r, e.id) + [0]]
    ensures ListOf(pushed.redis, e.id) == [0]
  {
  }

  lemma NothingFetched<P>(retryCount: nat, steps: seq<Step<P>>)
    requires |steps| == 7 && Run(retryCount, steps).redis.hash == map[]
    ensures Fetched(retryCount, steps, [0], _ => 7) == None
  {
    hide Run;
    assert steps[..7] == steps;
  }

  lemma BegunOn<P>(retryCount: nat, e: Event<P>)
    requires retryCount > 0
    ensures var begun := Run(retryCount, [Begin(0, e)] + [WriteHash(0, true)]);
            && begun.redis == Redis(map[], map[0 := e], [])
            && 0 in begun.savers && begun.savers[0] == Saver(Hashed, e, 0)
  {
    hide Run;
    var none: seq<Step<P>> := [];
    NoSteps<P>(retryCount);
    assert none + [Begin(0, e)] == [Begin(0, e)];
    RunMore(retryCount, none, Begin(0, e));
    RunMore(retryCount, [Begin(0, e)], WriteHash(0, true));
  }

  lemma NoSteps<P>(retryCount: nat)
    ensures Run<P>(retryCount, []) == Db(Redis(map[], map[], []), map[])
  {
  }
}
