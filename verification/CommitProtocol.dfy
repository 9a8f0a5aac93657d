/** A session's commit as the code runs it: the saves of its aggregates are started together and interleave. */
module CommitProtocol {
  import opened Outcomes
  import opened Aggregates
  import opened SqlStore
  import opened RedisLists
  import opened Sessions

  /** Where the save of one aggregate stands: not checked yet, or `n` of its events stored, or done. */
  datatype Phase = Waiting | Storing(n: nat) | Done(ok: bool)

  /** What a commit is about: the aggregates by id, the versions they were tracked at, and the faults they meet. */
  datatype Commit<!S, !P> = Commit(values: map<string, Agg<S, P>>, versions: map<string, int>,
                                   faults: string -> nat -> Fault)

  datatype Db<P> = Db(rows: map<string, seq<Event<P>>>, phases: map<string, Phase>)

  /** Every aggregate is filed under its own id and its changes are its own. */
  ghost predicate Own<S, P>(c: Commit<S, P>) {
    && c.versions.Keys == c.values.Keys
    && forall id :: id in c.values ==> c.values[id].id == id && OwnChanges(c.values[id].changes, id)
  }

  /** The save of `id` goes on to its next await: check and flush, or the transaction of one event. */
  function Do<S, P>(c: Commit<S, P>, db: Db<P>, id: string): Db<P>
    requires c.versions.Keys == c.values.Keys
  {
    if id !in c.values || id !in db.phases then db
    else
      var a := c.values[id];
      match db.phases[id]
      case Waiting =>
        var ok := PassesCheck(RowsOf(db.rows, id), Some(c.versions[id])) && CanFlush(a);
        db.(phases := db.phases[id := if ok then Storing(0) else Done(false)])
      case Storing(n) =>
        var batch := Flushed(a);
        if n >= |batch| then db.(phases := db.phases[id := Done(true)])
        else if Storable(RowsOf(db.rows, batch[n].id), batch[n], c.faults(id)(n)) then
          Db(db.rows[batch[n].id := RowsOf(db.rows, batch[n].id) + [batch[n]]], db.phases[id := Storing(n + 1)])
        else db.(phases := db.phases[id := Done(false)])
      case Done(_) => db
  }

  /** `turns` names the saves in the order in which they go on. */
  function Run<S, P>(c: Commit<S, P>, was: map<string, seq<Event<P>>>, turns: seq<string>): Db<P>
    requires c.versions.Keys == c.values.Keys
  {
    if |turns| == 0 then Db(was, map id | id in c.values :: Waiting)
    else Do(c, Run(c, was, turns[..|turns| - 1]), turns[|turns| - 1])
  }

  ghost predicate SaveOk<S, P>(c: Commit<S, P>, was: map<string, seq<Event<P>>>, db: Db<P>, id: string)
    requires id in c.values && id in c.versions && id in db.phases
  {
    var a, log := c.values[id], RowsOf(db.rows, id);
    match db.phases[id]
    case Waiting => log == RowsOf(was, id)
    case Storing(n) =>
      && PassesCheck(RowsOf(was, id), Some(c.versions[id])) && CanFlush(a)
      && n <= |Flushed(a)| && log == RowsOf(was, id) + Flushed(a)[..n]
      && StorableUpTo(was, Flushed(a), c.faults(id), n)
    case Done(ok) => SavedAs(was, id, a, Some(c.versions[id]), c.faults(id), log, ok)
  }

  ghost predicate Inv<S, P>(c: Commit<S, P>, was: map<string, seq<Event<P>>>, db: Db<P>) {
    && c.versions.Keys == c.values.Keys == db.phases.Keys
    && (forall id :: id in c.values ==> SaveOk(c, was, db, id))
    && (forall id :: id !in c.values ==> RowsOf(db.rows, id) == RowsOf(was, id))
  }

  /** An event of its own batch is storable now exactly when it was storable after the ones before it. */
  lemma NextStorable<S, P>(was: map<string, seq<Event<P>>>, a: Agg<S, P>, id: string, n: nat, faults: nat -> Fault)
    requires a.id == id && OwnChanges(a.changes, id) && CanFlush(a)
    ensures n < |Flushed(a)| ==> Flushed(a)[n].id == id
    ensures n < |Flushed(a)| ==> (StorableAt(was, Flushed(a), faults, n)
            <==> Storable(RowsOf(was, id) + Flushed(a)[..n], Flushed(a)[n], faults(n)))
  {
    assert OwnedBy(Flushed(a), id);
    if n < |Flushed(a)| { OfOneId(Flushed(a)[..n], id); }
  }

  lemma {:induction false} StepKeeps<S, P>(c: Commit<S, P>, was: map<string, seq<Event<P>>>, db: Db<P>, id: string)
    requires Own(c) && Inv(c, was, db)
    ensures Inv(c, was, Do(c, db, id))
  {
    hide SavedAs, Storable, StorableUpTo, PassesCheck, CanFlush, Flushed, RowsOf;
    var db' := Do(c, db, id);
    if id in c.values {
      hide Do;
      assert SaveOk(c, was, db, id);
      MoverOk(c, was, db, id);
      forall other | other != id
        ensures RowsOf(db'.rows, other) == RowsOf(db.rows, other)
        ensures other in db.phases ==> db'.phases[other] == db.phases[other]
        ensures other in c.values ==> SaveOk(c, was, db', other)
      {
        OthersStay(c, db, id, other);
        if other in c.values { assert SaveOk(c, was, db, other); }
      }
    }
  }

  lemma MoverOk<S, P>(c: Commit<S, P>, was: map<string, seq<Event<P>>>, db: Db<P>, id: string)
    requires Own(c) && c.versions.Keys == c.values.Keys == db.phases.Keys && id in c.values && SaveOk(c, was, db, id)
    ensures var db' := Do(c, db, id);
            db'.phases.Keys == db.phases.Keys && SaveOk(c, was, db', id)
  {
    hide Storable, StorableAt, StorableUpTo, SavedAs, PassesCheck, CanFlush, Flushed, OwnChanges;
    var a, batch := c.values[id], Flushed(c.values[id]);
    match db.phases[id]
    case Waiting =>
      NothingStored(was, id, a, Some(c.versions[id]), c.faults(id));
      assert batch[..0] == [] && RowsOf(was, id) + [] == RowsOf(was, id);
    case Storing(n) =>
      NextStorable(was, a, id, n, c.faults(id));
      Stops(was, id, a, Some(c.versions[id]), c.faults(id), n);
    case Done(_) =>
  }

  lemma OthersStay<S, P>(c: Commit<S, P>, db: Db<P>, id: string, other: string)
    requires Own(c) && c.versions.Keys == c.values.Keys == db.phases.Keys && id in c.values && other != id
    ensures var db' := Do(c, db, id);
            && RowsOf(db'.rows, other) == RowsOf(db.rows, other)
            && (other in db.phases ==> db'.phases[other] == db.phases[other])
  {
    hide Storable, PassesCheck, CanFlush;
  }

  lemma NothingStored<S, P>(was: map<string, seq<Event<P>>>, id: string, a: Agg<S, P>, expected: Option<int>,
                            faults: nat -> Fault)
    ensures PassesCheck(RowsOf(was, id), expected) && CanFlush(a) ==> StorableUpTo(was, Flushed(a), faults, 0)
    ensures !PassesCheck(RowsOf(was, id), expected) || !CanFlush(a) ==>
              SavedAs(was, id, a, expected, faults, RowsOf(was, id), false)
  {
    hide PassesCheck, CanFlush, Flushed;
  }

  /** A save that has stored `n` events stops there, or stores one more. */
  lemma Stops<S, P>(was: map<string, seq<Event<P>>>, id: string, a: Agg<S, P>, expected: Option<int>,
                    faults: nat -> Fault, n: nat)
    requires PassesCheck(RowsOf(was, id), expected) && CanFlush(a) && n <= |Flushed(a)|
    requires StorableUpTo(was, Flushed(a), faults, n)
    ensures n < |Flushed(a)| ==> Flushed(a)[..n + 1] == Flushed(a)[..n] + [Flushed(a)[n]]
    ensures n < |Flushed(a)| && StorableAt(was, Flushed(a), faults, n) ==> StorableUpTo(was, Flushed(a), faults, n + 1)
    ensures n == |Flushed(a)| || !StorableAt(was, Flushed(a), faults, n) ==>
              SavedAs(was, id, a, expected, faults, RowsOf(was, id) + Flushed(a)[..n], n == |Flushed(a)|)
  {
    hide PassesCheck, CanFlush, Flushed, StorableAt;
    assert n == |Flushed(a)| || !StorableAt(was, Flushed(a), faults, n) ==> StoresExactly(was, Flushed(a), faults, n);
  }

  lemma {:induction false} AlwaysOk<S, P>(c: Commit<S, P>, was: map<string, seq<Event<P>>>, turns: seq<string>)
    requires Own(c)
    ensures Inv(c, was, Run(c, was, turns))
  {
    if |turns| != 0 {
      AlwaysOk(c, was, turns[..|turns| - 1]);
      StepKeeps(c, was, Run(c, was, turns[..|turns| - 1]), turns[|turns| - 1]);
    }
  }

  /** However the saves of a commit interleave, each that is done has the outcome it would have alone, and no other
      log has changed. */
  lemma {:induction false} TogetherAsAlone<S, P>(c: Commit<S, P>, was: map<string, seq<Event<P>>>, turns: seq<string>)
    requires Own(c)
    ensures var db := Run(c, was, turns);
            && (forall id :: id !in c.values ==> RowsOf(db.rows, id) == RowsOf(was, id))
            && c.values.Keys == db.phases.Keys
            && (forall id :: id in c.values && db.phases[id].Done? ==>
                  SavedAs(was, id, c.values[id], Some(c.versions[id]), c.faults(id), RowsOf(db.rows, id),
                          db.phases[id].ok))
  {
    AlwaysOk(c, was, turns);
    hide Run, SavedAs;
    forall id | id in c.values ensures SaveOk(c, was, Run(c, was, turns), id) {}
  }

  /** There is only one such outcome. */
  lemma OneOutcome<S, P>(was: map<string, seq<Event<P>>>, id: string, a: Agg<S, P>, expected: Option<int>,
                         faults: nat -> Fault, log: seq<Event<P>>, ok: bool, log': seq<Event<P>>, ok': bool)
    requires SavedAs(was, id, a, expected, faults, log, ok) && SavedAs(was, id, a, expected, faults, log', ok')
    ensures log == log' && ok == ok'
  {
    hide StorableAt, Flushed;
    if PassesCheck(RowsOf(was, id), expected) && CanFlush(a) {
      var n: nat :| StoresExactly(was, Flushed(a), faults, n) && log == RowsOf(was, id) + Flushed(a)[..n]
                    && (ok <==> n == |Flushed(a)|);
      var m: nat :| StoresExactly(was, Flushed(a), faults, m) && log' == RowsOf(was, id) + Flushed(a)[..m]
                    && (ok' <==> m == |Flushed(a)|);
    }
  }

  /** So when all are done, the store and the set of failed saves are those of saving one aggregate after the other,
      in whatever order. */
  lemma {:induction false} TogetherAsInOrder<S, P(!new)>(c: Commit<S, P>, was: map<string, seq<Event<P>>>,
                                                         turns: seq<string>, rows: map<string, seq<Event<P>>>,
                                                         order: seq<string>, failed: set<string>)
    requires Own(c) && (forall id :: id in order <==> id in c.values) && NoDup(order)
    requires SavedInOrder(was, rows, order, c.values, c.versions, c.faults, failed)
    requires var db := Run(c, was, turns); forall id :: id in db.phases ==> db.phases[id].Done?
    ensures var db := Run(c, was, turns);
            && (forall id :: RowsOf(db.rows, id) == RowsOf(rows, id))
            && c.values.Keys == db.phases.Keys
            && (forall id :: id in c.values ==> (db.phases[id] == Done(true) <==> id !in failed))
  {
    hide Run, SavedInOrder, SavedAs, OwnChanges, NoDup;
    TogetherAsAlone(c, was, turns);
    SavedIndependently(was, rows, order, c.values, c.versions, c.faults, failed);
    var db := Run(c, was, turns);
    forall id | id in c.values
      ensures RowsOf(db.rows, id) == RowsOf(rows, id) && (db.phases[id] == Done(true) <==> id !in failed)
    {
      OneOutcome(was, id, c.values[id], Some(c.versions[id]), c.faults(id), RowsOf(db.rows, id),
                 db.phases[id].ok, RowsOf(rows, id), id !in failed);
    }
  }

  function Again(turns: seq<string>, id: string, n: nat): seq<string> {
    if n == 0 then turns else Again(turns, id, n - 1) + [id]
  }

  /** How many turns a save needs at most from here. */
  function Left(phase: Phase, n: nat): nat {
    match phase
    case Waiting => n + 2
    case Storing(k) => if k <= n then n - k + 1 else 1
    case Done(_) => 0
  }

  lemma OneTurnLess<S, P>(c: Commit<S, P>, db: Db<P>, id: string)
    requires c.versions.Keys == c.values.Keys && id in c.values && id in db.phases
    ensures var db', n := Do(c, db, id), |c.values[id].changes|;
            && id in db'.phases
            && (if db.phases[id].Done? then db'.phases[id].Done?
                else Left(db'.phases[id], n) < Left(db.phases[id], n))
  {
    hide Storable, PassesCheck, CanFlush;
  }

  lemma AgainRuns<S, P>(c: Commit<S, P>, was: map<string, seq<Event<P>>>, turns: seq<string>, id: string, n: nat)
    requires c.versions.Keys == c.values.Keys && n > 0
    ensures Run(c, was, Again(turns, id, n)) == Do(c, Run(c, was, Again(turns, id, n - 1)), id)
  {
    hide Do;
    assert Again(turns, id, n)[..|Again(turns, id, n)| - 1] == Again(turns, id, n - 1);
  }

  lemma HasPhase<S, P>(c: Commit<S, P>, was: map<string, seq<Event<P>>>, turns: seq<string>, id: string)
    requires Own(c) && id in c.values
    ensures id in Run(c, was, turns).phases
  {
    hide Run;
    AlwaysOk(c, was, turns);
  }

  lemma {:induction false} LessLeft<S, P>(c: Commit<S, P>, was: map<string, seq<Event<P>>>, turns: seq<string>,
                                          id: string, n: nat)
    requires Own(c) && id in c.values
    ensures var size, db := |c.values[id].changes|, Run(c, was, Again(turns, id, n));
            id in db.phases && (db.phases[id].Done? || Left(db.phases[id], size) + n <= size + 2)
  {
    hide Run, Do, OwnChanges, Again;
    HasPhase(c, was, Again(turns, id, n), id);
    if n > 0 {
      LessLeft(c, was, turns, id, n - 1);
      AgainRuns(c, was, turns, id, n);
      OneTurnLess(c, Run(c, was, Again(turns, id, n - 1)), id);
    }
  }

  /** Whatever went before, a save that gets two turns more than it has events is done. */
  lemma {:induction false} EverySaveEnds<S, P>(c: Commit<S, P>, was: map<string, seq<Event<P>>>, turns: seq<string>,
                                               id: string)
    requires Own(c) && id in c.values
    ensures var db := Run(c, was, Again(turns, id, |c.values[id].changes| + 2));
            id in db.phases && db.phases[id].Done?
  {
    LessLeft(c, was, turns, id, |c.values[id].changes| + 2);
  }
}
