/** Any number of sessions racing to save one aggregate through the SQL store. */
module OptimisticConcurrency {
  import opened Outcomes
  import opened Aggregates
  import opened EventLogs
  import opened SqlStore
  import opened Sessions

  /** How far a session has come. InTransaction holds the unique key of its next event;
      Announced has published that event as well. */
  datatype Phase = Open | Checked | Saving | InTransaction | Announced | Done | Failed

  /** `expected` is the version the aggregate was loaded at, `stored` how much of `batch` is committed. */
  datatype Saver<S, P> = Saver(phase: Phase, agg: Agg<S, P>, expected: nat, batch: seq<Event<P>>, stored: nat)

  /** The event table, who committed each row, what has been published, and the sessions. */
  datatype Db<S, P> = Db(log: seq<Event<P>>, authors: seq<nat>, published: seq<Event<P>>, savers: map<nat, Saver<S, P>>)

  datatype Step<P> =
    | Load(s: nat)
    | Change(s: nat, e: Event<P>)
    | Check(s: nat)
    | Flush(s: nat)
    | Insert(s: nat)
    | Publish(s: nat)
    | Commit(s: nat)
    | Return(s: nat)
    | Throw(s: nat)   // any exception: the transaction rolls back and the session discards its aggregate

  predicate InTx<S, P>(saver: Saver<S, P>) {
    saver.phase == InTransaction || saver.phase == Announced
  }

  /** A row under another open transaction makes an insert of the same version wait. */
  predicate Blocked<S, P>(db: Db<S, P>, version: int) {
    exists t :: t in db.savers && InTx(db.savers[t]) && db.savers[t].stored < |db.savers[t].batch|
                && db.savers[t].batch[db.savers[t].stored].version == version
  }

  function Put<S, P>(db: Db<S, P>, s: nat, saver: Saver<S, P>): Db<S, P> {
    db.(savers := db.savers[s := saver])
  }

  /** The aggregate a new session works on: the loaded one, or a blank one under its id. */
  function Opened<S, P>(b: Behaviour<S, P>, id: string, log: seq<Event<P>>): Agg<S, P> {
    var events := Query(log, -1);
    if |events| == 0 then Held(b, id, [], []) else Loaded(b, Fresh(b), events).0
  }

  /** One step of one session; a step that is not enabled changes nothing. */
  function Do<S, P>(b: Behaviour<S, P>, id: string, db: Db<S, P>, step: Step<P>): Db<S, P> {
    if step.Load? then
      var agg := Opened(b, id, db.log);
      if step.s in db.savers || agg.version < 0 then db
      else Put(db, step.s, Saver(Open, agg, agg.version, [], 0))
    else if step.s !in db.savers then db
    else
      var me := db.savers[step.s];
      match step
      case Load(_) => db
      case Change(s, e) =>
        if (me.phase == Open || me.phase == Checked) && (e.id == "" || e.id == id)
        then Put(db, s, me.(agg := Applied(b, me.agg, e))) else db
      case Check(s) =>
        if me.phase != Open then db
        else Put(db, s, me.(phase := if PassesCheck(db.log, Some(me.expected)) then Checked else Failed))
      case Flush(s) =>
        if me.phase != Checked then db
        else Put(db, s, me.(phase := Saving, agg := AfterFlush(me.agg), batch := Flushed(me.agg)))
      case Insert(s) =>
        if me.phase != Saving || me.stored >= |me.batch| || Blocked(db, me.batch[me.stored].version) then db
        else Put(db, s, me.(phase := if HasVersion(db.log, me.batch[me.stored].version) then Failed else InTransaction))
      case Publish(s) =>
        if me.phase != InTransaction || me.stored >= |me.batch| then db
        else Put(db, s, me.(phase := Announced)).(published := db.published + [me.batch[me.stored]])
      case Commit(s) =>
        if me.phase != Announced || me.stored >= |me.batch| then db
        else Put(db, s, me.(phase := Saving, stored := me.stored + 1))
             .(log := db.log + [me.batch[me.stored]], authors := db.authors + [s])
      case Return(s) =>
        if me.phase != Saving || me.stored < |me.batch| then db else Put(db, s, me.(phase := Done))
      case Throw(s) =>
        if me.phase == Done then db else Put(db, s, me.(phase := Failed))
  }

  function Run<S, P>(b: Behaviour<S, P>, id: string, steps: seq<Step<P>>): Db<S, P> {
    if |steps| == 0 then Db([], [], [], map[])
    else Do(b, id, Run(b, id, steps[..|steps| - 1]), steps[|steps| - 1])
  }

  // ---- the invariant ----------------------------------------------------------------------

  ghost predicate LogOk<S, P>(id: string, db: Db<S, P>) {
    && |db.authors| == |db.log|
    && Contiguous(db.log) && OwnedBy(db.log, id)
    && forall i :: 0 <= i < |db.log| ==> db.log[i] in db.published
  }

  /** What is stored of the batch is the log right after the loaded version, and this session wrote it. */
  ghost predicate StoredOk<S, P>(db: Db<S, P>, s: nat, saver: Saver<S, P>) {
    && saver.stored <= |saver.batch| && saver.expected + saver.stored <= |db.log| == |db.authors|
    && db.log[saver.expected..saver.expected + saver.stored] == saver.batch[..saver.stored]
    && forall i :: saver.expected <= i < saver.expected + saver.stored ==> db.authors[i] == s
  }

  ghost predicate AggregateOk<S, P>(b: Behaviour<S, P>, id: string, db: Db<S, P>, saver: Saver<S, P>)
    requires saver.expected <= |db.log|
  {
    var base := db.log[..saver.expected];
    match saver.phase
    case Open | Checked =>
      saver.agg == Held(b, id, base, saver.agg.changes) && OwnChanges(saver.agg.changes, id) && saver.batch == []
    case Saving | InTransaction | Announced | Done =>
      && saver.agg == Held(b, id, base + saver.batch, [])
      && Contiguous(base + saver.batch) && OwnedBy(base + saver.batch, id)
    case Failed => true
  }

  ghost predicate PhaseOk<S, P>(db: Db<S, P>, saver: Saver<S, P>) {
    && (InTx(saver) ==> saver.stored < |saver.batch| && saver.expected + saver.stored == |db.log|)
    && (saver.phase == Announced ==> saver.stored < |saver.batch| && saver.batch[saver.stored] in db.published)
    && (saver.phase == Done ==> saver.stored == |saver.batch|)
  }

  ghost predicate SaverOk<S, P>(b: Behaviour<S, P>, id: string, db: Db<S, P>, s: nat, saver: Saver<S, P>) {
    StoredOk(db, s, saver) && AggregateOk(b, id, db, saver) && PhaseOk(db, saver)
  }

  ghost predicate Inv<S, P>(b: Behaviour<S, P>, id: string, db: Db<S, P>) {
    && LogOk(id, db)
    && (forall s :: s in db.savers ==> SaverOk(b, id, db, s, db.savers[s]))
    && (forall s, t :: s in db.savers && t in db.savers && InTx(db.savers[s]) && InTx(db.savers[t]) ==> s == t)
  }

  lemma OpenedIsHeld<S, P>(b: Behaviour<S, P>, id: string, log: seq<Event<P>>)
    requires Contiguous(log) && OwnedBy(log, id)
    ensures Opened(b, id, log) == Held(b, id, log, [])
  {
    QueryIsSlice(log, -1);
    LoadWholeLog(b, id, log);
  }

  /** The version of a session's next event, read off the contiguity of what it replayed. */
  lemma NextVersion<S, P>(b: Behaviour<S, P>, id: string, db: Db<S, P>, saver: Saver<S, P>)
    requires saver.expected <= |db.log| && saver.stored < |saver.batch|
    requires AggregateOk(b, id, db, saver) && saver.phase != Failed
    ensures saver.batch[saver.stored].version == saver.expected + saver.stored + 1
    ensures saver.batch[saver.stored].id == id
  {
    var all := db.log[..saver.expected] + saver.batch;
    assert all[saver.expected + saver.stored] == saver.batch[saver.stored];
  }

  /** The tables after a step: nothing stored, or one row at the end. */
  ghost predicate Grown<S, P>(db: Db<S, P>, db': Db<S, P>) {
    && |db.authors| == |db.log| && |db'.authors| == |db'.log|
    && db.log <= db'.log && db.authors <= db'.authors && db.published <= db'.published
  }

  /** A session that does nothing stays right while the tables grow, unless it was about to commit. */
  lemma BystanderKeeps<S, P>(b: Behaviour<S, P>, id: string, db: Db<S, P>, db': Db<S, P>, t: nat, it: Saver<S, P>)
    requires Grown(db, db') && SaverOk(b, id, db, t, it)
    requires |db'.log| > |db.log| ==> !InTx(it)
    ensures SaverOk(b, id, db', t, it)
  {
    assert db'.log[..it.expected] == db.log[..it.expected];
    assert db'.log[it.expected..it.expected + it.stored] == db.log[it.expected..it.expected + it.stored];
  }

  /** It is enough to check the session that moved. */
  lemma OneMoved<S, P>(b: Behaviour<S, P>, id: string, db: Db<S, P>, db': Db<S, P>, s: nat)
    requires Inv(b, id, db) && Grown(db, db') && LogOk(id, db')
    requires s in db'.savers && SaverOk(b, id, db', s, db'.savers[s])
    requires forall t :: t != s ==> (t in db'.savers <==> t in db.savers)
    requires forall t :: t != s && t in db.savers ==> db'.savers[t] == db.savers[t]
    requires |db'.log| > |db.log| || InTx(db'.savers[s]) ==>
               forall t :: t != s && t in db.savers ==> !InTx(db.savers[t])
    ensures Inv(b, id, db')
  {
    forall t | t in db'.savers && t != s ensures SaverOk(b, id, db', t, db'.savers[t]) {
      BystanderKeeps(b, id, db, db', t, db.savers[t]);
    }
  }

  /** A committed event takes the next version, and nobody else was about to commit it. */
  lemma CommitKeeps<S, P>(b: Behaviour<S, P>, id: string, db: Db<S, P>, s: nat)
    requires Inv(b, id, db) && s in db.savers && db.savers[s].phase == Announced
    ensures Inv(b, id, Do(b, id, db, Commit(s)))
  {
    hide Contiguous, OwnedBy, Grown, LogOk, Blocked, Held, HasVersion;
    var me := db.savers[s];
    assert SaverOk(b, id, db, s, me);
    var db' := Do(b, id, db, Commit(s));
    var e := me.batch[me.stored];
    NextVersion(b, id, db, me);
    LogGrows(id, db, db', s, e);
    hide Do;
    StoredGrows(db, db', s, me);
    assert AggregateOk(b, id, db', db'.savers[s]) by {
      assert db'.log[..me.expected] == db.log[..me.expected];
    }
    OneMoved(b, id, db, db', s);
  }

  lemma LogGrows<S, P>(id: string, db: Db<S, P>, db': Db<S, P>, s: nat, e: Event<P>)
    requires LogOk(id, db) && e.version == |db.log| + 1 && e.id == id && e in db.published
    requires db'.log == db.log + [e] && db'.authors == db.authors + [s] && db'.published == db.published
    ensures LogOk(id, db') && Grown(db, db') && db'.log[..|db.log|] == db.log && |db.authors| == |db.log|
  {
  }

  lemma StoredGrows<S, P>(db: Db<S, P>, db': Db<S, P>, s: nat, me: Saver<S, P>)
    requires StoredOk(db, s, me) && me.stored < |me.batch| && me.expected + me.stored == |db.log|
    requires db'.log == db.log + [me.batch[me.stored]] && db'.authors == db.authors + [s]
    ensures StoredOk(db', s, me.(phase := Saving, stored := me.stored + 1))
  {
    assert me.batch[..me.stored + 1] == me.batch[..me.stored] + [me.batch[me.stored]];
    assert db'.log[me.expected..me.expected + me.stored + 1]
        == db.log[me.expected..me.expected + me.stored] + [me.batch[me.stored]];
  }

  /** An open transaction makes every insert of the next version wait. */
  lemma OpenTransactionBlocks<S, P>(b: Behaviour<S, P>, id: string, db: Db<S, P>, t: nat)
    requires Inv(b, id, db) && t in db.savers && InTx(db.savers[t])
    ensures Blocked(db, |db.log| + 1)
  {
    assert SaverOk(b, id, db, t, db.savers[t]);
    NextVersion(b, id, db, db.savers[t]);
  }

  /** An insert goes through only for exactly the next version, with no other transaction open. */
  lemma InsertKeeps<S, P>(b: Behaviour<S, P>, id: string, db: Db<S, P>, s: nat)
    requires Inv(b, id, db) && s in db.savers && db.savers[s].phase == Saving
        && db.savers[s].stored < |db.savers[s].batch|
    ensures Inv(b, id, Do(b, id, db, Insert(s)))
  {
    var me := db.savers[s];
    assert SaverOk(b, id, db, s, me);
    NextVersion(b, id, db, me);
    ContiguousHas(db.log, me.batch[me.stored].version);
    forall t | t in db.savers && InTx(db.savers[t]) ensures Blocked(db, |db.log| + 1) {
      OpenTransactionBlocks(b, id, db, t);
    }
    PhaseMoves(b, id, db, Insert(s));
  }

  /** How a step that stores nothing and changes no aggregate may move a session's phase. */
  ghost predicate Moves<S, P>(db: Db<S, P>, me: Saver<S, P>, phase: Phase) {
    || phase == me.phase || phase == Failed
    || (me.phase == Open && phase == Checked)
    || (me.phase == Saving && phase == InTransaction)
    || (me.phase == InTransaction && phase == Announced && me.stored < |me.batch|
        && me.batch[me.stored] in db.published)
    || (me.phase == Saving && phase == Done && me.stored >= |me.batch|)
  }

  lemma OnlyPhaseMoves<S, P>(b: Behaviour<S, P>, id: string, db: Db<S, P>, step: Step<P>)
    requires step.s in db.savers
    requires step.Check? || step.Insert? || step.Publish? || step.Return? || step.Throw?
    ensures var db' := Do(b, id, db, step);
            && db'.log == db.log && db'.authors == db.authors && db.published <= db'.published
            && step.s in db'.savers && db'.savers == db.savers[step.s := db'.savers[step.s]]
            && db'.savers[step.s] == db.savers[step.s].(phase := db'.savers[step.s].phase)
            && Moves(db', db.savers[step.s], db'.savers[step.s].phase)
  {
    hide Blocked, HasVersion, PassesCheck, Held, Flushed, AfterFlush, Applied, Opened;
    assert db.savers[step.s := db.savers[step.s]] == db.savers;
  }

  lemma MovedOk<S, P>(b: Behaviour<S, P>, id: string, db: Db<S, P>, db': Db<S, P>, s: nat, me: Saver<S, P>,
                      phase: Phase)
    requires SaverOk(b, id, db, s, me) && Moves(db', me, phase)
    requires db'.log == db.log && db'.authors == db.authors && db.published <= db'.published
    requires InTx(me.(phase := phase)) && !InTx(me) ==> me.stored < |me.batch| && me.expected + me.stored == |db.log|
    ensures SaverOk(b, id, db', s, me.(phase := phase))
  {
    hide Held, Contiguous, OwnedBy, OwnChanges;
  }

  /** A step that stores nothing, changes no aggregate and opens a transaction only for the next version. */
  lemma PhaseMoves<S, P>(b: Behaviour<S, P>, id: string, db: Db<S, P>, step: Step<P>)
    requires Inv(b, id, db) && step.s in db.savers
    requires step.Check? || step.Insert? || step.Publish? || step.Return? || step.Throw?
    requires InTx(Do(b, id, db, step).savers[step.s]) && !InTx(db.savers[step.s]) ==>
               && db.savers[step.s].stored < |db.savers[step.s].batch|
               && db.savers[step.s].expected + db.savers[step.s].stored == |db.log|
               && forall t :: t in db.savers ==> !InTx(db.savers[t])
    ensures Inv(b, id, Do(b, id, db, step))
  {
    hide Do, SaverOk, Contiguous, OwnedBy, Moves;
    OnlyPhaseMoves(b, id, db, step);
    var s, db' := step.s, Do(b, id, db, step);
    MovedOk(b, id, db, db', s, db.savers[s], db'.savers[s].phase);
    OneMoved(b, id, db, db', s);
  }

  /** A session enters holding exactly the log there is. */
  lemma LoadKeeps<S, P>(b: Behaviour<S, P>, id: string, db: Db<S, P>, s: nat)
    requires Inv(b, id, db) && s !in db.savers
    ensures Inv(b, id, Do(b, id, db, Load(s)))
  {
    var db' := Do(b, id, db, Load(s));
    OpenedIsHeld(b, id, db.log);
    assert db.log[..|db.log|] == db.log;
    assert SaverOk(b, id, db', s, db'.savers[s]);
    OneMoved(b, id, db, db', s);
  }

  lemma ChangeKeeps<S, P>(b: Behaviour<S, P>, id: string, db: Db<S, P>, s: nat, e: Event<P>)
    requires Inv(b, id, db) && s in db.savers
    ensures Inv(b, id, Do(b, id, db, Change(s, e)))
  {
    hide Held, Applied, Contiguous, OwnedBy;
    var me, db' := db.savers[s], Do(b, id, db, Change(s, e));
    if db' != db {
      assert SaverOk(b, id, db, s, me);
      AppliedToHeld(b, id, db.log[..me.expected], me.agg.changes, e);
      AppliedChanges(b, me.agg, e);
      hide Do;
      assert SaverOk(b, id, db', s, me.(agg := Applied(b, me.agg, e)));
      hide SaverOk;
      OneMoved(b, id, db, db', s);
    }
  }

  lemma AppliedChanges<S, P>(b: Behaviour<S, P>, a: Agg<S, P>, e: Event<P>)
    ensures Applied(b, a, e).changes == a.changes + [e]
  {
  }

  lemma PrefixOk<P>(log: seq<Event<P>>, id: string, v: nat)
    requires Contiguous(log) && OwnedBy(log, id) && v <= |log|
    ensures Contiguous(log[..v]) && OwnedBy(log[..v], id)
  {
  }

  lemma FlushKeeps<S, P>(b: Behaviour<S, P>, id: string, db: Db<S, P>, s: nat)
    requires id != "" && Inv(b, id, db) && s in db.savers && db.savers[s].phase == Checked
    ensures Inv(b, id, Do(b, id, db, Flush(s)))
  {
    hide Held, Flushed, AfterFlush, Contiguous, OwnedBy;
    var me, db' := db.savers[s], Do(b, id, db, Flush(s));
    assert SaverOk(b, id, db, s, me);
    PrefixOk(db.log, id, me.expected);
    FlushExtendsLog(b, id, db.log[..me.expected], me.agg.changes);
    hide Do;
    var flushed := me.(phase := Saving, agg := AfterFlush(me.agg), batch := Flushed(me.agg));
    assert db' == Put(db, s, flushed);
    assert SaverOk(b, id, db', s, flushed);
    hide SaverOk;
    OneMoved(b, id, db, db', s);
  }

  /** Safety over every run: whatever the interleaving, the log is versions 1..N of this aggregate, every
      row was published first, and each session's part of it is a prefix of its batch. */
  lemma {:induction false} AlwaysSafe<S, P>(b: Behaviour<S, P>, id: string, steps: seq<Step<P>>)
    requires id != ""
    ensures Inv(b, id, Run(b, id, steps))
  {
    if |steps| != 0 {
      var db, step := Run(b, id, steps[..|steps| - 1]), steps[|steps| - 1];
      AlwaysSafe(b, id, steps[..|steps| - 1]);
      StepKeeps(b, id, db, step);
    }
  }

  lemma {:induction false} StepKeeps<S, P>(b: Behaviour<S, P>, id: string, db: Db<S, P>, step: Step<P>)
    requires id != "" && Inv(b, id, db)
    ensures Inv(b, id, Do(b, id, db, step))
  {
    hide Inv;
    if step.s !in db.savers {
      if step.Load? { LoadKeeps(b, id, db, step.s); }
    } else {
      var me := db.savers[step.s];
      match step
      case Load(_) =>
      case Change(s, e) => ChangeKeeps(b, id, db, s, e);
      case Flush(s) => if me.phase == Checked { FlushKeeps(b, id, db, s); }
      case Insert(s) => if me.phase == Saving && me.stored < |me.batch| { InsertKeeps(b, id, db, s); }
      case Commit(s) => if me.phase == Announced { CommitKeeps(b, id, db, s); }
      case _ => PhaseMoves(b, id, db, step);
    }
  }

  /** Of the sessions that loaded the same version at most one ever commits an event. */
  lemma {:induction false} AtMostOneWinner<S, P>(b: Behaviour<S, P>, id: string, steps: seq<Step<P>>, s: nat, t: nat)
    requires id != ""
    ensures var db := Run(b, id, steps);
            s in db.savers && t in db.savers && s != t && db.savers[s].expected == db.savers[t].expected ==>
              db.savers[s].stored == 0 || db.savers[t].stored == 0
  {
    hide Run, Held, Contiguous, OwnedBy;
    AlwaysSafe(b, id, steps);
    var db := Run(b, id, steps);
    if s in db.savers && t in db.savers && s != t {
      assert StoredOk(db, s, db.savers[s]) && StoredOk(db, t, db.savers[t]) by {
        assert SaverOk(b, id, db, s, db.savers[s]) && SaverOk(b, id, db, t, db.savers[t]);
      }
      var v := db.savers[s].expected;
      assert db.savers[s].stored > 0 ==> db.authors[v] == s;
    }
  }

  /** A session whose commit returned holds the replay of the log up to its own last event, and its
      batch is the part of the log after the version it loaded. */
  lemma {:induction false} ReturnedHoldsReplay<S, P>(b: Behaviour<S, P>, id: string, steps: seq<Step<P>>, s: nat)
    requires id != ""
    ensures var db := Run(b, id, steps);
            s in db.savers && db.savers[s].phase == Done ==>
              var me := db.savers[s];
              var last := me.expected + |me.batch|;
              && last <= |db.log|
              && db.log[me.expected..last] == me.batch
              && me.agg == Held(b, id, db.log[..last], [])
              && me.agg.state == Replay(b, db.log[..last])
  {
    hide Run, Inv, Held, Fold;
    AlwaysSafe(b, id, steps);
    var db := Run(b, id, steps);
    if s in db.savers && db.savers[s].phase == Done {
      DoneHolds(b, id, db, s);
    }
  }

  lemma DoneHolds<S, P>(b: Behaviour<S, P>, id: string, db: Db<S, P>, s: nat)
    requires Inv(b, id, db) && s in db.savers && db.savers[s].phase == Done
    ensures var me := db.savers[s];
            var last := me.expected + |me.batch|;
            && last <= |db.log| && db.log[me.expected..last] == me.batch
            && me.agg == Held(b, id, db.log[..last], []) && me.agg.state == Replay(b, db.log[..last])
  {
    hide Contiguous, OwnedBy;
    var me := db.savers[s];
    assert SaverOk(b, id, db, s, me);
    assert me.batch[..|me.batch|] == me.batch;
    assert db.log[..me.expected + |me.batch|] == db.log[..me.expected] + me.batch;
  }

  /** However a session ends, what it committed is a prefix of its batch, each event of it published
      before it was committed. */
  lemma {:induction false} CommitsPublishedPrefix<S, P>(b: Behaviour<S, P>, id: string, steps: seq<Step<P>>, s: nat)
    requires id != ""
    ensures var db := Run(b, id, steps);
            s in db.savers ==>
              var me := db.savers[s];
              && me.stored <= |me.batch| && me.expected + me.stored <= |db.log|
              && db.log[me.expected..me.expected + me.stored] == me.batch[..me.stored]
              && (forall i :: 0 <= i < me.stored ==> me.batch[i] in db.published)
              && (me.phase == Done ==> me.stored == |me.batch|)
  {
    hide Run;
    AlwaysSafe(b, id, steps);
    var db := Run(b, id, steps);
    if s in db.savers {
      StoredPrefix(b, id, db, s);
    }
  }

  lemma StoredPrefix<S, P>(b: Behaviour<S, P>, id: string, db: Db<S, P>, s: nat)
    requires Inv(b, id, db) && s in db.savers
    ensures var me := db.savers[s];
            && StoredOk(db, s, me) && PhaseOk(db, me)
            && forall i :: 0 <= i < me.stored ==> me.batch[i] in db.published
  {
    hide AggregateOk, Contiguous, OwnedBy, Held, InTx;
    var me := db.savers[s];
    assert SaverOk(b, id, db, s, me);
    forall i | 0 <= i < me.stored ensures me.batch[i] in db.published {
      assert me.batch[..me.stored][i] == db.log[me.expected..me.expected + me.stored][i] == db.log[me.expected + i];
    }
  }

  // ---- an undisturbed save ----------------------------------------------------------------

  function DoAll<S, P>(b: Behaviour<S, P>, id: string, db: Db<S, P>, steps: seq<Step<P>>): Db<S, P> {
    if |steps| == 0 then db else Do(b, id, DoAll(b, id, db, steps[..|steps| - 1]), steps[|steps| - 1])
  }

  lemma DoThen<S, P>(b: Behaviour<S, P>, id: string, db: Db<S, P>, steps: seq<Step<P>>, step: Step<P>)
    ensures DoAll(b, id, db, steps + [step]) == Do(b, id, DoAll(b, id, db, steps), step)
  {
    assert (steps + [step])[..|steps|] == steps;
  }

  /** Check, flush, and the transactions of the first `n` events. */
  function StoreSteps<P>(s: nat, n: nat): seq<Step<P>> {
    if n == 0 then [Check(s)] + [Flush(s)] else StoreSteps(s, n - 1) + [Insert(s)] + [Publish(s)] + [Commit(s)]
  }

  /** How the save ends after `n` events: it returns, or the next transaction throws as `fault` says. */
  function EndSteps<P>(s: nat, fault: Fault): seq<Step<P>> {
    match fault
    case NoFault => [Return(s)]
    case InsertThrows => [Throw(s)]
    case PublishThrows => [Insert(s)] + [Throw(s)]
    case CommitThrows => [Insert(s)] + [Publish(s)] + [Throw(s)]
  }

  /** Nobody but `s` has a transaction open. */
  ghost predicate Alone<S, P>(db: Db<S, P>, s: nat) {
    forall t :: t in db.savers && t != s ==> !InTx(db.savers[t])
  }

  lemma StaysAlone<S, P>(b: Behaviour<S, P>, id: string, db: Db<S, P>, step: Step<P>)
    requires step.s in db.savers && Alone(db, step.s)
    ensures Alone(Do(b, id, db, step), step.s)
  {
    hide Held, Applied, Flushed, AfterFlush, Blocked, HasVersion, PassesCheck, InTx;
    var db' := Do(b, id, db, step);
    assert forall t :: t != step.s ==> (t in db'.savers <==> t in db.savers);
    assert forall t :: t != step.s && t in db.savers ==> db'.savers[t] == db.savers[t];
  }

  /** Session `s` has stored what it has stored, right after the version it loaded, and is between transactions. */
  ghost predicate Between<S, P>(b: Behaviour<S, P>, id: string, log: seq<Event<P>>, db: Db<S, P>, s: nat,
                                batch: seq<Event<P>>, n: nat) {
    && Inv(b, id, db) && Alone(db, s) && n <= |batch| && db.log == log + batch[..n]
    && s in db.savers && db.savers[s].phase == Saving && db.savers[s].batch == batch && db.savers[s].stored == n
    && db.savers[s].expected == |log|
  }

  /** Nobody else being at work, an insert gets its key. */
  lemma Inserted<S, P>(b: Behaviour<S, P>, id: string, db: Db<S, P>, s: nat)
    requires Inv(b, id, db) && Alone(db, s) && s in db.savers && db.savers[s].phase == Saving
    requires db.savers[s].stored < |db.savers[s].batch| && db.savers[s].expected + db.savers[s].stored == |db.log|
    ensures Do(b, id, db, Insert(s)) == Put(db, s, db.savers[s].(phase := InTransaction))
  {
    var me := db.savers[s];
    assert SaverOk(b, id, db, s, me);
    NextVersion(b, id, db, me);
    ContiguousHas(db.log, me.batch[me.stored].version);
    hide Inv, SaverOk, Contiguous, OwnedBy, HasVersion;
    assert !Blocked(db, me.batch[me.stored].version);
  }

  lemma PublishedAndCommitted<S, P>(b: Behaviour<S, P>, id: string, db: Db<S, P>, s: nat)
    requires s in db.savers && db.savers[s].phase == InTransaction && db.savers[s].stored < |db.savers[s].batch|
    ensures var me := db.savers[s];
            var db' := Do(b, id, Do(b, id, db, Publish(s)), Commit(s));
            && db'.log == db.log + [me.batch[me.stored]]
            && s in db'.savers && db'.savers[s] == me.(phase := Saving, stored := me.stored + 1)
  {
    hide Blocked, HasVersion, PassesCheck, Held, Flushed, AfterFlush, Applied;
    var me, d1 := db.savers[s], Do(b, id, db, Publish(s));
    assert s in d1.savers && d1.savers[s] == me.(phase := Announced) && d1.log == db.log;
  }

  lemma OneStored<S, P>(b: Behaviour<S, P>, id: string, log: seq<Event<P>>, db: Db<S, P>, s: nat, batch: seq<Event<P>>,
                        n: nat)
    requires id != "" && Between(b, id, log, db, s, batch, n) && n < |batch|
    ensures Between(b, id, log, Do(b, id, Do(b, id, Do(b, id, db, Insert(s)), Publish(s)), Commit(s)), s, batch, n + 1)
  {
    hide Inv, Alone, Do;
    Inserted(b, id, db, s);
    ThreeKeep(b, id, db, s);
    PublishedAndCommitted(b, id, Put(db, s, db.savers[s].(phase := InTransaction)), s);
    assert batch[..n + 1] == batch[..n] + [batch[n]];
    assert log + batch[..n] + [batch[n]] == log + (batch[..n] + [batch[n]]);
  }

  lemma ThreeKeep<S, P>(b: Behaviour<S, P>, id: string, db: Db<S, P>, s: nat)
    requires id != "" && Inv(b, id, db) && Alone(db, s) && s in db.savers
    ensures var db' := Do(b, id, Do(b, id, Do(b, id, db, Insert(s)), Publish(s)), Commit(s));
            Inv(b, id, db') && Alone(db', s)
  {
    hide Inv, Alone;
    StepKeeps(b, id, db, Insert(s));
    StaysAlone(b, id, db, Insert(s));
    var d1 := Do(b, id, db, Insert(s));
    Present(b, id, db, Insert(s));
    StepKeeps(b, id, d1, Publish(s));
    StaysAlone(b, id, d1, Publish(s));
    var d2 := Do(b, id, d1, Publish(s));
    Present(b, id, d1, Publish(s));
    hide Do;
    StepKeeps(b, id, d2, Commit(s));
    StaysAlone(b, id, d2, Commit(s));
  }

  lemma Present<S, P>(b: Behaviour<S, P>, id: string, db: Db<S, P>, step: Step<P>)
    requires step.s in db.savers
    ensures step.s in Do(b, id, db, step).savers
  {
    hide Held, Applied, Flushed, AfterFlush, Blocked, HasVersion, PassesCheck;
  }

  lemma {:induction false} StoredSoFar<S, P>(b: Behaviour<S, P>, id: string, db: Db<S, P>, s: nat, n: nat)
    requires id != "" && Inv(b, id, db) && Alone(db, s) && s in db.savers && db.savers[s].phase == Open
    requires PassesCheck(db.log, Some(db.savers[s].expected)) && n <= |Flushed(db.savers[s].agg)|
    ensures Between(b, id, db.log, DoAll(b, id, db, StoreSteps(s, n)), s, Flushed(db.savers[s].agg), n)
  {
    hide Inv, Alone, Between, PassesCheck, Flushed, Do;
    var batch := Flushed(db.savers[s].agg);
    if n == 0 {
      DoThen(b, id, db, [], Check(s));
      DoThen(b, id, db, [] + [Check(s)], Flush(s));
      assert [] + [Check(s)] + [Flush(s)] == StoreSteps<P>(s, 0);
      assert DoAll(b, id, db, []) == db;
      hide DoAll;
      Flushes(b, id, db, s);
    } else {
      StoredSoFar(b, id, db, s, n - 1);
      var front := StoreSteps<P>(s, n - 1);
      DoThen(b, id, db, front, Insert(s));
      DoThen(b, id, db, front + [Insert(s)], Publish(s));
      DoThen(b, id, db, front + [Insert(s)] + [Publish(s)], Commit(s));
      assert StoreSteps<P>(s, n) == front + [Insert(s)] + [Publish(s)] + [Commit(s)];
      hide DoAll, StoreSteps;
      OneStored(b, id, db.log, DoAll(b, id, db, front), s, batch, n - 1);
    }
  }

  /** A version check that passes says that nothing was stored since the load. */
  lemma NothingSince<S, P>(b: Behaviour<S, P>, id: string, db: Db<S, P>, s: nat)
    requires Inv(b, id, db) && s in db.savers && db.savers[s].phase == Open
    requires PassesCheck(db.log, Some(db.savers[s].expected))
    ensures var me := db.savers[s];
            && me.expected == |db.log| && me.stored == 0 && Contiguous(db.log) && OwnedBy(db.log, id)
            && me.agg == Held(b, id, db.log, me.agg.changes) && OwnChanges(me.agg.changes, id)
  {
    var me := db.savers[s];
    assert SaverOk(b, id, db, s, me);
    QueryIsSlice(db.log, me.expected);
    hide Query, Held, Contiguous, OwnedBy;
    assert me.expected == |db.log|;
    assert db.log[..me.expected] == db.log;
  }

  lemma Flushes<S, P>(b: Behaviour<S, P>, id: string, db: Db<S, P>, s: nat)
    requires id != "" && Inv(b, id, db) && Alone(db, s) && s in db.savers && db.savers[s].phase == Open
    requires PassesCheck(db.log, Some(db.savers[s].expected))
    ensures Between(b, id, db.log, Do(b, id, Do(b, id, db, Check(s)), Flush(s)), s, Flushed(db.savers[s].agg), 0)
  {
    hide Inv, Alone, PassesCheck, Contiguous, OwnedBy, Held, Flushed, AfterFlush, OwnChanges, Do;
    var me, d1 := db.savers[s], Do(b, id, db, Check(s));
    NothingSince(b, id, db, s);
    CheckedAndFlushed(b, id, db, s);
    StepKeeps(b, id, db, Check(s));
    StaysAlone(b, id, db, Check(s));
    StepKeeps(b, id, d1, Flush(s));
    StaysAlone(b, id, d1, Flush(s));
    assert Flushed(me.agg)[..0] == [] && db.log + [] == db.log;
  }

  lemma CheckedAndFlushed<S, P>(b: Behaviour<S, P>, id: string, db: Db<S, P>, s: nat)
    requires s in db.savers && db.savers[s].phase == Open && PassesCheck(db.log, Some(db.savers[s].expected))
    ensures var me, d1 := db.savers[s], Do(b, id, db, Check(s));
            var d2 := Do(b, id, d1, Flush(s));
            && s in d1.savers && d2.log == db.log && s in d2.savers
            && d2.savers[s] == me.(phase := Saving, agg := AfterFlush(me.agg), batch := Flushed(me.agg))
  {
    hide PassesCheck, Flushed, AfterFlush, Blocked, HasVersion, Applied, Held;
    var d1 := Do(b, id, db, Check(s));
    assert s in d1.savers && d1.savers[s] == db.savers[s].(phase := Checked) && d1.log == db.log;
  }

  lemma Fails<S, P>(b: Behaviour<S, P>, id: string, db: Db<S, P>, s: nat)
    requires s in db.savers && db.savers[s].phase != Done
    ensures var db' := Do(b, id, db, Throw(s)); db'.log == db.log && s in db'.savers && db'.savers[s].phase == Failed
  {
    hide Held, Applied, Flushed, AfterFlush, Blocked, HasVersion, PassesCheck;
  }

  lemma NotStoredYet<S, P>(b: Behaviour<S, P>, id: string, db: Db<S, P>, step: Step<P>)
    requires (step.Insert? || step.Publish?) && step.s in db.savers && db.savers[step.s].phase != Done
    ensures var db' := Do(b, id, db, step);
            db'.log == db.log && step.s in db'.savers && db'.savers[step.s].phase != Done
  {
    hide Held, Applied, Flushed, AfterFlush, Blocked, HasVersion, PassesCheck;
  }

  /** However the next transaction throws, nothing more is stored. */
  lemma EndsFailed<S, P>(b: Behaviour<S, P>, id: string, db: Db<S, P>, s: nat, fault: Fault)
    requires s in db.savers && db.savers[s].phase == Saving && fault != NoFault
    ensures var after := DoAll(b, id, db, EndSteps(s, fault));
            after.log == db.log && s in after.savers && after.savers[s].phase == Failed
  {
    hide Do;
    assert DoAll(b, id, db, []) == db;
    if fault == InsertThrows {
      DoThen(b, id, db, [], Throw(s));
      assert [] + [Throw(s)] == EndSteps<P>(s, fault);
      hide DoAll;
      Fails(b, id, db, s);
    } else {
      var d1 := Do(b, id, db, Insert(s));
      NotStoredYet(b, id, db, Insert(s));
      DoThen(b, id, db, [], Insert(s));
      var insert: seq<Step<P>> := [Insert(s)];
      assert [] + insert == insert;
      if fault == PublishThrows {
        DoThen(b, id, db, [Insert(s)], Throw(s));
        hide DoAll;
        Fails(b, id, d1, s);
      } else {
        DoThen(b, id, db, [Insert(s)], Publish(s));
        DoThen(b, id, db, [Insert(s)] + [Publish(s)], Throw(s));
        hide DoAll;
        NotStoredYet(b, id, d1, Publish(s));
        Fails(b, id, Do(b, id, d1, Publish(s)), s);
      }
    }
  }

  lemma EndsDone<S, P>(b: Behaviour<S, P>, id: string, db: Db<S, P>, s: nat)
    requires s in db.savers && db.savers[s].phase == Saving && db.savers[s].stored == |db.savers[s].batch|
    ensures var after := DoAll(b, id, db, EndSteps(s, NoFault));
            after.log == db.log && s in after.savers && after.savers[s].phase == Done
  {
    hide Held, Applied, Flushed, AfterFlush, Blocked, HasVersion, PassesCheck;
    DoThen(b, id, db, [], Return(s));
    assert [] + [Return(s)] == EndSteps<P>(s, NoFault) && DoAll(b, id, db, []) == db;
    hide DoAll;
  }

  /** What `Repository.SaveAsync` promises of the log is what the steps of one save come to when nobody else takes
      any: `n` is the first event whose transaction throws, or the whole batch. */
  lemma {:induction false} SaveIsARun<S, P>(b: Behaviour<S, P>, id: string, db: Db<S, P>, s: nat, faults: nat -> Fault,
                                            n: nat)
    requires id != "" && Inv(b, id, db) && Alone(db, s) && s in db.savers && db.savers[s].phase == Open
    requires PassesCheck(db.log, Some(db.savers[s].expected))
    requires n <= |db.savers[s].agg.changes| && (forall j :: 0 <= j < n ==> faults(j) == NoFault)
    requires n < |db.savers[s].agg.changes| ==> faults(n) != NoFault
    ensures var me := db.savers[s];
            var fault := if n < |me.agg.changes| then faults(n) else NoFault;
            var after := DoAll(b, id, DoAll(b, id, db, StoreSteps(s, n)), EndSteps(s, fault));
            s in after.savers
            && SavedAs(map[id := db.log], id, me.agg, Some(me.expected), faults, after.log,
                       after.savers[s].phase == Done)
  {
    var me := db.savers[s];
    var stored := DoAll(b, id, db, StoreSteps(s, n));
    StoredSoFar(b, id, db, s, n);
    if n < |me.agg.changes| {
      EndsFailed(b, id, stored, s, faults(n));
    } else {
      EndsDone(b, id, stored, s);
    }
    StoredExactly(b, id, db, s, faults, n);
    hide DoAll, Inv, StoreSteps, EndSteps, StoresExactly, PassesCheck, CanFlush;
  }

  /** And a save whose check does not pass stores nothing. */
  lemma RefusedIsARun<S, P>(b: Behaviour<S, P>, id: string, db: Db<S, P>, s: nat, faults: nat -> Fault)
    requires s in db.savers && db.savers[s].phase == Open && !PassesCheck(db.log, Some(db.savers[s].expected))
    ensures var me, after := db.savers[s], Do(b, id, db, Check(s));
            && s in after.savers && after.savers[s].phase == Failed && after.log == db.log
            && SavedAs(map[id := db.log], id, me.agg, Some(me.expected), faults, after.log,
                       after.savers[s].phase == Done)
  {
  }

  lemma StoredExactly<S, P>(b: Behaviour<S, P>, id: string, db: Db<S, P>, s: nat, faults: nat -> Fault, n: nat)
    requires id != "" && Inv(b, id, db) && s in db.savers && db.savers[s].phase == Open
    requires PassesCheck(db.log, Some(db.savers[s].expected))
    requires n <= |db.savers[s].agg.changes| && (forall j :: 0 <= j < n ==> faults(j) == NoFault)
    requires n < |db.savers[s].agg.changes| ==> faults(n) != NoFault
    ensures CanFlush(db.savers[s].agg) && StoresExactly(map[id := db.log], Flushed(db.savers[s].agg), faults, n)
  {
    var me := db.savers[s];
    NothingSince(b, id, db, s);
    hide Inv, PassesCheck;
    FlushExtendsLog(b, id, db.log, me.agg.changes);
    var batch := Flushed(me.agg);
    OwnedTail(db.log, batch, id);
    hide Held, Contiguous, OwnedBy, Flushed, StoresExactly, OwnChanges;
    ContinuationStored(map[id := db.log], id, batch, faults, n);
  }

  lemma OwnedTail<P>(log: seq<Event<P>>, batch: seq<Event<P>>, id: string)
    requires OwnedBy(log + batch, id)
    ensures OwnedBy(batch, id)
  {
    forall i | 0 <= i < |batch| ensures batch[i].id == id {
      assert (log + batch)[|log| + i] == batch[i];
    }
  }

  /** A session that loads and changes the aggregate holds the replay of the whole log and its one change, and is open
      at the version of the log; nobody else notices. */
  lemma {:induction false} OpenIsARun<S, P>(b: Behaviour<S, P>, id: string, db: Db<S, P>, s: nat, e: Event<P>)
    requires Inv(b, id, db) && s !in db.savers && (e.id == "" || e.id == id)
    ensures Do(b, id, Do(b, id, db, Load(s)), Change(s, e))
            == db.(savers := db.savers[s := Saver(Open, Held(b, id, db.log, [e]), |db.log|, [], 0)])
  {
    hide Opened, Held, Applied, Blocked, HasVersion, PassesCheck, Flushed, AfterFlush, SaverOk;
    OpenedIsHeld(b, id, db.log);
    HeldAt(b, id, db.log);
    AppliedToHeld(b, id, db.log, [], e);
    assert [] + [e] == [e];
    var loaded := Do(b, id, db, Load(s));
    assert loaded == Put(db, s, Saver(Open, Held(b, id, db.log, []), |db.log|, [], 0));
    assert loaded.savers[s := Saver(Open, Held(b, id, db.log, [e]), |db.log|, [], 0)]
        == db.savers[s := Saver(Open, Held(b, id, db.log, [e]), |db.log|, [], 0)];
  }

  lemma HeldAt<S, P>(b: Behaviour<S, P>, id: string, log: seq<Event<P>>)
    ensures Held(b, id, log, []).version == |log|
  {
  }
}
