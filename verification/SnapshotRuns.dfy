/** Any number of saves of one aggregate side by side, the snapshot of each interleaved in every way with its
    own flush and appends and with the other saves. */
module SnapshotRuns {
  import opened Outcomes
  import opened Aggregates
  import opened EventLogs
  import opened SqlStore
  import opened Snapshots
  import opened SnapshotStrategy

  datatype Verdict = Undecided | Yes | No

  /** A save: `from` is the version it loaded, `stored` how much of `batch` is in the log. `failed` ends its
      storing, as a refused check, a taken key or any exception does; its snapshot goes on regardless. */
  datatype Save<S, T, P> = Save(from: nat, agg: Agg<S, P>, flushed: bool, batch: seq<Event<P>>, stored: nat,
                                failed: bool, verdict: Verdict, taken: Option<Snapshot<T>>, written: bool)

  /** `author` is the save that wrote the stored snapshot. */
  datatype World<S, T, P> = World(log: seq<Event<P>>, snapshot: Option<Snapshot<T>>, author: nat,
                                  saves: map<nat, Save<S, T, P>>)

  datatype Step<P> =
    | Start(s: nat, changes: seq<Event<P>>)   // get, change, begin to save
    | Decide(s: nat, yes: bool)
    | Take(s: nat)
    | Write(s: nat)                           // over whatever snapshot is stored
    | Flush(s: nat)
    | Append(s: nat)                          // the transaction of one event
    | Fail(s: nat)

  /** Everything fixed over a run. `interval` is None for an arbitrary snapshot strategy, otherwise the
      default one decides, and before the flush. */
  datatype Setting<!S, !T, !P> = Setting(b: Behaviour<S, P>, k: Keeper<S, T>, id: string, interval: Option<nat>)

  function ApplyAll<S, P>(b: Behaviour<S, P>, a: Agg<S, P>, changes: seq<Event<P>>): Agg<S, P>
    decreases |changes|
  {
    if |changes| == 0 then a else ApplyAll(b, Applied(b, a, changes[0]), changes[1..])
  }

  /** What a session works on: the aggregate a get returns, or a blank one under its id. */
  function Opened<S, T, P>(c: Setting<S, T, P>, w: World<S, T, P>): Option<Agg<S, P>> {
    match SnapshotGet(c.b, c.k, w.log, w.snapshot)
    case Success(Some(a)) => Some(a)
    case Success(None) => Some(Held(c.b, c.id, [], []))
    case Failure(_) => None
  }

  predicate MayAnswer<S, T, P>(c: Setting<S, T, P>, w: World<S, T, P>, me: Save<S, T, P>, yes: bool) {
    c.interval.Some? ==>
      && c.interval.value > 0 && !me.flushed && me.agg.version >= 0
      && yes == Due(me.agg.version, |me.agg.changes|, c.interval.value, w.snapshot.Some?)
  }

  function Put<S, T, P>(w: World<S, T, P>, s: nat, me: Save<S, T, P>): World<S, T, P> {
    w.(saves := w.saves[s := me])
  }

  function Begun<S, T, P>(c: Setting<S, T, P>, a: Agg<S, P>, changes: seq<Event<P>>): Save<S, T, P>
    requires a.version >= 0
  {
    Save(a.version, ApplyAll(c.b, a, changes), false, [], 0, false, Undecided, None, false)
  }

  /** One step; a step that is not enabled changes nothing. */
  function Do<S, T, P>(c: Setting<S, T, P>, w: World<S, T, P>, step: Step<P>): World<S, T, P> {
    if step.Start? then
      var a := Opened(c, w);
      if step.s in w.saves || a.None? || a.value.version < 0 || !OwnChanges(step.changes, c.id) then w
      else Put(w, step.s, Begun(c, a.value, step.changes))
    else if step.s !in w.saves then w
    else
      var me := w.saves[step.s];
      match step
      case Start(_, _) => w
      case Decide(s, yes) =>
        if me.verdict != Undecided || !MayAnswer(c, w, me, yes) then w
        else Put(w, s, me.(verdict := if yes then Yes else No))
      case Take(s) =>
        if me.verdict != Yes || me.taken.Some? then w else Put(w, s, me.(taken := Some(Taken(c.k, me.agg))))
      case Write(s) =>
        if me.taken.None? || me.written then w
        else Put(w, s, me.(written := true)).(snapshot := me.taken, author := s)
      case Flush(s) =>
        if me.flushed || me.failed || !CanFlush(me.agg) || (c.interval.Some? && me.verdict == Undecided) then w
        else Put(w, s, me.(flushed := true, batch := Flushed(me.agg), agg := AfterFlush(me.agg)))
      case Append(s) =>
        if !me.flushed || me.failed || me.stored >= |me.batch| then w
        else if HasVersion(w.log, me.batch[me.stored].version) then Put(w, s, me.(failed := true))
        else Put(w, s, me.(stored := me.stored + 1)).(log := w.log + [me.batch[me.stored]])
      case Fail(s) => Put(w, s, me.(failed := true))
  }

  function Run<S, T, P>(c: Setting<S, T, P>, steps: seq<Step<P>>): World<S, T, P> {
    if |steps| == 0 then World([], None, 0, map[]) else Do(c, Run(c, steps[..|steps| - 1]), steps[|steps| - 1])
  }

  /** How many events a save is about. */
  function Total<S, T, P>(me: Save<S, T, P>): nat {
    if me.flushed then |me.batch| else |me.agg.changes|
  }

  /** Every event that the stored snapshot counts is in the log. */
  predicate Landed<S, T, P>(w: World<S, T, P>) {
    w.snapshot.Some? ==> w.author in w.saves && w.saves[w.author].stored == Total(w.saves[w.author])
  }

  /** No load meets a snapshot whose save has not stored all its events, or never will. */
  ghost predicate LoadsLanded<S, T, P>(c: Setting<S, T, P>, steps: seq<Step<P>>) {
    |steps| != 0 ==>
      && LoadsLanded(c, steps[..|steps| - 1])
      && (steps[|steps| - 1].Start? ==> Landed(Run(c, steps[..|steps| - 1])))
  }

  // ---- the invariant ----------------------------------------------------------------------

  function Full<S, T, P>(me: Save<S, T, P>): seq<Event<P>> {
    if me.flushed then me.batch else Flushed(me.agg)
  }

  /** What a save holds, and how much of it is the log right after the version it loaded. */
  ghost predicate HoldsOk<S, T, P>(c: Setting<S, T, P>, log: seq<Event<P>>, me: Save<S, T, P>)
    requires me.from <= |log|
  {
    var base := log[..me.from];
    if me.flushed then
      && me.agg == Held(c.b, c.id, base + me.batch, [])
      && Contiguous(base + me.batch) && OwnedBy(base + me.batch, c.id)
      && me.stored <= |me.batch| && me.from + me.stored <= |log|
      && log[me.from..me.from + me.stored] == me.batch[..me.stored]
    else
      && me.agg == Held(c.b, c.id, base, me.agg.changes) && OwnChanges(me.agg.changes, c.id)
      && me.batch == [] && me.stored == 0
  }

  /** Whenever it was taken, the snapshot is that of the log the save is heading for. */
  ghost predicate TakenOk<S, T, P>(c: Setting<S, T, P>, log: seq<Event<P>>, me: Save<S, T, P>)
    requires me.from <= |log|
  {
    && (me.written ==> me.taken.Some?)
    && (me.taken.Some? ==>
          && me.verdict == Yes && me.taken.value.version == me.from + Total(me)
          && GoodFor(c.b, c.k, c.id, log[..me.from] + Full(me), me.taken.value))
  }

  ghost predicate SaveOk<S, T, P>(c: Setting<S, T, P>, log: seq<Event<P>>, me: Save<S, T, P>) {
    me.from <= |log| && HoldsOk(c, log, me) && TakenOk(c, log, me)
  }

  ghost predicate Inv<S, T, P>(c: Setting<S, T, P>, w: World<S, T, P>) {
    && Contiguous(w.log) && OwnedBy(w.log, c.id)
    && (forall s :: s in w.saves ==> SaveOk(c, w.log, w.saves[s]))
    && (w.snapshot.Some? ==>
          w.author in w.saves && w.saves[w.author].written && w.snapshot == w.saves[w.author].taken)
    && (forall s :: s in w.saves && w.saves[s].written ==> w.snapshot.Some?)
  }

  /** A save that does nothing stays right while the log grows. */
  lemma BystanderKeeps<S, T, P>(c: Setting<S, T, P>, log: seq<Event<P>>, log': seq<Event<P>>, me: Save<S, T, P>)
    requires SaveOk(c, log, me) && log <= log'
    ensures SaveOk(c, log', me)
  {
    hide Held, Contiguous, OwnedBy, GoodFor, OwnChanges, Flushed;
    assert log'[..me.from] == log[..me.from];
    if me.flushed {
      assert log'[me.from..me.from + me.stored] == log[me.from..me.from + me.stored];
    }
  }

  /** It is enough to check the save that moved. */
  lemma OneMoved<S, T, P>(c: Setting<S, T, P>, w: World<S, T, P>, w': World<S, T, P>, s: nat, wrote: bool)
    requires Inv(c, w) && w.log <= w'.log && Contiguous(w'.log) && OwnedBy(w'.log, c.id)
    requires s in w'.saves && w'.saves == w.saves[s := w'.saves[s]] && SaveOk(c, w'.log, w'.saves[s])
    requires if wrote
             then w'.author == s && w'.saves[s].written && w'.snapshot == w'.saves[s].taken && w'.snapshot.Some?
             else && w'.snapshot == w.snapshot && w'.author == w.author
                  && (s in w.saves ==> w'.saves[s].written == w.saves[s].written)
                  && (s !in w.saves ==> !w'.saves[s].written)
                  && (s in w.saves && w.saves[s].written ==> w'.saves[s].taken == w.saves[s].taken)
    ensures Inv(c, w')
  {
    hide SaveOk, Contiguous, OwnedBy;
    forall t | t in w'.saves ensures SaveOk(c, w'.log, w'.saves[t]) {
      if t != s { BystanderKeeps(c, w.log, w'.log, w.saves[t]); }
    }
  }

  /** Without a snapshot a get is the load of the whole log. */
  lemma NoSnapshotGet<S, T, P>(b: Behaviour<S, P>, k: Keeper<S, T>, id: string, log: seq<Event<P>>)
    requires Contiguous(log) && OwnedBy(log, id)
    ensures SnapshotGet(b, k, log, None) == Success(if log == [] then None else Some(Held(b, id, log, [])))
  {
    hide Held, Query, Loaded;
    QueryIsSlice(log, -1);
    LoadWholeLog(b, id, log);
  }

  /** A snapshot all of whose events are in the log is the replay of as many events as its version says. */
  lemma LandedIsGood<S, T, P>(c: Setting<S, T, P>, w: World<S, T, P>)
    requires c.id != "" && Inv(c, w) && Landed(w) && w.snapshot.Some?
    ensures GoodFor(c.b, c.k, c.id, w.log, w.snapshot.value)
  {
    hide Held, Contiguous, OwnedBy, Flushed, OwnChanges, Fold;
    var me, v := w.saves[w.author], w.snapshot.value.version;
    assert SaveOk(c, w.log, me);
    FlushedLength(me.agg);
    assert |Full(me)| == Total(me);
    if me.flushed {
      assert me.batch[..me.stored] == me.batch;
      assert w.log[..v] == w.log[..me.from] + w.log[me.from..v];
    } else {
      assert Full(me) == [] && w.log[..me.from] + [] == w.log[..me.from];
    }
    assert (w.log[..me.from] + Full(me))[..v] == w.log[..v];
  }

  lemma FlushedLength<S, P>(a: Agg<S, P>)
    ensures |Flushed(a)| == |a.changes|
  {
  }

  /** A load through a landed snapshot, or without one, is the full load. */
  lemma GetWhenLanded<S(!new), T, P>(c: Setting<S, T, P>, w: World<S, T, P>)
    requires RestoreUndoesCreate(c.k) && c.id != "" && Inv(c, w) && Landed(w)
    ensures SnapshotGet(c.b, c.k, w.log, w.snapshot)
            == Success(if w.log == [] && w.snapshot.None? then None else Some(Held(c.b, c.id, w.log, [])))
  {
    hide Inv, Landed, GoodFor, Held, SnapshotGet;
    LogIsOk(c, w);
    if w.snapshot.Some? {
      LandedIsGood(c, w);
      GetFromGoodSnapshot(c.b, c.k, c.id, w.log, w.snapshot.value);
    } else {
      NoSnapshotGet(c.b, c.k, c.id, w.log);
    }
  }

  lemma LogIsOk<S, T, P>(c: Setting<S, T, P>, w: World<S, T, P>)
    requires Inv(c, w)
    ensures Contiguous(w.log) && OwnedBy(w.log, c.id)
  {
  }

  lemma {:induction false} ApplyAllHolds<S, P>(b: Behaviour<S, P>, id: string, log: seq<Event<P>>, done: seq<Event<P>>,
                                               changes: seq<Event<P>>)
    ensures ApplyAll(b, Held(b, id, log, done), changes) == Held(b, id, log, done + changes)
    decreases |changes|
  {
    if |changes| == 0 {
      assert done + changes == done;
    } else {
      AppliedToHeld(b, id, log, done, changes[0]);
      ApplyAllHolds(b, id, log, done + [changes[0]], changes[1..]);
      assert done + [changes[0]] + changes[1..] == done + changes;
    }
  }

  lemma StartKeeps<S(!new), T, P>(c: Setting<S, T, P>, w: World<S, T, P>, s: nat, changes: seq<Event<P>>)
    requires RestoreUndoesCreate(c.k) && c.id != "" && Inv(c, w) && Landed(w)
    requires s !in w.saves && OwnChanges(changes, c.id)
    ensures Inv(c, Do(c, w, Start(s, changes)))
    ensures Do(c, w, Start(s, changes)) == Put(w, s,
              Save(|w.log|, Held(c.b, c.id, w.log, changes), false, [], 0, false, Undecided, None, false))
  {
    hide SnapshotGet, Held, Landed, OwnChanges, GoodFor, Flushed, ApplyAll;
    GetWhenLanded(c, w);
    HeldAtRest(c.b, c.id, w.log);
    ApplyAllHolds(c.b, c.id, w.log, [], changes);
    assert [] + changes == changes;
    HeldChanges(c.b, c.id, w.log, changes);
    var me := Save(|w.log|, Held(c.b, c.id, w.log, changes), false, [], 0, false, Undecided, None, false);
    OpenedWhenLanded(c, w);
    assert Do(c, w, Start(s, changes)) == Put(w, s, me);
    hide Do;
    assert w.log[..|w.log|] == w.log;
    assert SaveOk(c, w.log, me);
    OneMoved(c, w, Put(w, s, me), s, false);
  }

  lemma HeldChanges<S, P>(b: Behaviour<S, P>, id: string, log: seq<Event<P>>, changes: seq<Event<P>>)
    ensures Held(b, id, log, changes).changes == changes && Held(b, id, log, changes).version == |log|
  {
  }

  lemma OpenedWhenLanded<S(!new), T, P>(c: Setting<S, T, P>, w: World<S, T, P>)
    requires SnapshotGet(c.b, c.k, w.log, w.snapshot)
             == Success(if w.log == [] && w.snapshot.None? then None else Some(Held(c.b, c.id, w.log, [])))
    ensures Opened(c, w) == Some(Held(c.b, c.id, w.log, []))
  {
    hide SnapshotGet;
  }

  lemma DecideKeeps<S, T, P>(c: Setting<S, T, P>, w: World<S, T, P>, s: nat, yes: bool)
    requires Inv(c, w) && s in w.saves
    ensures Inv(c, Do(c, w, Decide(s, yes)))
  {
    hide Held, Contiguous, OwnedBy, GoodFor, Flushed, OwnChanges, MayAnswer;
    var w' := Do(c, w, Decide(s, yes));
    if w' != w {
      assert SaveOk(c, w.log, w.saves[s]);
      OneMoved(c, w, w', s, false);
    }
  }

  lemma FailKeeps<S, T, P>(c: Setting<S, T, P>, w: World<S, T, P>, s: nat)
    requires Inv(c, w) && s in w.saves
    ensures Inv(c, Do(c, w, Fail(s)))
  {
    hide Held, Contiguous, OwnedBy, GoodFor, Flushed, OwnChanges;
    assert SaveOk(c, w.log, w.saves[s]);
    OneMoved(c, w, Do(c, w, Fail(s)), s, false);
  }

  lemma WriteKeeps<S, T, P>(c: Setting<S, T, P>, w: World<S, T, P>, s: nat)
    requires Inv(c, w) && s in w.saves
    ensures Inv(c, Do(c, w, Write(s)))
  {
    hide Held, Contiguous, OwnedBy, GoodFor, Flushed, OwnChanges;
    var w' := Do(c, w, Write(s));
    if w' != w {
      assert SaveOk(c, w.log, w.saves[s]);
      OneMoved(c, w, w', s, true);
    }
  }

  /** Flushed or not, what it takes is the snapshot of the log it is heading for. */
  lemma TakenIsGood<S, T, P>(c: Setting<S, T, P>, log: seq<Event<P>>, me: Save<S, T, P>)
    requires c.id != "" && Contiguous(log) && OwnedBy(log, c.id) && me.from <= |log| && HoldsOk(c, log, me)
    ensures var t := Taken(c.k, me.agg);
            t.version == me.from + Total(me) && GoodFor(c.b, c.k, c.id, log[..me.from] + Full(me), t)
  {
    hide Held, GoodFor, Flushed, Taken, Contiguous, OwnedBy;
    var base := log[..me.from];
    BaseOk(log, c.id, me.from);
    NothingPending<P>(c.id);
    if me.flushed {
      TakenEitherSideOfFlush(c.b, c.k, c.id, base + me.batch, []);
      NothingFlushed(c.b, c.id, base + me.batch);
      assert base + me.batch + [] == base + me.batch;
      TakenVersion(c.b, c.k, c.id, base + me.batch, []);
    } else {
      TakenEitherSideOfFlush(c.b, c.k, c.id, base, me.agg.changes);
      TakenVersion(c.b, c.k, c.id, base, me.agg.changes);
    }
  }

  lemma BaseOk<P>(log: seq<Event<P>>, id: string, v: nat)
    requires Contiguous(log) && OwnedBy(log, id) && v <= |log|
    ensures Contiguous(log[..v]) && OwnedBy(log[..v], id)
  {
  }

  lemma NothingPending<P>(id: string)
    ensures OwnChanges<P>([], id)
  {
  }

  lemma NothingFlushed<S, P>(b: Behaviour<S, P>, id: string, log: seq<Event<P>>)
    ensures Flushed(Held(b, id, log, [])) == []
  {
  }

  lemma TakenVersion<S, T, P>(b: Behaviour<S, P>, k: Keeper<S, T>, id: string, log: seq<Event<P>>,
                              changes: seq<Event<P>>)
    ensures Taken(k, Held(b, id, log, changes)).version == |log| + |changes|
  {
  }

  lemma TakeKeeps<S, T, P>(c: Setting<S, T, P>, w: World<S, T, P>, s: nat)
    requires c.id != "" && Inv(c, w) && s in w.saves
    ensures Inv(c, Do(c, w, Take(s)))
  {
    hide Held, Contiguous, OwnedBy, GoodFor, Flushed, OwnChanges, Taken;
    var me, w' := w.saves[s], Do(c, w, Take(s));
    if w' != w {
      assert SaveOk(c, w.log, me);
      TakenIsGood(c, w.log, me);
      hide HoldsOk;
      assert HoldsOk(c, w.log, w'.saves[s]) by { SameHold(c, w.log, me, w'.saves[s]); }
      OneMoved(c, w, w', s, false);
    }
  }

  lemma SameHold<S, T, P>(c: Setting<S, T, P>, log: seq<Event<P>>, me: Save<S, T, P>, me': Save<S, T, P>)
    requires me.from <= |log| && HoldsOk(c, log, me)
    requires me'.from == me.from && me'.flushed == me.flushed && me'.agg == me.agg
    requires me'.batch == me.batch && me'.stored == me.stored
    ensures HoldsOk(c, log, me')
  {
    hide Held, Contiguous, OwnedBy, OwnChanges;
  }

  lemma FlushKeeps<S, T, P>(c: Setting<S, T, P>, w: World<S, T, P>, s: nat)
    requires c.id != "" && Inv(c, w) && s in w.saves
    ensures Inv(c, Do(c, w, Flush(s)))
  {
    hide Held, Contiguous, OwnedBy, GoodFor, Flushed, AfterFlush, OwnChanges, CanFlush;
    var me, w' := w.saves[s], Do(c, w, Flush(s));
    if w' != w {
      assert SaveOk(c, w.log, me);
      BaseOk(w.log, c.id, me.from);
      FlushExtendsLog(c.b, c.id, w.log[..me.from], me.agg.changes);
      FlushedLength(me.agg);
      var me' := me.(flushed := true, batch := Flushed(me.agg), agg := AfterFlush(me.agg));
      assert w' == Put(w, s, me');
      hide Do;
      assert w.log[me.from..me.from] == me'.batch[..0];
      assert SaveOk(c, w.log, me');
      OneMoved(c, w, w', s, false);
    }
  }

  /** The key lets through only the version after the log, so whoever appends continues the log. */
  lemma AppendsNext<S, T, P>(c: Setting<S, T, P>, log: seq<Event<P>>, me: Save<S, T, P>)
    requires Contiguous(log) && OwnedBy(log, c.id) && SaveOk(c, log, me) && me.flushed && me.stored < |me.batch|
    requires !HasVersion(log, me.batch[me.stored].version)
    ensures me.from + me.stored == |log|
    ensures var e := me.batch[me.stored]; e.version == |log| + 1 && e.id == c.id
  {
    hide Held, GoodFor, Flushed;
    var all := log[..me.from] + me.batch;
    assert all[me.from + me.stored] == me.batch[me.stored];
    ContiguousHas(log, me.batch[me.stored].version);
  }

  lemma Appended<S, T, P>(c: Setting<S, T, P>, log: seq<Event<P>>, me: Save<S, T, P>)
    requires SaveOk(c, log, me) && me.flushed && me.stored < |me.batch| && me.from + me.stored == |log|
    ensures SaveOk(c, log + [me.batch[me.stored]], me.(stored := me.stored + 1))
  {
    hide Held, GoodFor, Flushed, Contiguous, OwnedBy;
    var log' := log + [me.batch[me.stored]];
    assert log'[..me.from] == log[..me.from];
    assert me.batch[..me.stored + 1] == me.batch[..me.stored] + [me.batch[me.stored]];
    assert log'[me.from..me.from + me.stored + 1] == log[me.from..me.from + me.stored] + [me.batch[me.stored]];
  }

  lemma LongerLog<P>(log: seq<Event<P>>, id: string, e: Event<P>)
    requires Contiguous(log) && OwnedBy(log, id) && e.version == |log| + 1 && e.id == id
    ensures Contiguous(log + [e]) && OwnedBy(log + [e], id) && log <= log + [e]
  {
  }

  lemma AppendKeeps<S, T, P>(c: Setting<S, T, P>, w: World<S, T, P>, s: nat)
    requires Inv(c, w) && s in w.saves
    ensures Inv(c, Do(c, w, Append(s)))
  {
    hide SaveOk, Contiguous, OwnedBy, HasVersion;
    var me, w' := w.saves[s], Do(c, w, Append(s));
    if w' != w {
      if HasVersion(w.log, me.batch[me.stored].version) {
        FailKeeps(c, w, s);
      } else {
        AppendsNext(c, w.log, me);
        LongerLog(w.log, c.id, me.batch[me.stored]);
        Appended(c, w.log, me);
        OneMoved(c, w, w', s, false);
      }
    }
  }

  lemma {:induction false} StepKeeps<S(!new), T, P>(c: Setting<S, T, P>, w: World<S, T, P>, step: Step<P>)
    requires RestoreUndoesCreate(c.k) && c.id != "" && Inv(c, w) && (step.Start? ==> Landed(w))
    ensures Inv(c, Do(c, w, step))
  {
    hide Inv, Landed, Opened, Flushed, AfterFlush, Taken, Begun;
    if step.Start? {
      if step.s !in w.saves && OwnChanges(step.changes, c.id) { StartKeeps(c, w, step.s, step.changes); }
    } else if step.s in w.saves {
      match step
      case Decide(s, yes) => DecideKeeps(c, w, s, yes);
      case Take(s) => TakeKeeps(c, w, s);
      case Write(s) => WriteKeeps(c, w, s);
      case Flush(s) => FlushKeeps(c, w, s);
      case Append(s) => AppendKeeps(c, w, s);
      case Fail(s) => FailKeeps(c, w, s);
    }
  }

  /** In every run in which loads meet landed snapshots only, failing saves and overlapping ones included: the log
      is versions 1..N, and every snapshot taken is that of the log its save is heading for. */
  lemma {:induction false} AlwaysGood<S(!new), T, P>(c: Setting<S, T, P>, steps: seq<Step<P>>)
    requires RestoreUndoesCreate(c.k) && c.id != "" && LoadsLanded(c, steps)
    ensures Inv(c, Run(c, steps))
  {
    if |steps| != 0 {
      AlwaysGood(c, steps[..|steps| - 1]);
      StepKeeps(c, Run(c, steps[..|steps| - 1]), steps[|steps| - 1]);
    }
  }

  /** At every instant of such a run at which the stored snapshot has landed, it is the replay of as many events as
      its version says, and a load through it is the load of the whole log. */
  lemma {:induction false} SnapshotLoadIsFullLoad<S(!new), T, P>(c: Setting<S, T, P>, steps: seq<Step<P>>)
    requires RestoreUndoesCreate(c.k) && c.id != "" && LoadsLanded(c, steps)
    ensures var w := Run(c, steps);
            && Contiguous(w.log) && OwnedBy(w.log, c.id)
            && (Landed(w) ==>
                  && (w.snapshot.Some? ==> GoodFor(c.b, c.k, c.id, w.log, w.snapshot.value))
                  && SnapshotGet(c.b, c.k, w.log, w.snapshot)
                     == Success(if w.log == [] && w.snapshot.None? then None else Some(Held(c.b, c.id, w.log, []))))
  {
    hide Run, LoadsLanded, Landed, GoodFor, SnapshotGet;
    AlwaysGood(c, steps);
    var w := Run(c, steps);
    LogIsOk(c, w);
    hide Inv;
    if Landed(w) {
      GetWhenLanded(c, w);
      if w.snapshot.Some? { LandedIsGood(c, w); }
    }
  }

  lemma LogGrows<S, T, P>(c: Setting<S, T, P>, w: World<S, T, P>, step: Step<P>)
    ensures w.log <= Do(c, w, step).log
  {
    hide Opened, Flushed, AfterFlush, Taken, Begun, MayAnswer, CanFlush, HasVersion;
  }

  lemma {:induction false} RunGrows<S, T, P>(c: Setting<S, T, P>, steps: seq<Step<P>>, more: seq<Step<P>>)
    requires LoadsLanded(c, steps + more)
    ensures LoadsLanded(c, steps) && Run(c, steps).log <= Run(c, steps + more).log
    decreases |more|
  {
    if |more| == 0 {
      assert steps + more == steps;
    } else {
      var front := more[..|more| - 1];
      assert (steps + more)[..|steps + more| - 1] == steps + front;
      RunGrows(c, steps, front);
      LogGrows(c, Run(c, steps + front), more[|more| - 1]);
    }
  }

  /** A get reads the snapshot first and the events later; with whatever steps in between, it is the load of the log
      at the later instant. */
  lemma {:induction false} TwoStepLoadIsFullLoad<S(!new), T, P>(c: Setting<S, T, P>, steps: seq<Step<P>>,
                                                                more: seq<Step<P>>)
    requires RestoreUndoesCreate(c.k) && c.id != "" && LoadsLanded(c, steps + more) && Landed(Run(c, steps))
    ensures var w, w' := Run(c, steps), Run(c, steps + more);
            SnapshotGet(c.b, c.k, w'.log, w.snapshot)
            == Success(if w'.log == [] && w.snapshot.None? then None else Some(Held(c.b, c.id, w'.log, [])))
  {
    hide Run, LoadsLanded, Landed, GoodFor, SnapshotGet, Held, Inv;
    RunGrows(c, steps, more);
    AlwaysGood(c, steps);
    AlwaysGood(c, steps + more);
    var w, w' := Run(c, steps), Run(c, steps + more);
    LogIsOk(c, w');
    if w.snapshot.Some? {
      LandedIsGood(c, w);
      StillGood(c.b, c.k, c.id, w.log, w'.log, w.snapshot.value);
      GetFromGoodSnapshot(c.b, c.k, c.id, w'.log, w.snapshot.value);
    } else {
      NoSnapshotGet(c.b, c.k, c.id, w'.log);
    }
  }

  lemma StillGood<S, T, P>(b: Behaviour<S, P>, k: Keeper<S, T>, id: string, log: seq<Event<P>>, log': seq<Event<P>>,
                           s: Snapshot<T>)
    requires GoodFor(b, k, id, log, s) && log <= log'
    ensures GoodFor(b, k, id, log', s)
  {
    assert log'[..s.version] == log[..s.version];
  }

  // ---- runs in which it goes wrong --------------------------------------------------------

  function Pending<P>(p: P): Event<P> {
    Event("", 0, p)
  }

  lemma RunSplit<S, T, P>(c: Setting<S, T, P>, steps: seq<Step<P>>, step: Step<P>)
    ensures Run(c, steps + [step]) == Do(c, Run(c, steps), step)
    ensures LoadsLanded(c, steps + [step]) <==> LoadsLanded(c, steps) && (step.Start? ==> Landed(Run(c, steps)))
  {
    assert (steps + [step])[..|steps|] == steps;
  }

  lemma FlushedOne<S, P>(b: Behaviour<S, P>, id: string, log: seq<Event<P>>, p: P)
    ensures Flushed(Held(b, id, log, [Pending(p)])) == [Event(id, |log| + 1, p)]
    ensures Held(b, id, log, [Pending(p)]).id == id
  {
  }

  lemma NoNextVersion<P>(log: seq<Event<P>>)
    requires Contiguous(log)
    ensures !HasVersion(log, |log| + 1)
  {
  }

  lemma Decides<S, T, P>(c: Setting<S, T, P>, w: World<S, T, P>, s: nat, me: Save<S, T, P>)
    requires me.verdict == Undecided && MayAnswer(c, Put(w, s, me), me, true)
    ensures Do(c, Put(w, s, me), Decide(s, true)) == Put(w, s, me.(verdict := Yes))
  {
    hide MayAnswer;
    assert w.saves[s := me][s := me.(verdict := Yes)] == w.saves[s := me.(verdict := Yes)];
  }

  lemma Takes<S, T, P>(c: Setting<S, T, P>, w: World<S, T, P>, s: nat, me: Save<S, T, P>)
    requires me.verdict == Yes && me.taken.None?
    ensures Do(c, Put(w, s, me), Take(s)) == Put(w, s, me.(taken := Some(Taken(c.k, me.agg))))
  {
    hide Taken;
    var me' := me.(taken := Some(Taken(c.k, me.agg)));
    assert w.saves[s := me][s := me'] == w.saves[s := me'];
  }

  lemma Writes<S, T, P>(c: Setting<S, T, P>, w: World<S, T, P>, s: nat, me: Save<S, T, P>)
    requires me.taken.Some? && !me.written
    ensures Do(c, Put(w, s, me), Write(s)) == Put(w, s, me.(written := true)).(snapshot := me.taken, author := s)
  {
    assert w.saves[s := me][s := me.(written := true)] == w.saves[s := me.(written := true)];
  }

  lemma Flushes<S, T, P>(c: Setting<S, T, P>, w: World<S, T, P>, s: nat, me: Save<S, T, P>, batch: seq<Event<P>>)
    requires !me.flushed && !me.failed && me.agg.id != "" && (c.interval.Some? ==> me.verdict != Undecided)
    requires Flushed(me.agg) == batch
    ensures Do(c, Put(w, s, me), Flush(s))
            == Put(w, s, me.(flushed := true, batch := batch, agg := AfterFlush(me.agg)))
  {
    hide Flushed, AfterFlush;
    var me' := me.(flushed := true, batch := batch, agg := AfterFlush(me.agg));
    assert w.saves[s := me][s := me'] == w.saves[s := me'];
  }

  lemma Appends<S, T, P>(c: Setting<S, T, P>, w: World<S, T, P>, s: nat, me: Save<S, T, P>, e: Event<P>)
    requires me.flushed && !me.failed && me.stored == 0 && me.batch == [e] && !HasVersion(w.log, e.version)
    ensures Do(c, Put(w, s, me), Append(s)) == Put(w, s, me.(stored := 1)).(log := w.log + [e])
  {
    hide HasVersion;
    assert w.saves[s := me][s := me.(stored := 1)] == w.saves[s := me.(stored := 1)];
  }

  lemma NoStepsLanded<S, T, P>(c: Setting<S, T, P>)
    ensures LoadsLanded(c, [])
  {
  }

  lemma NoSteps<S, T, P>(c: Setting<S, T, P>)
    ensures Run(c, []) == World([], None, 0, map[])
  {
  }

  /** A save begun by a get that answers version 1 and by one change on it. */
  lemma StartsAt<S, T, P>(c: Setting<S, T, P>, w: World<S, T, P>, s: nat, state: S, q: P)
    requires s !in w.saves && SnapshotGet(c.b, c.k, w.log, w.snapshot) == Success(Some(Agg(c.id, 1, state, [])))
    ensures Do(c, w, Start(s, [Pending(q)])) == Put(w, s,
              Save(1, Agg(c.id, 1, c.b.apply(state, q), [Pending(q)]), false, [], 0, false, Undecided, None, false))
  {
    hide SnapshotGet;
    assert ApplyAll(c.b, Agg(c.id, 1, state, []), [Pending(q)]) == Agg(c.id, 1, c.b.apply(state, q), [Pending(q)]);
  }

  /** What a save begun through a snapshot of an event that is not stored goes on to store. */
  lemma AheadOfLog<S(!new), T, P>(c: Setting<S, T, P>, w: World<S, T, P>, s: nat, p: P, q: P)
    requires RestoreUndoesCreate(c.k) && c.id != "" && c.interval.None? && w.log == [] && s !in w.saves
    requires w.snapshot == Some(Taken(c.k, Held(c.b, c.id, [], [Pending(p)])))
    ensures Do(c, Do(c, Do(c, w, Start(s, [Pending(q)])), Flush(s)), Append(s)).log == [Event(c.id, 2, q)]
  {
    hide Held, Taken, SnapshotGet, HasVersion, Flushed, Fold, Replay, Do, AfterFlush;
    var state := Fold(c.b, Replay(c.b, []), [Pending(p)]);
    assert [] + [] == w.log;
    SnapshotOverAnyLog(c.b, c.k, c.id, [], [Pending(p)], []);
    StartsAt(c, w, s, state, q);
    var a := Agg(c.id, 1, c.b.apply(state, q), [Pending(q)]);
    var me := Save(1, a, false, [], 0, false, Undecided, None, false);
    FlushedAhead(a, q);
    Flushes(c, w, s, me, [Event(c.id, 2, q)]);
    NothingStored<P>(2);
    Appends(c, w, s, me.(flushed := true, batch := [Event(c.id, 2, q)], agg := AfterFlush(a)), Event(c.id, 2, q));
  }

  lemma FlushedAhead<S, P>(a: Agg<S, P>, q: P)
    requires a.version == 1 && a.changes == [Pending(q)]
    ensures Flushed(a) == [Event(a.id, 2, q)]
  {
  }

  lemma NothingStored<P>(v: int)
    ensures !HasVersion<P>([], v)
  {
  }

  /** A load through a snapshot whose save has stored nothing yet goes on from the version the snapshot counts, and
      what it then saves is stored past a gap. */
  lemma {:induction false} LoadAheadLeavesGap<S(!new), T, P>(c: Setting<S, T, P>, p: P, q: P)
    requires RestoreUndoesCreate(c.k) && c.id != "" && c.interval.None?
    ensures var ahead := [Start(0, [Pending(p)])] + [Decide(0, true)] + [Take(0)] + [Write(0)];
            var w := Run(c, ahead + [Start(1, [Pending(q)])] + [Flush(1)] + [Append(1)]);
            LoadsLanded(c, ahead) && w.log == [Event(c.id, 2, q)] && !Contiguous(w.log)
  {
    hide Held, Taken, Do, Run, Inv, LoadsLanded, Landed;
    var begin: Step<P> := Start(0, [Pending(p)]);
    var none: seq<Step<P>> := [];
    NoStepsLanded(c);
    NoSteps(c);
    var w := Run(c, none);
    assert Landed(w) && Inv(c, w) by { AlwaysGood(c, none); NothingToLand(w); }
    StartKeeps(c, w, 0, [Pending(p)]);
    assert none + [begin] == [begin];
    RunSplit(c, none, begin);
    RunSplit(c, [begin], Decide(0, true));
    RunSplit(c, [begin] + [Decide(0, true)], Take(0));
    RunSplit(c, [begin] + [Decide(0, true)] + [Take(0)], Write(0));
    var ahead := [begin] + [Decide(0, true)] + [Take(0)] + [Write(0)];
    var me := Save(0, Held(c.b, c.id, [], [Pending(p)]), false, [], 0, false, Undecided, None, false);
    Decides(c, w, 0, me);
    Takes(c, w, 0, me.(verdict := Yes));
    Writes(c, w, 0, me.(verdict := Yes, taken := Some(Taken(c.k, me.agg))));
    AheadOfLog(c, Run(c, ahead), 1, p, q);
    RunSplit(c, ahead, Start(1, [Pending(q)]));
    RunSplit(c, ahead + [Start(1, [Pending(q)])], Flush(1));
    RunSplit(c, ahead + [Start(1, [Pending(q)])] + [Flush(1)], Append(1));
    assert Run(c, ahead + [Start(1, [Pending(q)])] + [Flush(1)] + [Append(1)]).log[0].version == 2;
  }

  lemma NothingToLand<S, T, P>(w: World<S, T, P>)
    requires w.snapshot.None?
    ensures Landed(w)
  {
  }

  /** A save that fails after its flush stores nothing more, and its snapshot is stored nevertheless. */
  lemma {:induction false} FailedSaveStillWrites<S(!new), T, P>(c: Setting<S, T, P>, p: P)
    requires RestoreUndoesCreate(c.k) && c.id != "" && c.interval.None?
    ensures var before := [Start(0, [Pending(p)])] + [Decide(0, true)] + [Take(0)] + [Flush(0)];
            var w := Run(c, before + [Fail(0)] + [Append(0)] + [Write(0)]);
            && LoadsLanded(c, before + [Fail(0)] + [Append(0)] + [Write(0)])
            && w.log == [] && w.snapshot.Some? && w.snapshot.value.version == 1 && !Landed(w)
  {
    hide Held, Taken, Do, Run, Inv, LoadsLanded, AfterFlush, Flushed;
    var begin: Step<P> := Start(0, [Pending(p)]);
    var none: seq<Step<P>> := [];
    NoStepsLanded(c);
    NoSteps(c);
    var w := Run(c, none);
    assert Landed(w) && Inv(c, w) by { AlwaysGood(c, none); NothingToLand(w); }
    StartKeeps(c, w, 0, [Pending(p)]);
    assert none + [begin] == [begin];
    RunSplit(c, none, begin);
    RunSplit(c, [begin], Decide(0, true));
    RunSplit(c, [begin] + [Decide(0, true)], Take(0));
    RunSplit(c, [begin] + [Decide(0, true)] + [Take(0)], Flush(0));
    var before := [begin] + [Decide(0, true)] + [Take(0)] + [Flush(0)];
    var me := Save(0, Held(c.b, c.id, [], [Pending(p)]), false, [], 0, false, Undecided, None, false);
    Decides(c, w, 0, me);
    Takes(c, w, 0, me.(verdict := Yes));
    var taken := me.(verdict := Yes, taken := Some(Taken(c.k, me.agg)));
    FlushedOne(c.b, c.id, [], p);
    Flushes(c, w, 0, taken, [Event(c.id, 1, p)]);
    var flushed := taken.(flushed := true, batch := [Event(c.id, 1, p)], agg := AfterFlush(me.agg));
    RunSplit(c, before, Fail(0));
    RunSplit(c, before + [Fail(0)], Append(0));
    RunSplit(c, before + [Fail(0)] + [Append(0)], Write(0));
    FailsThenWrites(c, w, flushed);
    TakenVersion(c.b, c.k, c.id, [], [Pending(p)]);
  }

  lemma FailsThenWrites<S, T, P>(c: Setting<S, T, P>, w: World<S, T, P>, me: Save<S, T, P>)
    requires me.flushed && me.taken.Some? && !me.written && w.log == [] && me.stored == 0 && |me.batch| == 1
    ensures var after := Do(c, Do(c, Do(c, Put(w, 0, me), Fail(0)), Append(0)), Write(0));
            after.log == [] && after.snapshot == me.taken && !Landed(after)
  {
    hide Flushed, AfterFlush, Taken, MayAnswer, HasVersion;
    var failed := Do(c, Put(w, 0, me), Fail(0));
    assert 0 in failed.saves && failed.saves[0] == me.(failed := true);
  }
}
