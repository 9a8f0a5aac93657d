/** Repository decorator that restores an aggregate from a snapshot and replays only the tail. */
module Snapshots {
  import opened Outcomes
  import opened Aggregates
  import opened EventLogs
  import opened SqlStore
  import opened Sessions

  /** What a snapshotable aggregate class supplies besides its behaviour. */
  datatype Keeper<!S, !T> = Keeper(create: S -> T, restore: T -> S)

  datatype Snapshot<+T> = Snapshot(id: string, version: int, memento: T)

  ghost predicate RestoreUndoesCreate<S(!new), T>(k: Keeper<S, T>) {
    forall s: S :: k.restore(k.create(s)) == s
  }

  /** GetSnapshot plus the version TryMakeSnapshot puts on it. */
  function Taken<S, T, P>(k: Keeper<S, T>, a: Agg<S, P>): Snapshot<T> {
    Snapshot(a.id, a.version + |a.changes|, k.create(a.state))
  }

  function Restored<S, T, P>(k: Keeper<S, T>, s: Snapshot<T>): Agg<S, P> {
    Agg(s.id, s.version, k.restore(s.memento), [])
  }

  /** SnapshotRepository.GetAsync: restore and replay the events after the snapshot, or load in full. */
  function SnapshotGet<S, T, P>(b: Behaviour<S, P>, k: Keeper<S, T>, log: seq<Event<P>>, snapshot: Option<Snapshot<T>>)
    : Result<Option<Agg<S, P>>, StoreError>
  {
    if snapshot.None? && |Query(log, -1)| == 0 then Success(None)
    else
      var (a, ok) := if snapshot.None? then Loaded(b, Fresh(b), Query(log, -1))
                     else Loaded(b, Restored(k, snapshot.value), Query(log, snapshot.value.version));
      if ok then Success(Some(a)) else Failure(OutOfOrder)
  }

  class SnapshotRepository<S, T, P> {
    const keeper: Keeper<S, T>
    const repository: Repository<S, P>
    var snapshots: map<string, Snapshot<T>>

    constructor (keeper: Keeper<S, T>, repository: Repository<S, P>)
      ensures this.keeper == keeper && this.repository == repository && snapshots == map[]
    {
      this.keeper, this.repository, snapshots := keeper, repository, map[];
    }

    ghost function SnapshotOf(id: string): Option<Snapshot<T>>
      reads this
    {
      if id in snapshots then Some(snapshots[id]) else None
    }

    method GetAsync(id: string) returns (aggregate: AggregateRoot?<S, P>, r: Result<(), StoreError>)
      ensures match SnapshotGet(repository.behaviour, keeper, RowsOf(repository.store.rows, id), SnapshotOf(id))
              case Success(None) => aggregate == null && r.Success?
              case Success(Some(a)) => aggregate != null && fresh(aggregate) && aggregate.Value() == a && r.Success?
              case Failure(e) => aggregate == null && r.Failure? && r.error == e
    {
      if id !in snapshots {
        aggregate, r := repository.GetAsync(id);
        return;
      }
      var snapshot := snapshots[id];
      aggregate := new AggregateRoot(repository.behaviour);
      aggregate.Id, aggregate.Version := snapshot.id, snapshot.version;
      aggregate.State := keeper.restore(snapshot.memento);
      var events := repository.store.GetAsync(id, snapshot.version);
      r := aggregate.LoadFromHistory(events);
      if r.Failure? {
        aggregate := null;
      }
    }

    /** Stores a snapshot of the aggregate as it is now, counting its pending events into the version. */
    method TryMakeSnapshot(aggregate: AggregateRoot<S, P>, should: bool)
      modifies this
      ensures snapshots == if should then old(snapshots)[aggregate.Id := Taken(keeper, aggregate.Value())]
          else old(snapshots)
    {
      if should {
        var snapshot := Snapshot(aggregate.Id, aggregate.Version + |aggregate.changes|, keeper.create(aggregate.State));
        snapshots := snapshots[snapshot.id := snapshot];
      }
    }

    /** Snapshot and save run side by side. Whether the snapshot is taken before or after the flush, the one
        stored is that of the aggregate with all its pending events -- and it is stored even when the
        save fails. */
    method SaveAsync(aggregate: AggregateRoot<S, P>, expected: Option<int>, faults: nat -> Fault, should: bool,
                     flushFirst: bool)
      returns (r: Result<(), StoreError>)
      modifies this, aggregate, repository.store
      ensures SavedBatch(old(repository.store.rows), repository.store.rows, old(aggregate.Value()), expected, faults,
          r.Success?)
      ensures r == Failure(Concurrency) <==>
          !PassesCheck(RowsOf(old(repository.store.rows), old(aggregate.Id)), expected)
      ensures r == Failure(MissingId) <==> r != Failure(Concurrency) && !CanFlush(old(aggregate.Value()))
      ensures r == Failure(Concurrency) ==> aggregate.Value() == old(aggregate.Value())
      ensures r != Failure(Concurrency) && r != Failure(MissingId) ==>
          aggregate.Value() == AfterFlush(old(aggregate.Value()))
      ensures snapshots == if should then old(snapshots)[old(aggregate.Id) := Taken(keeper, old(aggregate.Value()))]
                           else old(snapshots)
    {
      hide SavedBatch;
      if flushFirst {
        r := repository.SaveAsync(aggregate, expected, faults);
        TryMakeSnapshot(aggregate, should);
      } else {
        TryMakeSnapshot(aggregate, should);
        r := repository.SaveAsync(aggregate, expected, faults);
      }
    }
  }

  /** A snapshot that is the replay of its first `version` events of the log. */
  ghost predicate GoodFor<S, T, P>(b: Behaviour<S, P>, k: Keeper<S, T>, id: string, log: seq<Event<P>>,
                                   s: Snapshot<T>) {
    s.id == id && 0 <= s.version <= |log| && s.memento == k.create(Replay(b, log[..s.version]))
  }

  /** From a good snapshot, restoring and replaying the tail is loading the whole log. */
  lemma {:induction false} GetFromGoodSnapshot<S(!new), T, P>(b: Behaviour<S, P>, k: Keeper<S, T>, id: string,
                                                              log: seq<Event<P>>, s: Snapshot<T>)
    requires RestoreUndoesCreate(k) && Contiguous(log) && OwnedBy(log, id) && GoodFor(b, k, id, log, s)
    ensures SnapshotGet(b, k, log, Some(s)) == Success(Some(Held(b, id, log, [])))
    ensures Query(log, s.version) == log[s.version..]
  {
    QueryIsSlice(log, s.version);
    LoadTail(b, id, log, s.version);
  }

  /** Taking the snapshot before or after the flush makes no difference, and it is right for the log
      that the save is about to leave behind. */
  lemma {:induction false} TakenEitherSideOfFlush<S, T, P>(b: Behaviour<S, P>, k: Keeper<S, T>, id: string,
                                                           log: seq<Event<P>>, changes: seq<Event<P>>)
    requires id != "" && Contiguous(log) && OwnedBy(log, id) && OwnChanges(changes, id)
    ensures var a := Held(b, id, log, changes);
            && Taken(k, a) == Taken(k, AfterFlush(a))
            && GoodFor(b, k, id, log + Flushed(a), Taken(k, a))
  {
    var a := Held(b, id, log, changes);
    FlushExtendsLog(b, id, log, changes);
    var all := log + Flushed(a);
    assert all[..|all|] == all;
  }

  /** For any log and any snapshot: a load throws exactly when the events it reads do not go on from the version it
      starts at, and answers null exactly when there is neither a snapshot nor an event. */
  lemma {:induction false} GetThrowsIff<S, T, P>(b: Behaviour<S, P>, k: Keeper<S, T>, log: seq<Event<P>>,
                                                 snapshot: Option<Snapshot<T>>)
    ensures var from := if snapshot.None? then 0 else snapshot.value.version;
            var events := if snapshot.None? then Query(log, -1) else Query(log, snapshot.value.version);
            var answer := SnapshotGet(b, k, log, snapshot);
            && (answer == Failure(OutOfOrder) <==> answer.Failure?)
            && (answer.Failure? <==> exists i :: 0 <= i < |events| && events[i].version != from + 1 + i)
            && (answer == Success(None) <==> snapshot.None? && events == [])
  {
    hide Query, Loaded;
    if snapshot.None? {
      LoadIffContiguous(b, Fresh(b), Query(log, -1));
    } else {
      LoadIffContiguous(b, Restored(k, snapshot.value), Query(log, snapshot.value.version));
    }
  }

  // ---- the snapshot of a save that may have failed ----------------------------------------

  /** What a load through the snapshot of a save answers when the log has become `log + tail`, whoever wrote the
      tail: it never throws, and skips as many events as the save had. */
  lemma {:induction false} SnapshotOverAnyLog<S(!new), T, P>(b: Behaviour<S, P>, k: Keeper<S, T>, id: string,
                                                             log: seq<Event<P>>, changes: seq<Event<P>>,
                                                             tail: seq<Event<P>>)
    requires RestoreUndoesCreate(k) && Contiguous(log + tail) && OwnedBy(log + tail, id)
    ensures var state := Fold(b, Replay(b, log), changes);
            SnapshotGet(b, k, log + tail, Some(Taken(k, Held(b, id, log, changes)))) == Success(Some(
              if |changes| <= |tail| then Agg(id, |log + tail|, Fold(b, state, tail[|changes|..]), [])
              else Agg(id, |log| + |changes|, state, [])))
  {
    hide Fold, Contiguous, Query, Loaded;
    var all, s := log + tail, Taken(k, Held(b, id, log, changes));
    QueryIsSlice(all, s.version);
    if |changes| <= |tail| {
      assert all[s.version..] == tail[|changes|..];
      SkippedTail(b, id, all, s.version, Restored(k, s));
    } else {
      assert all[|all|..] == [];
      NothingNewer(b, Restored(k, s));
    }
  }

  lemma NothingNewer<S, P>(b: Behaviour<S, P>, a: Agg<S, P>)
    ensures Loaded(b, a, []) == (a, true)
  {
  }

  lemma SkippedTail<S, P>(b: Behaviour<S, P>, id: string, log: seq<Event<P>>, v: nat, a: Agg<S, P>)
    requires Contiguous(log) && OwnedBy(log, id) && v <= |log| && a.id == id && a.version == v && a.changes == []
    ensures Loaded(b, a, log[v..]) == (Agg(id, |log|, Fold(b, a.state, log[v..]), []), true)
  {
    LoadIffContiguous(b, a, log[v..]);
  }

  /** So it is right exactly when the log has at least as many new events as the save had, and they, from the
      one after the save's last on, bring the save's own state to the replay of the log. */
  lemma {:induction false} SnapshotRightIff<S(!new), T, P>(b: Behaviour<S, P>, k: Keeper<S, T>, id: string,
                                                           log: seq<Event<P>>, changes: seq<Event<P>>,
                                                           tail: seq<Event<P>>)
    requires RestoreUndoesCreate(k) && Contiguous(log + tail) && OwnedBy(log + tail, id)
    ensures SnapshotGet(b, k, log + tail, Some(Taken(k, Held(b, id, log, changes))))
            == Success(Some(Held(b, id, log + tail, [])))
            <==> |changes| <= |tail|
                 && Fold(b, Fold(b, Replay(b, log), changes), tail[|changes|..]) == Replay(b, log + tail)
  {
    SnapshotOverAnyLog(b, k, id, log, changes, tail);
    HeldAtRest(b, id, log + tail);
    hide Fold, SnapshotGet, Held, Contiguous, OwnedBy;
  }

  lemma HeldAtRest<S, P>(b: Behaviour<S, P>, id: string, log: seq<Event<P>>)
    ensures Held(b, id, log, []) == Agg(id, |log|, Replay(b, log), [])
  {
  }

  /** For the behaviour that records its payloads: exactly when the log carries the save's payloads right after
      the version it loaded. */
  lemma {:induction false} RecordedSnapshotRightIff<T, P(!new)>(k: Keeper<seq<P>, T>, id: string, log: seq<Event<P>>,
                                                                changes: seq<Event<P>>, tail: seq<Event<P>>)
    requires RestoreUndoesCreate(k) && Contiguous(log + tail) && OwnedBy(log + tail, id)
    ensures SnapshotGet(Recorder(), k, log + tail, Some(Taken(k, Held(Recorder(), id, log, changes))))
            == Success(Some(Held(Recorder(), id, log + tail, [])))
            <==> |changes| <= |tail| && Payloads(changes) == Payloads(tail[..|changes|])
  {
    SnapshotRightIff(Recorder(), k, id, log, changes, tail);
    hide SnapshotGet, Contiguous, OwnedBy, Taken, Held;
    if |changes| <= |tail| {
      RecordedSwap(log, changes, tail);
    }
  }

  /** With the recording behaviour a load that skips the wrong events tells. */
  lemma RecordedSwap<P>(log: seq<Event<P>>, changes: seq<Event<P>>, tail: seq<Event<P>>)
    requires |changes| <= |tail|
    ensures Fold(Recorder(), Fold(Recorder(), Replay(Recorder(), log), changes), tail[|changes|..])
            == Replay(Recorder(), log + tail)
            <==> Payloads(changes) == Payloads(tail[..|changes|])
  {
    hide Fold, Replay, Recorder, Payloads;
    var b, n := Recorder<P>(), |changes|;
    ReplayRecords(log);
    RecorderRecords(Payloads(log), changes);
    RecorderRecords(Payloads(log) + Payloads(changes), tail[n..]);
    SplitPayloads(log, tail, n);
    ReplayRecords(log + tail);
    SameMiddle(Payloads(log), Payloads(changes), Payloads(tail[..n]), Payloads(tail[n..]));
  }

  lemma ReplayRecords<P>(log: seq<Event<P>>)
    ensures Replay(Recorder(), log) == Payloads(log)
  {
    hide Fold, Payloads;
    RecorderRecords([], log);
    assert [] + Payloads(log) == Payloads(log);
  }

  lemma SplitPayloads<P>(log: seq<Event<P>>, tail: seq<Event<P>>, n: nat)
    requires n <= |tail|
    ensures Payloads(log + tail) == Payloads(log) + Payloads(tail[..n]) + Payloads(tail[n..])
  {
  }

  lemma SameMiddle<P>(a: seq<P>, x: seq<P>, y: seq<P>, z: seq<P>)
    requires |x| == |y|
    ensures a + x + z == a + y + z <==> x == y
  {
    assert (a + x + z)[|a|..|a| + |x|] == x && (a + y + z)[|a|..|a| + |y|] == y;
  }

  /** For every behaviour that suffices. */
  lemma {:induction false} SamePayloadsSameSnapshot<S(!new), T, P>(b: Behaviour<S, P>, k: Keeper<S, T>, id: string,
                                                                   log: seq<Event<P>>, changes: seq<Event<P>>,
                                                                   tail: seq<Event<P>>)
    requires RestoreUndoesCreate(k) && Contiguous(log + tail) && OwnedBy(log + tail, id)
    requires |changes| <= |tail| && Payloads(changes) == Payloads(tail[..|changes|])
    ensures SnapshotGet(b, k, log + tail, Some(Taken(k, Held(b, id, log, changes))))
            == Success(Some(Held(b, id, log + tail, [])))
  {
    hide SnapshotGet, Contiguous, OwnedBy, Taken, Held, Fold, Payloads;
    SnapshotRightIff(b, k, id, log, changes, tail);
    var n := |changes|;
    FoldPayloads(b, Replay(b, log), changes, tail[..n]);
    FoldConcat(b, Replay(b, log), tail[..n], tail[n..]);
    FoldConcat(b, b.initial, log, tail);
    assert tail == tail[..n] + tail[n..];
  }

  /** A save refused because others stored as many events first leaves a snapshot that loads without a throw, at
      the version of the log, so that the next version check passes -- and yet in the wrong state whenever the
      recording behaviour can tell the payloads apart. */
  lemma {:induction false} RefusedSaveLoadsWrong<T, P(!new)>(k: Keeper<seq<P>, T>, id: string, log: seq<Event<P>>,
                                                             changes: seq<Event<P>>, tail: seq<Event<P>>)
    requires RestoreUndoesCreate(k) && Contiguous(log + tail) && OwnedBy(log + tail, id)
    requires |changes| <= |tail| && Payloads(changes) != Payloads(tail[..|changes|])
    ensures var answer := SnapshotGet(Recorder(), k, log + tail, Some(Taken(k, Held(Recorder(), id, log, changes))));
            && answer.Success? && answer.value.Some?
            && var a := answer.value.value;
               && a.id == id && a.version == |log + tail| && a.changes == []
               && a.state != Replay(Recorder(), log + tail)
               && PassesCheck(log + tail, Some(a.version))
  {
    SnapshotOverAnyLog(Recorder(), k, id, log, changes, tail);
    RecordedSwap(log, changes, tail);
    QueryIsSlice(log + tail, |log + tail|);
    hide SnapshotGet, Contiguous, OwnedBy, Fold, Query, Held, Taken;
  }

  /** The least such case: two sessions load the same log and the one that lost with payload `p` leaves its
      snapshot over the other's `q`. */
  lemma {:induction false} RefusedPayloadReplacesStored<T, P(!new)>(k: Keeper<seq<P>, T>, id: string, p: P, q: P)
    requires RestoreUndoesCreate(k) && p != q
    ensures var log := [Event(id, 1, q)];
            SnapshotGet(Recorder(), k, log, Some(Taken(k, Held(Recorder(), id, [], [Event("", 0, p)]))))
            == Success(Some(Agg(id, 1, [p], [])))
            && Replay(Recorder(), log) == [q]
  {
    hide SnapshotGet, Taken, Held, Fold, Replay, Payloads, Contiguous, OwnedBy;
    var log, changes := [Event(id, 1, q)], [Event("", 0, p)];
    var none: seq<Event<P>> := [];
    assert none + log == log && log[1..] == none;
    assert Contiguous(log) && OwnedBy(log, id) by { FirstOfLog(id, q); }
    SnapshotOverAnyLog(Recorder(), k, id, none, changes, log);
    OneRecorded(Event(id, 1, q));
    OneRecorded(Event("", 0, p));
    NothingFolded(Recorder(), [p]);
  }

  lemma FirstOfLog<P>(id: string, q: P)
    ensures Contiguous([Event(id, 1, q)]) && OwnedBy([Event(id, 1, q)], id)
  {
  }

  lemma OneRecorded<P>(e: Event<P>)
    ensures Replay(Recorder(), [e]) == [e.payload] && Fold(Recorder(), Replay(Recorder(), []), [e]) == [e.payload]
  {
    ReplayRecords([e]);
    assert Replay(Recorder<P>(), []) == [];
  }

  lemma NothingFolded<S, P>(b: Behaviour<S, P>, s: S)
    ensures Fold(b, s, []) == s
  {
  }

  /** A save that stored only `j` of its events, with nobody else writing: its snapshot agrees with the log
      exactly when nothing was missing. */
  lemma {:induction false} SnapshotOfFailedSave<S(!new), T, P>(b: Behaviour<S, P>, k: Keeper<S, T>, id: string,
                                                               log: seq<Event<P>>, changes: seq<Event<P>>, j: nat)
    requires RestoreUndoesCreate(k) && id != "" && Contiguous(log) && OwnedBy(log, id) && OwnChanges(changes, id)
    requires j <= |changes|
    ensures var a := Held(b, id, log, changes);
            var log' := log + Flushed(a)[..j];
            SnapshotGet(b, k, log', Some(Taken(k, a))) == Success(Some(Held(b, id, log', []))) <==> j == |changes|
  {
    var a := Held(b, id, log, changes);
    var batch := Flushed(a);
    FlushExtendsLog(b, id, log, changes);
    FlushKeepsMeaning(a);
    PrefixOwned(log, batch, id, j);
    SnapshotRightIff(b, k, id, log, changes, batch[..j]);
    if j == |changes| {
      assert batch[..j] == batch && batch[..j][..j] == batch;
      SamePayloadsSameSnapshot(b, k, id, log, changes, batch[..j]);
    }
  }

  lemma PrefixOwned<P>(log: seq<Event<P>>, batch: seq<Event<P>>, id: string, j: nat)
    requires Contiguous(log + batch) && OwnedBy(log + batch, id) && j <= |batch|
    ensures Contiguous(log + batch[..j]) && OwnedBy(log + batch[..j], id)
  {
    assert forall i :: 0 <= i < |log + batch[..j]| ==> (log + batch[..j])[i] == (log + batch)[i];
  }
}
