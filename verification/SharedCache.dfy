/** Any number of clients sharing one memory-cached aggregate: gets and saves take the per-id lock, changes
    to the shared object do not. No eviction, no expected version, no store failure. */
module SharedCache {
  import opened Outcomes
  import opened Aggregates
  import opened EventLogs
  import opened SqlStore
  import opened Sessions
  import opened Caching

  /** Where a client stands. Every phase except Away and Holding is inside the lock. */
  datatype Phase<P> =
    | Away
    | Asking
    | Querying(from: int, afresh: bool)
    | Merging(events: seq<Event<P>>, afresh: bool)
    | Holding
    | Saving
    | Appending

  /** A client is dirty from its first change until its own next flush. */
  datatype Client<P> = Client(phase: Phase<P>, dirty: bool)

  /** `inFlight` is flushed and not yet in the log; `applied` records every change ever made, in order. */
  datatype World<S, P> = World(log: seq<Event<P>>, entry: Entry<S, P>, inFlight: seq<Event<P>>, holder: Option<nat>,
                               clients: map<nat, Client<P>>, applied: seq<P>)

  datatype Step<P> =
    | GetLock(c: nat)
    | Look(c: nat)
    | QueryStore(c: nat)
    | Merge(c: nat)
    | Apply(c: nat, e: Event<P>)
    | SaveLock(c: nat)
    | Flush(c: nat)
    | Append(c: nat)
    | SaveUnlock(c: nat)

  function ClientOf<S, P>(w: World<S, P>, c: nat): Client<P> {
    if c in w.clients then w.clients[c] else Client(Away, false)
  }

  function At<S, P>(w: World<S, P>, c: nat, phase: Phase<P>): World<S, P> {
    w.(clients := w.clients[c := ClientOf(w, c).(phase := phase)])
  }

  /** What a get does with the events it read; the lock goes with it unless the cached object was unusable. */
  function Merged<S, P>(b: Behaviour<S, P>, w: World<S, P>, c: nat, events: seq<Event<P>>, afresh: bool): World<S, P> {
    if afresh then
      if |events| == 0 then At(w, c, Away).(entry := TrackedNull, holder := None)
      else
        var (a, ok) := Loaded(b, Fresh(b), events);
        if ok then At(w, c, Holding).(entry := Tracked(a), holder := None)
        else At(w, c, Away).(entry := Untracked, holder := None)
    else if !w.entry.Tracked? then w
    else if |events| != 0 && events[0].version != w.entry.agg.version + 1 then
      At(w, c, Querying(-1, true)).(entry := Untracked)
    else
      var (a, ok) := Loaded(b, w.entry.agg, events);
      if ok then At(w, c, Holding).(entry := Tracked(a), holder := None)
      else At(w, c, Away).(entry := Untracked, holder := None)
  }

  /** One step of one client; a step that is not enabled changes nothing. */
  function Do<S, P>(b: Behaviour<S, P>, id: string, w: World<S, P>, step: Step<P>): World<S, P> {
    var me := ClientOf(w, step.c);
    match step
    case GetLock(c) =>
      if w.holder == None && (me.phase == Away || me.phase == Holding) then At(w, c, Asking).(holder := Some(c)) else w
    case Look(c) =>
      if me.phase != Asking then w
      else if w.entry.Tracked? then At(w, c, Querying(w.entry.agg.version, false))
      else if w.entry.Untracked? then At(w, c, Querying(-1, true))
      else At(w, c, Away).(entry := Untracked, holder := None)
    case QueryStore(c) =>
      if !me.phase.Querying? then w else At(w, c, Merging(Query(w.log, me.phase.from), me.phase.afresh))
    case Merge(c) =>
      if !me.phase.Merging? then w else Merged(b, w, c, me.phase.events, me.phase.afresh)
    case Apply(c, e) =>
      if me.phase != Holding || !w.entry.Tracked? || (e.id != "" && e.id != id) then w
      else w.(entry := Tracked(Applied(b, w.entry.agg, e)), applied := w.applied + [e.payload],
              clients := w.clients[c := me.(dirty := true)])
    case SaveLock(c) =>
      if me.phase == Holding && w.holder == None then At(w, c, Saving).(holder := Some(c)) else w
    case Flush(c) =>
      if me.phase != Saving || !w.entry.Tracked? then w
      else w.(entry := Tracked(AfterFlush(w.entry.agg)), inFlight := Flushed(w.entry.agg),
              clients := w.clients[c := Client(Appending, false)])
    case Append(c) =>
      if me.phase != Appending || |w.inFlight| == 0 then w
      else if HasVersion(w.log, w.inFlight[0].version) then
        At(w, c, Away).(entry := Untracked, inFlight := [], holder := None)
      else w.(log := w.log + [w.inFlight[0]], inFlight := w.inFlight[1..])
    case SaveUnlock(c) =>
      if me.phase == Appending && |w.inFlight| == 0 then At(w, c, Holding).(holder := None) else w
  }

  function Run<S, P>(b: Behaviour<S, P>, id: string, log: seq<Event<P>>, steps: seq<Step<P>>): World<S, P> {
    if |steps| == 0 then World(log, Untracked, [], None, map[], [])
    else Do(b, id, Run(b, id, log, steps[..|steps| - 1]), steps[|steps| - 1])
  }

  // ---- the invariant ----------------------------------------------------------------------

  predicate Locked<P>(phase: Phase<P>) {
    phase != Away && phase != Holding
  }

  predicate Refers<P>(phase: Phase<P>) {
    phase == Holding || phase == Saving || phase == Appending
  }

  /** The shared object holds the log, the batch in flight and the unsaved changes, and these are the
      events there were at the start followed by every change applied since. */
  ghost predicate DataOk<S, P>(b: Behaviour<S, P>, id: string, start: seq<Event<P>>, w: World<S, P>) {
    var all := w.log + w.inFlight;
    && start <= w.log && Contiguous(all) && OwnedBy(all, id)
    && (match w.entry
        case Tracked(a) =>
          && a == Held(b, id, all, a.changes) && OwnChanges(a.changes, id)
          && Payloads(all) + Payloads(a.changes) == Payloads(start) + w.applied
        case Untracked => w.inFlight == [] && w.applied == [] && w.log == start
        case TrackedNull => false)
  }

  /** What a client knows in its phase; `mine` says whether it has the lock. */
  ghost predicate ClientOk<S, P>(w: World<S, P>, phase: Phase<P>, mine: bool) {
    && (Locked(phase) <==> mine)
    && (Refers(phase) ==> w.entry.Tracked?)
    && (w.inFlight != [] && mine ==> phase == Appending)
    && (phase.Querying? ==> if phase.afresh then w.entry.Untracked? && phase.from == -1
                            else w.entry.Tracked? && phase.from == w.entry.agg.version)
    && (phase.Merging? ==> if phase.afresh then w.entry.Untracked? && phase.events == w.log
                           else w.entry.Tracked? && phase.events == [])
  }

  ghost predicate ClientsOk<S, P>(w: World<S, P>) {
    && (forall c: nat :: ClientOk(w, ClientOf(w, c).phase, w.holder == Some(c)))
    && (w.inFlight != [] ==> w.holder.Some?)
  }

  /** Unsaved changes belong to somebody who has not flushed since. */
  ghost predicate DirtOk<S, P>(w: World<S, P>) {
    w.entry.Tracked? && w.entry.agg.changes != [] ==> exists c :: c in w.clients && w.clients[c].dirty
  }

  ghost predicate Inv<S, P>(b: Behaviour<S, P>, id: string, start: seq<Event<P>>, w: World<S, P>) {
    DataOk(b, id, start, w) && ClientsOk(w) && DirtOk(w)
  }

  ghost predicate Startable<P>(id: string, start: seq<Event<P>>) {
    id != "" && start != [] && Contiguous(start) && OwnedBy(start, id)
  }

  /** Only client `c` moved, and if somebody else has the lock then only the shared aggregate's unsaved
      changes may differ: everybody else still knows what they knew. */
  lemma OneMoved<S, P>(w: World<S, P>, w': World<S, P>, c: nat)
    requires ClientsOk(w)
    requires forall d: nat :: d != c ==> ClientOf(w', d) == ClientOf(w, d)
    requires ClientOk(w', ClientOf(w', c).phase, w'.holder == Some(c))
    requires w'.holder == w.holder
        || ((w.holder == None || w.holder == Some(c)) && (w'.holder == None || w'.holder == Some(c)))
    requires w.holder.Some? && w.holder.value != c ==>
               w'.log == w.log && w'.inFlight == w.inFlight
               && w.entry.Tracked? == w'.entry.Tracked? && w.entry.Untracked? == w'.entry.Untracked?
               && (w.entry.Tracked? ==> w'.entry.agg.version == w.entry.agg.version)
    requires w.entry.Tracked? ==> w'.entry.Tracked?
    requires w'.inFlight != [] ==> w'.holder.Some?
    ensures ClientsOk(w')
  {
    forall d: nat ensures ClientOk(w', ClientOf(w', d).phase, w'.holder == Some(d)) {
      assert ClientOk(w, ClientOf(w, d).phase, w.holder == Some(d));
    }
  }

  /** Outside a save's append loop the lock holder sees a log that is complete. */
  lemma CompleteLog<S, P>(b: Behaviour<S, P>, id: string, start: seq<Event<P>>, w: World<S, P>, c: nat)
    requires Inv(b, id, start, w) && w.holder == Some(c) && ClientOf(w, c).phase != Appending
    ensures w.inFlight == [] && w.log + w.inFlight == w.log && Contiguous(w.log) && OwnedBy(w.log, id)
    ensures w.entry.Tracked? ==> w.entry.agg == Held(b, id, w.log, w.entry.agg.changes)
  {
    assert ClientOk(w, ClientOf(w, c).phase, w.holder == Some(c));
    assert w.log + [] == w.log;
  }

  lemma SameData<S, P>(b: Behaviour<S, P>, id: string, start: seq<Event<P>>, w: World<S, P>, w': World<S, P>)
    requires DataOk(b, id, start, w)
    requires w'.log == w.log && w'.inFlight == w.inFlight && w'.entry == w.entry && w'.applied == w.applied
    ensures DataOk(b, id, start, w')
  {
  }

  /** A client's own phase or the lock changed, the data did not. */
  lemma DataUntouched<S, P>(b: Behaviour<S, P>, id: string, start: seq<Event<P>>, w: World<S, P>, w': World<S, P>,
                            c: nat)
    requires Inv(b, id, start, w)
    requires w'.log == w.log && w'.inFlight == w.inFlight && w'.entry == w.entry && w'.applied == w.applied
    requires w'.clients == w.clients[c := ClientOf(w', c)] && ClientOf(w', c).dirty == ClientOf(w, c).dirty
    requires ClientOk(w', ClientOf(w', c).phase, w'.holder == Some(c))
    requires w'.holder == w.holder
        || ((w.holder == None || w.holder == Some(c)) && (w'.holder == None || w'.holder == Some(c)))
    requires w'.inFlight != [] ==> w'.holder.Some?
    ensures Inv(b, id, start, w')
  {
    SameData(b, id, start, w, w');
    hide DataOk;
    OneMoved(w, w', c);
    DirtKeeps(w, w', c);
  }

  /** Taking or releasing the lock and looking into the cache change no data. */
  lemma LookKeeps<S, P>(b: Behaviour<S, P>, id: string, start: seq<Event<P>>, w: World<S, P>, step: Step<P>)
    requires Inv(b, id, start, w)
    requires step.GetLock? || step.Look? || step.SaveLock? || step.SaveUnlock?
    ensures Inv(b, id, start, Do(b, id, w, step))
  {
    assert ClientOk(w, ClientOf(w, step.c).phase, w.holder == Some(step.c));
    assert w.entry != TrackedNull;
    hide Held, Contiguous, OwnedBy, Payloads;
    if Do(b, id, w, step) != w {
      DataUntouched(b, id, start, w, Do(b, id, w, step), step.c);
    }
  }

  /** A catch-up query finds nothing new: all writers share the object. */
  lemma QueryKeeps<S, P>(b: Behaviour<S, P>, id: string, start: seq<Event<P>>, w: World<S, P>, c: nat)
    requires Inv(b, id, start, w) && ClientOf(w, c).phase.Querying?
    ensures Inv(b, id, start, Do(b, id, w, QueryStore(c)))
  {
    var me := ClientOf(w, c);
    assert ClientOk(w, me.phase, w.holder == Some(c));
    CompleteLog(b, id, start, w, c);
    QueryIsSlice(w.log, me.phase.from);
    hide Query, Contiguous, OwnedBy, Payloads;
    DataUntouched(b, id, start, w, Do(b, id, w, QueryStore(c)), c);
  }

  lemma DirtKeeps<S, P>(w: World<S, P>, w': World<S, P>, c: nat)
    requires DirtOk(w) && w'.entry == w.entry && c in w'.clients && w'.clients[c].dirty == ClientOf(w, c).dirty
    requires forall d: nat :: d != c ==> (d in w'.clients <==> d in w.clients) && ClientOf(w', d) == ClientOf(w, d)
    ensures DirtOk(w')
  {
    if d :| d in w.clients && w.clients[d].dirty {
      assert d in w'.clients && w'.clients[d].dirty;
    }
  }

  /** A get finds the cached object up to date, or loads the whole log because nobody cached it before. */
  lemma MergeKeeps<S, P>(b: Behaviour<S, P>, id: string, start: seq<Event<P>>, w: World<S, P>, c: nat)
    requires Startable(id, start) && Inv(b, id, start, w) && ClientOf(w, c).phase.Merging?
    ensures Inv(b, id, start, Do(b, id, w, Merge(c)))
  {
    hide Query, Contiguous, OwnedBy, Payloads, Held, Loaded;
    var me := ClientOf(w, c);
    assert ClientOk(w, me.phase, w.holder == Some(c));
    CompleteLog(b, id, start, w, c);
    var w' := Do(b, id, w, Merge(c));
    if me.phase.afresh {
      LoadWholeLog(b, id, w.log);
      assert w.log != [];
      assert w'.entry == Tracked(Held(b, id, w.log, []));
      hide Do;
      LoadedData(b, id, start, w, w');
    } else {
      NothingLoaded(b, w.entry.agg);
      assert w'.entry == w.entry;
      hide Do;
      SameData(b, id, start, w, w');
      DirtKeeps(w, w', c);
    }
    hide DataOk;
    OneMoved(w, w', c);
  }

  lemma NothingLoaded<S, P>(b: Behaviour<S, P>, a: Agg<S, P>)
    ensures Loaded(b, a, []) == (a, true)
  {
  }

  lemma LoadedData<S, P>(b: Behaviour<S, P>, id: string, start: seq<Event<P>>, w: World<S, P>, w': World<S, P>)
    requires DataOk(b, id, start, w) && w.entry.Untracked?
    requires w'.log == w.log && w'.inFlight == w.inFlight && w'.applied == w.applied
    requires w'.entry == Tracked(Held(b, id, w.log, []))
    ensures DataOk(b, id, start, w') && w'.entry.agg.changes == []
  {
    assert w.log + [] == w.log && Payloads<P>([]) == [] && Payloads(start) + [] == Payloads(start);
  }

  /** A change reaches the shared object whoever has the lock. */
  lemma ApplyKeeps<S, P>(b: Behaviour<S, P>, id: string, start: seq<Event<P>>, w: World<S, P>, c: nat, e: Event<P>)
    requires Inv(b, id, start, w)
    ensures Inv(b, id, start, Do(b, id, w, Apply(c, e)))
  {
    hide DataOk, Applied, Query, Loaded, Flushed, AfterFlush, HasVersion;
    var w' := Do(b, id, w, Apply(c, e));
    if w' != w {
      assert ClientOk(w, ClientOf(w, c).phase, w.holder == Some(c));
      AppliedData(b, id, start, w, w', e);
      AppliedVersion(b, w.entry.agg, e);
      hide Do;
      OneMoved(w, w', c);
      assert c in w'.clients && w'.clients[c].dirty;
    }
  }

  lemma AppliedVersion<S, P>(b: Behaviour<S, P>, a: Agg<S, P>, e: Event<P>)
    ensures Applied(b, a, e).version == a.version
  {
  }

  lemma AppliedData<S, P>(b: Behaviour<S, P>, id: string, start: seq<Event<P>>, w: World<S, P>, w': World<S, P>,
                          e: Event<P>)
    requires DataOk(b, id, start, w) && w.entry.Tracked? && (e.id == "" || e.id == id)
    requires w'.log == w.log && w'.inFlight == w.inFlight
    requires w'.entry == Tracked(Applied(b, w.entry.agg, e)) && w'.applied == w.applied + [e.payload]
    ensures DataOk(b, id, start, w')
  {
    var a := w.entry.agg;
    AppliedToHeld(b, id, w.log + w.inFlight, a.changes, e);
    PayloadsConcat(a.changes, [e]);
    assert Payloads([e]) == [e.payload];
    hide Held, Payloads;
    assert Payloads(w.log + w.inFlight) + (Payloads(a.changes) + [e.payload])
        == Payloads(w.log + w.inFlight) + Payloads(a.changes) + [e.payload];
    assert Payloads(start) + w.applied + [e.payload] == Payloads(start) + (w.applied + [e.payload]);
  }

  lemma FlushKeeps<S, P>(b: Behaviour<S, P>, id: string, start: seq<Event<P>>, w: World<S, P>, c: nat)
    requires Startable(id, start) && Inv(b, id, start, w) && ClientOf(w, c).phase == Saving
    ensures Inv(b, id, start, Do(b, id, w, Flush(c)))
  {
    hide Held, Flushed, AfterFlush, Payloads, Contiguous, OwnedBy, OwnChanges;
    assert ClientOk(w, ClientOf(w, c).phase, w.holder == Some(c));
    CompleteLog(b, id, start, w, c);
    var w', a := Do(b, id, w, Flush(c)), w.entry.agg;
    FlushExtendsLog(b, id, w.log, a.changes);
    assert w'.log == w.log && w'.inFlight == Flushed(a) && w'.entry == Tracked(AfterFlush(a))
        && w'.applied == w.applied;
    FlushedData(b, id, start, w, w');
    FlushedDirt(w, w');
    hide DataOk;
    OneMoved(w, w', c);
  }

  lemma FlushedDirt<S, P>(w: World<S, P>, w': World<S, P>)
    requires w.entry.Tracked? && w'.entry == Tracked(AfterFlush(w.entry.agg))
    ensures DirtOk(w') && w'.entry.agg.changes == []
  {
  }

  lemma FlushedData<S, P>(b: Behaviour<S, P>, id: string, start: seq<Event<P>>, w: World<S, P>, w': World<S, P>)
    requires DataOk(b, id, start, w) && w.entry.Tracked? && w.inFlight == [] && w.log + w.inFlight == w.log
    requires w'.log == w.log && w'.inFlight == Flushed(w.entry.agg) && w'.applied == w.applied
    requires w'.entry == Tracked(AfterFlush(w.entry.agg))
    requires Contiguous(w.log + Flushed(w.entry.agg)) && OwnedBy(w.log + Flushed(w.entry.agg), id)
    requires AfterFlush(w.entry.agg) == Held(b, id, w.log + Flushed(w.entry.agg), [])
    ensures DataOk(b, id, start, w')
  {
    var a := w.entry.agg;
    PayloadsConcat(w.log, Flushed(a));
    FlushKeepsMeaning(a);
    assert Payloads<P>([]) == [];
    hide Held, Flushed, AfterFlush, Payloads, Contiguous, OwnedBy;
    assert Payloads(w.log + w'.inFlight) + [] == Payloads(w.log) + Payloads(a.changes);
  }

  /** The key rejects nothing: the batch in flight starts right after the log. */
  lemma AppendKeeps<S, P>(b: Behaviour<S, P>, id: string, start: seq<Event<P>>, w: World<S, P>, c: nat)
    requires Inv(b, id, start, w) && ClientOf(w, c).phase == Appending && |w.inFlight| != 0
    ensures Inv(b, id, start, Do(b, id, w, Append(c)))
    ensures Do(b, id, w, Append(c)).log == w.log + [w.inFlight[0]]
  {
    assert ClientOk(w, ClientOf(w, c).phase, w.holder == Some(c));
    var all := w.log + w.inFlight;
    assert all[|w.log|] == w.inFlight[0] && forall i :: 0 <= i < |w.log| ==> w.log[i] == all[i];
    ContiguousHas(w.log, w.inFlight[0].version);
    var w' := Do(b, id, w, Append(c));
    assert w'.log + w'.inFlight == all;
    OneMoved(w, w', c);
  }

  /** In every reachable state the shared aggregate holds log, batch in flight and unsaved changes. */
  lemma {:induction false} AlwaysWhole<S, P>(b: Behaviour<S, P>, id: string, start: seq<Event<P>>, steps: seq<Step<P>>)
    requires Startable(id, start)
    ensures Inv(b, id, start, Run(b, id, start, steps))
  {
    if |steps| == 0 {
      assert start + [] == start && Payloads(start) + [] == Payloads(start);
    } else {
      AlwaysWhole(b, id, start, steps[..|steps| - 1]);
      StepKeeps(b, id, start, Run(b, id, start, steps[..|steps| - 1]), steps[|steps| - 1]);
    }
  }

  lemma {:induction false} StepKeeps<S, P>(b: Behaviour<S, P>, id: string, start: seq<Event<P>>, w: World<S, P>,
                                           step: Step<P>)
    requires Startable(id, start) && Inv(b, id, start, w)
    ensures Inv(b, id, start, Do(b, id, w, step))
  {
    hide Inv;
    match step
    case QueryStore(c) => if ClientOf(w, c).phase.Querying? { QueryKeeps(b, id, start, w, c); }
    case Merge(c) => if ClientOf(w, c).phase.Merging? { MergeKeeps(b, id, start, w, c); }
    case Apply(c, e) => ApplyKeeps(b, id, start, w, c, e);
    case Flush(c) => if ClientOf(w, c).phase == Saving { FlushKeeps(b, id, start, w, c); }
    case Append(c) => if ClientOf(w, c).phase == Appending && |w.inFlight| != 0 { AppendKeeps(b, id, start, w, c); }
    case _ => LookKeeps(b, id, start, w, step);
  }

  /** What the invariant says of the shared object, in every reachable state in which it is cached: its state
      is the replay of log, batch in flight and unsaved changes, and its version counts the first two. */
  lemma {:induction false} SharedStateIsReplay<S, P>(b: Behaviour<S, P>, id: string, start: seq<Event<P>>,
                                                     steps: seq<Step<P>>)
    requires Startable(id, start)
    ensures var w := Run(b, id, start, steps);
            && Contiguous(w.log) && start <= w.log
            && (w.entry.Tracked? ==>
                  && w.entry.agg.version == |w.log| + |w.inFlight|
                  && w.entry.agg.state == Replay(b, w.log + w.inFlight + w.entry.agg.changes))
  {
    AlwaysWhole(b, id, start, steps);
    var w := Run(b, id, start, steps);
    assert forall i :: 0 <= i < |w.log| ==> w.log[i] == (w.log + w.inFlight)[i];
    if w.entry.Tracked? {
      FoldConcat(b, b.initial, w.log + w.inFlight, w.entry.agg.changes);
    }
  }

  /** Once the lock is free and every client that changed the aggregate has flushed since, every change
      ever applied is in the log, once, in the order it was applied. */
  lemma {:induction false} NothingLeftBehind<S, P>(b: Behaviour<S, P>, id: string, start: seq<Event<P>>,
                                                   steps: seq<Step<P>>)
    requires Startable(id, start)
    ensures var w := Run(b, id, start, steps);
            w.holder == None && (forall c :: c in w.clients ==> !w.clients[c].dirty) ==>
              Payloads(w.log) == Payloads(start) + w.applied
  {
    AlwaysWhole(b, id, start, steps);
    var w := Run(b, id, start, steps);
    if w.holder == None && (forall c :: c in w.clients ==> !w.clients[c].dirty) {
      assert w.inFlight == [] && w.log + w.inFlight == w.log;
      if w.entry.Tracked? {
        assert Payloads(w.log) + Payloads(w.entry.agg.changes) == Payloads(w.log);
      } else {
        assert Payloads(start) + [] == Payloads(start);
      }
    }
  }

  // ---- an undisturbed get -----------------------------------------------------------------

  function DoAll<S, P>(b: Behaviour<S, P>, id: string, w: World<S, P>, steps: seq<Step<P>>): World<S, P>
    decreases |steps|
  {
    if |steps| == 0 then w else DoAll(b, id, Do(b, id, w, steps[0]), steps[1..])
  }

  /** The steps of one get; the last two are taken only when the cached object turned out unusable. */
  function GetSteps<P>(c: nat): seq<Step<P>> {
    [GetLock(c), Look(c), QueryStore(c), Merge(c), QueryStore(c), Merge(c)]
  }

  lemma UnfoldGet<S, P>(b: Behaviour<S, P>, id: string, w: World<S, P>, c: nat)
    ensures DoAll(b, id, w, GetSteps(c)) ==
            var looked := Do(b, id, Do(b, id, w, GetLock(c)), Look(c));
            var merged := Do(b, id, Do(b, id, looked, QueryStore(c)), Merge(c));
            Do(b, id, Do(b, id, merged, QueryStore(c)), Merge(c))
  {
    hide Do;
    var locked := Do(b, id, w, GetLock(c));
    var looked := Do(b, id, locked, Look(c));
    var read := Do(b, id, looked, QueryStore(c));
    var merged := Do(b, id, read, Merge(c));
    var again := Do(b, id, merged, QueryStore(c));
    DoFirst(b, id, w, GetLock(c), [Look(c), QueryStore(c), Merge(c), QueryStore(c), Merge(c)]);
    DoFirst(b, id, locked, Look(c), [QueryStore(c), Merge(c), QueryStore(c), Merge(c)]);
    DoFirst(b, id, looked, QueryStore(c), [Merge(c), QueryStore(c), Merge(c)]);
    DoFirst(b, id, read, Merge(c), [QueryStore(c), Merge(c)]);
    DoFirst(b, id, merged, QueryStore(c), [Merge(c)]);
    DoFirst(b, id, again, Merge(c), []);
  }

  lemma DoFirst<S, P>(b: Behaviour<S, P>, id: string, w: World<S, P>, step: Step<P>, rest: seq<Step<P>>)
    ensures DoAll(b, id, w, [step] + rest) == DoAll(b, id, Do(b, id, w, step), rest)
    ensures DoAll(b, id, w, []) == w
  {
    assert ([step] + rest)[1..] == rest;
  }

  /** `CacheGet` is what those steps come to when nobody else takes any: same entry, lock free again, and the
      client holds the aggregate if and only if the get handed one out. */
  lemma {:induction false} GetIsARun<S, P>(b: Behaviour<S, P>, id: string, w: World<S, P>, c: nat)
    requires w.holder == None && (ClientOf(w, c).phase == Away || ClientOf(w, c).phase == Holding)
    ensures var after := DoAll(b, id, w, GetSteps(c));
            var (entry, answer) := CacheGet(b, w.log, w.entry, true);
            && after.entry == entry && after.log == w.log && after.holder == None
            && (ClientOf(after, c).phase == Holding <==> answer.Got?)
  {
    UnfoldGet(b, id, w, c);
    hide DoAll;
    var locked := Do(b, id, w, GetLock(c));
    assert ClientOf(locked, c).phase == Asking && locked.log == w.log && locked.entry == w.entry;
    var looked := Do(b, id, locked, Look(c));
    if w.entry.TrackedNull? {
      assert ClientOf(looked, c).phase == Away;
      Idles(b, id, looked, c);
    } else if w.entry.Untracked? {
      assert ClientOf(looked, c).phase == Querying(-1, true) && looked.log == w.log && looked.entry == Untracked;
      MergedAfresh(b, id, looked, c);
      Idles(b, id, Do(b, id, Do(b, id, looked, QueryStore(c)), Merge(c)), c);
    } else {
      assert ClientOf(looked, c).phase == Querying(w.entry.agg.version, false) && looked.log == w.log
          && looked.entry == w.entry;
      MergedCached(b, id, looked, c);
      var merged := Do(b, id, Do(b, id, looked, QueryStore(c)), Merge(c));
      hide Do;
      if ClientOf(merged, c).phase.Querying? {
        MergedAfresh(b, id, merged, c);
      } else {
        Idles(b, id, merged, c);
      }
    }
  }

  lemma Idles<S, P>(b: Behaviour<S, P>, id: string, w: World<S, P>, c: nat)
    requires ClientOf(w, c).phase == Away || ClientOf(w, c).phase == Holding
    ensures Do(b, id, w, QueryStore(c)) == w && Do(b, id, w, Merge(c)) == w
  {
  }

  lemma MergedAfresh<S, P>(b: Behaviour<S, P>, id: string, w: World<S, P>, c: nat)
    requires ClientOf(w, c).phase == Querying(-1, true)
    ensures var after := Do(b, id, Do(b, id, w, QueryStore(c)), Merge(c));
            var (entry, answer) := LoadAndCache(b, w.log);
            && after.entry == entry && after.log == w.log && after.holder == None
            && ClientOf(after, c).phase == if answer.Got? then Holding else Away
  {
    hide Query, Loaded;
    assert ClientOf(Do(b, id, w, QueryStore(c)), c).phase == Merging(Query(w.log, -1), true);
  }

  lemma MergedCached<S, P>(b: Behaviour<S, P>, id: string, w: World<S, P>, c: nat)
    requires w.entry.Tracked? && ClientOf(w, c).phase == Querying(w.entry.agg.version, false)
    ensures var after := Do(b, id, Do(b, id, w, QueryStore(c)), Merge(c));
            var events := Query(w.log, w.entry.agg.version);
            var (a, ok) := Loaded(b, w.entry.agg, events);
            && after.log == w.log
            && (if |events| != 0 && events[0].version != w.entry.agg.version + 1
                then ClientOf(after, c).phase == Querying(-1, true) && after.entry == Untracked
                else && after.entry == (if ok then Tracked(a) else Untracked) && after.holder == None
                     && ClientOf(after, c).phase == if ok then Holding else Away)
  {
    hide Query, Loaded;
    assert ClientOf(Do(b, id, w, QueryStore(c)), c).phase == Merging(Query(w.log, w.entry.agg.version), false);
  }

  // ---- an undisturbed change and save -----------------------------------------------------

  function Appends<P>(c: nat, n: nat): seq<Step<P>> {
    seq(n, _ => Append(c))
  }

  /** The steps of one save of `n` pending events. */
  function SaveSteps<P>(c: nat, n: nat): seq<Step<P>> {
    [SaveLock(c)] + ([Flush(c)] + (Appends(c, n) + [SaveUnlock(c)]))
  }

  lemma AppendsFirst<P>(c: nat, n: nat, last: seq<Step<P>>)
    ensures Appends(c, n) + last == if n == 0 then last else [Append(c)] + (Appends(c, n - 1) + last)
  {
  }

  lemma TakesLock<S, P>(b: Behaviour<S, P>, id: string, w: World<S, P>, c: nat)
    requires w.holder == None && ClientOf(w, c).phase == Holding
    ensures Do(b, id, w, SaveLock(c))
            == w.(clients := w.clients[c := Client(Saving, ClientOf(w, c).dirty)], holder := Some(c))
  {
  }

  lemma Flushing<S, P>(b: Behaviour<S, P>, id: string, w: World<S, P>, c: nat)
    requires ClientOf(w, c).phase == Saving && w.entry.Tracked?
    ensures Do(b, id, w, Flush(c))
            == w.(clients := w.clients[c := Client(Appending, false)], inFlight := Flushed(w.entry.agg),
                  entry := Tracked(AfterFlush(w.entry.agg)))
  {
    hide Flushed, AfterFlush;
  }

  lemma {:induction false} AppendsAll<S, P>(b: Behaviour<S, P>, id: string, w: World<S, P>, c: nat)
    requires ClientOf(w, c) == Client(Appending, false) && Contiguous(w.log + w.inFlight)
    ensures DoAll(b, id, w, Appends(c, |w.inFlight|) + [SaveUnlock(c)])
            == w.(log := w.log + w.inFlight, inFlight := [], holder := None,
                  clients := w.clients[c := Client(Holding, false)])
    decreases |w.inFlight|
  {
    hide DoAll;
    AppendsFirst<P>(c, |w.inFlight|, [SaveUnlock(c)]);
    hide Appends;
    if |w.inFlight| == 0 {
      var none: seq<Step<P>> := [];
      assert [SaveUnlock(c)] + none == [SaveUnlock(c)] && w.log + [] == w.log;
      DoFirst(b, id, w, SaveUnlock(c), none);
      DoFirst(b, id, Do(b, id, w, SaveUnlock(c)), SaveUnlock(c), none);
    } else {
      DoFirst(b, id, w, Append(c), Appends(c, |w.inFlight| - 1) + [SaveUnlock(c)]);
      var w' := AppendsOne(b, id, w, c);
      hide Do;
      AppendsAll(b, id, w', c);
      assert w.log + [w.inFlight[0]] + w.inFlight[1..] == w.log + w.inFlight;
    }
  }

  lemma AppendsOne<S, P>(b: Behaviour<S, P>, id: string, w: World<S, P>, c: nat) returns (w': World<S, P>)
    requires ClientOf(w, c) == Client(Appending, false) && Contiguous(w.log + w.inFlight) && w.inFlight != []
    ensures w' == Do(b, id, w, Append(c)) == w.(log := w.log + [w.inFlight[0]], inFlight := w.inFlight[1..])
    ensures Contiguous(w'.log + w'.inFlight)
  {
    w' := Do(b, id, w, Append(c));
    assert (w.log + w.inFlight)[|w.log|] == w.inFlight[0];
    assert forall i :: 0 <= i < |w.log| ==> (w.log + w.inFlight)[i] == w.log[i];
    assert w.log + [w.inFlight[0]] + w.inFlight[1..] == w.log + w.inFlight;
  }

  /** From any reachable world with the lock free: the steps of a save that nobody disturbs put every unsaved change
      into the log, in order, leave the shared aggregate flushed, and release the lock. */
  lemma {:induction false} SaveIsARun<S, P>(b: Behaviour<S, P>, id: string, start: seq<Event<P>>, w: World<S, P>,
                                            c: nat)
    requires Startable(id, start) && Inv(b, id, start, w) && w.holder == None && ClientOf(w, c).phase == Holding
    ensures w.entry.Tracked?
    ensures var a := w.entry.agg;
            DoAll(b, id, w, SaveSteps(c, |a.changes|))
            == w.(log := w.log + Flushed(a), entry := Tracked(AfterFlush(a)), inFlight := [], holder := None,
                  clients := w.clients[c := Client(Holding, false)])
  {
    hide DoAll, Do, Flushed, AfterFlush, Contiguous, OwnedBy, Held;
    AtRest(b, id, start, w, c);
    var a := w.entry.agg;
    var rest := Appends(c, |a.changes|) + [SaveUnlock(c)];
    DoFirst(b, id, w, SaveLock(c), [Flush(c)] + rest);
    TakesLock(b, id, w, c);
    var locked := Do(b, id, w, SaveLock(c));
    DoFirst(b, id, locked, Flush(c), rest);
    Flushing(b, id, locked, c);
    FlushExtendsLog(b, id, w.log, a.changes);
    FlushedAll(a);
    AppendsAll(b, id, Do(b, id, locked, Flush(c)), c);
    var saving, appending, holding := Client(Saving, ClientOf(w, c).dirty), Client(Appending, false),
                                      Client(Holding, false);
    assert w.clients[c := saving][c := appending][c := holding] == w.clients[c := holding];
  }

  /** That is what the cached repository's save promises when nothing fails. */
  lemma {:induction false} SaveRunIsSave<S, P>(b: Behaviour<S, P>, id: string, start: seq<Event<P>>, w: World<S, P>,
                                               c: nat, rows: map<string, seq<Event<P>>>, faults: nat -> Fault)
    requires Startable(id, start) && Inv(b, id, start, w) && w.holder == None && ClientOf(w, c).phase == Holding
    requires RowsOf(rows, id) == w.log && forall j :: faults(j) == NoFault
    ensures w.entry.Tracked?
    ensures var a := w.entry.agg;
            SavedAs(rows, id, a, None, faults, DoAll(b, id, w, SaveSteps(c, |a.changes|)).log, true)
  {
    hide DoAll, SaveSteps, Inv, Held, StoresExactly, Flushed, CanFlush;
    AtRest(b, id, start, w, c);
    SaveIsARun(b, id, start, w, c);
    var a := w.entry.agg;
    FlushedAll(a);
    FlushExtendsLog(b, id, w.log, a.changes);
    OwnFlushed(a, id);
    ContinuationStored(rows, id, Flushed(a), faults, |Flushed(a)|);
    SavedInFull(rows, id, a, faults, w.log + Flushed(a));
  }

  lemma SavedInFull<S, P>(rows: map<string, seq<Event<P>>>, id: string, a: Agg<S, P>, faults: nat -> Fault,
                          log: seq<Event<P>>)
    requires CanFlush(a) && StoresExactly(rows, Flushed(a), faults, |Flushed(a)|)
        && log == RowsOf(rows, id) + Flushed(a)
    ensures SavedAs(rows, id, a, None, faults, log, true)
  {
    hide StoresExactly, Flushed, CanFlush;
    var n := |Flushed(a)|;
    assert Flushed(a)[..n] == Flushed(a);
    assert StoresExactly(rows, Flushed(a), faults, n) && log == RowsOf(rows, id) + Flushed(a)[..n];
  }

  lemma OwnFlushed<S, P>(a: Agg<S, P>, id: string)
    requires a.id == id && id != "" && OwnChanges(a.changes, id)
    ensures OwnedBy(Flushed(a), id) && CanFlush(a)
  {
  }

  lemma FlushedAll<S, P>(a: Agg<S, P>)
    ensures |Flushed(a)| == |a.changes|
  {
  }

  /** With the lock free nothing is in flight, and a client that holds the aggregate finds it cached. */
  lemma AtRest<S, P>(b: Behaviour<S, P>, id: string, start: seq<Event<P>>, w: World<S, P>, c: nat)
    requires Startable(id, start) && Inv(b, id, start, w) && w.holder == None && ClientOf(w, c).phase == Holding
    ensures w.entry.Tracked? && w.inFlight == []
    ensures w.entry.agg == Held(b, id, w.log, w.entry.agg.changes) && OwnChanges(w.entry.agg.changes, id)
    ensures w.entry.agg.id == id && Contiguous(w.log) && OwnedBy(w.log, id)
  {
    hide Payloads;
    assert ClientOk(w, ClientOf(w, c).phase, false);
    assert w.log + [] == w.log;
  }

  /** A change and the save after it: the log ends with the payloads that were unsaved and with the change's. */
  lemma {:induction false} ChangeAndSaveIsARun<S, P>(b: Behaviour<S, P>, id: string, start: seq<Event<P>>,
                                                     w: World<S, P>, c: nat, e: Event<P>)
    requires Startable(id, start) && Inv(b, id, start, w) && w.holder == None && ClientOf(w, c).phase == Holding
    requires e.id == "" || e.id == id
    ensures w.entry.Tracked?
    ensures var a := w.entry.agg;
            var after := DoAll(b, id, w, [Apply(c, e)] + SaveSteps(c, |a.changes| + 1));
            && Payloads(after.log) == Payloads(w.log) + Payloads(a.changes) + [e.payload]
            && |after.log| == |w.log| + |a.changes| + 1 && w.log <= after.log && Contiguous(after.log)
            && after.applied == w.applied + [e.payload] && after.holder == None && after.inFlight == []
            && after.entry == Tracked(Held(b, id, after.log, [])) && ClientOf(after, c) == Client(Holding, false)
  {
    hide DoAll, Do, Flushed, Held, SaveSteps, DataOk, ClientsOk, DirtOk;
    AtRest(b, id, start, w, c);
    var a := w.entry.agg;
    ChangeApplied(b, id, w, c, e);
    ApplyKeeps(b, id, start, w, c, e);
    var changed := Do(b, id, w, Apply(c, e));
    DoFirst(b, id, w, Apply(c, e), SaveSteps(c, |a.changes| + 1));
    SaveIsARun(b, id, start, changed, c);
    AtRest(b, id, start, changed, c);
    var all := a.changes + [e];
    assert changed.entry.agg == Held(b, id, w.log, all);
    FlushExtendsLog(b, id, w.log, all);
    FlushKeepsMeaning(changed.entry.agg);
    PayloadsConcat(w.log, Flushed(changed.entry.agg));
    PayloadsConcat(a.changes, [e]);
    assert Payloads([e]) == [e.payload];
    assert Payloads(w.log) + (Payloads(a.changes) + [e.payload]) == Payloads(w.log) + Payloads(a.changes) + [e.payload];
  }

  lemma ChangeApplied<S, P>(b: Behaviour<S, P>, id: string, w: World<S, P>, c: nat, e: Event<P>)
    requires ClientOf(w, c).phase == Holding && w.entry.Tracked? && (e.id == "" || e.id == id)
    ensures var w' := Do(b, id, w, Apply(c, e));
            && w'.entry == Tracked(Applied(b, w.entry.agg, e)) && w'.entry.agg.changes == w.entry.agg.changes + [e]
            && w'.applied == w.applied + [e.payload] && w'.log == w.log && w'.holder == w.holder
            && ClientOf(w', c).phase == Holding
  {
  }
}
