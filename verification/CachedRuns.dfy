/** What a cached repository answers after any sequence of whole calls on one id. */
module CachedRuns {
  import opened Outcomes
  import opened Aggregates
  import opened EventLogs
  import opened SqlStore
  import opened Sessions
  import opened Caching

  datatype World<S, P> = World(log: seq<Event<P>>, entry: Entry<S, P>)

  datatype Call<P> =
    | Get(storeUp: bool)
    | Change(e: Event<P>)                                             // on the cached aggregate
    | Save(expected: Option<int>, faults: nat -> Fault)               // of the cached aggregate
    | SaveOther(v: nat, changes: seq<Event<P>>, expected: Option<int>, faults: nat -> Fault)
                                  // of an object outside the cache, loaded at version v
    | HostAppend(payload: P)                                          // by another host

  /** The log after saving `a`, and whether the save returned. */
  function Stored<S, P>(log: seq<Event<P>>, a: Agg<S, P>, expected: Option<int>, faults: nat -> Fault)
    : (seq<Event<P>>, bool)
  {
    if PassesCheck(log, expected) then StoreRun(log, Flushed(a), faults, 0) else (log, false)
  }

  /** One call; one that is not enabled changes nothing. In sequential use nobody asks for the aggregate
      while another request's changes to it are unsaved. */
  function Do<S, P>(b: Behaviour<S, P>, id: string, w: World<S, P>, call: Call<P>): World<S, P> {
    match call
    case Get(storeUp) =>
      if w.entry.Tracked? && |w.entry.agg.changes| != 0 then w
      else w.(entry := CacheGet(b, w.log, w.entry, storeUp).0)
    case Change(e) =>
      if w.entry.Tracked? && (e.id == "" || e.id == id) then w.(entry := Tracked(Applied(b, w.entry.agg, e))) else w
    case Save(expected, faults) =>
      if !w.entry.Tracked? then w
      else
        var (log, ok) := Stored(w.log, w.entry.agg, expected, faults);
        World(log, if ok then Tracked(AfterFlush(w.entry.agg)) else Untracked)
    case SaveOther(v, changes, expected, faults) =>
      if v > |w.log| || !OwnChanges(changes, id) then w
      else
        var a := Held(b, id, w.log[..v], changes);
        var (log, ok) := Stored(w.log, a, expected, faults);
        World(log, if !ok then Untracked else if w.entry.Untracked? then Tracked(AfterFlush(a)) else w.entry)
    case HostAppend(payload) =>
      w.(log := w.log + [Event(id, |w.log| + 1, payload)])
  }

  function Run<S, P>(b: Behaviour<S, P>, id: string, calls: seq<Call<P>>): World<S, P> {
    if |calls| == 0 then World([], Untracked) else Do(b, id, Run(b, id, calls[..|calls| - 1]), calls[|calls| - 1])
  }

  /** The cached aggregate lags behind the log at most; it never holds anything the log does not
      continue from, apart from its own unsaved changes. */
  ghost predicate Inv<S, P>(b: Behaviour<S, P>, id: string, w: World<S, P>) {
    && Contiguous(w.log) && OwnedBy(w.log, id)
    && (w.entry.Tracked? ==>
          var a := w.entry.agg;
          0 <= a.version <= |w.log| && a == Held(b, id, w.log[..a.version], a.changes) && OwnChanges(a.changes, id))
  }

  /** A batch numbered from version `v` extends a log only if the log ends at `v`. */
  lemma {:induction false} StoreRunExtends<P>(id: string, log: seq<Event<P>>, es: seq<Event<P>>, v: nat,
                                              faults: nat -> Fault, i: nat)
    requires Contiguous(log) && OwnedBy(log, id) && v <= |log|
    requires forall k :: 0 <= k < |es| ==> es[k].version == v + 1 + k && es[k].id == id
    ensures var (log', ok) := StoreRun(log, es, faults, i);
            && Contiguous(log') && OwnedBy(log', id) && log <= log'
            && (ok ==> log' == log + es && (es == [] || v == |log|))
    decreases |es|
  {
    if |es| != 0 && Storable(log, es[0], faults(i)) {
      ContiguousHas(log, v + 1);
      StoreRunExtends(id, log + [es[0]], es[1..], v + 1, faults, i + 1);
      assert log + es == log + [es[0]] + es[1..];
    }
  }

  lemma {:induction false} StoredKeeps<S, P>(b: Behaviour<S, P>, id: string, log: seq<Event<P>>, a: Agg<S, P>,
                                             expected: Option<int>, faults: nat -> Fault)
    requires id != "" && Contiguous(log) && OwnedBy(log, id) && 0 <= a.version <= |log|
    requires a == Held(b, id, log[..a.version], a.changes) && OwnChanges(a.changes, id)
    ensures var (log', ok) := Stored(log, a, expected, faults);
            && Contiguous(log') && OwnedBy(log', id) && log <= log'
            && (ok ==>
                  && AfterFlush(a).version <= |log'|
                  && AfterFlush(a) == Held(b, id, log'[..AfterFlush(a).version], []))
  {
    var base, batch := log[..a.version], Flushed(a);
    FlushExtendsLog(b, id, base, a.changes);
    BatchOf(base, batch, id);
    hide Held, Flushed, PassesCheck, Fold, StoreRun, Contiguous, OwnedBy;
    if PassesCheck(log, expected) {
      StoreRunExtends(id, log, batch, a.version, faults, 0);
      var (log', ok) := Stored(log, a, expected, faults);
      if ok {
        PrefixWithBatch(log, batch, a.version);
      }
    }
  }

  lemma PrefixWithBatch<P>(log: seq<Event<P>>, batch: seq<Event<P>>, v: nat)
    requires v <= |log| && (batch == [] || v == |log|)
    ensures (log + batch)[..v + |batch|] == log[..v] + batch
  {
  }

  lemma BatchOf<P>(base: seq<Event<P>>, batch: seq<Event<P>>, id: string)
    requires Contiguous(base + batch) && OwnedBy(base + batch, id)
    ensures forall k :: 0 <= k < |batch| ==> batch[k].version == |base| + 1 + k && batch[k].id == id
  {
    forall k | 0 <= k < |batch| ensures batch[k].version == |base| + 1 + k && batch[k].id == id {
      assert (base + batch)[|base| + k] == batch[k];
    }
  }

  /** Catching up an aggregate without unsaved changes, or loading one, gives the replay of the whole log. */
  lemma {:induction false} GetIsFullLoad<S, P>(b: Behaviour<S, P>, id: string, w: World<S, P>, storeUp: bool)
    requires Inv(b, id, w) && (w.entry.Tracked? ==> w.entry.agg.changes == [])
    ensures var (entry, answer) := CacheGet(b, w.log, w.entry, storeUp);
            && (answer.Throws? <==> !storeUp || w.entry == TrackedNull)
            && match answer
               case Got(a) => a == Held(b, id, w.log, []) && entry == Tracked(a)
               case GotNull => w.log == [] && entry == TrackedNull
               case Throws(_) => entry == Untracked
  {
    hide Query, Loaded, Held, LoadAndCache, Contiguous, OwnedBy;
    LoadsAll(b, id, w.log);
    if w.entry.Tracked? {
      CatchesUp(b, id, w.log, w.entry.agg.version);
    }
  }

  lemma LoadsAll<S, P>(b: Behaviour<S, P>, id: string, log: seq<Event<P>>)
    requires Contiguous(log) && OwnedBy(log, id)
    ensures LoadAndCache(b, log) == if log == [] then (TrackedNull, GotNull)
                                    else (Tracked(Held(b, id, log, [])), Got(Held(b, id, log, [])))
  {
    QueryIsSlice(log, -1);
    LoadWholeLog(b, id, log);
    hide Query, Loaded, Held, Contiguous, OwnedBy;
  }

  lemma CatchesUp<S, P>(b: Behaviour<S, P>, id: string, log: seq<Event<P>>, v: nat)
    requires Contiguous(log) && OwnedBy(log, id) && v <= |log|
    ensures var events := Query(log, v);
            && (|events| != 0 ==> events[0].version == v + 1)
            && Loaded(b, Held(b, id, log[..v], []), events) == (Held(b, id, log, []), true)
  {
    QueryIsSlice(log, v);
    LoadTail(b, id, log, v);
    hide Query, Loaded, Held, OwnedBy;
  }

  /** What is stored at the end leaves a prefix as it was. */
  lemma PrefixStays<S, P>(b: Behaviour<S, P>, id: string, w: World<S, P>, log: seq<Event<P>>)
    requires Inv(b, id, w) && w.log <= log && Contiguous(log) && OwnedBy(log, id)
    ensures Inv(b, id, w.(log := log))
  {
    hide Held, Contiguous, OwnedBy;
    if w.entry.Tracked? {
      assert log[..w.entry.agg.version] == w.log[..w.entry.agg.version];
    }
  }

  lemma NoChangesAreOwn<P>(id: string)
    ensures OwnChanges<P>([], id)
  {
  }

  lemma SaveOtherKeeps<S, P>(b: Behaviour<S, P>, id: string, w: World<S, P>, call: Call<P>)
    requires id != "" && Inv(b, id, w) && call.SaveOther?
    ensures Inv(b, id, Do(b, id, w, call))
  {
    hide Contiguous, OwnedBy, Stored, OwnChanges;
    if call.v <= |w.log| && OwnChanges(call.changes, id) {
      var a := Held(b, id, w.log[..call.v], call.changes);
      assert a.version == call.v && a.changes == call.changes;
      hide Held;
      NoChangesAreOwn<P>(id);
      StoredKeeps(b, id, w.log, a, call.expected, call.faults);
      PrefixStays(b, id, w, Stored(w.log, a, call.expected, call.faults).0);
    }
  }

  lemma SaveKeeps<S, P>(b: Behaviour<S, P>, id: string, w: World<S, P>, call: Call<P>)
    requires id != "" && Inv(b, id, w) && call.Save?
    ensures Inv(b, id, Do(b, id, w, call))
  {
    hide Held, Contiguous, OwnedBy, Stored, OwnChanges;
    if w.entry.Tracked? {
      NoChangesAreOwn<P>(id);
      StoredKeeps(b, id, w.log, w.entry.agg, call.expected, call.faults);
    }
  }

  lemma GetKeeps<S, P>(b: Behaviour<S, P>, id: string, w: World<S, P>, storeUp: bool)
    requires Inv(b, id, w)
    ensures Inv(b, id, Do(b, id, w, Get(storeUp)))
  {
    hide Contiguous, OwnedBy, CacheGet;
    if !(w.entry.Tracked? && |w.entry.agg.changes| != 0) {
      GetIsFullLoad(b, id, w, storeUp);
      assert w.log[..|w.log|] == w.log;
    }
  }

  lemma CallKeeps<S, P>(b: Behaviour<S, P>, id: string, w: World<S, P>, call: Call<P>)
    requires id != "" && Inv(b, id, w)
    ensures Inv(b, id, Do(b, id, w, call))
  {
    hide Held, Applied, Stored, CacheGet;
    match call
    case Get(storeUp) => GetKeeps(b, id, w, storeUp);
    case Change(e) => ChangeKeeps(b, id, w, e);
    case Save(_, _) => SaveKeeps(b, id, w, call);
    case SaveOther(_, _, _, _) => SaveOtherKeeps(b, id, w, call);
    case HostAppend(payload) => PrefixStays(b, id, w, w.log + [Event(id, |w.log| + 1, payload)]);
  }

  lemma ChangeKeeps<S, P>(b: Behaviour<S, P>, id: string, w: World<S, P>, e: Event<P>)
    requires Inv(b, id, w)
    ensures Inv(b, id, Do(b, id, w, Change(e)))
  {
    hide Contiguous, OwnedBy;
    if w.entry.Tracked? {
      AppliedToHeld(b, id, w.log[..w.entry.agg.version], w.entry.agg.changes, e);
    }
  }

  lemma {:induction false} AlwaysInStep<S, P>(b: Behaviour<S, P>, id: string, calls: seq<Call<P>>)
    requires id != ""
    ensures Inv(b, id, Run(b, id, calls))
  {
    if |calls| != 0 {
      AlwaysInStep(b, id, calls[..|calls| - 1]);
      CallKeeps(b, id, Run(b, id, calls[..|calls| - 1]), calls[|calls| - 1]);
    }
  }

  /** After any run of gets, changes, successful and failing saves and appends by other hosts, a get with
      nothing unsaved returns the replay of the whole log, returns null for an empty one, or throws and
      leaves the id untracked. It throws if and only if the store is down or a null is cached. */
  lemma {:induction false} AnyGetIsFullLoad<S, P>(b: Behaviour<S, P>, id: string, calls: seq<Call<P>>, storeUp: bool)
    requires id != ""
    ensures var w := Run(b, id, calls);
            var (entry, answer) := CacheGet(b, w.log, w.entry, storeUp);
            (w.entry.Tracked? ==> w.entry.agg.changes == []) ==>
              && (answer.Throws? <==> !storeUp || w.entry == TrackedNull)
              && match answer
                 case Got(a) => a == Held(b, id, w.log, []) && entry == Tracked(a)
                 case GotNull => w.log == [] && entry == TrackedNull
                 case Throws(_) => entry == Untracked
  {
    AlwaysInStep(b, id, calls);
    var w := Run(b, id, calls);
    if !(w.entry.Tracked? && w.entry.agg.changes != []) {
      GetIsFullLoad(b, id, w, storeUp);
    }
  }

  /** A get that finds nothing spoils the next one: whatever another host stores in between, the next get
      throws, and only the one after it loads. */
  lemma {:induction false} CachedNullThrowsOnce<S, P>(b: Behaviour<S, P>, id: string, es: seq<Event<P>>)
    requires Contiguous(es) && OwnedBy(es, id) && es != []
    ensures var (first, nothing) := CacheGet<S, P>(b, [], Untracked, true);
            var (second, thrown) := CacheGet(b, es, first, true);
            var (third, found) := CacheGet(b, es, second, true);
            nothing == GotNull && thrown == Throws(NullReference) && second == Untracked
                && found == Got(Held(b, id, es, []))
  {
    QueryIsSlice(es, -1);
    LoadWholeLog(b, id, es);
  }

  // ---- what goes wrong when a get meets unsaved changes -----------------------------------

  /** A get on an aggregate with unsaved changes applies the tail it missed after them. */
  lemma {:induction false} GetMergesOutOfOrder<S, P>(b: Behaviour<S, P>, id: string, log: seq<Event<P>>, v: nat,
                                                     changes: seq<Event<P>>)
    requires Contiguous(log) && OwnedBy(log, id) && v <= |log|
    ensures var a := Held(b, id, log[..v], changes);
            CacheGet(b, log, Tracked(a), true).1 == Got(Held(b, id, log, []).(
              state := Fold(b, Fold(b, Replay(b, log[..v]), changes), log[v..]), changes := changes))
  {
    hide Query, Loaded, Fold, Contiguous;
    var a := Held(b, id, log[..v], changes);
    QueryIsSlice(log, v);
    LoadIffContiguous(b, a, log[v..]);
    TailInLine(log, v);
  }

  lemma TailInLine<P>(log: seq<Event<P>>, v: nat)
    requires Contiguous(log) && v <= |log|
    ensures forall i :: 0 <= i < |log[v..]| ==> log[v..][i].version == v + 1 + i
  {
  }

  /** So it stays in step with the log, whatever the behaviour, exactly when the unsaved payloads and the
      missed ones can be applied in either order as lists -- as when either list is empty. */
  lemma {:induction false} GetInStepIff<P>(id: string, log: seq<Event<P>>, v: nat, changes: seq<Event<P>>)
    requires Contiguous(log) && OwnedBy(log, id) && v <= |log|
    ensures var mine, theirs := Payloads(changes), Payloads(log[v..]);
            CacheGet(Recorder(), log, Tracked(Held(Recorder(), id, log[..v], changes)), true).1
              == Got(Held(Recorder(), id, log, changes))
            <==> mine + theirs == theirs + mine
  {
    var b, mine, theirs := Recorder<P>(), Payloads(changes), Payloads(log[v..]);
    var base := Replay(b, log[..v]);
    GetMergesOutOfOrder(b, id, log, v, changes);
    assert log == log[..v] + log[v..];
    FoldConcat(b, b.initial, log[..v], log[v..]);
    hide Fold, CacheGet, Recorder, Payloads;
    RecordsBoth(base, changes, log[v..]);
    RecordsBoth(base, log[v..], changes);
    SwapsIff(base, mine, theirs);
  }

  lemma RecordsBoth<P>(base: seq<P>, x: seq<Event<P>>, y: seq<Event<P>>)
    ensures Fold(Recorder(), Fold(Recorder(), base, x), y) == base + Payloads(x) + Payloads(y)
  {
    RecorderRecords(base, x);
    RecorderRecords(base + Payloads(x), y);
  }

  lemma SwapsIff<P>(base: seq<P>, x: seq<P>, y: seq<P>)
    ensures base + x + y == base + y + x <==> x + y == y + x
  {
    assert base + x + y == base + (x + y) && base + y + x == base + (y + x);
    assert (base + (x + y))[|base|..] == x + y && (base + (y + x))[|base|..] == y + x;
  }

  lemma {:induction false} GetInStepWhenCommuting<S, P>(b: Behaviour<S, P>, id: string, log: seq<Event<P>>, v: nat,
                                                        changes: seq<Event<P>>)
    requires Contiguous(log) && OwnedBy(log, id) && v <= |log|
    requires Payloads(changes) + Payloads(log[v..]) == Payloads(log[v..]) + Payloads(changes)
    ensures CacheGet(b, log, Tracked(Held(b, id, log[..v], changes)), true).1 == Got(Held(b, id, log, changes))
  {
    GetMergesOutOfOrder(b, id, log, v, changes);
    FoldsCommute(b, Replay(b, log[..v]), changes, log[v..]);
    assert log == log[..v] + log[v..];
    FoldConcat(b, b.initial, log[..v], log[v..]);
  }

  lemma FoldsCommute<S, P>(b: Behaviour<S, P>, s: S, x: seq<Event<P>>, y: seq<Event<P>>)
    requires Payloads(x) + Payloads(y) == Payloads(y) + Payloads(x)
    ensures Fold(b, Fold(b, s, x), y) == Fold(b, Fold(b, s, y), x)
  {
    FoldConcat(b, s, x, y);
    FoldConcat(b, s, y, x);
    hide Fold;
    PayloadsConcat(x, y);
    PayloadsConcat(y, x);
    FoldPayloads(b, s, x + y, y + x);
  }

  // ---- the calls are those of the repository ----------------------------------------------

  lemma {:induction false} StoreRunStores<P>(rows: map<string, seq<Event<P>>>, id: string, es: seq<Event<P>>,
                                             faults: nat -> Fault, i: nat)
    requires OwnedBy(es, id) && i <= |es| && StorableUpTo(rows, es, faults, i)
    ensures var (log, ok) := StoreRun(RowsOf(rows, id) + es[..i], es[i..], faults, i);
            exists n: nat ::
              StoresExactly(rows, es, faults, n) && log == RowsOf(rows, id) + es[..n] && (ok <==> n == |es|)
    decreases |es| - i
  {
    OwnStorable(rows, id, es, faults, i);
    var log := RowsOf(rows, id) + es[..i];
    if i == |es| {
      assert StoresExactly(rows, es, faults, i);
    } else if StorableAt(rows, es, faults, i) {
      StoreRunStores(rows, id, es, faults, i + 1);
      assert es[i..][1..] == es[i + 1..] && RowsOf(rows, id) + es[..i + 1] == log + [es[i]];
    } else {
      assert StoresExactly(rows, es, faults, i);
    }
  }

  lemma OwnStorable<P>(rows: map<string, seq<Event<P>>>, id: string, es: seq<Event<P>>, faults: nat -> Fault, i: nat)
    requires OwnedBy(es, id) && i <= |es|
    ensures i < |es| ==> (StorableAt(rows, es, faults, i) <==> Storable(RowsOf(rows, id) + es[..i], es[i], faults(i)))
  {
    OfOneId(es[..i], id);
  }

  /** `Stored` is what `SavedAs` promises of a save. */
  lemma {:induction false} StoredIsSaved<S, P>(id: string, log: seq<Event<P>>, a: Agg<S, P>, expected: Option<int>,
                                               faults: nat -> Fault)
    requires id != "" && a.id == id && OwnChanges(a.changes, id)
    ensures var (log', ok) := Stored(log, a, expected, faults);
            SavedAs(map[id := log], id, a, expected, faults, log', ok)
  {
    var batch := Flushed(a);
    assert OwnedBy(batch, id) && CanFlush(a);
    hide Flushed, StoreRun, StoresExactly, CanFlush, PassesCheck;
    StoreRunStores(map[id := log], id, batch, faults, 0);
    assert log + batch[..0] == log && batch[0..] == batch;
  }

  /** Each call comes to what the cached repository promises of it: a get is its get, a change reaches the cached
      object, a save stores what a save stores and caches or evicts, and another host appends the next version. */
  lemma {:induction false} CallsAreCalls<S, P>(b: Behaviour<S, P>, id: string, w: World<S, P>, call: Call<P>)
    requires id != "" && Inv(b, id, w)
    ensures var w' := Do(b, id, w, call);
            var rows := map[id := w.log];
            match call
            case Get(storeUp) =>
              (w.entry.Tracked? ==> w.entry.agg.changes == []) ==>
                w'.log == w.log && w'.entry == CacheGet(b, w.log, w.entry, storeUp).0
            case Change(e) =>
              w.entry.Tracked? && (e.id == "" || e.id == id) ==>
                w'.log == w.log && w'.entry == Tracked(Applied(b, w.entry.agg, e))
            case Save(expected, faults) =>
              w.entry.Tracked? ==>
                && SavedAs(rows, id, w.entry.agg, expected, faults, w'.log, w'.entry.Tracked?)
                && (w'.entry.Tracked? ==> w'.entry.agg == AfterFlush(w.entry.agg))
                && !w'.entry.TrackedNull?
            case SaveOther(v, changes, expected, faults) =>
              v <= |w.log| && OwnChanges(changes, id) ==>
                var a := Held(b, id, w.log[..v], changes);
                exists ok ::
                  && SavedAs(rows, id, a, expected, faults, w'.log, ok)
                  && w'.entry == if !ok then Untracked
                                 else if w.entry.Untracked? then Tracked(AfterFlush(a)) else w.entry
            case HostAppend(payload) => w'.log == w.log + [Event(id, |w.log| + 1, payload)] && w'.entry == w.entry
  {
    hide Held, Stored, SavedAs, CacheGet, Applied, AfterFlush, OwnChanges, Contiguous, OwnedBy;
    match call
    case Save(expected, faults) =>
      if w.entry.Tracked? {
        HeldId(b, id, w.log[..w.entry.agg.version], w.entry.agg.changes);
        StoredIsSaved(id, w.log, w.entry.agg, expected, faults);
      }
    case SaveOther(v, changes, expected, faults) =>
      if v <= |w.log| && OwnChanges(changes, id) {
        var a := Held(b, id, w.log[..v], changes);
        HeldId(b, id, w.log[..v], changes);
        StoredIsSaved(id, w.log, a, expected, faults);
        var ok := Stored(w.log, a, expected, faults).1;
        assert SavedAs(map[id := w.log], id, a, expected, faults, Do(b, id, w, call).log, ok);
      }
    case _ =>
  }

  lemma HeldId<S, P>(b: Behaviour<S, P>, id: string, log: seq<Event<P>>, changes: seq<Event<P>>)
    ensures Held(b, id, log, changes).id == id && Held(b, id, log, changes).changes == changes
  {
  }
}
