/** How long the tail behind the stored snapshot gets when the default strategy decides. */
module SnapshotTails {
  import opened Outcomes
  import opened Arithmetic
  import opened Aggregates
  import opened EventLogs
  import opened SqlStore
  import opened Snapshots
  import opened SnapshotStrategy
  import opened SnapshotRuns

  /** With no snapshot there are fewer than `k` events; otherwise no multiple of `k` lies past the snapshot. */
  predicate Short<T>(k: nat, length: nat, snapshot: Option<Snapshot<T>>)
    requires k > 0
  {
    if snapshot.None? then length < k else snapshot.value.version / k == length / k
  }

  predicate Stored<S, T, P>(me: Save<S, T, P>, v: nat) {
    me.from < v <= me.from + me.stored
  }

  /** The default strategy decides before the flush, and says no only when no multiple of `k` is crossed. */
  predicate Decided<S, T, P>(k: nat, me: Save<S, T, P>)
    requires k > 0
  {
    && (me.flushed ==> me.verdict != Undecided)
    && (me.verdict == No ==> (me.from + Total(me)) / k == me.from / k)
  }

  predicate SomeStored<S, T, P>(w: World<S, T, P>, v: nat) {
    exists s :: s in w.saves && Stored(w.saves[s], v)
  }

  ghost predicate TailOk<S, T, P>(k: nat, w: World<S, T, P>)
    requires k > 0
  {
    && (forall v :: 1 <= v <= |w.log| ==> SomeStored(w, v))
    && (forall s :: s in w.saves ==> Decided(k, w.saves[s]))
  }

  /** A save that left any trace stored all its events and, if it was due one, its snapshot. */
  predicate Settled<S, T, P>(me: Save<S, T, P>) {
    me.stored > 0 || me.written ==> me.stored == Total(me) && (me.verdict == No || me.written)
  }

  ghost predicate AtRest<S, T, P>(w: World<S, T, P>) {
    forall s :: s in w.saves ==> Settled(w.saves[s])
  }

  /** No snapshot of a later interval has been overwritten by the one that is stored. */
  ghost predicate NoneOverwritten<S, T, P>(k: nat, w: World<S, T, P>)
    requires k > 0
  {
    forall s :: s in w.saves && w.saves[s].written && w.saves[s].taken.Some? ==>
      w.snapshot.Some? && w.saves[s].taken.value.version / k <= w.snapshot.value.version / k
  }

  lemma NotDueStays(k: nat, v: nat, n: nat, stored: bool)
    requires k > 0 && !Due(v, n, k, stored)
    ensures (v + n) / k == v / k
  {
    QuotientGrows(v, v + n, k);
  }

  /** It is enough to check the save that moved, and the events it stored. */
  lemma OneMovedTail<S, T, P>(k: nat, w: World<S, T, P>, w': World<S, T, P>, s: nat)
    requires k > 0 && TailOk(k, w) && s in w'.saves && w'.saves == w.saves[s := w'.saves[s]]
    requires Decided(k, w'.saves[s]) && |w'.log| >= |w.log|
    requires s in w.saves ==> w'.saves[s].from == w.saves[s].from && w'.saves[s].stored >= w.saves[s].stored
    requires forall v :: |w.log| < v <= |w'.log| ==> Stored(w'.saves[s], v)
    ensures TailOk(k, w')
  {
    hide Decided;
    forall v | 1 <= v <= |w'.log| ensures SomeStored(w', v) {
      if v <= |w.log| {
        assert SomeStored(w, v);
        var t :| t in w.saves && Stored(w.saves[t], v);
        assert t in w'.saves && Stored(w'.saves[t], v);
      } else {
        assert Stored(w'.saves[s], v);
      }
    }
  }

  lemma DecideKeepsTail<S, T, P>(c: Setting<S, T, P>, w: World<S, T, P>, s: nat, yes: bool)
    requires c.interval.Some? && c.interval.value > 0 && Inv(c, w) && TailOk(c.interval.value, w) && s in w.saves
    ensures TailOk(c.interval.value, Do(c, w, Decide(s, yes)))
  {
    hide Due, Contiguous, OwnedBy, GoodFor, Flushed, OwnChanges, TailOk;
    var k, me, w' := c.interval.value, w.saves[s], Do(c, w, Decide(s, yes));
    if w' != w {
      assert SaveOk(c, w.log, me);
      if !yes { NotDueStays(k, me.from, |me.agg.changes|, w.snapshot.Some?); }
      OneMovedTail(k, w, w', s);
    }
  }

  lemma AppendKeepsTail<S, T, P>(c: Setting<S, T, P>, k: nat, w: World<S, T, P>, s: nat)
    requires k > 0 && Inv(c, w) && TailOk(k, w) && s in w.saves
    ensures TailOk(k, Do(c, w, Append(s)))
  {
    hide SaveOk, Contiguous, OwnedBy, HasVersion, TailOk;
    var me, w' := w.saves[s], Do(c, w, Append(s));
    assert Decided(k, me) by { SaveIsDecided(k, w, s); }
    if w' != w {
      if !HasVersion(w.log, me.batch[me.stored].version) { AppendsNext(c, w.log, me); }
      OneMovedTail(k, w, w', s);
    }
  }

  lemma SaveIsDecided<S, T, P>(k: nat, w: World<S, T, P>, s: nat)
    requires k > 0 && TailOk(k, w) && s in w.saves
    ensures Decided(k, w.saves[s])
  {
  }

  lemma {:induction false} StepKeepsTail<S(!new), T, P>(c: Setting<S, T, P>, w: World<S, T, P>, step: Step<P>)
    requires RestoreUndoesCreate(c.k) && c.id != "" && c.interval.Some? && c.interval.value > 0
    requires Inv(c, w) && TailOk(c.interval.value, w) && (step.Start? ==> Landed(w))
    ensures TailOk(c.interval.value, Do(c, w, step))
  {
    hide Inv, TailOk, Landed, Opened, Flushed, Taken, Begun, MayAnswer, CanFlush;
    var k, w' := c.interval.value, Do(c, w, step);
    if step.Start? {
      if step.s !in w.saves && OwnChanges(step.changes, c.id) {
        StartKeeps(c, w, step.s, step.changes);
        OneMovedTail(k, w, w', step.s);
      }
    } else if step.s in w.saves {
      SaveIsDecided(k, w, step.s);
      FlushedLength(w.saves[step.s].agg);
      match step
      case Decide(s, yes) => DecideKeepsTail(c, w, s, yes);
      case Append(s) => AppendKeepsTail(c, k, w, s);
      case _ => if w' != w { OneMovedTail(k, w, w', step.s); }
    }
  }

  lemma {:induction false} AlwaysCovered<S(!new), T, P>(c: Setting<S, T, P>, steps: seq<Step<P>>)
    requires RestoreUndoesCreate(c.k) && c.id != "" && LoadsLanded(c, steps)
    requires c.interval.Some? && c.interval.value > 0
    ensures TailOk(c.interval.value, Run(c, steps))
  {
    if |steps| != 0 {
      AlwaysCovered(c, steps[..|steps| - 1]);
      AlwaysGood(c, steps[..|steps| - 1]);
      StepKeepsTail(c, Run(c, steps[..|steps| - 1]), steps[|steps| - 1]);
    }
  }

  /** The save that stored the last multiple of `k` was due a snapshot, and wrote it. */
  lemma BoundaryIsWritten<S, T, P>(c: Setting<S, T, P>, k: nat, w: World<S, T, P>) returns (s: nat)
    requires k > 0 && Inv(c, w) && TailOk(k, w) && AtRest(w) && |w.log| >= k
    ensures s in w.saves && w.saves[s].written && w.saves[s].taken.Some?
    ensures w.saves[s].taken.value.version / k >= |w.log| / k
  {
    hide Inv, Decided, Settled;
    var q := |w.log| / k;
    LastMultiple(|w.log|, k);
    assert SomeStored(w, q * k);
    s :| s in w.saves && Stored(w.saves[s], q * k);
    CrossesMultiple(k, w.saves[s], q);
    TakenIsTotal(c, w, s);
  }

  /** A settled save that stored a multiple of `k` wrote its snapshot, and went past the multiple. */
  lemma CrossesMultiple<S, T, P>(k: nat, me: Save<S, T, P>, q: nat)
    requires k > 0 && q > 0 && Stored(me, q * k) && Decided(k, me) && Settled(me)
    ensures me.written && (me.from + Total(me)) / k >= q
  {
    hide Total;
    Quotient(q * k, q, 0, k);
    QuotientGrows(q * k, me.from + Total(me), k);
    BelowMultiple(me.from, q, k);
  }

  lemma TakenIsTotal<S, T, P>(c: Setting<S, T, P>, w: World<S, T, P>, s: nat)
    requires Inv(c, w) && s in w.saves && w.saves[s].written
    ensures w.saves[s].taken.Some? && w.saves[s].taken.value.version == w.saves[s].from + Total(w.saves[s])
  {
    hide HoldsOk, GoodFor, Contiguous, OwnedBy, Full;
    assert SaveOk(c, w.log, w.saves[s]);
  }

  lemma LastMultiple(n: nat, k: nat)
    requires k > 0 && n >= k
    ensures 1 <= (n / k) * k <= n && n / k > 0
  {
    assert n == (n / k) * k + n % k;
    SmallMultiple(n / k, k);
  }

  lemma BelowMultiple(v: nat, q: nat, k: nat)
    requires k > 0 && 0 < q && v < q * k
    ensures v / k < q
  {
    assert q * k - 1 == (q - 1) * k + (k - 1);
    Quotient(q * k - 1, q - 1, k - 1, k);
    QuotientGrows(v, q * k - 1, k);
  }

  /** A save that wrote its snapshot and is settled is part of the log. */
  lemma WrittenIsInLog<S, T, P>(c: Setting<S, T, P>, w: World<S, T, P>, s: nat)
    requires Inv(c, w) && s in w.saves && w.saves[s].written && w.saves[s].stored == Total(w.saves[s])
    ensures w.saves[s].taken.Some? && w.saves[s].taken.value.version == w.saves[s].from + w.saves[s].stored <= |w.log|
  {
    hide GoodFor, Contiguous, OwnedBy, Held, OwnChanges, Full;
    assert SaveOk(c, w.log, w.saves[s]);
  }

  /** Whatever saves overlapped: once each has left all of its traces or none, no multiple of the interval lies past
      the stored snapshot exactly when no snapshot of a later interval has been overwritten by it. */
  lemma {:induction false} TailIsShortIff<S(!new), T, P>(c: Setting<S, T, P>, steps: seq<Step<P>>)
    requires RestoreUndoesCreate(c.k) && c.id != "" && LoadsLanded(c, steps)
    requires c.interval.Some? && c.interval.value > 0
    ensures var w, k := Run(c, steps), c.interval.value;
            AtRest(w) ==> (Short(k, |w.log|, w.snapshot) <==> NoneOverwritten(k, w))
  {
    hide Run, LoadsLanded, TailOk;
    AlwaysGood(c, steps);
    AlwaysCovered(c, steps);
    if AtRest(Run(c, steps)) { ShortIff(c, c.interval.value, Run(c, steps)); }
  }

  lemma ShortIff<S, T, P>(c: Setting<S, T, P>, k: nat, w: World<S, T, P>)
    requires k > 0 && Inv(c, w) && TailOk(k, w) && AtRest(w)
    ensures Short(k, |w.log|, w.snapshot) <==> NoneOverwritten(k, w)
  {
    hide SaveOk, TailOk, Contiguous, OwnedBy;
    forall s | s in w.saves && w.saves[s].written
      ensures w.saves[s].taken.Some? && w.saves[s].taken.value.version <= |w.log| && w.snapshot.Some?
      ensures w.saves[s].taken.value.version / k <= |w.log| / k
      ensures w.saves[s].taken.value.version >= 0
    {
      assert Settled(w.saves[s]);
      WrittenIsInLog(c, w, s);
      QuotientGrows(w.saves[s].taken.value.version, |w.log|, k);
    }
    if |w.log| >= k {
      var s := BoundaryIsWritten(c, k, w);
    } else {
      Quotient(|w.log|, 0, |w.log|, k);
    }
  }

  lemma SameQuotient(a: nat, b: nat, k: nat)
    requires k > 0 && a / k == b / k
    ensures b - a < k
  {
    assert a == (a / k) * k + a % k && b == (b / k) * k + b % k;
  }


  /** And then a load replays fewer than `interval` events. */
  lemma {:induction false} TailIsBounded<S(!new), T, P>(c: Setting<S, T, P>, steps: seq<Step<P>>)
    requires RestoreUndoesCreate(c.k) && c.id != "" && LoadsLanded(c, steps)
    requires c.interval.Some? && c.interval.value > 0
    ensures var w, k := Run(c, steps), c.interval.value;
            AtRest(w) && NoneOverwritten(k, w) ==>
              |Query(w.log, if w.snapshot.None? then -1 else w.snapshot.value.version)| < k
  {
    hide Run, LoadsLanded, NoneOverwritten, AtRest;
    TailIsShortIff(c, steps);
    AlwaysGood(c, steps);
    var w, k := Run(c, steps), c.interval.value;
    LogIsOk(c, w);
    if AtRest(w) && NoneOverwritten(k, w) {
      if w.snapshot.None? {
        QueryIsSlice(w.log, -1);
      } else {
        AuthorVersion(c, w);
        QueryIsSlice(w.log, w.snapshot.value.version);
        SameQuotient(w.snapshot.value.version, |w.log|, k);
      }
    }
  }

  lemma AuthorVersion<S, T, P>(c: Setting<S, T, P>, w: World<S, T, P>)
    requires Inv(c, w) && AtRest(w) && w.snapshot.Some?
    ensures 0 <= w.snapshot.value.version <= |w.log|
  {
    hide SaveOk, Contiguous, OwnedBy;
    assert Settled(w.saves[w.author]);
    WrittenIsInLog(c, w, w.author);
  }

  // ---- saves that take turns --------------------------------------------------------------

  /** A save that will do nothing more that shows. */
  predicate Over<S, T, P>(me: Save<S, T, P>) {
    Settled(me) && (me.failed || me.stored == Total(me)) && (me.verdict == No || me.written)
  }

  /** Every save loads its aggregate when the earlier ones are over. */
  ghost predicate InTurn<S, T, P>(c: Setting<S, T, P>, steps: seq<Step<P>>) {
    |steps| != 0 ==>
      && InTurn(c, steps[..|steps| - 1])
      && (steps[|steps| - 1].Start? ==>
            var w := Run(c, steps[..|steps| - 1]); forall s :: s in w.saves ==> Over(w.saves[s]))
  }

  ghost predicate TurnOk<S, T, P>(w: World<S, T, P>) {
    && (forall s, t :: s in w.saves && t in w.saves && s != t && !Over(w.saves[s]) ==>
          && Over(w.saves[t])
          && (w.saves[t].written && w.saves[t].taken.Some? ==> w.saves[t].taken.value.version <= w.saves[s].from))
    && (forall t :: t in w.saves && w.saves[t].written && w.saves[t].taken.Some? && w.snapshot.Some? ==>
          w.saves[t].taken.value.version <= w.snapshot.value.version)
  }

  lemma OverIsLanded<S, T, P>(c: Setting<S, T, P>, w: World<S, T, P>)
    requires Inv(c, w) && forall s :: s in w.saves ==> Over(w.saves[s])
    ensures Landed(w)
  {
    hide SaveOk, Contiguous, OwnedBy;
  }

  /** Nor does it do more: a step of a save that is over leaves it over, its snapshot and the stored one alone. */
  lemma OverStays<S, T, P>(c: Setting<S, T, P>, w: World<S, T, P>, step: Step<P>)
    requires Inv(c, w) && !step.Start? && step.s in w.saves && Over(w.saves[step.s])
    ensures var w' := Do(c, w, step);
            && step.s in w'.saves && w'.saves == w.saves[step.s := w'.saves[step.s]] && Over(w'.saves[step.s])
            && w'.snapshot == w.snapshot
            && w'.saves[step.s].written == w.saves[step.s].written
            && (w.saves[step.s].written ==> w'.saves[step.s].taken == w.saves[step.s].taken)
  {
    hide Contiguous, OwnedBy, GoodFor, Flushed, OwnChanges, Held, MayAnswer, HasVersion;
    assert SaveOk(c, w.log, w.saves[step.s]);
    FlushedLength(w.saves[step.s].agg);
  }

  /** How a step can change the snapshots: not at all, or by writing that of the save it belongs to. */
  ghost predicate Moved<S, T, P>(w: World<S, T, P>, w': World<S, T, P>, s: nat)
    requires s in w.saves
  {
    && s in w'.saves && w'.saves == w.saves[s := w'.saves[s]] && w'.saves[s].from == w.saves[s].from
    && (if w'.saves[s].written == w.saves[s].written
        then w'.snapshot == w.snapshot && (w.saves[s].written ==> w'.saves[s].taken == w.saves[s].taken)
        else && !w.saves[s].written && w'.saves[s].taken.Some? && w'.snapshot == w'.saves[s].taken
             && w.saves[s].from <= w'.snapshot.value.version)
  }

  lemma MovesOwn<S, T, P>(c: Setting<S, T, P>, w: World<S, T, P>, step: Step<P>)
    requires Inv(c, w) && !step.Start? && step.s in w.saves
    ensures Moved(w, Do(c, w, step), step.s)
  {
    hide Inv, Flushed, AfterFlush, Taken, MayAnswer, HasVersion, CanFlush;
    TakenIsLater(c, w, step.s);
  }

  lemma TakenIsLater<S, T, P>(c: Setting<S, T, P>, w: World<S, T, P>, s: nat)
    requires Inv(c, w) && s in w.saves
    ensures w.saves[s].written ==> w.saves[s].taken.Some?
    ensures w.saves[s].taken.Some? ==> w.saves[s].from <= w.saves[s].taken.value.version
  {
    hide Contiguous, OwnedBy, GoodFor, HoldsOk, Full;
    assert SaveOk(c, w.log, w.saves[s]);
  }

  lemma OneMovedTurn<S, T, P>(w: World<S, T, P>, w': World<S, T, P>, s: nat)
    requires TurnOk(w) && s in w.saves && Moved(w, w', s)
    requires Over(w.saves[s]) ==> Over(w'.saves[s]) && w'.saves[s].written == w.saves[s].written
    ensures TurnOk(w')
  {
    hide Over;
  }

  lemma StartKeepsTurn<S(!new), T, P>(c: Setting<S, T, P>, w: World<S, T, P>, s: nat, changes: seq<Event<P>>)
    requires RestoreUndoesCreate(c.k) && c.id != "" && Inv(c, w) && TurnOk(w) && Landed(w)
    requires s !in w.saves && OwnChanges(changes, c.id) && forall t :: t in w.saves ==> Over(w.saves[t])
    ensures TurnOk(Do(c, w, Start(s, changes)))
  {
    hide Inv, Over, Landed, OwnChanges, Held;
    StartKeeps(c, w, s, changes);
    hide Do;
    forall t | t in w.saves && w.saves[t].written
      ensures w.saves[t].taken.Some? && w.saves[t].taken.value.version <= |w.log|
    {
      OverIsStored(w.saves[t]);
      WrittenIsInLog(c, w, t);
    }
  }

  lemma {:induction false} StepKeepsTurn<S(!new), T, P>(c: Setting<S, T, P>, w: World<S, T, P>, step: Step<P>)
    requires RestoreUndoesCreate(c.k) && c.id != "" && Inv(c, w) && TurnOk(w)
    requires step.Start? ==> forall s :: s in w.saves ==> Over(w.saves[s])
    ensures TurnOk(Do(c, w, step))
  {
    hide Over, TurnOk, Landed, Do;
    if step.Start? {
      OverIsLanded(c, w);
      if step.s !in w.saves && OwnChanges(step.changes, c.id) {
        StartKeepsTurn(c, w, step.s, step.changes);
      } else {
        StartRefused(c, w, step.s, step.changes);
      }
    } else if step.s in w.saves {
      MovesOwn(c, w, step);
      if Over(w.saves[step.s]) { OverStays(c, w, step); }
      OneMovedTurn(w, Do(c, w, step), step.s);
    } else {
      UnknownSave(c, w, step);
    }
  }

  lemma StartRefused<S, T, P>(c: Setting<S, T, P>, w: World<S, T, P>, s: nat, changes: seq<Event<P>>)
    requires s in w.saves || !OwnChanges(changes, c.id)
    ensures Do(c, w, Start(s, changes)) == w
  {
  }

  lemma UnknownSave<S, T, P>(c: Setting<S, T, P>, w: World<S, T, P>, step: Step<P>)
    requires !step.Start? && step.s !in w.saves
    ensures Do(c, w, step) == w
  {
  }

  lemma OverIsStored<S, T, P>(me: Save<S, T, P>)
    requires Over(me) && me.written
    ensures me.stored == Total(me)
  {
  }

  /** When saves take turns, loads meet landed snapshots only, none is overwritten by an earlier one, and at rest a
      load replays fewer than `interval` events. */
  lemma {:induction false} InTurnIsBounded<S(!new), T, P>(c: Setting<S, T, P>, steps: seq<Step<P>>)
    requires RestoreUndoesCreate(c.k) && c.id != "" && InTurn(c, steps)
    ensures LoadsLanded(c, steps)
    ensures c.interval.Some? && c.interval.value > 0 ==>
              var w, k := Run(c, steps), c.interval.value;
              && NoneOverwritten(k, w)
              && (AtRest(w) ==> |Query(w.log, if w.snapshot.None? then -1 else w.snapshot.value.version)| < k)
  {
    InTurnKeeps(c, steps);
    hide Run, LoadsLanded, InTurn, Over, AtRest;
    if c.interval.Some? && c.interval.value > 0 {
      TailIsBounded(c, steps);
      AlwaysGood(c, steps);
      NoneOverwrittenInTurn(c, c.interval.value, Run(c, steps));
    }
  }

  lemma NoneOverwrittenInTurn<S, T, P>(c: Setting<S, T, P>, k: nat, w: World<S, T, P>)
    requires k > 0 && Inv(c, w) && TurnOk(w)
    ensures NoneOverwritten(k, w)
  {
    hide Contiguous, OwnedBy, GoodFor, HoldsOk, Over;
    forall s | s in w.saves && w.saves[s].written && w.saves[s].taken.Some?
      ensures w.saves[s].taken.value.version / k <= w.snapshot.value.version / k
    {
      assert SaveOk(c, w.log, w.saves[s]);
      QuotientGrows(w.saves[s].taken.value.version, w.snapshot.value.version, k);
    }
  }

  lemma {:induction false} InTurnKeeps<S(!new), T, P>(c: Setting<S, T, P>, steps: seq<Step<P>>)
    requires RestoreUndoesCreate(c.k) && c.id != "" && InTurn(c, steps)
    ensures LoadsLanded(c, steps) && TurnOk(Run(c, steps))
  {
    if |steps| != 0 {
      var before := steps[..|steps| - 1];
      InTurnKeeps(c, before);
      AlwaysGood(c, before);
      hide Inv, Over, TurnOk, Landed, Do;
      if steps[|steps| - 1].Start? { OverIsLanded(c, Run(c, before)); }
      StepKeepsTurn(c, Run(c, before), steps[|steps| - 1]);
    }
  }

  // ---- overlapping saves ------------------------------------------------------------------

  /** A save of one event that has stored it and taken its snapshot, but not written it yet. */
  function Unwritten<P>(s: nat, p: P): seq<Step<P>> {
    [Start(s, [Pending(p)]), Decide(s, true), Take(s), Flush(s), Append(s)]
  }

  /** The steps from a save just begun to one that has stored its event. */
  lemma UnwrittenSteps<S, T, P>(c: Setting<S, T, P>, w: World<S, T, P>, s: nat, p: P)
    requires c.id != "" && c.interval == Some(1) && Contiguous(w.log)
    ensures var a, e := Held(c.b, c.id, w.log, [Pending(p)]), Event(c.id, |w.log| + 1, p);
            var w1 := Put(w, s, Save(|w.log|, a, false, [], 0, false, Undecided, None, false));
            Do(c, Do(c, Do(c, Do(c, w1, Decide(s, true)), Take(s)), Flush(s)), Append(s))
            == Put(w, s, Save(|w.log|, AfterFlush(a), true, [e], 1, false, Yes, Some(Taken(c.k, a)), false))
               .(log := w.log + [e])
  {
    hide Held, Flushed, AfterFlush, Taken, Do, Put, HasVersion;
    var a, e := Held(c.b, c.id, w.log, [Pending(p)]), Event(c.id, |w.log| + 1, p);
    HeldChanges(c.b, c.id, w.log, [Pending(p)]);
    FlushedOne(c.b, c.id, w.log, p);
    NoNextVersion(w.log);
    var me := Save(|w.log|, a, false, [], 0, false, Undecided, None, false);
    Decides(c, w, s, me);
    Takes(c, w, s, me.(verdict := Yes));
    var taken := me.(verdict := Yes, taken := Some(Taken(c.k, a)));
    Flushes(c, w, s, taken, [e]);
    Appends(c, w, s, taken.(flushed := true, batch := [e], agg := AfterFlush(a)), e);
  }

  lemma {:induction false} UnwrittenRuns<S(!new), T, P>(c: Setting<S, T, P>, before: seq<Step<P>>, s: nat, p: P)
    requires RestoreUndoesCreate(c.k) && c.id != "" && c.interval == Some(1) && LoadsLanded(c, before)
    requires s !in Run(c, before).saves && Landed(Run(c, before))
    ensures LoadsLanded(c, before + Unwritten(s, p))
    ensures var w, e := Run(c, before), Event(c.id, |Run(c, before).log| + 1, p);
            var a := Held(c.b, c.id, w.log, [Pending(p)]);
            Run(c, before + Unwritten(s, p)) == Put(w, s,
              Save(|w.log|, AfterFlush(a), true, [e], 1, false, Yes, Some(Taken(c.k, a)), false)).(log := w.log + [e])
  {
    hide Held, AfterFlush, LoadsLanded, Landed, Inv, Taken, Run, Do, Put;
    AlwaysGood(c, before);
    var w, five := Run(c, before), Unwritten(s, p);
    LogIsOk(c, w);
    StartKeeps(c, w, s, [Pending(p)]);
    UnwrittenSteps(c, w, s, p);
    var b1 := before + [five[0]];
    var b2 := b1 + [five[1]];
    var b3 := b2 + [five[2]];
    var b4 := b3 + [five[3]];
    RunSplit(c, before, five[0]);
    RunSplit(c, b1, five[1]);
    RunSplit(c, b2, five[2]);
    RunSplit(c, b3, five[3]);
    RunSplit(c, b4, five[4]);
    assert b4 + [five[4]] == before + five;
  }

  /** The second of two saves writes its snapshot first. */
  lemma WrittenInReverse<S, T, P>(c: Setting<S, T, P>, w: World<S, T, P>, one: Save<S, T, P>, two: Save<S, T, P>)
    requires w.saves == map[0 := one, 1 := two]
    requires one.taken.Some? && !one.written && two.taken.Some? && !two.written
    ensures Do(c, Do(c, w, Write(1)), Write(0))
            == w.(snapshot := one.taken, author := 0,
                  saves := map[0 := one.(written := true), 1 := two.(written := true)])
  {
    var w1 := Do(c, w, Write(1));
    assert w1.saves == map[0 := one, 1 := two.(written := true)];
    assert Do(c, w1, Write(0)).saves == map[0 := one.(written := true), 1 := two.(written := true)];
  }

  /** Two overlapping saves that both succeed, every snapshot taken and every event stored: the older snapshot is
      written last, and with an interval of 1 a load replays one event, which is not fewer. */
  lemma {:induction false} OverlappingWritesBreakBound<S(!new), T, P>(c: Setting<S, T, P>, p: P, q: P)
    requires RestoreUndoesCreate(c.k) && c.id != "" && c.interval == Some(1)
    ensures var steps := Unwritten(0, p) + Unwritten(1, q) + [Write(1)] + [Write(0)];
            var w := Run(c, steps);
            && LoadsLanded(c, steps) && AtRest(w) && !NoneOverwritten(1, w)
            && w.log == [Event(c.id, 1, p), Event(c.id, 2, q)]
            && w.snapshot.Some? && w.snapshot.value.version == 1
            && |Query(w.log, w.snapshot.value.version)| == 1
  {
    hide Held, Inv, Query, AfterFlush, LoadsLanded, Taken, Unwritten, Run, Do;
    var none: seq<Step<P>>, one, two := [], Unwritten<P>(0, p), Unwritten<P>(1, q);
    NoStepsLanded(c);
    assert Run(c, none) == World([], None, 0, map[]) by { NoSteps(c); }
    UnwrittenRuns(c, none, 0, p);
    assert none + one == one;
    assert Run(c, one).log == [Event(c.id, 1, p)];
    UnwrittenRuns(c, one, 1, q);
    RunSplit(c, one + two, Write(1));
    RunSplit(c, one + two + [Write(1)], Write(0));
    var both := Run(c, one + two);
    assert both.saves == map[0 := both.saves[0], 1 := both.saves[1]];
    WrittenInReverse(c, both, both.saves[0], both.saves[1]);
    TakenVersion(c.b, c.k, c.id, [], [Pending(p)]);
    TakenVersion(c.b, c.k, c.id, [Event(c.id, 1, p)], [Pending(q)]);
    assert both.log == [Event(c.id, 1, p), Event(c.id, 2, q)];
    QueryIsSlice(both.log, 1);
    assert Run(c, one + two + [Write(1)] + [Write(0)]).saves[1].taken.value.version == 2;
  }
}
