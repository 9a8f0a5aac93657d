/** The event-sourced aggregate: an in-memory fold over its events. */
module Aggregates {
  import opened Outcomes

  /** What a concrete aggregate class supplies: its blank state, and what its Apply methods do to it. */
  datatype Behaviour<!S, !P> = Behaviour(initial: S, apply: (S, P) -> S)

  /** An event; the empty string stands for a null or empty Id. */
  datatype Event<+P> = Event(id: string, version: int, payload: P)

  /** The value of an aggregate object at one instant. */
  datatype Agg<+S, +P> = Agg(id: string, version: int, state: S, changes: seq<Event<P>>)

  function Fresh<S, P>(b: Behaviour<S, P>): Agg<S, P> {
    Agg("", 0, b.initial, [])
  }

  /** The state reached from `s` by applying `es` in order. */
  function Fold<S, P>(b: Behaviour<S, P>, s: S, es: seq<Event<P>>): S {
    if |es| == 0 then s else b.apply(Fold(b, s, es[..|es| - 1]), es[|es| - 1].payload)
  }

  function Replay<S, P>(b: Behaviour<S, P>, log: seq<Event<P>>): S {
    Fold(b, b.initial, log)
  }

  function Payloads<P>(es: seq<Event<P>>): (r: seq<P>)
    ensures |r| == |es| && forall i :: 0 <= i < |es| ==> r[i] == es[i].payload
  {
    seq(|es|, i requires 0 <= i < |es| => es[i].payload)
  }

  /** The aggregate `id` that has replayed `log` and then applied `changes` without saving them. */
  function Held<S, P>(b: Behaviour<S, P>, id: string, log: seq<Event<P>>, changes: seq<Event<P>>): Agg<S, P> {
    Agg(id, |log|, Fold(b, Replay(b, log), changes), changes)
  }

  function Applied<S, P>(b: Behaviour<S, P>, a: Agg<S, P>, e: Event<P>): Agg<S, P> {
    a.(state := b.apply(a.state, e.payload), changes := a.changes + [e])
  }

  /** The events a flush can stamp: all of them unless both ids are missing somewhere. */
  predicate CanFlush<S, P>(a: Agg<S, P>) {
    a.id != "" || forall i :: 0 <= i < |a.changes| ==> a.changes[i].id != ""
  }

  function Stamp<S, P>(a: Agg<S, P>, i: nat): Event<P>
    requires i < |a.changes|
  {
    var e := a.changes[i];
    Event(if e.id == "" then a.id else e.id, a.version + i + 1, e.payload)
  }

  /** The uncommitted changes with the first `n` stamped. */
  function StampedUpTo<S, P>(a: Agg<S, P>, n: nat): (r: seq<Event<P>>)
    ensures |r| == |a.changes|
    ensures forall i :: 0 <= i < |r| ==> r[i] == if i < n then Stamp(a, i) else a.changes[i]
  {
    seq(|a.changes|, i requires 0 <= i < |a.changes| => if i < n then Stamp(a, i) else a.changes[i])
  }

  function Flushed<S, P>(a: Agg<S, P>): seq<Event<P>> {
    StampedUpTo(a, |a.changes|)
  }

  function AfterFlush<S, P>(a: Agg<S, P>): Agg<S, P> {
    a.(version := a.version + |a.changes|, changes := [])
  }

  /** Applies `history` until the first event that is not next in line; the flag says none was. */
  function Loaded<S, P>(b: Behaviour<S, P>, a: Agg<S, P>, history: seq<Event<P>>): (Agg<S, P>, bool)
    decreases |history|
  {
    if |history| == 0 then (a, true)
    else if history[0].version != a.version + 1 then (a, false)
    else Loaded(b, a.(id := history[0].id, version := a.version + 1, state := b.apply(a.state, history[0].payload)),
                history[1..])
  }

  lemma StampMeans<S, P>(a: Agg<S, P>, n: nat)
    requires n < |a.changes|
    ensures var e, stamped := a.changes[n], StampedUpTo(a, n);
            && stamped[n] == e && |stamped| == |a.changes|
            && stamped[n := Event(if e.id == "" then a.id else e.id, a.version + n + 1, e.payload)]
               == StampedUpTo(a, n + 1)
            && (forall k :: 0 <= k < n ==>
                  stamped[k] == Event(if a.changes[k].id == "" then a.id else a.changes[k].id, a.version + k + 1,
                                      a.changes[k].payload))
            && (forall k :: n <= k < |stamped| ==> stamped[k] == a.changes[k])
  {
  }

  lemma FlushMeans<S, P>(a: Agg<S, P>)
    ensures StampedUpTo(a, 0) == a.changes && StampedUpTo(a, |a.changes|) == Flushed(a)
    ensures CanFlush(a) <==> a.id != "" || forall i :: 0 <= i < |a.changes| ==> a.changes[i].id != ""
    ensures |Flushed(a)| == |a.changes|
    ensures forall i :: 0 <= i < |a.changes| ==>
              Flushed(a)[i] == Event(if a.changes[i].id == "" then a.id else a.changes[i].id, a.version + i + 1,
                                     a.changes[i].payload)
  {
  }

  class AggregateRoot<S, P> {
    const behaviour: Behaviour<S, P>
    var changes: seq<Event<P>>
    var Id: string
    var Version: int
    var State: S

    constructor (behaviour: Behaviour<S, P>)
      ensures this.behaviour == behaviour && Value() == Fresh(behaviour)
    {
      this.behaviour := behaviour;
      changes, Id, Version, State := [], "", 0, behaviour.initial;
    }

    ghost function Value(): Agg<S, P>
      reads this
    {
      Agg(Id, Version, State, changes)
    }

    method ApplyChange(e: Event<P>)
      modifies this
      ensures Value() == Applied(behaviour, old(Value()), e)
    {
      State := behaviour.apply(State, e.payload);
      changes := changes + [e];
    }

    /** Stamps the pending events in place. A failure leaves the earlier ones stamped and still pending. */
    method FlushUncommitedChanges() returns (r: Result<seq<Event<P>>, StoreError>)
      modifies this
      ensures r.Success? <==> CanFlush(old(Value()))
      ensures r.Success? <==> old(Id) != "" || forall i :: 0 <= i < |old(changes)| ==> old(changes)[i].id != ""
      ensures r.Success? ==> r.value == Flushed(old(Value())) && Value() == AfterFlush(old(Value()))
      ensures r.Success? ==>
                && |r.value| == |old(changes)| && Version == old(Version) + |old(changes)| && changes == []
                && Id == old(Id) && State == old(State)
                && forall i :: 0 <= i < |r.value| ==>
                     && r.value[i].id == (if old(changes)[i].id != "" then old(changes)[i].id else old(Id))
                     && r.value[i].version == old(Version) + i + 1
                     && r.value[i].payload == old(changes)[i].payload
      ensures r.Failure? ==> r.error == MissingId && exists n: nat ::
                                && n < |old(changes)| && old(changes)[n].id == ""
                                && (forall k :: 0 <= k < n ==> old(changes)[k].id != "")
                                && Value() == old(Value()).(changes := StampedUpTo(old(Value()), n))
                                && old(Id) == "" && |changes| == |old(changes)|
                                && (forall k :: 0 <= k < n ==>
                                      changes[k] == Event(old(changes)[k].id, old(Version) + k + 1,
                                                          old(changes)[k].payload))
                                && (forall k :: n <= k < |changes| ==> changes[k] == old(changes)[k])
    {
      ghost var before := Value();
      hide Stamp, StampedUpTo, Flushed, CanFlush;
      FlushMeans(before);
      var i := 0;
      while i < |changes|
        invariant 0 <= i <= |changes|
        invariant Value() == before.(changes := StampedUpTo(before, i))
        invariant before.id == "" ==> forall k :: 0 <= k < i ==> before.changes[k].id != ""
      {
        var e := changes[i];
        StampMeans(before, i);
        if e.id == "" && Id == "" {
          return Failure(MissingId);
        }
        changes := changes[i := Event(if e.id == "" then Id else e.id, Version + i + 1, e.payload)];
        i := i + 1;
      }
      r := Success(changes);
      Version := Version + |changes|;
      changes := [];
    }

    /** Throws at the first event out of order, after the ones before it were applied. */
    method LoadFromHistory(history: seq<Event<P>>) returns (r: Result<(), StoreError>)
      modifies this
      ensures Value() == Loaded(behaviour, old(Value()), history).0
      ensures r == if Loaded(behaviour, old(Value()), history).1 then Success(()) else Failure(OutOfOrder)
    {
      var i := 0;
      while i < |history|
        invariant 0 <= i <= |history|
        invariant Loaded(behaviour, old(Value()), history) == Loaded(behaviour, Value(), history[i..])
      {
        if history[i].version != Version + 1 {
          return Failure(OutOfOrder);
        }
        State := behaviour.apply(State, history[i].payload);
        Id, Version := history[i].id, Version + 1;
        assert history[i..][1..] == history[i + 1..];
        i := i + 1;
      }
      r := Success(());
    }
  }

  // ---- laws of the fold -------------------------------------------------------------------

  lemma {:induction false} FoldConcat<S, P>(b: Behaviour<S, P>, s: S, x: seq<Event<P>>, y: seq<Event<P>>)
    ensures Fold(b, s, x + y) == Fold(b, Fold(b, s, x), y)
  {
    if |y| == 0 {
      assert x + y == x;
    } else {
      FoldConcat(b, s, x, y[..|y| - 1]);
      assert (x + y)[..|x + y| - 1] == x + y[..|y| - 1];
    }
  }

  /** The state depends on the payloads alone, so stamping ids and versions does not change it. */
  lemma {:induction false} FoldPayloads<S, P>(b: Behaviour<S, P>, s: S, x: seq<Event<P>>, y: seq<Event<P>>)
    requires Payloads(x) == Payloads(y)
    ensures Fold(b, s, x) == Fold(b, s, y)
  {
    assert |x| == |Payloads(x)| == |y|;
    if |x| != 0 {
      var n := |x| - 1;
      assert Payloads(x)[n] == Payloads(y)[n];
      forall i | 0 <= i < n ensures x[i].payload == y[i].payload {
        assert Payloads(x)[i] == Payloads(y)[i];
      }
      assert Payloads(x[..n]) == Payloads(y[..n]);
      FoldPayloads(b, s, x[..n], y[..n]);
    }
  }

  lemma PayloadsConcat<P>(x: seq<Event<P>>, y: seq<Event<P>>)
    ensures Payloads(x + y) == Payloads(x) + Payloads(y)
  {
  }

  /** A load succeeds exactly on a history that continues the aggregate's version without gaps,
      and then it has applied every event. */
  lemma {:induction false} LoadIffContiguous<S, P>(b: Behaviour<S, P>, a: Agg<S, P>, h: seq<Event<P>>)
    ensures Loaded(b, a, h).1 <==> forall i :: 0 <= i < |h| ==> h[i].version == a.version + 1 + i
    ensures Loaded(b, a, h).1 ==>
              Loaded(b, a, h).0 == a.(id := if |h| == 0 then a.id else h[|h| - 1].id,
                                      version := a.version + |h|, state := Fold(b, a.state, h))
    decreases |h|
  {
    if |h| != 0 && h[0].version == a.version + 1 {
      var next := a.(id := h[0].id, version := a.version + 1, state := b.apply(a.state, h[0].payload));
      LoadIffContiguous(b, next, h[1..]);
      NextInLine(h, a.version);
      FoldFirst(b, a.state, h);
    }
  }

  /** A load that throws has applied the events before the first one out of order. */
  lemma {:induction false} LoadStopsAtGap<S, P>(b: Behaviour<S, P>, a: Agg<S, P>, h: seq<Event<P>>, n: nat)
    requires n < |h| && (forall i :: 0 <= i < n ==> h[i].version == a.version + 1 + i)
    requires h[n].version != a.version + 1 + n
    ensures Loaded(b, a, h) == (a.(id := if n == 0 then a.id else h[n - 1].id, version := a.version + n,
                                   state := Fold(b, a.state, h[..n])), false)
    decreases n
  {
    if n > 0 {
      var next := a.(id := h[0].id, version := a.version + 1, state := b.apply(a.state, h[0].payload));
      LoadStopsAtGap(b, next, h[1..], n - 1);
      assert h[..n][1..] == h[1..][..n - 1];
      FoldFirst(b, a.state, h[..n]);
    }
  }

  lemma NextInLine<P>(h: seq<Event<P>>, version: int)
    requires |h| != 0 && h[0].version == version + 1
    ensures (forall i :: 0 <= i < |h| ==> h[i].version == version + 1 + i)
            <==> forall i :: 0 <= i < |h[1..]| ==> h[1..][i].version == version + 2 + i
  {
    if forall i :: 0 <= i < |h[1..]| ==> h[1..][i].version == version + 2 + i {
      forall i | 0 <= i < |h| ensures h[i].version == version + 1 + i {
        assert i > 0 ==> h[1..][i - 1] == h[i];
      }
    }
  }

  lemma FoldFirst<S, P>(b: Behaviour<S, P>, s: S, h: seq<Event<P>>)
    requires |h| != 0
    ensures Fold(b, s, h) == Fold(b, b.apply(s, h[0].payload), h[1..])
  {
    assert h == [h[0]] + h[1..] && [h[0]][..0] == [];
    FoldConcat(b, s, [h[0]], h[1..]);
  }

  /** Flushing n pending changes of an aggregate at version v numbers them v+1..v+n and leaves
      their payloads, the state and the version they add up to as they were. */
  lemma {:induction false} FlushKeepsMeaning<S, P>(a: Agg<S, P>)
    ensures Payloads(Flushed(a)) == Payloads(a.changes)
    ensures AfterFlush(a).version + |AfterFlush(a).changes| == a.version + |a.changes|
    ensures AfterFlush(a).state == a.state && AfterFlush(a).id == a.id
    ensures forall i :: 0 <= i < |a.changes| ==> Flushed(a)[i].version == a.version + 1 + i
  {
  }

  ghost predicate Contiguous<P>(log: seq<Event<P>>) {
    forall i :: 0 <= i < |log| ==> log[i].version == i + 1
  }

  ghost predicate OwnedBy<P>(log: seq<Event<P>>, id: string) {
    forall i :: 0 <= i < |log| ==> log[i].id == id
  }

  /** Every change was raised by the aggregate itself: its Id is missing or the aggregate's own. */
  predicate OwnChanges<P>(changes: seq<Event<P>>, id: string) {
    forall i :: 0 <= i < |changes| ==> changes[i].id == "" || changes[i].id == id
  }

  /** Saving what an aggregate holds extends its log to one it is the replay of. */
  lemma {:induction false} FlushExtendsLog<S, P>(b: Behaviour<S, P>, id: string, log: seq<Event<P>>,
                                                 changes: seq<Event<P>>)
    requires Contiguous(log) && OwnedBy(log, id) && id != "" && OwnChanges(changes, id)
    ensures var a := Held(b, id, log, changes);
            && CanFlush(a)
            && |Flushed(a)| == |changes|
            && Contiguous(log + Flushed(a)) && OwnedBy(log + Flushed(a), id)
            && AfterFlush(a) == Held(b, id, log + Flushed(a), [])
            && Replay(b, log + Flushed(a)) == a.state
  {
    var a := Held(b, id, log, changes);
    FlushKeepsMeaning(a);
    FoldConcat(b, b.initial, log, Flushed(a));
    FoldPayloads(b, Replay(b, log), Flushed(a), changes);
    assert Fold(b, Replay(b, log + Flushed(a)), []) == Replay(b, log + Flushed(a));
    FlushContinues(id, log, a);
    hide Fold, Flushed, Contiguous, OwnedBy;
  }

  /** The stamped changes carry on the numbering of the log, under the aggregate's id. */
  lemma FlushContinues<S, P>(id: string, log: seq<Event<P>>, a: Agg<S, P>)
    requires Contiguous(log) && OwnedBy(log, id) && a.id == id && a.version == |log| && OwnChanges(a.changes, id)
    ensures Contiguous(log + Flushed(a)) && OwnedBy(log + Flushed(a), id) && |Flushed(a)| == |a.changes|
  {
  }

  /** A contiguous log of one aggregate loads without error into the aggregate that holds it. */
  lemma LoadWholeLog<S, P>(b: Behaviour<S, P>, id: string, log: seq<Event<P>>)
    requires Contiguous(log) && OwnedBy(log, id)
    ensures Loaded(b, Fresh(b), log) == (Held(b, if |log| == 0 then "" else id, log, []), true)
  {
    LoadIffContiguous(b, Fresh(b), log);
  }

  /** Flush and replay undo each other: log and flushed changes load into a blank aggregate without
      error, and rebuild exactly the flushed one -- id included unless there is no event to carry it. */
  lemma {:induction false} FlushThenReplay<S, P>(b: Behaviour<S, P>, id: string, log: seq<Event<P>>,
                                                 changes: seq<Event<P>>)
    requires Contiguous(log) && OwnedBy(log, id) && id != "" && OwnChanges(changes, id)
    ensures var a := Held(b, id, log, changes);
            var (reloaded, ok) := Loaded(b, Fresh(b), log + Flushed(a));
            && ok
            && reloaded.(id := id) == AfterFlush(a)
            && (reloaded == AfterFlush(a) <==> |log| + |changes| > 0)
  {
    var a := Held(b, id, log, changes);
    FlushExtendsLog(b, id, log, changes);
    LoadWholeLog(b, id, log + Flushed(a));
  }

  /** Loading the tail an aggregate has not seen brings it level with the longer log. */
  lemma {:induction false} LoadTail<S, P>(b: Behaviour<S, P>, id: string, log: seq<Event<P>>, v: nat)
    requires Contiguous(log) && OwnedBy(log, id) && v <= |log|
    ensures Loaded(b, Held(b, id, log[..v], []), log[v..]) == (Held(b, id, log, []), true)
  {
    var a, tail := Held(b, id, log[..v], []), log[v..];
    assert tail != [] ==> tail[|tail| - 1].id == id;
    assert forall i :: 0 <= i < |tail| ==> tail[i].version == a.version + 1 + i;
    hide Contiguous, OwnedBy;
    LoadLevel(b, id, log[..v], tail);
    assert log == log[..v] + tail;
  }

  lemma LoadLevel<S, P>(b: Behaviour<S, P>, id: string, log: seq<Event<P>>, tail: seq<Event<P>>)
    requires forall i :: 0 <= i < |tail| ==> tail[i].version == |log| + 1 + i
    requires tail != [] ==> tail[|tail| - 1].id == id
    ensures Loaded(b, Held(b, id, log, []), tail) == (Held(b, id, log + tail, []), true)
  {
    LoadIffContiguous(b, Held(b, id, log, []), tail);
    FoldConcat(b, b.initial, log, tail);
  }

  lemma AppliedToHeld<S, P>(b: Behaviour<S, P>, id: string, log: seq<Event<P>>, changes: seq<Event<P>>, e: Event<P>)
    ensures Applied(b, Held(b, id, log, changes), e) == Held(b, id, log, changes + [e])
  {
    assert (changes + [e])[..|changes|] == changes;
  }

  /** The most discriminating behaviour: the state is the list of payloads applied. */
  function Recorder<P>(): Behaviour<seq<P>, P> {
    Behaviour([], (s: seq<P>, p: P) => s + [p])
  }

  lemma {:induction false} RecorderRecords<P>(s: seq<P>, es: seq<Event<P>>)
    ensures Fold(Recorder(), s, es) == s + Payloads(es)
  {
    if |es| != 0 {
      var front := es[..|es| - 1];
      RecorderRecords(s, front);
      assert Payloads(es) == Payloads(front) + [es[|es| - 1].payload];
    } else {
      assert s + Payloads(es) == s;
    }
  }
}
