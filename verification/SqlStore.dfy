/** The SQL event store: one transaction per event, and a unique (aggregate, version) key. */
module SqlStore {
  import opened Outcomes
  import opened Aggregates
  import opened EventLogs

  /** How the environment treats the transaction of one event. */
  datatype Fault = NoFault | InsertThrows | PublishThrows | CommitThrows

  datatype SaveResult = Saved | Threw(at: nat, error: StoreError)

  /** What a save to the store can throw. */
  predicate StoreFault(e: StoreError) {
    e == DuplicateKey || e == PublishFailed || e == StoreDown
  }

  function RowsOf<P>(rows: map<string, seq<Event<P>>>, id: string): seq<Event<P>> {
    if id in rows then rows[id] else []
  }

  function OfId<P>(es: seq<Event<P>>, id: string): seq<Event<P>> {
    if |es| == 0 then []
    else OfId(es[..|es| - 1], id) + if es[|es| - 1].id == id then [es[|es| - 1]] else []
  }

  predicate HasVersion<P>(log: seq<Event<P>>, version: int) {
    exists i :: 0 <= i < |log| && log[i].version == version
  }

  predicate Storable<P>(log: seq<Event<P>>, e: Event<P>, fault: Fault) {
    fault == NoFault && !HasVersion(log, e.version)
  }

  /** Appends `es` to one aggregate's log until one cannot be stored; the flag says they all were. */
  function StoreRun<P>(log: seq<Event<P>>, es: seq<Event<P>>, faults: nat -> Fault, i: nat): (seq<Event<P>>, bool)
    decreases |es|
  {
    if |es| == 0 then (log, true)
    else if !Storable(log, es[0], faults(i)) then (log, false)
    else StoreRun(log + [es[0]], es[1..], faults, i + 1)
  }

  /** Event `j` of the batch can be stored once the ones before it are. */
  ghost predicate StorableAt<P>(rows: map<string, seq<Event<P>>>, es: seq<Event<P>>, faults: nat -> Fault, j: nat)
    requires j < |es|
  {
    Storable(RowsOf(rows, es[j].id) + OfId(es[..j], es[j].id), es[j], faults(j))
  }

  ghost predicate StorableUpTo<P>(rows: map<string, seq<Event<P>>>, es: seq<Event<P>>, faults: nat -> Fault, n: nat)
    requires n <= |es|
  {
    forall j: nat :: j < n ==> StorableAt(rows, es, faults, j)
  }

  /** The first `n` of `es` can be stored one after the other, and not the one after them. */
  ghost predicate StoresExactly<P>(rows: map<string, seq<Event<P>>>, es: seq<Event<P>>, faults: nat -> Fault, n: nat) {
    && n <= |es|
    && StorableUpTo(rows, es, faults, n)
    && (n < |es| ==> !StorableAt(rows, es, faults, n))
  }

  /** Each aggregate's log grew by its own events among `es`, in order. */
  ghost predicate Extended<P>(was: map<string, seq<Event<P>>>, rows: map<string, seq<Event<P>>>, es: seq<Event<P>>) {
    forall id :: RowsOf(rows, id) == RowsOf(was, id) + OfId(es, id)
  }

  lemma OfIdStep<P>(es: seq<Event<P>>, e: Event<P>, id: string)
    ensures OfId(es + [e], id) == OfId(es, id) + if e.id == id then [e] else []
  {
    assert (es + [e])[..|es|] == es;
  }

  lemma ExtendedStep<P>(was: map<string, seq<Event<P>>>, rows: map<string, seq<Event<P>>>, es: seq<Event<P>>,
                        e: Event<P>)
    requires Extended(was, rows, es)
    ensures Extended(was, rows[e.id := RowsOf(rows, e.id) + [e]], es + [e])
  {
    var rows' := rows[e.id := RowsOf(rows, e.id) + [e]];
    hide OfId;
    forall id ensures RowsOf(rows', id) == RowsOf(was, id) + OfId(es + [e], id) {
      OfIdStep(es, e, id);
      assert RowsOf(rows', id) == RowsOf(rows, id) + if e.id == id then [e] else [];
    }
  }

  lemma StorableNow<P>(was: map<string, seq<Event<P>>>, rows: map<string, seq<Event<P>>>, es: seq<Event<P>>,
                       faults: nat -> Fault, i: nat)
    requires i < |es| && Extended(was, rows, es[..i])
    requires StorableUpTo(was, es, faults, i)
    ensures StorableAt(was, es, faults, i) <==> Storable(RowsOf(rows, es[i].id), es[i], faults(i))
    ensures StorableAt(was, es, faults, i) ==> StorableUpTo(was, es, faults, i + 1)
  {
  }

  lemma PrefixGrows<T>(before: seq<T>, s: seq<T>, i: nat)
    requires i < |s|
    ensures s[..i + 1] == s[..i] + [s[i]] && before + s[..i + 1] == before + s[..i] + [s[i]]
  {
  }

  class SqlEventStore<P> {
    var rows: map<string, seq<Event<P>>>
    var published: seq<Event<P>>

    constructor ()
      ensures rows == map[] && published == []
    {
      rows, published := map[], [];
    }

    /** The transaction of one event: insert, publish, commit. Nothing is committed unless all three succeed. */
    method SaveOne(e: Event<P>, fault: Fault) returns (r: Result<(), StoreError>)
      modifies this
      ensures r.Success? <==> Storable(RowsOf(old(rows), e.id), e, fault)
      ensures r.Success? <==>
                && fault == NoFault
                && (e.id in old(rows) ==> forall i :: 0 <= i < |old(rows)[e.id]| ==>
                      old(rows)[e.id][i].version != e.version)
      ensures r.Success? ==>
          rows == old(rows)[e.id := RowsOf(old(rows), e.id) + [e]] && published == old(published) + [e]
      ensures r.Failure? ==>
                && rows == old(rows)
                && StoreFault(r.error)
                && published == old(published) + (if r.error == StoreDown && fault == CommitThrows then [e] else [])
                && (r.error == DuplicateKey ==> HasVersion(RowsOf(old(rows), e.id), e.version))
    {
      if fault == InsertThrows {
        return Failure(StoreDown);
      }
      if HasVersion(RowsOf(rows, e.id), e.version) {
        return Failure(DuplicateKey);
      }
      if fault == PublishThrows {
        return Failure(PublishFailed);
      }
      published := published + [e];
      if fault == CommitThrows {
        return Failure(StoreDown);
      }
      rows := rows[e.id := RowsOf(rows, e.id) + [e]];
      r := Success(());
    }

    /** Commits the longest storable prefix of `events`. Everything committed was published, and at most
        the event whose own commit threw is published without being committed. */
    method SaveAsync(events: seq<Event<P>>, faults: nat -> Fault) returns (r: SaveResult)
      modifies this
      ensures var n := if r.Saved? then |events| else r.at;
              StoresExactly(old(rows), events, faults, n) && Extended(old(rows), rows, events[..n])
      ensures r.Saved? ==> published == old(published) + events
      ensures r.Threw? ==>
                && r.at < |events|
                && StoreFault(r.error)
                && published == old(published) + events[..r.at]
                                + (if r.error == StoreDown && faults(r.at) == CommitThrows then [events[r.at]] else [])
    {
      var i := 0;
      assert Extended(rows, rows, []) && StorableUpTo(rows, events, faults, 0);
      hide Extended, StorableUpTo, StorableAt, Storable, OfId, HasVersion, StoreFault, RowsOf;
      assert events[..0] == [];
      while i < |events|
        invariant 0 <= i <= |events|
        invariant Extended(old(rows), rows, events[..i])
        invariant published == old(published) + events[..i]
        invariant StorableUpTo(old(rows), events, faults, i)
      {
        ghost var was := rows;
        var one := SaveOne(events[i], faults(i));
        StorableNow(old(rows), was, events, faults, i);
        if one.Failure? {
          return Threw(i, one.error);
        }
        ExtendedStep(old(rows), was, events[..i], events[i]);
        PrefixGrows(old(published), events, i);
        i := i + 1;
      }
      r := Saved;
      assert events[..|events|] == events;
    }

    /** The events of one aggregate after a version, oldest first. */
    method GetAsync(id: string, from: int) returns (r: seq<Event<P>>)
      ensures r == Query(RowsOf(rows, id), from)
      ensures Contiguous(RowsOf(rows, id)) ==> r == RowsOf(rows, id)[Clamp(from, |RowsOf(rows, id)|)..]
    {
      r := Query(RowsOf(rows, id), from);
      if Contiguous(RowsOf(rows, id)) { QueryIsSlice(RowsOf(rows, id), from); }
    }
  }

  /** A contiguous log has exactly the versions up to its length. */
  lemma ContiguousHas<P>(log: seq<Event<P>>, version: int)
    requires Contiguous(log)
    ensures HasVersion(log, version) <==> 1 <= version <= |log|
  {
    if 1 <= version <= |log| {
      assert log[version - 1].version == version;
    }
  }

  lemma {:induction false} OfNone<P>(es: seq<Event<P>>, id: string)
    requires forall i :: 0 <= i < |es| ==> es[i].id != id
    ensures OfId(es, id) == []
  {
    if |es| != 0 {
      OfNone(es[..|es| - 1], id);
    }
  }

  lemma {:induction false} OfOwn<P>(es: seq<Event<P>>, id: string)
    requires OwnedBy(es, id)
    ensures OfId(es, id) == es
  {
    if |es| != 0 {
      OfOwn(es[..|es| - 1], id);
      assert es == es[..|es| - 1] + [es[|es| - 1]];
    }
  }

  lemma OfOneId<P>(es: seq<Event<P>>, id: string)
    requires OwnedBy(es, id)
    ensures OfId(es, id) == es
    ensures forall other :: other != id ==> OfId(es, other) == []
  {
    hide OfId;
    OfOwn(es, id);
    forall other | other != id ensures OfId(es, other) == [] {
      OfNone(es, other);
    }
  }

  /** A batch that continues a contiguous log is stored up to the first fault the environment injects,
      and in full when it injects none: the key can reject nothing. */
  lemma {:induction false} ContinuationStored<P>(rows: map<string, seq<Event<P>>>, id: string, es: seq<Event<P>>,
                                                 faults: nat -> Fault, n: nat)
    requires Contiguous(RowsOf(rows, id)) && OwnedBy(es, id) && Contiguous(RowsOf(rows, id) + es)
    ensures StoresExactly(rows, es, faults, n) <==>
              && n <= |es| && (forall j :: 0 <= j < n ==> faults(j) == NoFault)
              && (n < |es| ==> faults(n) != NoFault)
  {
    var log := RowsOf(rows, id);
    forall j | 0 <= j < |es|
      ensures StorableAt(rows, es, faults, j) <==> faults(j) == NoFault
    {
      OfOneId(es[..j], id);
      assert (log + es)[|log| + j] == es[j];
      forall i | 0 <= i < |log + es[..j]| ensures (log + es[..j])[i].version < es[j].version {
        assert (log + es[..j])[i] == (log + es)[i];
      }
    }
  }
}
