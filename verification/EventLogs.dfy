/** Reading a stored log: the SQL query for the events after a version. */
module EventLogs {
  import opened Aggregates

  /** WHERE version > from. */
  function Newer<P>(rows: seq<Event<P>>, from: int): seq<Event<P>> {
    if |rows| == 0 then []
    else (if rows[0].version > from then [rows[0]] else []) + Newer(rows[1..], from)
  }

  function InsertByVersion<P>(e: Event<P>, sorted: seq<Event<P>>): seq<Event<P>> {
    if |sorted| == 0 || e.version <= sorted[0].version then [e] + sorted
    else [sorted[0]] + InsertByVersion(e, sorted[1..])
  }

  /** ORDER BY version, keeping the stored order among equal versions. */
  function OrderByVersion<P>(rows: seq<Event<P>>): seq<Event<P>> {
    if |rows| == 0 then [] else InsertByVersion(rows[0], OrderByVersion(rows[1..]))
  }

  /** get_events_for_aggregate. */
  function Query<P>(rows: seq<Event<P>>, from: int): seq<Event<P>> {
    OrderByVersion(Newer(rows, from))
  }

  /** How many events of a log of length `n` the query for `from` leaves out. */
  function Clamp(from: int, n: nat): nat {
    if from < 0 then 0 else if from > n then n else from
  }

  ghost predicate Ascending<P>(s: seq<Event<P>>) {
    forall i, j :: 0 <= i < j < |s| ==> s[i].version <= s[j].version
  }

  lemma {:induction false} OrderAscending<P>(s: seq<Event<P>>)
    requires Ascending(s)
    ensures OrderByVersion(s) == s
  {
    if |s| != 0 {
      OrderAscending(s[1..]);
      assert |s| > 1 ==> s[1..][0] == s[1];
      assert s == [s[0]] + s[1..];
    }
  }

  lemma {:induction false} NewerOfRun<P>(rows: seq<Event<P>>, first: int, from: int)
    requires forall i :: 0 <= i < |rows| ==> rows[i].version == first + i
    ensures Newer(rows, from) == rows[Clamp(from - first + 1, |rows|)..]
  {
    if |rows| != 0 {
      var head, rest := rows[0], rows[1..];
      assert forall i :: 0 <= i < |rest| ==> rest[i] == rows[i + 1];
      NewerOfRun(rest, first + 1, from);
      assert rows == [head] + rest;
      assert Newer(rows, from) == (if head.version > from then [head] else []) + Newer(rest, from);
      hide Newer;
      if first > from {
        assert rest[Clamp(from - first, |rest|)..] == rest;
        assert Clamp(from - first + 1, |rows|) == 0;
      } else {
        assert Clamp(from - first + 1, |rows|) == Clamp(from - first, |rest|) + 1;
      }
    }
  }

  /** On a log that holds versions 1..N the query is a slice. */
  lemma {:induction false} QueryIsSlice<P>(log: seq<Event<P>>, from: int)
    requires Contiguous(log)
    ensures Query(log, from) == log[Clamp(from, |log|)..]
  {
    NewerOfRun(log, 1, from);
    OrderAscending(log[Clamp(from, |log|)..]);
  }

  /** For any rows at all, the query returns the newer ones, each as often as it is stored, in ascending order of
      version. */
  lemma {:induction false} QueryMeaning<P(!new)>(rows: seq<Event<P>>, from: int)
    ensures Ascending(Query(rows, from))
    ensures forall e :: multiset(Query(rows, from))[e] == if e.version > from then multiset(rows)[e] else 0
  {
    NewerCounts(rows, from);
    OrderSorts(Newer(rows, from));
  }

  lemma {:induction false} NewerCounts<P(!new)>(rows: seq<Event<P>>, from: int)
    ensures forall e :: multiset(Newer(rows, from))[e] == if e.version > from then multiset(rows)[e] else 0
  {
    if |rows| != 0 {
      NewerCounts(rows[1..], from);
      assert rows == [rows[0]] + rows[1..];
    }
  }

  lemma {:induction false} OrderSorts<P>(rows: seq<Event<P>>)
    ensures Ascending(OrderByVersion(rows))
    ensures multiset(OrderByVersion(rows)) == multiset(rows)
  {
    if |rows| != 0 {
      OrderSorts(rows[1..]);
      InsertSorts(rows[0], OrderByVersion(rows[1..]));
      assert rows == [rows[0]] + rows[1..];
    }
  }

  lemma {:induction false} InsertSorts<P>(e: Event<P>, s: seq<Event<P>>)
    requires Ascending(s)
    ensures Ascending(InsertByVersion(e, s))
    ensures multiset(InsertByVersion(e, s)) == multiset(s) + multiset{e}
  {
    if |s| != 0 && e.version > s[0].version {
      InsertSorts(e, s[1..]);
      assert s == [s[0]] + s[1..];
      PrependAscending(s[0], s[1..], e, InsertByVersion(e, s[1..]));
    }
  }

  lemma PrependAscending<P>(first: Event<P>, rest: seq<Event<P>>, e: Event<P>, r: seq<Event<P>>)
    requires Ascending([first] + rest) && Ascending(r) && first.version <= e.version
    requires multiset(r) == multiset(rest) + multiset{e}
    ensures Ascending([first] + r)
  {
    forall i | 0 <= i < |r| ensures first.version <= r[i].version {
      assert r[i] in multiset(r);
      if r[i] != e {
        var j :| 0 <= j < |rest| && rest[j] == r[i];
        assert ([first] + rest)[0] == first && ([first] + rest)[j + 1] == r[i];
      }
    }
  }
}
