/** Publishing a message: one conditional transaction pushes it to every registered subscriber. */
module Publishing {
  import opened Outcomes
  import opened RedisLists

  function ListIn<M>(lists: map<string, seq<M>>, s: string): seq<M> {
    if s in lists then lists[s] else []
  }

  /** SMEMBERS: every member once, in some order. */
  predicate Lists(members: seq<string>, subscribers: set<string>) {
    && (forall i, j | 0 <= i < j < |members| :: members[i] != members[j])
    && (forall i | 0 <= i < |members| :: members[i] in subscribers)
    && (forall s | s in subscribers :: s in members)
  }

  function PushAll<M>(lists: map<string, seq<M>>, members: seq<string>, m: M): map<string, seq<M>> {
    if |members| == 0 then lists
    else
      var rest := PushAll(lists, members[..|members| - 1], m);
      var s := members[|members| - 1];
      rest[s := [m] + ListIn(rest, s)]
  }

  lemma {:induction false} DistinctCount(members: seq<string>)
    requires NoDup(members)
    ensures |(set s | s in members)| == |members|
  {
    if |members| != 0 {
      var n := |members| - 1;
      DistinctCount(members[..n]);
      assert (set s | s in members) == (set s | s in members[..n]) + {members[n]};
    }
  }

  lemma {:induction false} SubsetSize<T>(a: set<T>, b: set<T>)
    requires a <= b
    ensures |a| <= |b| && (|a| == |b| ==> a == b)
  {
    if x :| x in a {
      SubsetSize(a - {x}, b - {x});
    }
  }

  lemma {:induction false} PushAllPushesOnce<M>(lists: map<string, seq<M>>, members: seq<string>, m: M, s: string)
    requires NoDup(members)
    ensures ListIn(PushAll(lists, members, m), s) == if s in members then [m] + ListIn(lists, s) else ListIn(lists, s)
  {
    if |members| != 0 {
      var n := |members| - 1;
      PushAllPushesOnce(lists, members[..n], m, s);
      assert members == members[..n] + [members[n]];
      assert s in members <==> s in members[..n] || s == members[n];
      assert members[n] !in members[..n];
    }
  }

  /** The set only grows, so an unchanged size means an unchanged set. */
  lemma {:induction false} SameSizeSameSet(members: seq<string>, subscribers: set<string>)
    requires NoDup(members) && (forall s :: s in members ==> s in subscribers) && |subscribers| == |members|
    ensures subscribers == (set s | s in members)
  {
    DistinctCount(members);
    SubsetSize((set s | s in members), subscribers);
  }

  /** The size condition holds exactly when nobody new has registered since the set was read. */
  lemma {:induction false} SameSizeIff(members: seq<string>, read: set<string>, newcomers: set<string>)
    requires Lists(members, read)
    ensures |read + newcomers| == |members| <==> newcomers <= read
    ensures forall s :: s in members <==> s in read
    ensures newcomers <= read ==> read + newcomers == read
  {
    DistinctCount(members);
    assert read == (set s | s in members);
    if newcomers <= read {
      assert read + newcomers == read;
    } else {
      SubsetSize(read, read + newcomers);
    }
  }

  /** Whoever registers during the first `n` tries. */
  function Newcomers(late: nat -> set<string>, n: nat): set<string> {
    if n == 0 then {} else Newcomers(late, n - 1) + late(n - 1)
  }

  /** A list after the wait for room: `capacity` says how short it must be, consumers pop from the right end, and
      nothing is popped from a list with room in it. */
  ghost predicate Waited<M>(was: seq<M>, list: seq<M>, capacity: Option<int>) {
    && list <= was
    && (capacity.None? ==> list == was)
    && (capacity.Some? ==> |list| < capacity.value && (|was| < capacity.value ==> list == was))
  }

  /** The message came once, at the left end, after the wait. */
  ghost predicate Received<M>(was: seq<M>, list: seq<M>, capacity: Option<int>, m: M) {
    |list| > 0 && list[0] == m && Waited(was, list[1..], capacity)
  }

  /** Each of `to` has received the message; nobody else's list changed. */
  ghost predicate PushedTo<M>(was: map<string, seq<M>>, lists: map<string, seq<M>>, to: set<string>,
                              capacity: Option<int>, m: M) {
    forall s :: if s in to then Received(ListIn(was, s), ListIn(lists, s), capacity, m)
        else ListIn(lists, s) == ListIn(was, s)
  }

  /** Nobody has received anything; at most some of `among` were waited for. */
  ghost predicate PushedToNobody<M>(was: map<string, seq<M>>, lists: map<string, seq<M>>, among: set<string>,
                                    capacity: Option<int>) {
    forall s :: ListIn(lists, s) == ListIn(was, s) || (s in among && Waited(ListIn(was, s), ListIn(lists, s), capacity))
  }

  /** Nobody has received anything: consumers may have popped from the lists of `among`. */
  ghost predicate OnlyPopped<M>(was: map<string, seq<M>>, lists: map<string, seq<M>>, among: set<string>) {
    forall s :: ListIn(lists, s) <= ListIn(was, s) && (s in among || ListIn(lists, s) == ListIn(was, s))
  }

  /** Try `i` meets no newcomer. */
  predicate Quiet(subscribers: set<string>, late: nat -> set<string>, i: nat) {
    late(i) <= subscribers + Newcomers(late, i)
  }

  /** No list is shorter than a capacity of zero or less. */
  predicate Endless(capacity: Option<int>) {
    capacity.Some? && capacity.value <= 0
  }

  /** Try `i` waits for ever. */
  predicate Stuck(subscribers: set<string>, late: nat -> set<string>, capacity: Option<int>, i: nat) {
    Endless(capacity) && subscribers + Newcomers(late, i) != {}
  }

  /** How many tries the call begins. */
  function TriesMade(subscribers: set<string>, late: nat -> set<string>, capacity: Option<int>, i: nat,
                     retryCount: nat): nat
    decreases retryCount - i
  {
    if i >= retryCount then i
    else if Quiet(subscribers, late, i) || Stuck(subscribers, late, capacity, i) then i + 1
    else TriesMade(subscribers, late, capacity, i + 1, retryCount)
  }

  lemma OneTry(subscribers: set<string>, late: nat -> set<string>, capacity: Option<int>, i: nat, retryCount: nat)
    requires i < retryCount
    ensures var now := subscribers + Newcomers(late, i);
            && (late(i) <= now <==> Quiet(subscribers, late, i))
            && (Endless(capacity) && now != {} <==> Stuck(subscribers, late, capacity, i))
            && now + late(i) == subscribers + Newcomers(late, i + 1)
    ensures TriesMade(subscribers, late, capacity, i, retryCount)
            == if Quiet(subscribers, late, i) || Stuck(subscribers, late, capacity, i) then i + 1
               else TriesMade(subscribers, late, capacity, i + 1, retryCount)
  {
  }

  lemma NoTryYet<M>(lists: map<string, seq<M>>, subscribers: set<string>, capacity: Option<int>,
                    late: nat -> set<string>, n: nat)
    ensures PushedToNobody(lists, lists, subscribers, capacity) && subscribers + Newcomers(late, 0) == subscribers
    ensures TriesMade(subscribers, late, capacity, n, n) == n
  {
  }

  lemma {:induction false} NewcomersAre(late: nat -> set<string>, n: nat)
    ensures forall s :: s in Newcomers(late, n) <==> exists j: nat :: j < n && s in late(j)
  {
    if n > 0 {
      NewcomersAre(late, n - 1);
      assert forall s :: s in late(n - 1) ==> s in Newcomers(late, n);
    }
  }

  lemma SomeTryGoesThrough(subscribers: set<string>, late: nat -> set<string>, capacity: Option<int>, n: nat)
    ensures (exists i: nat :: i < n && Quiet(subscribers, late, i) && !Stuck(subscribers, late, capacity, i)) <==>
              exists i: nat ::
                && i < n && late(i) <= subscribers + Newcomers(late, i)
                && !(capacity.Some? && capacity.value <= 0 && subscribers + Newcomers(late, i) != {})
  {
    if i: nat :| i < n && late(i) <= subscribers + Newcomers(late, i)
                 && !(capacity.Some? && capacity.value <= 0 && subscribers + Newcomers(late, i) != {}) {
      assert Quiet(subscribers, late, i) && !Stuck(subscribers, late, capacity, i);
    }
  }

  /** A try once stuck, the later ones would be. */
  lemma {:induction false} StaysStuck(subscribers: set<string>, late: nat -> set<string>, capacity: Option<int>, i: nat,
                                      k: nat)
    requires Stuck(subscribers, late, capacity, i) && i <= k
    ensures Stuck(subscribers, late, capacity, k)
    decreases k
  {
    if i < k { StaysStuck(subscribers, late, capacity, i, k - 1); }
  }

  /** How a try ends: it pushed, someone registered in between, or not at all. */
  datatype TryEnd = Pushed | SetGrew | NeverEnds

  lemma PushedMeans<M>(was: map<string, seq<M>>, lists: map<string, seq<M>>, to: set<string>, capacity: Option<int>,
                       m: M)
    requires PushedTo(was, lists, to, capacity, m)
    ensures forall s ::
              var before, list := (if s in was then was[s] else []), if s in lists then lists[s] else [];
              if s in to
              then && |list| > 0 && list[0] == m && list[1..] <= before
                   && (capacity.None? ==> list[1..] == before)
                   && (capacity.Some? ==>
                         |list| <= capacity.value && (|before| < capacity.value ==> list[1..] == before))
              else list == before
  {
    forall s
      ensures if s in to then Received(ListIn(was, s), ListIn(lists, s), capacity, m)
              else ListIn(lists, s) == ListIn(was, s)
    {}
  }

  lemma UnpushedMeans<M>(was: map<string, seq<M>>, lists: map<string, seq<M>>, among: set<string>,
                         capacity: Option<int>)
    requires PushedToNobody(was, lists, among, capacity) || (OnlyPopped(was, lists, among) && capacity.Some?)
    ensures forall s ::
              var before, list := (if s in was then was[s] else []), if s in lists then lists[s] else [];
              list <= before && (s !in among || capacity.None? ==> list == before)
  {
    forall s
      ensures var before, list := (if s in was then was[s] else []), if s in lists then lists[s] else [];
              list <= before && (s !in among || capacity.None? ==> list == before)
    {
      assert ListIn(lists, s) <= ListIn(was, s);
    }
  }

  class RedisMessageQueue<M> {
    const retryCount: nat
    var subscribers: set<string>
    var lists: map<string, seq<M>>

    constructor (retryCount: nat)
      ensures this.retryCount == retryCount && subscribers == {} && lists == map[]
    {
      this.retryCount, subscribers, lists := retryCount, {}, map[];
    }

    method SetMembers() returns (members: seq<string>)
      ensures Lists(members, subscribers)
    {
      members := [];
      var left := subscribers;
      while left != {}
        invariant left <= subscribers && Lists(members, subscribers - left)
        decreases left
      {
        var s :| s in left;
        members := members + [s];
        left := left - {s};
      }
    }

    /** The pushes of one transaction, applied one subscriber after the other. */
    method PushToAll(members: seq<string>, m: M)
      requires NoDup(members)
      modifies this`lists
      ensures lists == PushAll(old(lists), members, m)
      ensures forall s :: ListIn(lists, s) == if s in members then [m] + ListIn(old(lists), s)
          else ListIn(old(lists), s)
    {
      for i := 0 to |members|
        invariant lists == PushAll(old(lists), members[..i], m)
      {
        assert members[..i + 1][..i] == members[..i];
        lists := lists[members[i] := [m] + ListIn(lists, members[i])];
      }
      assert members[..|members|] == members;
      forall s ensures ListIn(lists, s) == if s in members then [m] + ListIn(old(lists), s) else ListIn(old(lists), s) {
        PushAllPushesOnce(old(lists), members, m, s);
      }
    }

    /** Polls until the subscriber's list is shorter than the capacity; its consumers pop `drained(k)` messages,
        and never none, before the poll after the k-th. An empty list that is not short enough is polled for ever. */
    method WaitForRoom(s: string, capacity: int, drained: nat -> nat) returns (ends: bool)
      modifies this`lists
      ensures ends <==> capacity > 0
      ensures ends ==> Waited(ListIn(old(lists), s), ListIn(lists, s), Some(capacity))
      ensures ends ==>
                var was, list := (if s in old(lists) then old(lists)[s] else []), if s in lists then lists[s] else [];
                |list| < capacity && list <= was && (|was| < capacity ==> list == was)
      ensures !ends ==> ListIn(lists, s) == []
      ensures forall other :: other != s ==> ListIn(lists, other) == ListIn(old(lists), other)
    {
      var poll := 0;
      while |ListIn(lists, s)| >= capacity
        invariant ListIn(lists, s) <= ListIn(old(lists), s)
        invariant |ListIn(old(lists), s)| < capacity ==> ListIn(lists, s) == ListIn(old(lists), s)
        invariant forall other :: other != s ==> ListIn(lists, other) == ListIn(old(lists), other)
        decreases |ListIn(lists, s)|
      {
        var list := ListIn(lists, s);
        if |list| == 0 {
          return false;
        }
        var pops := if drained(poll) == 0 then 1 else if drained(poll) > |list| then |list| else drained(poll);
        lists := lists[s := list[..|list| - pops]];
        poll := poll + 1;
      }
      ends := true;
    }

    /** The waits of one try, subscriber by subscriber. */
    method WaitForAll(members: seq<string>, capacity: Option<int>, drained: string -> nat -> nat)
      returns (ends: bool)
      requires NoDup(members)
      modifies this`lists
      ensures ends <==> !Endless(capacity) || members == []
      ensures ends ==> forall s :: if s in members then Waited(ListIn(old(lists), s), ListIn(lists, s), capacity)
                                   else ListIn(lists, s) == ListIn(old(lists), s)
      ensures !ends ==> OnlyPopped(old(lists), lists, set s | s in members)
    {
      for i := 0 to |members|
        invariant Endless(capacity) ==> i == 0
        invariant forall s :: if s in members[..i] then Waited(ListIn(old(lists), s), ListIn(lists, s), capacity)
                              else ListIn(lists, s) == ListIn(old(lists), s)
      {
        assert members[..i + 1] == members[..i] + [members[i]];
        assert members[i] !in members[..i];
        if capacity.Some? {
          var ends := WaitForRoom(members[i], capacity.value, drained(members[i]));
          if !ends {
            return false;
          }
        }
      }
      assert members[..|members|] == members;
      ends := true;
    }

    /** One try: read the set, wait for room, then push under the condition that the set's size has not changed. */
    method TryPublish(m: M, newcomers: set<string>, capacity: Option<int>, drained: string -> nat -> nat)
      returns (end: TryEnd)
      modifies this
      ensures subscribers == old(subscribers) + newcomers
      ensures end == NeverEnds <==> Endless(capacity) && old(subscribers) != {}
      ensures end == Pushed <==> end != NeverEnds && newcomers <= old(subscribers)
      ensures end == Pushed ==> PushedTo(old(lists), lists, subscribers, capacity, m)
      ensures end == Pushed ==>
                forall s ::
                  var was, list := (if s in old(lists) then old(lists)[s] else []), if s in lists then lists[s] else [];
                  if s in subscribers
                  then && |list| > 0 && list[0] == m && list[1..] <= was
                       && (capacity.None? ==> list[1..] == was)
                       && (capacity.Some? ==> |list| <= capacity.value
                                              && (|was| < capacity.value ==> list[1..] == was))
                  else list == was
      ensures end == SetGrew ==> PushedToNobody(old(lists), lists, old(subscribers), capacity)
      ensures end != Pushed ==>
                forall s ::
                  var was, list := (if s in old(lists) then old(lists)[s] else []), if s in lists then lists[s] else [];
                  list <= was && (s !in old(subscribers) || capacity.None? ==> list == was)
      ensures end == NeverEnds ==> OnlyPopped(old(lists), lists, old(subscribers))
    {
      hide Waited, Received, Lists, PushAll, PushedTo, ListIn;
      ghost var was := lists;
      var members := SetMembers();
      SameSizeIff(members, subscribers, newcomers);
      NobodyToWaitFor(members, subscribers);
      var ends := WaitForAll(members, capacity, drained);
      subscribers := subscribers + newcomers;
      if !ends {
        UnpushedMeans(was, lists, old(subscribers), capacity);
        return NeverEnds;
      }
      if |subscribers| != |members| {
        UnpushedMeans(was, lists, old(subscribers), capacity);
        return SetGrew;
      }
      ghost var waited := lists;
      PushToAll(members, m);
      PushedAfterWait(was, waited, lists, subscribers, capacity, m);
      PushedMeans(was, lists, subscribers, capacity, m);
      end := Pushed;
    }

    /** `late(i)` registers between the reading of the set and the transaction of try `i`. The call returns
        if and only if some try meets no newcomer and none up to it waits for ever, and then the message has reached
        every subscriber registered by now exactly once; otherwise it has reached nobody. None: it waits for ever. */
    method PublishAsync(m: M, late: nat -> set<string>, capacity: Option<int>, drained: nat -> string -> nat -> nat)
      returns (r: Option<Result<(), StoreError>>)
      modifies this
      ensures r == Some(Success(())) <==> exists i: nat :: i < retryCount && Quiet(old(subscribers), late, i)
                                                           && !Stuck(old(subscribers), late, capacity, i)
      ensures r == Some(Failure(PublishFailed)) <==>
                forall i: nat :: i < retryCount ==> !Quiet(old(subscribers), late, i)
                                                    && !Stuck(old(subscribers), late, capacity, i)
      ensures r.Some? ==> r.value == Success(()) || r.value == Failure(PublishFailed)
      ensures r.None? ==> Endless(capacity) && OnlyPopped(old(lists), lists, subscribers)
      ensures r == Some(Success(())) ==> PushedTo(old(lists), lists, subscribers, capacity, m)
      ensures r == Some(Success(())) ==>
                forall s ::
                  var was, list := (if s in old(lists) then old(lists)[s] else []), if s in lists then lists[s] else [];
                  if s in subscribers
                  then && |list| > 0 && list[0] == m && list[1..] <= was
                       && (capacity.None? ==> list[1..] == was)
                       && (capacity.Some? ==> |list| <= capacity.value
                                              && (|was| < capacity.value ==> list[1..] == was))
                  else list == was
      ensures r == Some(Failure(PublishFailed)) ==> PushedToNobody(old(lists), lists, subscribers, capacity)
      ensures r != Some(Success(())) ==>
                forall s ::
                  var was, list := (if s in old(lists) then old(lists)[s] else []), if s in lists then lists[s] else [];
                  list <= was && (s !in subscribers || capacity.None? ==> list == was)
      ensures r == Some(Success(())) <==>
                exists i: nat ::
                  && i < retryCount && late(i) <= old(subscribers) + Newcomers(late, i)
                  && !(capacity.Some? && capacity.value <= 0 && old(subscribers) + Newcomers(late, i) != {})
      ensures subscribers
              == old(subscribers) + Newcomers(late, TriesMade(old(subscribers), late, capacity, 0, retryCount))
    {
      hide PushedTo, PushedToNobody, OnlyPopped, Newcomers, TriesMade, Quiet, Stuck;
      NoTryYet(lists, subscribers, capacity, late, retryCount);
      SomeTryGoesThrough(subscribers, late, capacity, retryCount);
      var i := 0;
      while i < retryCount
        invariant 0 <= i <= retryCount
        invariant subscribers == old(subscribers) + Newcomers(late, i)
        invariant TriesMade(old(subscribers), late, capacity, i, retryCount)
               == TriesMade(old(subscribers), late, capacity, 0, retryCount)
        invariant forall k: nat :: k < i ==> !Quiet(old(subscribers), late, k)
                                             && !Stuck(old(subscribers), late, capacity, k)
        invariant PushedToNobody(old(lists), lists, subscribers, capacity)
      {
        ghost var before, members := lists, subscribers;
        OneTry(old(subscribers), late, capacity, i, retryCount);
        var end := TryPublish(m, late(i), capacity, drained(i));
        match end {
          case Pushed =>
            WaitedThenReceived(old(lists), before, lists, members, subscribers, capacity, m);
            PushedMeans(old(lists), lists, subscribers, capacity, m);
            return Some(Success(()));
          case NeverEnds =>
            WaitedThenPopped(old(lists), before, lists, members, subscribers, capacity);
            UnpushedMeans(old(lists), lists, subscribers, capacity);
            forall k: nat | i <= k < retryCount ensures Stuck(old(subscribers), late, capacity, k) {
              StaysStuck(old(subscribers), late, capacity, i, k);
            }
            return None;
          case SetGrew =>
        }
        WaitedTwice(old(lists), before, lists, members, subscribers, capacity);
        i := i + 1;
      }
      UnpushedMeans(old(lists), lists, subscribers, capacity);
      r := Some(Failure(PublishFailed));
    }
  }

  lemma NobodyToWaitFor(members: seq<string>, subscribers: set<string>)
    requires Lists(members, subscribers)
    ensures members == [] <==> subscribers == {}
    ensures (set s | s in members) == subscribers
  {
    if members != [] { assert members[0] in subscribers; }
  }

  lemma PushedAfterWait<M>(was: map<string, seq<M>>, waited: map<string, seq<M>>, lists: map<string, seq<M>>,
                           subscribers: set<string>, capacity: Option<int>, m: M)
    requires forall s :: if s in subscribers then Waited(ListIn(was, s), ListIn(waited, s), capacity)
                         else ListIn(waited, s) == ListIn(was, s)
    requires forall s :: ListIn(lists, s) == if s in subscribers then [m] + ListIn(waited, s) else ListIn(waited, s)
    ensures PushedTo(was, lists, subscribers, capacity, m)
  {
    hide Waited;
    forall s | s in subscribers ensures Received(ListIn(was, s), ListIn(lists, s), capacity, m) {
      assert ListIn(lists, s)[1..] == ListIn(waited, s);
    }
  }

  lemma WaitedThenPopped<M>(was: map<string, seq<M>>, before: map<string, seq<M>>, lists: map<string, seq<M>>,
                            members: set<string>, subscribers: set<string>, capacity: Option<int>)
    requires members <= subscribers
    requires PushedToNobody(was, before, members, capacity) && OnlyPopped(before, lists, members)
    ensures OnlyPopped(was, lists, subscribers)
  {
  }

  lemma WaitedTwice<M>(was: map<string, seq<M>>, before: map<string, seq<M>>, lists: map<string, seq<M>>,
                       members: set<string>, subscribers: set<string>, capacity: Option<int>)
    requires members <= subscribers
    requires PushedToNobody(was, before, members, capacity) && PushedToNobody(before, lists, members, capacity)
    ensures PushedToNobody(was, lists, subscribers, capacity)
  {
  }

  lemma WaitedThenReceived<M>(was: map<string, seq<M>>, before: map<string, seq<M>>, lists: map<string, seq<M>>,
                              members: set<string>, subscribers: set<string>, capacity: Option<int>, m: M)
    requires members <= subscribers
    requires PushedToNobody(was, before, members, capacity) && PushedTo(before, lists, subscribers, capacity, m)
    ensures PushedTo(was, lists, subscribers, capacity, m)
  {
  }
}
