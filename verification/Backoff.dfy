/** How far apart the failed retries of one message id lie, over every run of any number of retry passes. */
module Backoff {
  import opened Arithmetic
  import opened MessageQueues
  import opened Outcomes
  import opened RedisLists
  import opened Retries

  /** A letter that a pass found due and whose handler is at work. `seen` is how many failures were recorded
      when it was checked; None once a letter with its id was deleted meanwhile. */
  datatype Pending = Pending(m: Message, checkedAt: int, seen: Option<nat>)

  /** A recorded failure, with what its check had seen. */
  datatype Failed = Failed(checkedAt: int, failedAt: int, seen: Option<nat>)

  /** `failed` is the history: per id, the failures recorded since a letter with that id was last deleted. */
  datatype World = World(q: Queues, pending: map<nat, Pending>, failed: map<string, seq<Failed>>, clock: int)

  datatype Step =
    | Check(r: nat, m: Message, now: int)
    | HandlerFails(r: nat, now: int)
    | HandlerReturns(r: nat, now: int)
    | Crash(r: nat, now: int)
    | Elsewhere(published: seq<Message>, processing: seq<Message>, dead: seq<Message>, now: int)  // to the lists

  function Start(q: Queues, clock: int): World {
    World(q, map[], map[], clock)
  }

  function FailedOf(w: World, id: string): seq<Failed> {
    if id in w.failed then w.failed[id] else []
  }

  function Deleted(w: World, m: Message): World {
    World(w.q.(dead := RemoveAll(w.q.dead, m), retryData := w.q.retryData - {m.id}),
          map r | r in w.pending :: if w.pending[r].m.id == m.id then w.pending[r].(seen := None) else w.pending[r],
          w.failed - {m.id}, w.clock)
  }

  function Recorded(w: World, p: Pending, now: int): World {
    var id := p.m.id;
    w.(q := w.q.(retryData := w.q.retryData[id := Bumped(RetryDataOf(w.q.retryData, id), now)]),
       failed := w.failed[id := FailedOf(w, id) + [Failed(p.checkedAt, now, p.seen)]])
  }

  function Ended(w: World, r: nat): World {
    w.(pending := w.pending - {r})
  }

  /** One step; a step that is not enabled changes nothing. */
  function Acted(policy: Policy, w: World, s: Step): World {
    match s
    case Check(r, m, now) =>
      if r in w.pending then w
      else (match Judge(policy, w.q.retryData, m, now)
            case Skip => w
            case Expire => Deleted(w, m)
            case Retry => w.(pending := w.pending[r := Pending(m, now, Some(|FailedOf(w, m.id)|))]))
    case HandlerFails(r, now) => if r in w.pending then Recorded(Ended(w, r), w.pending[r], now) else w
    case HandlerReturns(r, _) => if r in w.pending then Deleted(Ended(w, r), w.pending[r].m) else w
    case Crash(r, _) => Ended(w, r)
    case Elsewhere(published, processing, dead, _) =>
      w.(q := w.q.(published := published, processing := processing, dead := dead))
  }

  function Do(policy: Policy, w: World, s: Step): World {
    Acted(policy, w, s).(clock := s.now)
  }

  function Run(policy: Policy, start: World, steps: seq<Step>): World {
    if |steps| == 0 then start else Do(policy, Run(policy, start, steps[..|steps| - 1]), steps[|steps| - 1])
  }

  /** A pass that nobody disturbs between its check and its record takes the turn that `RetryOne` takes, whether or
      not its last letter ended in a crash. */
  lemma {:induction false} UndisturbedIsTurn(policy: Policy, w: World, r: nat, m: Message, checkedAt: int, ok: bool,
                                             doneAt: int)
    ensures var checked := Do(policy, Do(policy, w, Crash(r, checkedAt)), Check(r, m, checkedAt));
            var done := Do(policy, checked, if ok then HandlerReturns(r, doneAt) else HandlerFails(r, doneAt));
            && done.q == TurnOf(policy, Env(_ => checkedAt, _ => ok, _ => doneAt), w.q, m)
            && r !in done.pending && done.clock == doneAt
  {
    hide RemoveAll;
  }

  /** And if the lists change between the check and the record, that turn does to the changed lists what it does to
      the letters, and to the retry hashes the same. */
  lemma {:induction false} TurnOverChangedLists(policy: Policy, w: World, r: nat, m: Message, checkedAt: int, ok: bool,
                                                doneAt: int, lists: Queues)
    requires r !in w.pending && Judge(policy, w.q.retryData, m, checkedAt) == Retry
    ensures var checked := Do(policy, w, Check(r, m, checkedAt));
            var moved := Do(policy, checked, Elsewhere(lists.published, lists.processing, lists.dead, doneAt));
            var done := Do(policy, moved, if ok then HandlerReturns(r, doneAt) else HandlerFails(r, doneAt));
            && done.q.published == lists.published && done.q.processing == lists.processing
            && done.q.dead == (if ok then Without(lists.dead, {m}) else lists.dead)
            && done.q.retryData == TurnOf(policy, Env(_ => checkedAt, _ => ok, _ => doneAt), w.q, m).retryData
  {
    hide Without;
  }

  // ---- what every check has seen ----------------------------------------------------------

  /** The retry hash counts the failures and holds the whole second of the last one. */
  ghost predicate Records(d: RetryData, failed: seq<Failed>) {
    d == if |failed| == 0 then RetryData(0, None)
        else RetryData(|failed|, Some(WholeSecond(failed[|failed| - 1].failedAt)))
  }

  /** A check at `checkedAt` came later than the interval after the last of the `seen` failures it saw. */
  ghost predicate Since(policy: Policy, failed: seq<Failed>, checkedAt: int, seen: nat) {
    && seen <= |failed|
    && (seen > 0 ==> checkedAt > WholeSecond(failed[seen - 1].failedAt) + Interval(policy, seen) * TICKS_PER_MINUTE)
  }

  ghost predicate FailedOk(policy: Policy, failed: seq<Failed>) {
    forall k :: 0 <= k < |failed| && failed[k].seen.Some? ==>
      failed[k].seen.value <= k && Since(policy, failed, failed[k].checkedAt, failed[k].seen.value)
  }

  ghost predicate PendingOk(policy: Policy, w: World, id: string) {
    forall r :: r in w.pending && w.pending[r].m.id == id && w.pending[r].seen.Some? ==>
      Since(policy, FailedOf(w, id), w.pending[r].checkedAt, w.pending[r].seen.value)
  }

  ghost predicate Inv(policy: Policy, w: World, id: string) {
    && Records(RetryDataOf(w.q.retryData, id), FailedOf(w, id))
    && FailedOk(policy, FailedOf(w, id)) && PendingOk(policy, w, id)
  }

  /** One failure more leaves what the others have seen. */
  lemma SinceStays(policy: Policy, failed: seq<Failed>, f: Failed, checkedAt: int, seen: nat)
    requires Since(policy, failed, checkedAt, seen)
    ensures Since(policy, failed + [f], checkedAt, seen)
  {
    hide Interval, WholeSecond;
  }

  lemma RecordKeeps(policy: Policy, w: World, r: nat, now: int, id: string)
    requires r in w.pending && w.pending[r].m.id == id && Inv(policy, w, id)
    ensures Inv(policy, Recorded(Ended(w, r), w.pending[r], now), id)
  {
    var w', p, failed := Recorded(Ended(w, r), w.pending[r], now), w.pending[r], FailedOf(w, id);
    var f := Failed(p.checkedAt, now, p.seen);
    assert FailedOf(w', id) == failed + [f];
    hide Since;
    forall k | 0 <= k < |failed + [f]| && (failed + [f])[k].seen.Some?
      ensures (failed + [f])[k].seen.value <= k
      ensures Since(policy, failed + [f], (failed + [f])[k].checkedAt, (failed + [f])[k].seen.value)
    {
      var g := (failed + [f])[k];
      assert Since(policy, failed, g.checkedAt, g.seen.value);
      if k == |failed| { SeenAtMost(policy, failed, g.checkedAt, g.seen.value); }
      SinceStays(policy, failed, f, g.checkedAt, g.seen.value);
    }
    forall r' | r' in w'.pending && w'.pending[r'].m.id == id && w'.pending[r'].seen.Some?
      ensures Since(policy, failed + [f], w'.pending[r'].checkedAt, w'.pending[r'].seen.value)
    {
      SinceStays(policy, failed, f, w'.pending[r'].checkedAt, w'.pending[r'].seen.value);
    }
  }

  lemma SeenAtMost(policy: Policy, failed: seq<Failed>, checkedAt: int, seen: nat)
    requires Since(policy, failed, checkedAt, seen)
    ensures seen <= |failed|
  {
  }

  lemma CheckKeeps(policy: Policy, w: World, s: Step, id: string)
    requires s.Check? && Inv(policy, w, id)
    ensures Inv(policy, Acted(policy, w, s), id)
  {
    var w' := Acted(policy, w, s);
    if s.m.id == id && s.r !in w.pending && Judge(policy, w.q.retryData, s.m, s.now) == Retry {
      assert !BackedOff(policy, RetryDataOf(w.q.retryData, id), s.now);
      assert Since(policy, FailedOf(w, id), s.now, |FailedOf(w, id)|);
    }
    hide Since, Interval, TooOld, BackedOff;
  }

  lemma {:induction false} StepKeeps(policy: Policy, w: World, s: Step, id: string)
    requires Inv(policy, w, id)
    ensures Inv(policy, Do(policy, w, s), id)
  {
    match s
    case Check(_, _, _) => CheckKeeps(policy, w, s, id);
    case HandlerFails(r, now) =>
      if r in w.pending && w.pending[r].m.id == id { RecordKeeps(policy, w, r, now, id); }
      hide Since, Interval;
    case _ => hide Since, Interval;
  }

  lemma {:induction false} AlwaysSeen(policy: Policy, q: Queues, clock: int, steps: seq<Step>, id: string)
    requires id !in q.retryData
    ensures Inv(policy, Run(policy, Start(q, clock), steps), id)
  {
    if |steps| != 0 {
      var front := steps[..|steps| - 1];
      AlwaysSeen(policy, q, clock, front, id);
      StepKeeps(policy, Run(policy, Start(q, clock), front), steps[|steps| - 1], id);
    }
  }

  /** Main theorem: in every run of any number of passes, for every id, the check before a failure came later
      than min(2^k * base, cap) minutes after the last of the k failures recorded by then, counted from the
      whole second stored; and the hash counts the failures. */
  lemma {:induction false} FailuresLieApart(policy: Policy, q: Queues, clock: int, steps: seq<Step>, id: string, k: nat)
    requires id !in q.retryData
    ensures var w := Run(policy, Start(q, clock), steps);
            var failed := FailedOf(w, id);
            && RetryDataOf(w.q.retryData, id).count == |failed|
            && (k < |failed| && failed[k].seen.Some? && failed[k].seen.value > 0 ==>
                  var seen := failed[k].seen.value;
                  seen <= k
                  && failed[k].checkedAt > WholeSecond(failed[seen - 1].failedAt)
                     + Interval(policy, seen) * TICKS_PER_MINUTE)
  {
    AlwaysSeen(policy, q, clock, steps, id);
    hide Run;
    var failed := FailedOf(Run(policy, Start(q, clock), steps), id);
    if k < |failed| && failed[k].seen.Some? {
      assert Since(policy, failed, failed[k].checkedAt, failed[k].seen.value);
    }
  }

  // ---- when the gaps are those of the policy ----------------------------------------------

  /** The gap before failure `k` is the one the policy asks for after `k` failures. */
  ghost predicate GapBefore(policy: Policy, failed: seq<Failed>, k: nat)
    requires 0 < k < |failed|
  {
    failed[k].checkedAt > WholeSecond(failed[k - 1].failedAt) + Interval(policy, k) * TICKS_PER_MINUTE
  }

  ghost predicate InTime(policy: Policy, start: World, steps: seq<Step>) {
    |steps| != 0 ==>
      && InTime(policy, start, steps[..|steps| - 1])
      && steps[|steps| - 1].now >= Run(policy, start, steps[..|steps| - 1]).clock
  }

  function Base(seen: Option<nat>): nat {
    if seen.Some? then seen.value else 0
  }

  /** The failures that a check at `checkedAt` has not seen, among the first `n`, were recorded after it. */
  ghost predicate After(failed: seq<Failed>, checkedAt: int, seen: Option<nat>, n: nat)
    requires n <= |failed|
  {
    forall j :: Base(seen) <= j < n ==> failed[j].failedAt >= checkedAt
  }

  ghost predicate FailedInTime(failed: seq<Failed>, clock: int) {
    forall k :: 0 <= k < |failed| ==>
      && failed[k].checkedAt <= failed[k].failedAt <= clock
      && After(failed, failed[k].checkedAt, failed[k].seen, k)
  }

  ghost predicate TimesOk(w: World, id: string) {
    && FailedInTime(FailedOf(w, id), w.clock)
    && forall r :: r in w.pending && w.pending[r].m.id == id ==>
         w.pending[r].checkedAt <= w.clock
         && After(FailedOf(w, id), w.pending[r].checkedAt, w.pending[r].seen, |FailedOf(w, id)|)
  }

  lemma RecordInTime(failed: seq<Failed>, f: Failed, clock: int)
    requires FailedInTime(failed, clock) && f.checkedAt <= f.failedAt && clock <= f.failedAt
    requires After(failed, f.checkedAt, f.seen, |failed|)
    ensures FailedInTime(failed + [f], f.failedAt)
  {
    var all := failed + [f];
    forall k | 0 <= k < |all|
      ensures all[k].checkedAt <= all[k].failedAt <= f.failedAt && After(all, all[k].checkedAt, all[k].seen, k)
    {
      assert After(failed, all[k].checkedAt, all[k].seen, k);
    }
  }

  lemma RecordedInTime(w: World, r: nat, now: int, id: string)
    requires TimesOk(w, id) && r in w.pending && w.pending[r].m.id == id && now >= w.clock
    ensures TimesOk(Recorded(Ended(w, r), w.pending[r], now).(clock := now), id)
  {
    hide WholeSecond, FailedInTime;
    var w', p, failed := Recorded(Ended(w, r), w.pending[r], now).(clock := now), w.pending[r], FailedOf(w, id);
    var f := Failed(p.checkedAt, now, p.seen);
    assert FailedOf(w', id) == failed + [f];
    RecordInTime(failed, f, w.clock);
    forall r' | r' in w'.pending && w'.pending[r'].m.id == id
      ensures After(failed + [f], w'.pending[r'].checkedAt, w'.pending[r'].seen, |failed + [f]|)
    {
      assert After(failed, w.pending[r'].checkedAt, w.pending[r'].seen, |failed|);
    }
  }

  lemma DeletedInTime(w: World, m: Message, now: int, id: string)
    requires TimesOk(w, id) && now >= w.clock
    ensures TimesOk(Deleted(w, m).(clock := now), id)
  {
    hide RemoveAll;
    assert m.id != id ==> FailedOf(Deleted(w, m), id) == FailedOf(w, id);
  }

  lemma CheckedInTime(policy: Policy, w: World, s: Step, id: string)
    requires TimesOk(w, id) && s.Check? && s.now >= w.clock
    ensures TimesOk(Do(policy, w, s), id)
  {
    hide Judge, Deleted;
    DeletedInTime(w, s.m, s.now, id);
    ClockMoves(w, s.now, id);
  }

  lemma ClockMoves(w: World, now: int, id: string)
    requires TimesOk(w, id) && now >= w.clock
    ensures TimesOk(w.(clock := now), id)
  {
  }

  lemma {:induction false} StepInTime(policy: Policy, w: World, s: Step, id: string)
    requires TimesOk(w, id) && s.now >= w.clock
    ensures TimesOk(Do(policy, w, s), id)
  {
    hide Judge, FailedInTime, After, Deleted, WholeSecond;
    match s
    case Check(_, _, _) => CheckedInTime(policy, w, s, id);
    case HandlerFails(r, now) =>
      ClockMoves(w, now, id);
      if r in w.pending {
        if w.pending[r].m.id == id { RecordedInTime(w, r, now, id); } else { RecordedElsewhere(w, r, now, id); }
      }
    case HandlerReturns(r, now) =>
      if r in w.pending { DeletedInTime(Ended(w, r), w.pending[r].m, now, id); }
      ClockMoves(w, now, id);
    case _ => ClockMoves(w, s.now, id);
  }

  lemma RecordedElsewhere(w: World, r: nat, now: int, id: string)
    requires TimesOk(w, id) && r in w.pending && w.pending[r].m.id != id && now >= w.clock
    ensures TimesOk(Recorded(Ended(w, r), w.pending[r], now).(clock := now), id)
  {
    hide WholeSecond;
    assert FailedOf(Recorded(Ended(w, r), w.pending[r], now), id) == FailedOf(w, id);
  }

  lemma {:induction false} AlwaysInTime(policy: Policy, q: Queues, clock: int, steps: seq<Step>, id: string)
    requires InTime(policy, Start(q, clock), steps)
    ensures TimesOk(Run(policy, Start(q, clock), steps), id)
  {
    if |steps| != 0 {
      AlwaysInTime(policy, q, clock, steps[..|steps| - 1], id);
      StepInTime(policy, Run(policy, Start(q, clock), steps[..|steps| - 1]), steps[|steps| - 1], id);
    }
  }

  /** Exactly when a gap is the policy's, while the clock does not run backwards: when nobody recorded a failure of
      the id, or deleted a letter with it, between the check and its record. */
  lemma {:induction false} GapIff(policy: Policy, q: Queues, clock: int, steps: seq<Step>, id: string, k: nat)
    requires id !in q.retryData && InTime(policy, Start(q, clock), steps)
    requires 0 < k < |FailedOf(Run(policy, Start(q, clock), steps), id)| && Interval(policy, k) > 0
    ensures var failed := FailedOf(Run(policy, Start(q, clock), steps), id);
            GapBefore(policy, failed, k) <==> failed[k].seen == Some(k)
  {
    AlwaysSeen(policy, q, clock, steps, id);
    AlwaysInTime(policy, q, clock, steps, id);
    hide Run, InTime, Interval, Records, PendingOk;
    var failed := FailedOf(Run(policy, Start(q, clock), steps), id);
    hide FailedOf;
    if failed[k].seen == Some(k) {
      assert Since(policy, failed, failed[k].checkedAt, k);
    } else {
      assert After(failed, failed[k].checkedAt, failed[k].seen, k) && Base(failed[k].seen) < k;
      hide WholeSecond;
      CheckedTooEarly(failed[k].checkedAt, failed[k - 1].failedAt, Interval(policy, k));
    }
  }

  /** A check that is no later than a failure has not waited for it. */
  lemma CheckedTooEarly(checkedAt: int, failedAt: int, minutes: int)
    requires checkedAt <= failedAt && minutes > 0
    ensures checkedAt <= WholeSecond(failedAt) + minutes * TICKS_PER_MINUTE
  {
  }

  /** Two passes that check one letter at the same time and then fail leave no gap at all. */
  lemma {:induction false} OverlapLeavesNoGap(policy: Policy, q: Queues, m: Message, now: int)
    returns (steps: seq<Step>)
    requires m.id !in q.retryData && policy.timeToLiveHours == 0 && Interval(policy, 1) > 0
    ensures InTime(policy, Start(q, now), steps)
    ensures FailedOf(Run(policy, Start(q, now), steps), m.id) == [Failed(now, now, Some(0)), Failed(now, now, Some(0))]
    ensures !GapBefore(policy, FailedOf(Run(policy, Start(q, now), steps), m.id), 1)
  {
    var start := Start(q, now);
    var s1 := [] + [Check(0, m, now)];
    var s2 := s1 + [Check(1, m, now)];
    var s3 := s2 + [HandlerFails(0, now)];
    steps := s3 + [HandlerFails(1, now)];
    Then(policy, start, [], Check(0, m, now));
    Then(policy, start, s1, Check(1, m, now));
    Then(policy, start, s2, HandlerFails(0, now));
    Then(policy, start, s3, HandlerFails(1, now));
    assert InTime(policy, start, []) && Run(policy, start, []) == start;
    hide Run, InTime, Interval;
    BothDue(policy, start, m, now);
  }

  lemma BothDue(policy: Policy, start: World, m: Message, now: int)
    requires start.pending == map[] && start.failed == map[] && m.id !in start.q.retryData
        && policy.timeToLiveHours == 0
    requires Interval(policy, 1) > 0
    ensures var w2 := Do(policy, Do(policy, start, Check(0, m, now)), Check(1, m, now));
            var w4 := Do(policy, Do(policy, w2, HandlerFails(0, now)), HandlerFails(1, now));
            var both := [Failed(now, now, Some(0)), Failed(now, now, Some(0))];
            FailedOf(w4, m.id) == both && !GapBefore(policy, both, 1)
  {
    hide Interval, WholeSecond;
    var w1 := Do(policy, start, Check(0, m, now));
    assert 0 in w1.pending && w1.pending[0] == Pending(m, now, Some(0)) && 1 !in w1.pending;
    assert w1.q == start.q && w1.failed == map[];
    var w2 := Do(policy, w1, Check(1, m, now));
    assert 0 in w2.pending && w2.pending[0] == Pending(m, now, Some(0)) && 1 in w2.pending && w2.failed == map[];
    assert w2.pending[1] == Pending(m, now, Some(0));
    hide Judge;
    var w3 := Do(policy, w2, HandlerFails(0, now));
    assert FailedOf(w3, m.id) == [Failed(now, now, Some(0))] && 1 in w3.pending
        && w3.pending[1] == Pending(m, now, Some(0));
    CheckedTooEarly(now, now, Interval(policy, 1));
  }

  lemma Then(policy: Policy, start: World, steps: seq<Step>, s: Step)
    ensures Run(policy, start, steps + [s]) == Do(policy, Run(policy, start, steps), s)
    ensures InTime(policy, start, steps + [s]) <==>
        InTime(policy, start, steps) && s.now >= Run(policy, start, steps).clock
  {
    assert (steps + [s])[..|steps|] == steps;
  }

  // ---- one pass at a time -----------------------------------------------------------------

  /** No letter with the id is checked while another pass is at work on one. */
  ghost predicate OneAtATime(policy: Policy, start: World, steps: seq<Step>, id: string) {
    |steps| != 0 ==>
      && OneAtATime(policy, start, steps[..|steps| - 1], id)
      && (steps[|steps| - 1].Check? && steps[|steps| - 1].m.id == id ==>
            Idle(Run(policy, start, steps[..|steps| - 1]), id))
  }

  ghost predicate Idle(w: World, id: string) {
    forall r :: r in w.pending ==> w.pending[r].m.id != id
  }

  ghost predicate SeenAll(w: World, id: string) {
    && (forall k :: 0 <= k < |FailedOf(w, id)| ==> FailedOf(w, id)[k].seen == Some(k))
    && (forall r :: r in w.pending && w.pending[r].m.id == id ==> w.pending[r].seen == Some(|FailedOf(w, id)|))
    && (forall r, r' :: r in w.pending && r' in w.pending && w.pending[r].m.id == id && w.pending[r'].m.id == id ==>
          r == r')
  }

  lemma {:induction false} StepAlone(policy: Policy, w: World, s: Step, id: string)
    requires SeenAll(w, id) && (s.Check? && s.m.id == id ==> Idle(w, id))
    ensures SeenAll(Do(policy, w, s), id)
  {
    hide Judge, WholeSecond;
    match s
    case HandlerFails(r, now) => if r in w.pending { RecordAlone(w, r, now, id); }
    case HandlerReturns(r, _) => if r in w.pending { DeleteAlone(Ended(w, r), w.pending[r].m, id); }
    case Check(r, m, now) => if r !in w.pending { CheckAlone(policy, w, s, id); }
    case _ =>
  }

  lemma RecordAlone(w: World, r: nat, now: int, id: string)
    requires SeenAll(w, id) && r in w.pending
    ensures SeenAll(Recorded(Ended(w, r), w.pending[r], now), id)
  {
    hide WholeSecond;
    var w' := Recorded(Ended(w, r), w.pending[r], now);
    assert w.pending[r].m.id != id ==> FailedOf(w', id) == FailedOf(w, id);
  }

  lemma DeleteAlone(w: World, m: Message, id: string)
    requires SeenAll(w, id) && (m.id == id ==> Idle(w, id))
    ensures SeenAll(Deleted(w, m), id)
  {
    hide RemoveAll;
    assert m.id != id ==> FailedOf(Deleted(w, m), id) == FailedOf(w, id);
  }

  lemma CheckAlone(policy: Policy, w: World, s: Step, id: string)
    requires s.Check? && s.r !in w.pending && SeenAll(w, id) && (s.m.id == id ==> Idle(w, id))
    ensures SeenAll(Do(policy, w, s), id)
  {
    hide Judge, Deleted;
    if Judge(policy, w.q.retryData, s.m, s.now) == Expire {
      DeleteAlone(w, s.m, id);
      hide Idle;
    }
  }

  lemma {:induction false} AlwaysAlone(policy: Policy, q: Queues, clock: int, steps: seq<Step>, id: string)
    requires OneAtATime(policy, Start(q, clock), steps, id)
    ensures SeenAll(Run(policy, Start(q, clock), steps), id)
  {
    if |steps| != 0 {
      AlwaysAlone(policy, q, clock, steps[..|steps| - 1], id);
      StepAlone(policy, Run(policy, Start(q, clock), steps[..|steps| - 1]), steps[|steps| - 1], id);
    }
  }

  ghost predicate Apart(policy: Policy, failed: seq<Failed>) {
    forall k :: 0 < k < |failed| ==> GapBefore(policy, failed, k)
  }

  /** While the passes over an id do not overlap, every gap is the policy's. */
  lemma {:induction false} ApartOneAtATime(policy: Policy, q: Queues, clock: int, steps: seq<Step>, id: string)
    requires id !in q.retryData && OneAtATime(policy, Start(q, clock), steps, id)
    ensures Apart(policy, FailedOf(Run(policy, Start(q, clock), steps), id))
  {
    AlwaysSeen(policy, q, clock, steps, id);
    AlwaysAlone(policy, q, clock, steps, id);
    hide Run, OneAtATime, Interval;
    var failed := FailedOf(Run(policy, Start(q, clock), steps), id);
    forall k | 0 < k < |failed| ensures GapBefore(policy, failed, k) {
      assert Since(policy, failed, failed[k].checkedAt, failed[k].seen.value);
    }
  }

  /** The minutes the first `n - 1` gaps add up to at least. */
  function Waits(policy: Policy, n: nat): int {
    if n <= 1 then 0 else Waits(policy, n - 1) + Interval(policy, n - 1)
  }

  ghost predicate HandlersTakeTime(failed: seq<Failed>) {
    forall f :: f in failed ==> f.checkedAt <= f.failedAt
  }

  lemma {:induction false} GapsAddUp(policy: Policy, failed: seq<Failed>)
    requires |failed| > 0 && HandlersTakeTime(failed) && Apart(policy, failed)
    ensures var first, last := WholeSecond(failed[0].failedAt), WholeSecond(failed[|failed| - 1].failedAt);
            last >= first + Waits(policy, |failed|) * TICKS_PER_MINUTE
    ensures |failed| > 1 ==>
              failed[|failed| - 1].failedAt > WholeSecond(failed[0].failedAt)
                  + Waits(policy, |failed|) * TICKS_PER_MINUTE
  {
    var n := |failed|;
    hide Interval;
    if n > 1 {
      var front := failed[..n - 1];
      assert failed[n - 1] in failed;
      ShorterApart(policy, failed);
      GapsAddUp(policy, front);
      hide Apart, WholeSecond;
      WholeMinutesLater(WholeSecond(front[n - 2].failedAt), failed[n - 1].failedAt, Interval(policy, n - 1));
    }
  }

  lemma ShorterApart(policy: Policy, failed: seq<Failed>)
    requires |failed| > 1 && Apart(policy, failed) && HandlersTakeTime(failed)
    ensures var n, front := |failed|, failed[..|failed| - 1];
            && Apart(policy, front) && HandlersTakeTime(front)
            && failed[n - 1].failedAt > WholeSecond(front[n - 2].failedAt) + Interval(policy, n - 1) * TICKS_PER_MINUTE
            && WholeSecond(front[n - 2].failedAt) % TICKS_PER_SECOND == 0
  {
    hide Interval;
    var front := failed[..|failed| - 1];
    assert forall f :: f in front ==> f in failed;
    assert failed[|failed| - 1] in failed && GapBefore(policy, failed, |failed| - 1);
    forall k | 0 < k < |front| ensures GapBefore(policy, front, k) {
      assert GapBefore(policy, failed, k);
    }
  }

  /** Cutting a time to whole seconds does not undo a wait of whole minutes. */
  lemma WholeMinutesLater(from: int, to: int, minutes: int)
    requires from % TICKS_PER_SECOND == 0 && to >= from + minutes * TICKS_PER_MINUTE
    ensures WholeSecond(to) >= from + minutes * TICKS_PER_MINUTE
  {
    var a, b := from / TICKS_PER_SECOND, to / TICKS_PER_SECOND;
    assert from == a * TICKS_PER_SECOND;
    assert to == b * TICKS_PER_SECOND + to % TICKS_PER_SECOND;
    assert to < (b + 1) * TICKS_PER_SECOND;
    assert (a + 60 * minutes) * TICKS_PER_SECOND < (b + 1) * TICKS_PER_SECOND;
  }

  /** `n` failed retries of an id, one pass at a time, take longer than the sum of min(2^k * base, cap) minutes
      over k = 1 .. n - 1. */
  lemma {:induction false} AttemptsInAWindow(policy: Policy, q: Queues, clock: int, steps: seq<Step>, id: string,
                                             window: int)
    requires id !in q.retryData
    requires OneAtATime(policy, Start(q, clock), steps, id) && InTime(policy, Start(q, clock), steps)
    requires var failed := FailedOf(Run(policy, Start(q, clock), steps), id);
             |failed| > 1 && failed[|failed| - 1].failedAt - WholeSecond(failed[0].failedAt) <= window
    ensures Waits(policy, |FailedOf(Run(policy, Start(q, clock), steps), id)|) * TICKS_PER_MINUTE < window
  {
    ApartOneAtATime(policy, q, clock, steps, id);
    AlwaysInTime(policy, q, clock, steps, id);
    hide Run, OneAtATime, InTime, Apart;
    GapsAddUp(policy, FailedOf(Run(policy, Start(q, clock), steps), id));
  }

  lemma DoubledStep(p: nat, base: nat)
    ensures (2 * p) * base == p * base + p * base && p * base >= 0
  {
  }

  lemma IntervalDoubles(policy: Policy, k: nat)
    requires policy.intervalMinutes >= 0
    ensures Interval(policy, k) <= Interval(policy, k + 1) <= policy.maxMinutes
    ensures Interval(policy, k) == policy.maxMinutes ==> Interval(policy, k + 1) == policy.maxMinutes
  {
    DoubledStep(Pow2(k), policy.intervalMinutes);
    assert Pow2(k + 1) == 2 * Pow2(k);
    hide Pow2;
  }

  /** The interval never shrinks, is never over the cap, and stays at the cap once there. */
  lemma {:induction false} IntervalGrows(policy: Policy, j: nat, k: nat)
    requires policy.intervalMinutes >= 0 && j <= k
    ensures Interval(policy, j) <= Interval(policy, k) <= policy.maxMinutes
    ensures Interval(policy, j) == policy.maxMinutes ==> Interval(policy, k) == policy.maxMinutes
    decreases k - j
  {
    if j == k {
      AtMostTheCap(policy, k);
    } else {
      hide Interval;
      IntervalGrows(policy, j, k - 1);
      IntervalDoubles(policy, k - 1);
    }
  }

  lemma AtMostTheCap(policy: Policy, k: nat)
    ensures Interval(policy, k) <= policy.maxMinutes
  {
  }

  /** Two letters with one id share the hash, so deleting the one forgets the failures of the other: after its
      second failure the letter is let through again when only the first interval has passed. */
  lemma SharedIdForgetsFailures(policy: Policy, q: Queues, a: Message, b: Message, t0: int, t1: int, t2: int)
    requires a.id == b.id && a.id !in q.retryData && policy.timeToLiveHours == 0
    requires t1 > WholeSecond(t0) + Interval(policy, 1) * TICKS_PER_MINUTE && t2 >= t1
    ensures var one := TurnOf(policy, Env(_ => t0, _ => false, _ => t0), q, a);
            var two := TurnOf(policy, Env(_ => t1, _ => true, _ => t1), one, b);
            var three := TurnOf(policy, Env(_ => t2, _ => false, _ => t2), two, a);
            && Judge(policy, one.retryData, b, t1) == Retry && Judge(policy, two.retryData, a, t2) == Retry
            && RetryDataOf(three.retryData, a.id).count == 1
            && forall now :: now > WholeSecond(t2) + Interval(policy, 1) * TICKS_PER_MINUTE ==>
                 Judge(policy, three.retryData, a, now) == Retry
  {
    hide Interval, RemoveAll;
    var one := TurnOf(policy, Env(_ => t0, _ => false, _ => t0), q, a);
    assert RetryDataOf(one.retryData, a.id) == RetryData(1, Some(WholeSecond(t0)));
    var two := TurnOf(policy, Env(_ => t1, _ => true, _ => t1), one, b);
    assert RetryDataOf(two.retryData, a.id) == RetryData(0, None);
  }
}
