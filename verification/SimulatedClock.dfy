/** The backtesting clock: timers in a queue by due time, cancellations in a set consulted when a timer comes up. */
module SimulatedClocks {

  datatype Timer = Timer(id: int, when: int)

  datatype Clock = Clock(now: int, nextId: int, timers: set<Timer>, cancelled: set<int>)

  function Due(c: Clock): set<Timer> {
    set t | t in c.timers && t.when <= c.now
  }

  function Ids(ts: set<Timer>): set<int> {
    set t | t in ts :: t.id
  }

  function Elements(ts: seq<Timer>): set<Timer> {
    set t | t in ts
  }

  /** A pass over the queue may run these callbacks, in this order; timers due at the same time come in any order. */
  ghost predicate IsPass(c: Clock, ready: seq<Timer>) {
    && (forall i, j :: 0 <= i < j < |ready| ==> ready[i].when <= ready[j].when && ready[i] != ready[j])
    && Elements(ready) == (set t | t in Due(c) && t.id !in c.cancelled)
  }

  function AfterPass(c: Clock): Clock {
    c.(timers := c.timers - Due(c), cancelled := c.cancelled - Ids(Due(c)))
  }

  // Runs of the clock.

  datatype Step = Schedule(when: int) | Cancel(id: int) | SetTime(time: int) | Process(ready: seq<Timer>)

  function Done(c: Clock, s: Step): Clock {
    match s
    case Schedule(when) => c.(nextId := c.nextId + 1, timers := c.timers + {Timer(c.nextId + 1, when)})
    case Cancel(id) => c.(cancelled := c.cancelled + {id})
    case SetTime(time) => c.(now := time)
    case Process(_) => AfterPass(c)
  }

  function DoneAll(c: Clock, steps: seq<Step>): Clock {
    if steps == [] then c else Done(DoneAll(c, steps[..|steps| - 1]), steps[|steps| - 1])
  }

  function Start(time: int): Clock {
    Clock(time, 0, {}, {})
  }

  /** The time last set, or the time at the start. */
  function LastSet(time: int, steps: seq<Step>): int {
    if steps == [] then time
    else if steps[|steps| - 1].SetTime? then steps[|steps| - 1].time
    else LastSet(time, steps[..|steps| - 1])
  }

  lemma {:induction false} NowIsLastSet(time: int, steps: seq<Step>)
    ensures DoneAll(Start(time), steps).now == LastSet(time, steps)
  {
    if steps != [] {
      NowIsLastSet(time, steps[..|steps| - 1]);
    }
  }

  /** Every pass of the run fires what the clock allows. */
  ghost predicate IsRun(time: int, steps: seq<Step>) {
    forall i :: 0 <= i < |steps| && steps[i].Process? ==> IsPass(DoneAll(Start(time), steps[..i]), steps[i].ready)
  }

  ghost predicate IssuedAt(time: int, steps: seq<Step>, i: int, t: Timer) {
    0 <= i < |steps| && steps[i] == Schedule(t.when) && t.id == DoneAll(Start(time), steps[..i]).nextId + 1
  }

  ghost predicate Issued(time: int, steps: seq<Step>, id: int) {
    exists i, t :: IssuedAt(time, steps, i, t) && t.id == id
  }

  /** The pass at step j is late enough to take the timer off the queue. */
  ghost predicate TakenAt(time: int, steps: seq<Step>, j: int, t: Timer) {
    0 <= j < |steps| && steps[j].Process? && t.when <= LastSet(time, steps[..j])
  }

  ghost predicate WaitingSince(time: int, steps: seq<Step>, i: int, t: Timer) {
    IssuedAt(time, steps, i, t) && forall j :: i < j < |steps| ==> !TakenAt(time, steps, j, t)
  }

  ghost predicate CancelledIn(steps: seq<Step>, id: int) {
    exists i :: 0 <= i < |steps| && steps[i] == Cancel(id)
  }

  lemma RunPrefix(time: int, steps: seq<Step>)
    requires steps != []
    ensures var n := |steps| - 1;
            && (IsRun(time, steps) ==> IsRun(time, steps[..n]))
            && (forall i, t :: 0 <= i < n ==> (IssuedAt(time, steps[..n], i, t) <==> IssuedAt(time, steps, i, t)))
            && (forall i, t :: 0 <= i < n ==> (TakenAt(time, steps[..n], i, t) <==> TakenAt(time, steps, i, t)))
            && (forall id :: CancelledIn(steps, id) <==> CancelledIn(steps[..n], id) || steps[n] == Cancel(id))
  {
    var n := |steps| - 1;
    assert forall i :: 0 <= i < n ==> steps[..n][i] == steps[i] && steps[..n][..i] == steps[..i];
  }

  /** Ids are handed out once each, in order. */
  lemma {:induction false} IdsAreFresh(time: int, steps: seq<Step>)
    ensures var c := DoneAll(Start(time), steps);
            && c.nextId >= 0
            && (forall i, t :: IssuedAt(time, steps, i, t) ==> 1 <= t.id <= c.nextId)
            && (forall id :: 1 <= id <= c.nextId ==> Issued(time, steps, id))
            && (forall i, t, j, u :: IssuedAt(time, steps, i, t) && IssuedAt(time, steps, j, u) && t.id == u.id ==>
                 i == j && t == u)
  {
    if steps != [] {
      var n := |steps| - 1;
      IdsAreFresh(time, steps[..n]);
      RunPrefix(time, steps);
      var before := DoneAll(Start(time), steps[..n]);
      forall id | Issued(time, steps[..n], id) ensures Issued(time, steps, id) {
        var i, t :| IssuedAt(time, steps[..n], i, t) && t.id == id;
        assert IssuedAt(time, steps, i, t);
      }
      if steps[n].Schedule? {
        assert IssuedAt(time, steps, n, Timer(before.nextId + 1, steps[n].when));
      }
    }
  }

  /** The queue holds exactly the timers issued and not yet due at any pass since. */
  lemma {:induction false} QueueIsWhatWaits(time: int, steps: seq<Step>, t: Timer)
    ensures t in DoneAll(Start(time), steps).timers <==> exists i :: WaitingSince(time, steps, i, t)
  {
    if steps != [] {
      var n := |steps| - 1;
      QueueIsWhatWaits(time, steps[..n], t);
      NowIsLastSet(time, steps[..n]);
      RunPrefix(time, steps);
      assert forall i :: 0 <= i < n ==>
        (WaitingSince(time, steps, i, t) <==> WaitingSince(time, steps[..n], i, t) && !TakenAt(time, steps, n, t));
      assert WaitingSince(time, steps, n, t) <==> IssuedAt(time, steps, n, t);
    }
  }

  /** A timer still queued is marked cancelled exactly when its id was ever cancelled. */
  lemma {:induction false} CancellationsLast(time: int, steps: seq<Step>, t: Timer)
    requires t in DoneAll(Start(time), steps).timers
    ensures t.id in DoneAll(Start(time), steps).cancelled <==> CancelledIn(steps, t.id)
  {
    var n := |steps| - 1;
    var before := DoneAll(Start(time), steps[..n]);
    RunPrefix(time, steps);
    if t in before.timers {
      CancellationsLast(time, steps[..n], t);
      if steps[n].Process? && t.id in Ids(Due(before)) {
        SameIdSameTimer(time, steps[..n], t);
      }
    } else {
      NeverIssuedCancelled(time, steps[..n], t.id);
    }
  }

  lemma SameIdSameTimer(time: int, steps: seq<Step>, t: Timer)
    requires t in DoneAll(Start(time), steps).timers
    ensures forall u :: u in DoneAll(Start(time), steps).timers && u.id == t.id ==> u == t
  {
    IdsAreFresh(time, steps);
    QueueIsWhatWaits(time, steps, t);
    forall u | u in DoneAll(Start(time), steps).timers && u.id == t.id ensures u == t {
      QueueIsWhatWaits(time, steps, u);
    }
  }

  /** An id that is not queued yet keeps its cancellation until it is. */
  lemma {:induction false} NeverIssuedCancelled(time: int, steps: seq<Step>, id: int)
    requires id > DoneAll(Start(time), steps).nextId
    ensures id in DoneAll(Start(time), steps).cancelled <==> CancelledIn(steps, id)
  {
    if steps != [] {
      var n := |steps| - 1;
      var before := DoneAll(Start(time), steps[..n]);
      RunPrefix(time, steps);
      NeverIssuedCancelled(time, steps[..n], id);
      IdsAreFresh(time, steps[..n]);
      forall t | t in before.timers ensures t.id != id {
        QueueIsWhatWaits(time, steps[..n], t);
      }
    }
  }

  /** The pass at step l takes a timer with this id off the queue, and with it the mark of its cancellation. */
  ghost predicate SettlesId(time: int, steps: seq<Step>, l: int, id: int) {
    0 <= l < |steps| && exists t ::
      t in DoneAll(Start(time), steps[..l]).timers && t.id == id && TakenAt(time, steps, l, t)
  }

  ghost predicate MarkedSince(time: int, steps: seq<Step>, j: int, id: int) {
    && 0 <= j < |steps| && steps[j] == Cancel(id)
    && forall l :: j < l < |steps| ==> !SettlesId(time, steps, l, id)
  }

  /** A cancellation is remembered until a pass takes its timer off the queue, and forever if there is none. */
  lemma {:induction false} CancelledIsMarked(time: int, steps: seq<Step>, id: int)
    ensures id in DoneAll(Start(time), steps).cancelled <==> exists j :: MarkedSince(time, steps, j, id)
  {
    if steps != [] {
      var n := |steps| - 1;
      var before := DoneAll(Start(time), steps[..n]);
      CancelledIsMarked(time, steps[..n], id);
      NowIsLastSet(time, steps[..n]);
      RunPrefix(time, steps);
      forall j | 0 <= j < n
        ensures MarkedSince(time, steps, j, id) <==>
          MarkedSince(time, steps[..n], j, id) && !SettlesId(time, steps, n, id)
      {
        MarkedExtends(time, steps, j, id);
      }
      assert MarkedSince(time, steps, n, id) <==> steps[n] == Cancel(id);
      assert steps[n].Process? ==> (id in Ids(Due(before)) <==> SettlesId(time, steps, n, id));
    }
  }

  lemma MarkedExtends(time: int, steps: seq<Step>, j: int, id: int)
    requires 0 <= j < |steps| - 1
    ensures var n := |steps| - 1;
            MarkedSince(time, steps, j, id) <==> MarkedSince(time, steps[..n], j, id) && !SettlesId(time, steps, n, id)
  {
    var n := |steps| - 1;
    RunPrefix(time, steps);
    assert steps[..n][j] == steps[j];
    forall l | 0 <= l < n ensures SettlesId(time, steps, l, id) <==> SettlesId(time, steps[..n], l, id) {
      assert steps[..n][..l] == steps[..l];
      assert forall t :: TakenAt(time, steps[..n], l, t) <==> TakenAt(time, steps, l, t);
    }
  }

  /** The ledger, over every run: a pass fires a timer exactly when the timer was issued before, is due now, was due at
      no pass in between (so it never fires twice), and its id was not cancelled before the pass. */
  lemma FiresExactlyWhen(time: int, steps: seq<Step>, k: int, t: Timer)
    requires IsRun(time, steps) && 0 <= k < |steps| && steps[k].Process?
    ensures t in steps[k].ready <==>
              && t.when <= LastSet(time, steps[..k])
              && (exists i :: WaitingSince(time, steps[..k], i, t))
              && !CancelledIn(steps[..k], t.id)
  {
    var c := DoneAll(Start(time), steps[..k]);
    NowIsLastSet(time, steps[..k]);
    QueueIsWhatWaits(time, steps[..k], t);
    assert t in steps[k].ready <==> t in Elements(steps[k].ready);
    if t in c.timers {
      CancellationsLast(time, steps[..k], t);
    }
  }

  ghost predicate FiredAt(steps: seq<Step>, k: int, t: Timer) {
    0 <= k < |steps| && steps[k].Process? && t in steps[k].ready
  }

  /** A due timer that a pass takes without firing. */
  ghost predicate SkippedAt(time: int, steps: seq<Step>, k: int, t: Timer) {
    && TakenAt(time, steps, k, t) && (exists i :: WaitingSince(time, steps[..k], i, t))
    && CancelledIn(steps[..k], t.id)
  }

  ghost predicate SettledAt(time: int, steps: seq<Step>, k: int, t: Timer) {
    FiredAt(steps, k, t) || SkippedAt(time, steps, k, t)
  }

  /** Every issued timer is pending, fired or skipped: exactly one of the three, and fired or skipped exactly once. */
  lemma EachTimerSettlesOnce(time: int, steps: seq<Step>, i: int, t: Timer)
    requires IsRun(time, steps) && IssuedAt(time, steps, i, t)
    ensures var pending := t in DoneAll(Start(time), steps).timers;
            var settled := exists k :: SettledAt(time, steps, k, t);
            && pending != settled
            && (forall k, l :: SettledAt(time, steps, k, t) && SettledAt(time, steps, l, t) ==> k == l)
            && (forall k :: !(FiredAt(steps, k, t) && SkippedAt(time, steps, k, t)))
  {
    QueueIsWhatWaits(time, steps, t);
    IdsAreFresh(time, steps);
    forall k | 0 <= k < |steps|
      ensures SettledAt(time, steps, k, t) <==> FirstTaken(time, steps, i, k, t)
      ensures !(FiredAt(steps, k, t) && SkippedAt(time, steps, k, t))
    {
      SettlesWhenFirstTaken(time, steps, i, k, t);
    }
    if exists j :: i < j < |steps| && TakenAt(time, steps, j, t) {
      var j := FirstTakenExists(time, steps, i, t);
      assert FirstTaken(time, steps, i, j, t);
      assert SettledAt(time, steps, j, t);
      assert !WaitingSince(time, steps, i, t);
    } else {
      assert WaitingSince(time, steps, i, t);
    }
  }

  ghost predicate FirstTaken(time: int, steps: seq<Step>, i: int, k: int, t: Timer) {
    i < k && TakenAt(time, steps, k, t) && forall j :: i < j < k ==> !TakenAt(time, steps, j, t)
  }

  lemma FirstTakenExists(time: int, steps: seq<Step>, i: int, t: Timer) returns (j: int)
    requires 0 <= i && exists j :: i < j < |steps| && TakenAt(time, steps, j, t)
    ensures FirstTaken(time, steps, i, j, t)
  {
    j := i + 1;
    while !TakenAt(time, steps, j, t)
      invariant i < j < |steps| && forall l :: i < l < j ==> !TakenAt(time, steps, l, t)
      invariant exists l :: j <= l < |steps| && TakenAt(time, steps, l, t)
      decreases |steps| - j
    {
      j := j + 1;
    }
  }

  lemma SettlesWhenFirstTaken(time: int, steps: seq<Step>, i: int, k: int, t: Timer)
    requires IsRun(time, steps) && IssuedAt(time, steps, i, t) && 0 <= k < |steps|
    ensures SettledAt(time, steps, k, t) <==> FirstTaken(time, steps, i, k, t)
    ensures !(FiredAt(steps, k, t) && SkippedAt(time, steps, k, t))
  {
    if steps[k].Process? {
      FiresExactlyWhen(time, steps, k, t);
    }
    IdsAreFresh(time, steps);
    var before := steps[..k];
    forall j | 0 <= j < k
      ensures before[..j] == steps[..j] && before[j] == steps[j]
    {
    }
    assert forall j :: 0 <= j < k ==> (IssuedAt(time, before, j, t) <==> IssuedAt(time, steps, j, t));
    assert forall j :: 0 <= j < k ==> (TakenAt(time, before, j, t) <==> TakenAt(time, steps, j, t));
    if i < k {
      assert WaitingSince(time, before, i, t) <==> forall j :: i < j < k ==> !TakenAt(time, steps, j, t);
    }
  }

  // One turn of a pass.

  /** Part of a pass: the timers left, the cancellations left, and the callbacks to run so far. */
  ghost predicate Passing(c: Clock, timers: set<Timer>, cancelled: set<int>, ready: seq<Timer>) {
    && timers <= c.timers && cancelled == c.cancelled - Ids(c.timers - timers)
    && (forall t :: t in c.timers - timers ==> t.when <= c.now)
    && (forall t, u :: t in c.timers - timers && u in timers ==> t.when <= u.when)
    && Elements(ready) == (set t | t in c.timers - timers && t.id !in c.cancelled)
    && (forall i, j :: 0 <= i < j < |ready| ==> ready[i].when <= ready[j].when && ready[i] != ready[j])
  }

  ghost predicate DistinctIds(timers: set<Timer>) {
    forall t, u :: t in timers && u in timers && t.id == u.id ==> t == u
  }

  lemma ElementsSnoc(ts: seq<Timer>, t: Timer)
    ensures Elements(ts + [t]) == Elements(ts) + {t}
    ensures forall i :: 0 <= i < |ts| ==> ts[i] in Elements(ts)
  {
    assert forall i :: 0 <= i < |ts| ==> (ts + [t])[i] == ts[i];
  }

  lemma PassStarts(c: Clock)
    ensures Passing(c, c.timers, c.cancelled, [])
  {
    assert c.timers - c.timers == {};
  }

  /** Taking the earliest due timer: skipped if its id is marked cancelled, else next in line to run. */
  lemma PassTurn(c: Clock, timers: set<Timer>, cancelled: set<int>, ready: seq<Timer>, t: Timer)
    requires DistinctIds(c.timers) && Passing(c, timers, cancelled, ready)
    requires t in timers && t.when <= c.now && forall u :: u in timers ==> t.when <= u.when
    ensures t.id in cancelled ==> Passing(c, timers - {t}, cancelled - {t.id}, ready)
    ensures t.id !in cancelled ==> Passing(c, timers - {t}, cancelled, ready + [t])
  {
    var taken := c.timers - timers;
    assert c.timers - (timers - {t}) == taken + {t};
    assert Ids(taken + {t}) == Ids(taken) + {t.id};
    assert t.id !in Ids(taken);
    ElementsSnoc(ready, t);
  }

  lemma PassEnds(c: Clock, timers: set<Timer>, cancelled: set<int>, ready: seq<Timer>)
    requires Passing(c, timers, cancelled, ready) && forall t :: t in timers ==> t.when > c.now
    ensures IsPass(c, ready) && timers == c.timers - Due(c) && cancelled == AfterPass(c).cancelled
  {
    assert Due(c) == c.timers - timers;
  }

  lemma PassMeans(c: Clock, ready: seq<Timer>)
    requires IsPass(c, ready)
    ensures forall i, j :: 0 <= i < j < |ready| ==> ready[i].when <= ready[j].when
    ensures forall t :: t in ready <==> t in c.timers && t.when <= c.now && t.id !in c.cancelled
  {
    assert forall t :: t in ready <==> t in Elements(ready);
  }

  class SimulatedClock {
    var currentTime: int
    var nextTimerId: int
    var timers: set<Timer>
    var cancelled: set<int>

    function State(): Clock
      reads this
    {
      Clock(currentTime, nextTimerId, timers, cancelled)
    }

    /** Queued timers carry distinct ids that were already handed out. */
    ghost predicate Valid()
      reads this
    {
      && (forall t :: t in timers ==> t.id <= nextTimerId)
      && DistinctIds(timers)
    }

    constructor (startTime: int)
      ensures Valid() && State() == Start(startTime)
    {
      currentTime, nextTimerId, timers, cancelled := startTime, 0, {}, {};
    }

    method ScheduleCallback(time: int) returns (id: int)
      requires Valid()
      modifies this
      ensures Valid() && State() == Done(old(State()), Schedule(time)) && id == nextTimerId
    {
      nextTimerId := nextTimerId + 1;
      id := nextTimerId;
      timers := timers + {Timer(id, time)};
    }

    method CancelCallback(timerId: int)
      requires Valid()
      modifies this
      ensures Valid() && State() == Done(old(State()), Cancel(timerId))
    {
      cancelled := cancelled + {timerId};
    }

    method SetCurrentTime(time: int)
      requires Valid()
      modifies this
      ensures Valid() && State() == Done(old(State()), SetTime(time))
    {
      currentTime := time;
    }

    /** The earliest queued timer; ties are broken in an unspecified way. */
    method Top() returns (t: Timer)
      requires timers != {}
      ensures t in timers && forall u :: u in timers ==> t.when <= u.when
    {
      t :| t in timers;
      var rest := timers - {t};
      while rest != {}
        invariant rest <= timers && t in timers
        invariant forall u :: u in timers - rest ==> t.when <= u.when
        decreases rest
      {
        var u :| u in rest;
        if u.when < t.when {
          t := u;
        }
        rest := rest - {u};
      }
    }

    /** Takes every due timer off the queue and returns those whose callbacks then run, in that order. */
    method ProcessPendingCallbacks() returns (ready: seq<Timer>)
      requires Valid()
      modifies this
      ensures IsPass(old(State()), ready)
      ensures forall i, j :: 0 <= i < j < |ready| ==> ready[i].when <= ready[j].when
      ensures forall t :: t in ready <==> t in old(timers) && t.when <= old(currentTime) && t.id !in old(cancelled)
      ensures Valid() && State() == Done(old(State()), Process(ready))
    {
      hide Passing, IsPass;
      ghost var before := State();
      ready := [];
      PassStarts(before);
      while timers != {}
        invariant timers <= before.timers && currentTime == before.now && nextTimerId == before.nextId
        invariant Passing(before, timers, cancelled, ready)
        decreases timers
      {
        var entry := Top();
        if entry.when > currentTime {
          break;
        }
        PassTurn(before, timers, cancelled, ready, entry);
        timers := timers - {entry};
        if entry.id in cancelled {
          cancelled := cancelled - {entry.id};
        } else {
          ready := ready + [entry];
        }
      }
      PassEnds(before, timers, cancelled, ready);
      PassMeans(before, ready);
    }
  }
}
