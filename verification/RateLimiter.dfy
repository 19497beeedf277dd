/** Token bucket shared by any number of blocking consumers. A consumer that finds too few tokens releases the lock and
    tries again later, so a run is a sequence of attempts in clock order. */
module RateLimiting {
  import opened Basics

  datatype Bucket = Bucket(tokens: real, burstSize: real, refillRate: real, lastRefill: real)

  /** One pass through the consume loop, at one reading of the clock. */
  datatype Attempt = Attempt(time: real, weight: real)

  /** Tokens that flow in between two times. */
  function Inflow(rate: real, from: real, to: real): real {
    (to - from) * rate
  }

  function Refilled(b: Bucket, now: real): Bucket {
    b.(tokens := Min(b.burstSize, b.tokens + Inflow(b.refillRate, b.lastRefill, now)), lastRefill := now)
  }

  predicate Grants(b: Bucket, a: Attempt) {
    Refilled(b, a.time).tokens >= a.weight
  }

  function Tried(b: Bucket, a: Attempt): Bucket {
    var r := Refilled(b, a.time);
    if r.tokens >= a.weight then r.(tokens := r.tokens - a.weight) else r
  }

  function TriedAll(b: Bucket, attempts: seq<Attempt>): Bucket {
    if attempts == [] then b else Tried(TriedAll(b, attempts[..|attempts| - 1]), attempts[|attempts| - 1])
  }

  /** Weight granted by the attempts that fall in the window from `s` to `t`. */
  function Granted(b: Bucket, attempts: seq<Attempt>, s: real, t: real): real {
    if attempts == [] then 0.0
    else
      var n := |attempts| - 1;
      var a := attempts[n];
      Granted(b, attempts[..n], s, t)
      + (if s <= a.time <= t then GrantedBy(TriedAll(b, attempts[..n]), a) else 0.0)
  }

  /** A usable limiter, full or part empty. */
  predicate Sound(b: Bucket) {
    b.refillRate > 0.0 && 0.0 <= b.tokens <= b.burstSize
  }

  /** Clock readings do not go back, and nobody consumes a negative weight. */
  ghost predicate Orderly(b: Bucket, attempts: seq<Attempt>) {
    && (forall i :: 0 <= i < |attempts| ==> b.lastRefill <= attempts[i].time && attempts[i].weight >= 0.0)
    && (forall i, j :: 0 <= i < j < |attempts| ==> attempts[i].time <= attempts[j].time)
  }

  lemma InflowAdds(rate: real, s: real, u: real, t: real)
    ensures Inflow(rate, s, t) == Inflow(rate, s, u) + Inflow(rate, u, t)
  {
  }

  lemma InflowPositive(rate: real, s: real, t: real)
    requires rate > 0.0 && s <= t
    ensures Inflow(rate, s, t) >= 0.0
  {
    var x := t - s;
    assert x * rate >= 0.0;
  }

  /** One burst and the inflow since `s`, less the tokens left: what may have been granted since `s`. */
  function Allowance(b: Bucket, s: real): real {
    b.burstSize + Inflow(b.refillRate, s, b.lastRefill) - b.tokens
  }

  function GrantedBy(b: Bucket, a: Attempt): real {
    if Grants(b, a) then a.weight else 0.0
  }

  lemma AttemptKeepsSound(b: Bucket, a: Attempt)
    requires Sound(b) && b.lastRefill <= a.time && a.weight >= 0.0
    ensures var r := Tried(b, a);
            && Sound(r) && r.burstSize == b.burstSize && r.refillRate == b.refillRate
            && r.lastRefill == a.time
  {
    hide Inflow;
    InflowPositive(b.refillRate, b.lastRefill, a.time);
  }

  /** Inside a window an attempt raises the allowance by at least what it is granted. */
  lemma AttemptWithinAllowance(b: Bucket, a: Attempt, s: real)
    requires Sound(b) && b.lastRefill <= a.time && a.weight >= 0.0
    ensures Allowance(Tried(b, a), s) >= Allowance(b, s) + GrantedBy(b, a)
  {
    hide Inflow;
    InflowAdds(b.refillRate, s, b.lastRefill, a.time);
  }

  /** The first attempt of a window is within the allowance of the window. */
  lemma FirstWithinAllowance(b: Bucket, a: Attempt, s: real)
    requires Sound(b) && s <= a.time
    ensures Allowance(Tried(b, a), s) >= GrantedBy(b, a)
  {
    hide Inflow;
    InflowPositive(b.refillRate, s, a.time);
  }

  lemma AllowanceInWindow(b: Bucket, s: real, t: real)
    requires Sound(b) && s <= b.lastRefill <= t
    ensures 0.0 <= Allowance(b, s) <= b.burstSize + Inflow(b.refillRate, s, t)
  {
    hide Inflow;
    InflowPositive(b.refillRate, s, b.lastRefill);
    InflowPositive(b.refillRate, b.lastRefill, t);
    InflowAdds(b.refillRate, s, b.lastRefill, t);
  }

  /** Every run keeps the tokens between zero and the burst size. */
  lemma {:induction false} TokensStayBounded(b: Bucket, attempts: seq<Attempt>)
    requires Sound(b) && Orderly(b, attempts)
    ensures var r := TriedAll(b, attempts);
            && Sound(r) && r.burstSize == b.burstSize && r.refillRate == b.refillRate
            && r.lastRefill == if attempts == [] then b.lastRefill else attempts[|attempts| - 1].time
  {
    hide Inflow;
    if attempts != [] {
      var n := |attempts| - 1;
      TokensStayBounded(b, attempts[..n]);
      AttemptKeepsSound(TriedAll(b, attempts[..n]), attempts[n]);
    }
  }

  /** The grants of a window stay within the allowance since the window opened. */
  lemma {:induction false} GrantsWithinAllowance(b: Bucket, attempts: seq<Attempt>, s: real, t: real)
    requires Sound(b) && Orderly(b, attempts)
    requires attempts != [] ==> attempts[|attempts| - 1].time <= t
    ensures var r := TriedAll(b, attempts);
            if r.lastRefill < s then Granted(b, attempts, s, t) == 0.0
              else Granted(b, attempts, s, t) <= Allowance(r, s)
  {
    hide Inflow;
    if attempts == [] {
      if b.lastRefill >= s {
        AllowanceInWindow(b, s, b.lastRefill);
      }
    } else {
      var n := |attempts| - 1;
      TokensStayBounded(b, attempts[..n]);
      GrantsWithinAllowance(b, attempts[..n], s, t);
      var before, a := TriedAll(b, attempts[..n]), attempts[n];
      if s <= before.lastRefill {
        AttemptWithinAllowance(before, a, s);
      } else if s <= a.time {
        FirstWithinAllowance(before, a, s);
      }
    }
  }

  /** Over any interleaving of consumers and any window, at most one burst plus the refill of the window is granted. */
  lemma {:induction false} WindowBound(b: Bucket, attempts: seq<Attempt>, s: real, t: real)
    requires Sound(b) && Orderly(b, attempts) && s <= t
    ensures Granted(b, attempts, s, t) <= b.burstSize + Inflow(b.refillRate, s, t)
  {
    hide Inflow;
    var n := |attempts| - 1;
    if attempts != [] && attempts[n].time > t {
      WindowBound(b, attempts[..n], s, t);
    } else {
      var r := TriedAll(b, attempts);
      TokensStayBounded(b, attempts);
      GrantsWithinAllowance(b, attempts, s, t);
      if s <= r.lastRefill <= t {
        AllowanceInWindow(r, s, t);
      } else {
        InflowPositive(b.refillRate, s, t);
      }
    }
  }

  /** One attempt takes from the bucket exactly what it is granted: never more than flowed in, and less only when the
      bucket was full. */
  lemma AttemptTakes(b: Bucket, a: Attempt)
    requires Sound(b) && b.lastRefill <= a.time && a.weight >= 0.0
    ensures var r, inflow := Tried(b, a), Inflow(b.refillRate, b.lastRefill, a.time);
            && r.tokens + GrantedBy(b, a) == Min(b.burstSize, b.tokens + inflow)
            && inflow >= 0.0 && GrantedBy(b, a) >= 0.0
  {
    hide Inflow;
    InflowPositive(b.refillRate, b.lastRefill, a.time);
  }

  /** What a run has granted in all. */
  function GrantedAll(b: Bucket, attempts: seq<Attempt>): real {
    if attempts == [] then 0.0
    else
      var n := |attempts| - 1;
      GrantedAll(b, attempts[..n]) + GrantedBy(TriedAll(b, attempts[..n]), attempts[n])
  }

  /** The tokens are accounted for: over any run they are what was there and flowed in, less what was granted, and at
      least a bucket filled to the brim by it would hold. */
  lemma {:induction false} TokensAccountedFor(b: Bucket, attempts: seq<Attempt>)
    requires Sound(b) && Orderly(b, attempts)
    ensures var r := TriedAll(b, attempts);
            var inflow, granted := Inflow(b.refillRate, b.lastRefill, r.lastRefill), GrantedAll(b, attempts);
            && inflow >= 0.0 && granted >= 0.0
            && Min(b.burstSize, b.tokens + inflow) - granted <= r.tokens <= b.tokens + inflow - granted
  {
    hide Inflow, Tried, Grants, GrantedBy;
    if attempts == [] {
      InflowAdds(b.refillRate, b.lastRefill, b.lastRefill, b.lastRefill);
    } else {
      var n := |attempts| - 1;
      var before := TriedAll(b, attempts[..n]);
      TokensStayBounded(b, attempts[..n]);
      TokensAccountedFor(b, attempts[..n]);
      AttemptKeepsSound(before, attempts[n]);
      AttemptTakes(before, attempts[n]);
      InflowAdds(b.refillRate, b.lastRefill, before.lastRefill, attempts[n].time);
    }
  }

  /** How long a refused consumer waits before its next attempt. */
  function Wait(b: Bucket, weight: real): real
    requires b.refillRate > 0.0
  {
    (weight - b.tokens) / b.refillRate
  }

  /** Left alone, a refused consumer is granted exactly from the end of the computed wait on, and only if its weight
      fits the bucket at all. */
  lemma WaitIsEnough(b: Bucket, a: Attempt, later: real)
    requires Sound(b) && b.lastRefill <= a.time <= later && !Grants(b, a)
    ensures Grants(Tried(b, a), Attempt(later, a.weight)) <==>
              a.weight <= b.burstSize && later >= a.time + Wait(Tried(b, a), a.weight)
  {
    hide Inflow;
    var r := Tried(b, a);
    var rate, ready := b.refillRate, a.time + Wait(r, a.weight);
    WaitInflow(rate, a.time, a.weight - r.tokens);
    InflowAdds(rate, a.time, ready, later);
    if ready <= later {
      InflowPositive(rate, ready, later);
    } else {
      InflowAdds(rate, a.time, later, ready);
      InflowIsPositive(rate, later, ready);
    }
  }

  lemma InflowIsPositive(rate: real, s: real, t: real)
    requires rate > 0.0 && s < t
    ensures Inflow(rate, s, t) > 0.0 && Inflow(rate, t, t) == 0.0
  {
    var x := t - s;
    assert x * rate > 0.0;
  }

  lemma WaitInflow(rate: real, from: real, needed: real)
    requires rate > 0.0
    ensures Inflow(rate, from, from + needed / rate) == needed
  {
    var wait := needed / rate;
    assert wait * rate == needed;
  }

  /** A weight above the burst size is refused by every attempt of every run. */
  lemma OversizedIsNeverGranted(b: Bucket, attempts: seq<Attempt>, a: Attempt)
    requires Sound(b) && Orderly(b, attempts) && a.weight > b.burstSize
    ensures !Grants(TriedAll(b, attempts), a)
  {
    TokensStayBounded(b, attempts);
  }

  class TokenBucketRateLimiter {
    var tokens: real
    const burstSize: real
    const refillRate: real
    var lastRefill: real

    function State(): Bucket
      reads this
    {
      Bucket(tokens, burstSize, refillRate, lastRefill)
    }

    constructor (tokensPerMinute: real, burstSize: real, now: real)
      ensures State() == Bucket(burstSize, burstSize, tokensPerMinute / 60.0, now)
      ensures tokensPerMinute > 0.0 && burstSize >= 0.0 ==> Sound(State())
    {
      this.tokens, this.burstSize := burstSize, burstSize;
      this.refillRate, this.lastRefill := tokensPerMinute / 60.0, now;
    }

    method Refill(now: real)
      modifies this
      ensures State() == Refilled(old(State()), now)
    {
      var elapsed := now - lastRefill;
      tokens := Min(burstSize, tokens + elapsed * refillRate);
      lastRefill := now;
    }

    /** One pass through the retry loop. */
    method TryOnce(now: real, weight: real) returns (granted: bool)
      modifies this
      ensures State() == Tried(old(State()), Attempt(now, weight))
      ensures granted == Grants(old(State()), Attempt(now, weight))
    {
      hide Inflow;
      Refill(now);
      granted := tokens >= weight;
      if granted {
        tokens := tokens - weight;
      }
    }

    /** The retry loop of one consumer with nobody else at the bucket, at the clock readings it wakes up to. It takes
        the first attempt that is granted, and none before; `granted` is false when the readings run out first. With
        readings in order it returns exactly at the first one by which enough tokens have flowed in, so never for a
        weight above the burst size, and otherwise as soon as it waited long enough. */
    method Consume(weight: real, clock: seq<real>) returns (granted: bool, used: nat)
      modifies this
      ensures used <= |clock| && (granted ==> used > 0) && (!granted ==> used == |clock|)
      ensures State() == TriedAll(old(State()), Attempts(clock[..used], weight))
      ensures TakesFirst(old(State()), clock, weight, used, granted)
      ensures Sound(old(State())) && InOrder(old(lastRefill), clock) ==>
        forall i :: 0 <= i < used ==> (Enough(old(State()), weight, clock[i]) <==> granted && i == used - 1)
    {
      hide Inflow, Enough, Sound, InOrder, Grants, Tried;
      used, granted := 0, false;
      ghost var start := State();
      while used < |clock|
        invariant used <= |clock| && !granted
        invariant State() == TriedAll(start, Attempts(clock[..used], weight))
        invariant TakesFirst(start, clock, weight, used, false)
      {
        AttemptsSnoc(clock, used, weight);
        granted := TryOnce(clock[used], weight);
        used := used + 1;
        if granted {
          break;
        }
      }
      if Sound(start) && InOrder(start.lastRefill, clock) {
        TakesFirstEnough(start, clock, weight, used, granted);
      }
    }
  }

  /** Of the attempts at these readings the last one is granted, if any is. */
  ghost predicate TakesFirst(b: Bucket, clock: seq<real>, weight: real, used: nat, granted: bool)
    requires used <= |clock|
  {
    forall i :: 0 <= i < used ==>
      (Grants(TriedAll(b, Attempts(clock[..i], weight)), Attempt(clock[i], weight)) <==> granted && i == used - 1)
  }

  /** Nobody else taking any, the bucket holds the weight at this time: it fits, and enough has flowed in. */
  predicate Enough(b: Bucket, weight: real, time: real) {
    weight <= b.burstSize && weight <= b.tokens + Inflow(b.refillRate, b.lastRefill, time)
  }

  ghost predicate InOrder(from: real, clock: seq<real>) {
    && (forall i :: 0 <= i < |clock| ==> from <= clock[i])
    && (forall i, j :: 0 <= i < j < |clock| ==> clock[i] <= clock[j])
  }

  lemma RefilledTwice(b: Bucket, s: real, t: real)
    requires Sound(b) && b.lastRefill <= s <= t
    ensures Refilled(Refilled(b, s), t) == Refilled(b, t)
  {
    hide Inflow;
    InflowAdds(b.refillRate, b.lastRefill, s, t);
    InflowPositive(b.refillRate, s, t);
  }

  /** A consumer that was refused so far finds the bucket refilled since the start, and is granted as soon as there is
      enough. */
  lemma {:induction false} LoneConsumer(b: Bucket, clock: seq<real>, weight: real, i: nat)
    requires Sound(b) && InOrder(b.lastRefill, clock) && i < |clock|
    requires forall j :: 0 <= j < i ==> !Enough(b, weight, clock[j])
    ensures TriedAll(b, Attempts(clock[..i], weight)) == if i == 0 then b else Refilled(b, clock[i - 1])
    ensures Grants(TriedAll(b, Attempts(clock[..i], weight)), Attempt(clock[i], weight)) <==>
      Enough(b, weight, clock[i])
  {
    hide Inflow;
    if i > 0 {
      LoneConsumer(b, clock, weight, i - 1);
      AttemptsSnoc(clock, i - 1, weight);
      if i > 1 {
        RefilledTwice(b, clock[i - 2], clock[i - 1]);
      }
      RefilledTwice(b, clock[i - 1], clock[i]);
    }
  }

  lemma {:induction false} TakesFirstEnough(b: Bucket, clock: seq<real>, weight: real, used: nat, granted: bool)
    requires used <= |clock| && (granted ==> used > 0)
    requires Sound(b) && InOrder(b.lastRefill, clock) && TakesFirst(b, clock, weight, used, granted)
    ensures forall i :: 0 <= i < used ==> (Enough(b, weight, clock[i]) <==> granted && i == used - 1)
  {
    hide Sound, InOrder, Enough;
    if used > 0 {
      TakesFirstEnough(b, clock, weight, used - 1, false);
      LoneConsumer(b, clock, weight, used - 1);
    }
  }

  function Attempts(clock: seq<real>, weight: real): seq<Attempt> {
    seq(|clock|, i requires 0 <= i < |clock| => Attempt(clock[i], weight))
  }

  lemma AttemptsSnoc(clock: seq<real>, i: nat, weight: real)
    requires i < |clock|
    ensures var next := Attempts(clock[..i + 1], weight);
            |next| == i + 1 && next[..i] == Attempts(clock[..i], weight) && next[i] == Attempt(clock[i], weight)
  {
  }
}
