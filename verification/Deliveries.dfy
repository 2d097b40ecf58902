/** One outbox delivery: a submission owed to one destination, and what each attempt makes of it. */
module Deliveries {
  import opened Seqs

  datatype State = Pending | Delivered | DeadLetter

  datatype Delivery = Delivery(state: State, attempts: nat, unreachable: nat, nextAttemptAt: Option<int>)

  const NEW_DELIVERY: Delivery := Delivery(Pending, 0, 0, None)

  datatype Policy = Policy(batchSize: nat, maxAttempts: int, baseBackoff: nat)

  /**
    `Failed` is every failure that counts against the destination: a rejection, an error status,
    a timeout, a missing signing secret.
   */
  datatype Outcome = Accepted | Failed | Unreachable | NoEndpoint

  datatype Try = Try(outcome: Outcome, now: int)

  function Pow2(n: nat): nat { if n == 0 then 1 else 2 * Pow2(n - 1) }

  function Backoff(policy: Policy, attempts: nat): nat {
    policy.baseBackoff * Pow2(Min(attempts, 6))
  }

  predicate Due(d: Delivery, now: int) {
    d.state == Pending && (d.nextAttemptAt.None? || d.nextAttemptAt.value <= now)
  }

  function GivenUp(d: Delivery): Delivery {
    d.(state := DeadLetter, attempts := d.attempts + 1, nextAttemptAt := None)
  }

  /** The row after one attempt. */
  function AfterTry(policy: Policy, d: Delivery, t: Try): Delivery {
    match t.outcome
    case Accepted => d.(state := Delivered, attempts := d.attempts + 1, nextAttemptAt := None)
    case NoEndpoint => GivenUp(d)
    case Failed =>
      if d.attempts + 1 >= policy.maxAttempts then GivenUp(d)
      else d.(attempts := d.attempts + 1, nextAttemptAt := Some(t.now + Backoff(policy, d.attempts)))
    case Unreachable =>
      d.(unreachable := d.unreachable + 1, nextAttemptAt := Some(t.now + Backoff(policy, d.unreachable)))
  }

  function AfterTries(policy: Policy, tries: seq<Try>): Delivery {
    if tries == [] then NEW_DELIVERY
    else AfterTry(policy, AfterTries(policy, tries[..|tries| - 1]), tries[|tries| - 1])
  }

  /** Every try was made when the row was due. */
  predicate Scheduled(policy: Policy, tries: seq<Try>) {
    tries == [] ||
    (Scheduled(policy, tries[..|tries| - 1]) && Due(AfterTries(policy, tries[..|tries| - 1]), tries[|tries| - 1].now))
  }

  function Count(tries: seq<Try>, outcome: Outcome): nat {
    if tries == [] then 0
    else Count(tries[..|tries| - 1], outcome) + if tries[|tries| - 1].outcome == outcome then 1 else 0
  }

  /** How many counted failures a delivery survives, plus one. */
  function Budget(policy: Policy): nat { Max(1, policy.maxAttempts) }

  /**
    Where the tries have left the row, told from their counts alone: it is dead-lettered exactly
    at the counted failure that uses up the budget, or at once without an endpoint, and no number
    of unreachable tries brings that nearer.
   */
  lemma {:induction false} CountsDecide(policy: Policy, tries: seq<Try>)
    requires Scheduled(policy, tries)
    ensures var d := AfterTries(policy, tries);
            && Count(tries, Accepted) + Count(tries, NoEndpoint) <= 1 && Count(tries, Failed) <= Budget(policy)
            && (d.state == Delivered <==> Count(tries, Accepted) == 1)
            && (d.state == DeadLetter <==> Count(tries, NoEndpoint) == 1 || Count(tries, Failed) == Budget(policy))
            && d.attempts == Count(tries, Failed) + Count(tries, Accepted) + Count(tries, NoEndpoint)
            && d.unreachable == Count(tries, Unreachable)
  {
    if tries != [] {
      CountsDecide(policy, tries[..|tries| - 1]);
    }
  }

  /** Every try but the last left the row pending: nothing is tried after delivery or giving up. */
  lemma {:induction false} SettledIsFinal(policy: Policy, tries: seq<Try>, n: nat)
    requires Scheduled(policy, tries) && n < |tries|
    ensures AfterTries(policy, tries[..n]).state == Pending
    decreases |tries|
  {
    var before := tries[..|tries| - 1];
    if n < |before| {
      SettledIsFinal(policy, before, n);
      assert before[..n] == tries[..n];
    }
  }

  lemma {:induction false} Pow2Grows(m: nat, n: nat)
    requires m <= n
    ensures 1 <= Pow2(m) <= Pow2(n)
    decreases n
  {
    if m < n {
      Pow2Grows(m, n - 1);
    } else if n > 0 {
      Pow2Grows(n - 1, n - 1);
    }
  }

  lemma ScaleMonotone(base: nat, x: nat, y: nat)
    requires x <= y
    ensures base * x <= base * y
  {
  }

  /** Delays never shrink as failures accumulate, and stop growing at 64 times the base. */
  lemma BackoffGrows(policy: Policy, m: nat, n: nat)
    requires m <= n
    ensures policy.baseBackoff <= Backoff(policy, m) <= Backoff(policy, n) <= 64 * policy.baseBackoff
    ensures n >= 6 ==> Backoff(policy, n) == 64 * policy.baseBackoff
  {
    var base, low, high := policy.baseBackoff, Min(m, 6), Min(n, 6);
    assert Pow2(6) == 64 && Pow2(0) == 1;
    Pow2Grows(0, low);
    Pow2Grows(low, high);
    Pow2Grows(high, 6);
    ScaleMonotone(base, 1, Pow2(low));
    ScaleMonotone(base, Pow2(low), Pow2(high));
    ScaleMonotone(base, Pow2(high), 64);
  }

  /** The delay is the base, doubled for each earlier failure of its kind up to the sixth. */
  lemma BackoffDoubles(policy: Policy, n: nat)
    ensures Backoff(policy, n) == policy.baseBackoff * [1, 2, 4, 8, 16, 32, 64][Min(n, 6)]
  {
    assert Pow2(0) == 1 && Pow2(1) == 2 && Pow2(2) == 4 && Pow2(3) == 8;
    assert Pow2(4) == 16 && Pow2(5) == 32 && Pow2(6) == 64;
  }

  /** The delays scheduled after the first n failures of one sort. */
  function TotalBackoff(policy: Policy, n: nat): nat {
    if n == 0 then 0 else TotalBackoff(policy, n - 1) + Backoff(policy, n - 1)
  }

  /** When a still pending row may next be tried. */
  lemma NextTry(policy: Policy, tries: seq<Try>)
    requires Scheduled(policy, tries) && tries != [] && AfterTries(policy, tries).state == Pending
    ensures var before, t := tries[..|tries| - 1], tries[|tries| - 1];
            && (t.outcome == Failed || t.outcome == Unreachable)
            && AfterTries(policy, tries).nextAttemptAt == Some(t.now + Backoff(policy, Count(before, t.outcome)))
  {
    CountsDecide(policy, tries[..|tries| - 1]);
  }

  function Waited(policy: Policy, tries: seq<Try>): nat {
    TotalBackoff(policy, Count(tries, Failed)) + TotalBackoff(policy, Count(tries, Unreachable))
  }

  /** One more try that leaves the row pending adds the delay it schedules. */
  lemma WaitedGrows(policy: Policy, tries: seq<Try>)
    requires tries != []
    requires tries[|tries| - 1].outcome == Failed || tries[|tries| - 1].outcome == Unreachable
    ensures var before, t := tries[..|tries| - 1], tries[|tries| - 1];
            Waited(policy, tries) == Waited(policy, before) + Backoff(policy, Count(before, t.outcome))
  {
  }

  /** The latest try came no earlier than all the delays scheduled before it allow. */
  lemma {:induction false} TriesAreSpaced(policy: Policy, tries: seq<Try>)
    requires Scheduled(policy, tries) && tries != []
    ensures tries[|tries| - 1].now >= tries[0].now + Waited(policy, tries[..|tries| - 1])
  {
    var before := tries[..|tries| - 1];
    if before != [] {
      TriesAreSpaced(policy, before);
      NextTry(policy, before);
      WaitedGrows(policy, before);
    }
  }

  /**
    A destination that only ever fails or cannot be reached is given up after exactly the budget
    of counted failures, and not before every scheduled delay has passed.
   */
  lemma GivingUpTakesTheWholeBudget(policy: Policy, tries: seq<Try>)
    requires Scheduled(policy, tries) && Count(tries, NoEndpoint) == 0
    requires AfterTries(policy, tries).state == DeadLetter
    ensures Count(tries, Failed) == AfterTries(policy, tries).attempts == Budget(policy)
    ensures tries[|tries| - 1].now >= tries[0].now
              + TotalBackoff(policy, Budget(policy) - 1) + TotalBackoff(policy, Count(tries, Unreachable))
  {
    CountsDecide(policy, tries);
    CountsDecide(policy, tries[..|tries| - 1]);
    TriesAreSpaced(policy, tries);
  }
}
