/**
  The outbox: submissions fan out into one delivery per wanting destination, deliveries are
  attempted when due, and a submission settles when none of its deliveries is pending.
 */
module Dispatcher {
  import opened Chars
  import opened Deliveries
  import opened Seqs

  datatype Payload = Payload(eventType: Option<string>, hasOrder: bool, hasReturn: bool, hasShift: bool)

  datatype Submission = Submission(id: nat, payload: Payload, status: State)

  datatype SigningSecret = NoSecret | Missing | Present

  /** `payloadKinds` is the configured array, with None for an entry that is not a string. */
  datatype Destination = Destination(
    id: nat, kind: string, endpoint: Option<string>, enabled: bool,
    payloadKinds: Option<seq<Option<string>>>, secret: SigningSecret)

  /** `verdict` is a readable body's `accepted` field. */
  datatype SendResult =
    | Answered(success: bool, verdict: Option<bool>)
    | ConnectError
    | OtherError

  datatype Pair = Pair(submission: nat, destination: nat)

  function PayloadKind(p: Payload): string {
    if p.eventType.Some? then
      if p.eventType.value == "stock.movement" then "stock.movement" else "unknown"
    else if p.hasOrder then "order"
    else if p.hasReturn then "return"
    else if p.hasShift then "shift"
    else "unknown"
  }

  predicate Wants(d: Destination, kind: string) {
    d.payloadKinds.None? || d.payloadKinds.value == [] || Some(kind) in d.payloadKinds.value
  }

  predicate Rejected(d: Destination, verdict: Option<bool>) {
    d.kind != "peppol" && d.kind != "webhook" && verdict == Some(false)
  }

  /** What one attempt amounts to for the delivery's row. */
  function OutcomeOf(d: Destination, result: SendResult): Outcome {
    if d.endpoint.None? || Blank(d.endpoint.value) then NoEndpoint
    else if d.secret.Missing? then Failed
    else match result
      case Answered(success, verdict) => if success && !Rejected(d, verdict) then Accepted else Failed
      case ConnectError => Unreachable
      case OtherError => Failed
  }

  // ---- Fan-out ----

  function IsPending(): Submission -> bool { (s: Submission) => s.status == Pending }

  function IsEnabled(): Destination -> bool { (d: Destination) => d.enabled }

  /** The oldest `limit` pending submissions. */
  function PendingBatch(submissions: seq<Submission>, limit: nat): seq<Submission> {
    var pending := Filter(submissions, IsPending());
    if |pending| <= limit then pending else pending[..limit]
  }

  function OwedTo(s: Submission, destinations: seq<Destination>): set<Pair> {
    if destinations == [] then {}
    else
      var d := destinations[|destinations| - 1];
      OwedTo(s, destinations[..|destinations| - 1]) + if Wants(d, PayloadKind(s.payload)) then {Pair(s.id, d.id)} else {}
  }

  function Owed(submissions: seq<Submission>, destinations: seq<Destination>): set<Pair> {
    if submissions == [] then {}
    else Owed(submissions[..|submissions| - 1], destinations) + OwedTo(submissions[|submissions| - 1], destinations)
  }

  ghost predicate IsOwed(p: Pair, s: Submission, destinations: seq<Destination>) {
    p.submission == s.id &&
    exists j :: 0 <= j < |destinations| && destinations[j].id == p.destination && Wants(destinations[j], PayloadKind(s.payload))
  }

  lemma {:induction false} OwedToMembers(s: Submission, destinations: seq<Destination>, p: Pair)
    ensures p in OwedTo(s, destinations) <==> IsOwed(p, s, destinations)
  {
    if destinations != [] {
      var n := |destinations| - 1;
      OwedToMembers(s, destinations[..n], p);
      assert forall j :: 0 <= j < n ==> destinations[..n][j] == destinations[j];
      if IsOwed(p, s, destinations[..n]) {
        var j :| 0 <= j < n && destinations[..n][j].id == p.destination && Wants(destinations[..n][j], PayloadKind(s.payload));
        assert destinations[j] == destinations[..n][j];
      }
    }
  }

  /** Exactly the pairs of a batched submission and a destination that wants its kind. */
  lemma {:induction false} OwedMembers(submissions: seq<Submission>, destinations: seq<Destination>, p: Pair)
    ensures p in Owed(submissions, destinations)
       <==> exists i :: 0 <= i < |submissions| && IsOwed(p, submissions[i], destinations)
  {
    if submissions != [] {
      var n := |submissions| - 1;
      OwedMembers(submissions[..n], destinations, p);
      OwedToMembers(submissions[n], destinations, p);
      assert forall i :: 0 <= i < n ==> submissions[..n][i] == submissions[i];
      if exists i :: 0 <= i < n && IsOwed(p, submissions[..n][i], destinations) {
        var i :| 0 <= i < n && IsOwed(p, submissions[..n][i], destinations);
        assert IsOwed(p, submissions[i], destinations);
      }
    }
  }

  /** Missing rows are inserted, existing ones ignored. */
  function Ensured(deliveries: map<Pair, Delivery>, owed: set<Pair>): map<Pair, Delivery> {
    map p | p in deliveries.Keys + owed :: if p in deliveries then deliveries[p] else NEW_DELIVERY
  }

  // ---- Settling ----

  predicate HasRow(deliveries: map<Pair, Delivery>, id: nat, state: State) {
    exists p :: p in deliveries && p.submission == id && deliveries[p].state == state
  }

  predicate Candidate(q: Queue, id: nat) {
    && (exists i :: 0 <= i < |q.submissions| && q.submissions[i].id == id && q.submissions[i].status == Pending)
    && (HasRow(q.deliveries, id, Delivered) || HasRow(q.deliveries, id, DeadLetter))
    && !HasRow(q.deliveries, id, Pending)
  }

  function SetStatus(submissions: seq<Submission>, id: nat, status: State): (r: seq<Submission>)
    ensures |r| == |submissions|
    ensures forall i :: 0 <= i < |r| ==> r[i] == if submissions[i].id == id then submissions[i].(status := status) else submissions[i]
  {
    seq(|submissions|, i requires 0 <= i < |submissions| =>
      if submissions[i].id == id then submissions[i].(status := status) else submissions[i])
  }

  // ---- Runs of the whole queue ----

  /** Submissions are in creation order. */
  datatype Queue = Queue(submissions: seq<Submission>, deliveries: map<Pair, Delivery>)

  datatype Op =
    | Enqueue(s: Submission)
    | FanOut(destinations: seq<Destination>)
    | Attempt(pair: Pair, t: Try)
    | Settle(id: nat)
    | RetryDead(pair: Pair)

  predicate Enabled(q: Queue, op: Op) {
    match op
    case Enqueue(s) => s.status == Pending && forall i :: 0 <= i < |q.submissions| ==> q.submissions[i].id != s.id
    case FanOut(_) => true
    case Attempt(p, t) => p in q.deliveries && Due(q.deliveries[p], t.now)
    case Settle(id) => Candidate(q, id)
    case RetryDead(p) => p in q.deliveries && q.deliveries[p].state == DeadLetter
  }

  function Next(policy: Policy, q: Queue, op: Op): Queue
    requires Enabled(q, op)
  {
    match op
    case Enqueue(s) => q.(submissions := q.submissions + [s])
    case FanOut(destinations) =>
      q.(deliveries := Ensured(q.deliveries, Owed(PendingBatch(q.submissions, policy.batchSize), Filter(destinations, IsEnabled()))))
    case Attempt(p, t) => q.(deliveries := q.deliveries[p := AfterTry(policy, q.deliveries[p], t)])
    case Settle(id) =>
      q.(submissions := SetStatus(q.submissions, id, if HasRow(q.deliveries, id, DeadLetter) then DeadLetter else Delivered))
    case RetryDead(p) =>
      Queue(SetStatus(q.submissions, p.submission, Pending), q.deliveries[p := NEW_DELIVERY])
  }

  predicate Runs(policy: Policy, q: Queue, ops: seq<Op>)
    decreases |ops|, 0
  {
    ops == [] || (Runs(policy, q, ops[..|ops| - 1]) && Enabled(Run(policy, q, ops[..|ops| - 1]), ops[|ops| - 1]))
  }

  function Run(policy: Policy, q: Queue, ops: seq<Op>): Queue
    requires Runs(policy, q, ops)
    decreases |ops|, 1
  {
    if ops == [] then q else Next(policy, Run(policy, q, ops[..|ops| - 1]), ops[|ops| - 1])
  }

  const EMPTY: Queue := Queue([], map[])

  /** The tries of one delivery since it was created or last re-queued by an operator. */
  function TriesOf(ops: seq<Op>, p: Pair): seq<Try> {
    if ops == [] then []
    else
      var before, op := TriesOf(ops[..|ops| - 1], p), ops[|ops| - 1];
      if op.Attempt? && op.pair == p then before + [op.t]
      else if op.RetryDead? && op.pair == p then []
      else before
  }

  /** The row, if any, is what these tries make of a new one. */
  ghost predicate MadeBy(policy: Policy, deliveries: map<Pair, Delivery>, p: Pair, tries: seq<Try>) {
    if p in deliveries then Scheduled(policy, tries) && deliveries[p] == AfterTries(policy, tries) else tries == []
  }

  lemma OneMoreTry(policy: Policy, tries: seq<Try>, t: Try)
    requires Scheduled(policy, tries) && Due(AfterTries(policy, tries), t.now)
    ensures Scheduled(policy, tries + [t]) && AfterTries(policy, tries + [t]) == AfterTry(policy, AfterTries(policy, tries), t)
  {
    assert (tries + [t])[..|tries|] == tries;
  }

  lemma StepKeepsMadeBy(policy: Policy, q: Queue, op: Op, p: Pair, tries: seq<Try>)
    requires Enabled(q, op) && MadeBy(policy, q.deliveries, p, tries)
    ensures MadeBy(policy, Next(policy, q, op).deliveries, p,
      if op.Attempt? && op.pair == p then tries + [op.t] else if op.RetryDead? && op.pair == p then [] else tries)
  {
    if op.Attempt? && op.pair == p {
      OneMoreTry(policy, tries, op.t);
    }
  }

  /** However many deliveries are interleaved, each row is what its own tries alone make of it. */
  lemma {:induction false} RowFollowsItsOwnTries(policy: Policy, ops: seq<Op>, p: Pair)
    requires Runs(policy, EMPTY, ops)
    ensures MadeBy(policy, Run(policy, EMPTY, ops).deliveries, p, TriesOf(ops, p))
  {
    if ops != [] {
      var before := ops[..|ops| - 1];
      RowFollowsItsOwnTries(policy, before, p);
      StepKeepsMadeBy(policy, Run(policy, EMPTY, before), ops[|ops| - 1], p, TriesOf(before, p));
    }
  }

  /**
    In every run: a delivery without an accepting or endpoint-less try since it was last queued
    is dead-lettered just when its counted failures have reached the budget, and pending before.
   */
  lemma DeadLetteredAtTheBudget(policy: Policy, ops: seq<Op>, p: Pair)
    requires Runs(policy, EMPTY, ops) && p in Run(policy, EMPTY, ops).deliveries
    requires Count(TriesOf(ops, p), Accepted) == 0 && Count(TriesOf(ops, p), NoEndpoint) == 0
    ensures var row, failures := Run(policy, EMPTY, ops).deliveries[p], Count(TriesOf(ops, p), Failed);
            && failures == row.attempts <= Budget(policy)
            && row.state == (if failures == Budget(policy) then DeadLetter else Pending)
  {
    RowFollowsItsOwnTries(policy, ops, p);
    CountsDecide(policy, TriesOf(ops, p));
  }

  // ---- Submission status against delivery rows ----

  ghost predicate StatusAgrees(q: Queue, i: nat)
    requires i < |q.submissions|
  {
    var s := q.submissions[i];
    match s.status
    case Pending => true
    case Delivered =>
      HasRow(q.deliveries, s.id, Delivered) && !HasRow(q.deliveries, s.id, Pending) && !HasRow(q.deliveries, s.id, DeadLetter)
    case DeadLetter => HasRow(q.deliveries, s.id, DeadLetter) && !HasRow(q.deliveries, s.id, Pending)
  }

  ghost predicate QueueInv(q: Queue) {
    && (forall i, j :: 0 <= i < j < |q.submissions| ==> q.submissions[i].id != q.submissions[j].id)
    && (forall i :: 0 <= i < |q.submissions| ==> StatusAgrees(q, i))
  }

  lemma RowsOfOthers(before: map<Pair, Delivery>, after: map<Pair, Delivery>, id: nat)
    requires forall p: Pair :: p.submission == id ==> (p in before <==> p in after) && (p in before ==> before[p] == after[p])
    ensures forall state :: HasRow(before, id, state) <==> HasRow(after, id, state)
  {
    forall state ensures HasRow(before, id, state) <==> HasRow(after, id, state) {
      if HasRow(before, id, state) {
        var p :| p in before && p.submission == id && before[p].state == state;
        assert p in after && after[p].state == state;
      }
      if HasRow(after, id, state) {
        var p :| p in after && p.submission == id && after[p].state == state;
        assert p in before && before[p].state == state;
      }
    }
  }

  lemma BatchIsPending(submissions: seq<Submission>, limit: nat, k: nat)
    requires k < |PendingBatch(submissions, limit)|
    ensures PendingBatch(submissions, limit)[k] in submissions && PendingBatch(submissions, limit)[k].status == Pending
  {
    var pending := Filter(submissions, IsPending());
    assert pending[k] in pending;
    FilterMembers(submissions, IsPending());
  }

  /** Fan-out adds rows only under pending submissions. */
  lemma OwedArePending(q: Queue, limit: nat, destinations: seq<Destination>, p: Pair)
    requires p in Owed(PendingBatch(q.submissions, limit), destinations)
    ensures exists i :: 0 <= i < |q.submissions| && q.submissions[i].id == p.submission && q.submissions[i].status == Pending
  {
    var batch := PendingBatch(q.submissions, limit);
    OwedMembers(batch, destinations, p);
    var k :| 0 <= k < |batch| && IsOwed(p, batch[k], destinations);
    BatchIsPending(q.submissions, limit, k);
    var i :| 0 <= i < |q.submissions| && q.submissions[i] == batch[k];
  }

  lemma RowChangesKeepStatus(q: Queue, after: map<Pair, Delivery>, i: nat)
    requires QueueInv(q) && i < |q.submissions|
    requires forall p: Pair :: p.submission == q.submissions[i].id && q.submissions[i].status != Pending
               ==> (p in q.deliveries <==> p in after) && (p in q.deliveries ==> q.deliveries[p] == after[p])
    ensures StatusAgrees(q.(deliveries := after), i)
  {
    assert StatusAgrees(q, i);
    if q.submissions[i].status != Pending {
      RowsOfOthers(q.deliveries, after, q.submissions[i].id);
    }
  }

  lemma StepKeepsStatus(policy: Policy, q: Queue, op: Op)
    requires QueueInv(q) && Enabled(q, op)
    ensures QueueInv(Next(policy, q, op))
  {
    var q' := Next(policy, q, op);
    match op
    case Enqueue(s) =>
      forall i | 0 <= i < |q.submissions| ensures StatusAgrees(q', i) {
        assert StatusAgrees(q, i);
      }
    case FanOut(destinations) =>
      var enabled := Filter(destinations, IsEnabled());
      forall p | p in Owed(PendingBatch(q.submissions, policy.batchSize), enabled)
        ensures exists j :: 0 <= j < |q.submissions| && q.submissions[j].id == p.submission && q.submissions[j].status == Pending
      {
        OwedArePending(q, policy.batchSize, enabled, p);
      }
      forall i | 0 <= i < |q.submissions| ensures StatusAgrees(q', i) {
        RowChangesKeepStatus(q, q'.deliveries, i);
      }
    case Attempt(p, t) =>
      forall i | 0 <= i < |q.submissions| ensures StatusAgrees(q', i) {
        assert StatusAgrees(q, i);
        assert HasRow(q.deliveries, p.submission, Pending);
        RowChangesKeepStatus(q, q'.deliveries, i);
      }
    case Settle(id) =>
      forall i | 0 <= i < |q.submissions| ensures StatusAgrees(q', i) {
        assert StatusAgrees(q, i);
      }
    case RetryDead(p) =>
      forall i | 0 <= i < |q.submissions| ensures StatusAgrees(q', i) {
        assert StatusAgrees(q, i);
        if q.submissions[i].id != p.submission {
          RowsOfOthers(q.deliveries, q'.deliveries, q.submissions[i].id);
        }
      }
  }

  /**
    In every run a delivered submission has been delivered to every destination that was owed
    it, and a dead-lettered one is owed to nobody and was given up on by somebody.
   */
  lemma {:induction false} RunKeepsStatus(policy: Policy, q: Queue, ops: seq<Op>)
    requires QueueInv(q) && Runs(policy, q, ops)
    ensures QueueInv(Run(policy, q, ops))
  {
    if ops != [] {
      RunKeepsStatus(policy, q, ops[..|ops| - 1]);
      StepKeepsStatus(policy, Run(policy, q, ops[..|ops| - 1]), ops[|ops| - 1]);
    }
  }

  /** In particular, in every queue reachable from the empty one. */
  lemma ReachableAgrees(policy: Policy, ops: seq<Op>)
    requires Runs(policy, EMPTY, ops)
    ensures QueueInv(Run(policy, EMPTY, ops))
  {
    RunKeepsStatus(policy, EMPTY, ops);
  }

  // ---- The store and the dispatcher's steps ----

  datatype DueDelivery = DueDelivery(pair: Pair, attempts: nat, unreachable: nat)

  lemma EnsuredTwice(m: map<Pair, Delivery>, a: set<Pair>, b: set<Pair>)
    ensures Ensured(Ensured(m, a), b) == Ensured(m, a + b)
  {
  }

  class Outbox {
    var submissions: seq<Submission>
    var deliveries: map<Pair, Delivery>

    constructor ()
      ensures Queue(submissions, deliveries) == EMPTY
    {
      submissions, deliveries := [], map[];
    }

    function View(): Queue
      reads this
    {
      Queue(submissions, deliveries)
    }

    method EnsureDelivery(p: Pair) returns (added: bool)
      modifies this`deliveries
      ensures deliveries == Ensured(old(deliveries), {p})
      ensures added == (p !in old(deliveries)) && |deliveries| == old(|deliveries|) + if added then 1 else 0
    {
      added := p !in deliveries;
      if added {
        assert (deliveries[p := NEW_DELIVERY]).Keys == deliveries.Keys + {p};
        deliveries := deliveries[p := NEW_DELIVERY];
      }
    }

    method OweTo(s: Submission, destinations: seq<Destination>) returns (owed: nat)
      modifies this`deliveries
      ensures deliveries == Ensured(old(deliveries), OwedTo(s, destinations))
      ensures |deliveries| == old(|deliveries|) + owed
    {
      owed := 0;
      var kind := PayloadKind(s.payload);
      ghost var before := deliveries;
      assert destinations[..0] == [] && Ensured(before, {}) == before;
      for j := 0 to |destinations|
        invariant deliveries == Ensured(before, OwedTo(s, destinations[..j])) && |deliveries| == |before| + owed
      {
        OwedToStep(s, destinations, j);
        if !Wants(destinations[j], kind) {
          continue;
        }
        var p := Pair(s.id, destinations[j].id);
        EnsuredTwice(before, OwedTo(s, destinations[..j]), {p});
        var added := EnsureDelivery(p);
        if added {
          owed := owed + 1;
        }
      }
      assert destinations[..|destinations|] == destinations;
    }

    /** Owes each batched submission to each enabled destination that wants it; `owed` counts the new rows. */
    method FanOutPending(policy: Policy, destinations: seq<Destination>) returns (owed: nat)
      modifies this`deliveries
      ensures View() == Next(policy, old(View()), FanOut(destinations))
      ensures |deliveries| == old(|deliveries|) + owed
    {
      var enabled := Filter(destinations, IsEnabled());
      var batch := PendingBatch(submissions, policy.batchSize);
      owed := 0;
      ghost var before := deliveries;
      assert Ensured(before, {}) == before;
      NobodyOwed(batch);
      if enabled == [] {
        return;
      }
      assert batch[..0] == [];
      for i := 0 to |batch|
        invariant deliveries == Ensured(before, Owed(batch[..i], enabled)) && |deliveries| == |before| + owed
      {
        OwedStep(before, batch, enabled, i);
        var added := OweTo(batch[i], enabled);
        owed := owed + added;
      }
      assert batch[..|batch|] == batch;
    }

    method MarkDelivered(p: Pair)
      requires p in deliveries
      modifies this`deliveries
      ensures var row := old(deliveries)[p];
              deliveries == old(deliveries)[p := row.(state := Delivered, attempts := row.attempts + 1, nextAttemptAt := None)]
    {
      var row := deliveries[p];
      deliveries := deliveries[p := row.(state := Delivered, attempts := row.attempts + 1, nextAttemptAt := None)];
    }

    method ScheduleRetry(p: Pair, next: int)
      requires p in deliveries
      modifies this`deliveries
      ensures var row := old(deliveries)[p];
              deliveries == old(deliveries)[p := row.(attempts := row.attempts + 1, nextAttemptAt := Some(next))]
    {
      var row := deliveries[p];
      deliveries := deliveries[p := row.(attempts := row.attempts + 1, nextAttemptAt := Some(next))];
    }

    method ScheduleUnreachableRetry(p: Pair, next: int)
      requires p in deliveries
      modifies this`deliveries
      ensures var row := old(deliveries)[p];
              deliveries == old(deliveries)[p := row.(unreachable := row.unreachable + 1, nextAttemptAt := Some(next))]
    {
      var row := deliveries[p];
      deliveries := deliveries[p := row.(unreachable := row.unreachable + 1, nextAttemptAt := Some(next))];
    }

    method GiveUp(due: DueDelivery)
      requires due.pair in deliveries
      modifies this`deliveries
      ensures deliveries == old(deliveries)[due.pair := GivenUp(old(deliveries)[due.pair])]
    {
      var row := deliveries[due.pair];
      deliveries := deliveries[due.pair := row.(state := DeadLetter, attempts := row.attempts + 1, nextAttemptAt := None)];
    }

    method RetryOrGiveUp(policy: Policy, due: DueDelivery, now: int)
      requires due.pair in deliveries && deliveries[due.pair].attempts == due.attempts
      modifies this`deliveries
      ensures deliveries == old(deliveries)[due.pair := AfterTry(policy, old(deliveries)[due.pair], Try(Failed, now))]
    {
      if due.attempts + 1 >= policy.maxAttempts {
        GiveUp(due);
      } else {
        ScheduleRetry(due.pair, now + Backoff(policy, due.attempts));
      }
    }

    /** One attempt moves only its own row, by the outcome it had. */
    method AttemptDelivery(policy: Policy, due: DueDelivery, d: Destination, result: SendResult, now: int) returns (delivered: bool)
      requires due.pair in deliveries
      requires deliveries[due.pair].attempts == due.attempts && deliveries[due.pair].unreachable == due.unreachable
      requires Due(deliveries[due.pair], now)
      modifies this`deliveries
      ensures View() == Next(policy, old(View()), Attempt(due.pair, Try(OutcomeOf(d, result), now)))
      ensures delivered == (OutcomeOf(d, result) == Accepted)
    {
      delivered := false;
      if d.endpoint.None? || Blank(d.endpoint.value) {
        GiveUp(due);
        return;
      }
      match d.secret {
        case NoSecret =>
        case Missing =>
          RetryOrGiveUp(policy, due, now);
          return;
        case Present =>
      }
      match result {
        case Answered(success, verdict) =>
          if success && !Rejected(d, verdict) {
            MarkDelivered(due.pair);
            delivered := true;
          } else {
            RetryOrGiveUp(policy, due, now);
          }
        case ConnectError =>
          ScheduleUnreachableRetry(due.pair, now + Backoff(policy, due.unreachable));
        case OtherError =>
          RetryOrGiveUp(policy, due, now);
      }
    }

    /** The attempts of one cycle, in order, each against the counters fetched at its start. */
    method DispatchDue(policy: Policy, due: seq<DueDelivery>, targets: seq<Destination>, results: seq<SendResult>, times: seq<int>)
      returns (delivered: nat)
      requires |targets| == |results| == |times| == |due|
      requires forall i, j :: 0 <= i < j < |due| ==> due[i].pair != due[j].pair
      requires forall i :: 0 <= i < |due| ==> Fetched(deliveries, due[i], times[i])
      modifies this`deliveries
      ensures Runs(policy, old(View()), Attempts(due, targets, results, times))
      ensures View() == Run(policy, old(View()), Attempts(due, targets, results, times))
      ensures delivered == AcceptedIn(Attempts(due, targets, results, times))
    {
      delivered := 0;
      ghost var ops := Attempts(due, targets, results, times);
      assert ops[..0] == [];
      for i := 0 to |due|
        invariant Runs(policy, old(View()), ops[..i]) && View() == Run(policy, old(View()), ops[..i])
        invariant forall k :: i <= k < |due| ==> Fetched(deliveries, due[k], times[k])
        invariant delivered == AcceptedIn(ops[..i])
      {
        assert Fetched(deliveries, due[i], times[i]);
        assert ops[..i + 1][..i] == ops[..i];
        var ok := AttemptDelivery(policy, due[i], targets[i], results[i], times[i]);
        if ok {
          delivered := delivered + 1;
        }
      }
      assert ops[..|due|] == ops;
    }

    /** An operator re-queues a dead-lettered delivery, and its submission with it. */
    method RetryDeadLetter(p: Pair) returns (requeued: bool)
      modifies this
      ensures requeued == Enabled(old(View()), RetryDead(p))
      ensures View() ==
        if requeued then Queue(SetStatus(old(submissions), p.submission, Pending), old(deliveries)[p := NEW_DELIVERY])
        else old(View())
    {
      requeued := p in deliveries && deliveries[p].state == DeadLetter;
      if requeued {
        deliveries := deliveries[p := deliveries[p].(state := Pending, attempts := 0, unreachable := 0, nextAttemptAt := None)];
        submissions := SetStatus(submissions, p.submission, Pending);
      }
    }

    /** Settles the candidates of one cycle: dead-lettered if any destination gave up, delivered otherwise. */
    method SettleFinished(candidates: seq<nat>)
      requires forall i :: 0 <= i < |candidates| ==> Candidate(View(), candidates[i])
      requires forall i, j :: 0 <= i < j < |candidates| ==> candidates[i] != candidates[j]
      modifies this`submissions
      ensures |submissions| == old(|submissions|)
      ensures forall i :: 0 <= i < |submissions| ==> submissions[i] == Settled(old(View()), candidates, i)
    {
      ghost var before := View();
      for n := 0 to |candidates|
        invariant |submissions| == |before.submissions|
        invariant forall i :: 0 <= i < |submissions| ==> submissions[i] == Settled(before, candidates[..n], i)
      {
        var id := candidates[n];
        assert candidates[..n + 1] == candidates[..n] + [id];
        if HasRow(deliveries, id, DeadLetter) {
          submissions := SetStatus(submissions, id, DeadLetter);
        } else {
          submissions := SetStatus(submissions, id, Delivered);
        }
      }
      assert candidates[..|candidates|] == candidates;
    }
  }

  lemma OwedStep(before: map<Pair, Delivery>, batch: seq<Submission>, destinations: seq<Destination>, i: nat)
    requires i < |batch|
    ensures Ensured(Ensured(before, Owed(batch[..i], destinations)), OwedTo(batch[i], destinations))
         == Ensured(before, Owed(batch[..i + 1], destinations))
  {
    assert batch[..i + 1][..i] == batch[..i];
    EnsuredTwice(before, Owed(batch[..i], destinations), OwedTo(batch[i], destinations));
  }

  lemma {:induction false} NobodyOwed(batch: seq<Submission>)
    ensures Owed(batch, []) == {}
  {
    if batch != [] {
      NobodyOwed(batch[..|batch| - 1]);
    }
  }

  lemma OwedToStep(s: Submission, destinations: seq<Destination>, j: nat)
    requires j < |destinations|
    ensures var d := destinations[j];
            OwedTo(s, destinations[..j + 1])
              == OwedTo(s, destinations[..j]) + if Wants(d, PayloadKind(s.payload)) then {Pair(s.id, d.id)} else {}
  {
    assert destinations[..j + 1][..j] == destinations[..j];
  }

  /** The row is due, and its counters are the ones fetched. */
  predicate Fetched(deliveries: map<Pair, Delivery>, due: DueDelivery, now: int) {
    && due.pair in deliveries
    && Due(deliveries[due.pair], now)
    && deliveries[due.pair].attempts == due.attempts && deliveries[due.pair].unreachable == due.unreachable
  }

  ghost function Attempts(due: seq<DueDelivery>, targets: seq<Destination>, results: seq<SendResult>, times: seq<int>): seq<Op>
    requires |targets| == |results| == |times| == |due|
  {
    seq(|due|, i requires 0 <= i < |due| => Attempt(due[i].pair, Try(OutcomeOf(targets[i], results[i]), times[i])))
  }

  function AcceptedIn(ops: seq<Op>): nat {
    if ops == [] then 0
    else
      var op := ops[|ops| - 1];
      AcceptedIn(ops[..|ops| - 1]) + if op.Attempt? && op.t.outcome == Accepted then 1 else 0
  }

  ghost function Settled(q: Queue, candidates: seq<nat>, i: nat): Submission
    requires i < |q.submissions|
  {
    var s := q.submissions[i];
    if s.id in candidates then s.(status := if HasRow(q.deliveries, s.id, DeadLetter) then DeadLetter else Delivered) else s
  }
}
