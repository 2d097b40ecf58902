/**
  Head-of-line blocking in the outbox: fan-out only looks at the oldest batch of pending
  submissions, so submissions that cannot settle can keep later ones from being owed to anyone.

  Runs here are made under one configuration: fan-out uses its destinations, and an attempt is
  on a row that a cycle would fetch, one of an enabled destination and among the oldest due.
 */
module Blocking {
  import opened Deliveries
  import opened Dispatcher
  import opened Seqs

  // ---- Which submissions cannot settle ----

  /** Pending, and wanted by no enabled destination. */
  predicate Unwanted(s: Submission, destinations: seq<Destination>) {
    s.status == Pending && forall j :: 0 <= j < |destinations| && destinations[j].enabled ==>
      !Wants(destinations[j], PayloadKind(s.payload))
  }

  predicate Rowless(q: Queue, id: nat) {
    forall p: Pair :: p in q.deliveries ==> p.submission != id
  }

  predicate Serving(destinations: seq<Destination>, id: nat) {
    exists j :: 0 <= j < |destinations| && destinations[j].enabled && destinations[j].id == id
  }

  /** Pending rows of destinations that are not enabled: never fetched, and never settled. */
  function HeldRows(q: Queue, destinations: seq<Destination>): set<Pair> {
    set p | p in q.deliveries && q.deliveries[p].state == Pending && !Serving(destinations, p.destination)
  }

  predicate HeldUp(q: Queue, destinations: seq<Destination>, id: nat) {
    exists p :: p in HeldRows(q, destinations) && p.submission == id
  }

  /** Pending for good: nobody wants it, or somebody who is not served is owed it. */
  predicate Stuck(q: Queue, destinations: seq<Destination>, s: Submission) {
    s.status == Pending && ((Unwanted(s, destinations) && Rowless(q, s.id)) || HeldUp(q, destinations, s.id))
  }

  function IsStuck(q: Queue, destinations: seq<Destination>): Submission -> bool {
    (s: Submission) => Stuck(q, destinations, s)
  }

  // ---- Runs under one configuration ----

  /** Rows of the first n submissions that are pending under an enabled destination. */
  function ServedBefore(q: Queue, destinations: seq<Destination>, n: nat): set<Pair>
    requires n <= |q.submissions|
  {
    set p | p in q.deliveries && q.deliveries[p].state == Pending && Serving(destinations, p.destination)
      && exists j :: 0 <= j < n && q.submissions[j].id == p.submission
  }

  /** The due ones among them. */
  function DueBefore(q: Queue, destinations: seq<Destination>, n: nat, now: int): set<Pair>
    requires n <= |q.submissions|
  {
    set p | p in ServedBefore(q, destinations, n) && Due(q.deliveries[p], now)
  }

  /** The row is of an enabled destination, and fewer than a batch of due rows belong to older submissions. */
  ghost predicate Fetchable(policy: Policy, q: Queue, destinations: seq<Destination>, p: Pair, now: int) {
    && Serving(destinations, p.destination)
    && exists i :: 0 <= i < |q.submissions| && q.submissions[i].id == p.submission
         && |DueBefore(q, destinations, i, now)| < policy.batchSize
  }

  ghost predicate Allowed(policy: Policy, q: Queue, destinations: seq<Destination>, op: Op) {
    match op
    case FanOut(used) => used == destinations
    case Attempt(p, t) => Fetchable(policy, q, destinations, p, t.now)
    case _ => true
  }

  ghost predicate Configured(policy: Policy, q: Queue, destinations: seq<Destination>, ops: seq<Op>)
    requires Runs(policy, q, ops)
  {
    ops == [] ||
    (Configured(policy, q, destinations, ops[..|ops| - 1])
      && Allowed(policy, Run(policy, q, ops[..|ops| - 1]), destinations, ops[|ops| - 1]))
  }

  // ---- A full batch of stuck submissions blocks ----

  /** A full batch of stuck submissions stands before submission `k`, which nobody is owed yet. */
  ghost predicate Blocked(policy: Policy, q: Queue, destinations: seq<Destination>, k: nat) {
    && k < |q.submissions| && q.submissions[k].status == Pending && Rowless(q, q.submissions[k].id)
    && |Filter(q.submissions[..k], IsStuck(q, destinations))| >= policy.batchSize
  }

  /** With a full batch pending before k, only the first k submissions are looked at. */
  lemma BatchIsBefore(submissions: seq<Submission>, limit: nat, k: nat)
    requires k <= |submissions| && |Filter(submissions[..k], IsPending())| >= limit
    ensures PendingBatch(submissions, limit) == PendingBatch(submissions[..k], limit)
         == Filter(submissions[..k], IsPending())[..limit]
  {
    var head, tail := submissions[..k], submissions[k..];
    assert submissions == head + tail;
    FilterAppend(head, tail, IsPending());
    assert (Filter(head, IsPending()) + Filter(tail, IsPending()))[..limit] == Filter(head, IsPending())[..limit];
  }

  lemma EnabledWants(s: Submission, destinations: seq<Destination>, p: Pair)
    requires IsOwed(p, s, Filter(destinations, IsEnabled()))
    ensures !Unwanted(s, destinations)
  {
    var enabled := Filter(destinations, IsEnabled());
    var j :| 0 <= j < |enabled| && enabled[j].id == p.destination && Wants(enabled[j], PayloadKind(s.payload));
    FilterMembers(destinations, IsEnabled());
    var l :| 0 <= l < |destinations| && destinations[l] == enabled[j];
  }

  /** While blocked, rows are owed only under wanted submissions before k. */
  lemma OwedAreBefore(policy: Policy, q: Queue, destinations: seq<Destination>, k: nat, p: Pair)
    requires Blocked(policy, q, destinations, k)
    requires p in Owed(PendingBatch(q.submissions, policy.batchSize), Filter(destinations, IsEnabled()))
    ensures exists m :: 0 <= m < k && q.submissions[m].id == p.submission && !Unwanted(q.submissions[m], destinations)
  {
    var batch, enabled := PendingBatch(q.submissions, policy.batchSize), Filter(destinations, IsEnabled());
    OwedMembers(batch, enabled, p);
    var n :| 0 <= n < |batch| && IsOwed(p, batch[n], enabled);
    EnabledWants(batch[n], destinations, p);
    FilterCount(q.submissions[..k], q.submissions[..k], IsStuck(q, destinations), IsPending());
    BatchIsBefore(q.submissions, policy.batchSize, k);
    BatchIsPending(q.submissions[..k], policy.batchSize, n);
    var m :| 0 <= m < k && q.submissions[..k][m] == batch[n];
    assert q.submissions[m] == batch[n];
  }

  /** Nobody comes to be owed submission k, or one that nobody wants. */
  lemma RowlessStays(policy: Policy, q: Queue, destinations: seq<Destination>, k: nat, op: Op, i: nat)
    requires QueueInv(q) && Blocked(policy, q, destinations, k) && Enabled(q, op) && Allowed(policy, q, destinations, op)
    requires i == k || (i < k && Unwanted(q.submissions[i], destinations) && Rowless(q, q.submissions[i].id))
    ensures var q' := Next(policy, q, op);
            q'.submissions[i] == q.submissions[i] && Rowless(q', q.submissions[i].id)
  {
    var q' := Next(policy, q, op);
    var id := q.submissions[i].id;
    assert Rowless(q, id);
    if op.FanOut? {
      forall p | p in q'.deliveries && p !in q.deliveries ensures p.submission != id {
        OwedAreBefore(policy, q, destinations, k, p);
      }
    } else if op.Settle? && op.id == id {
      assert false;
    }
  }

  /** A row that is not served is not fetched, and its submission has a pending row. */
  lemma HeldUpStays(policy: Policy, q: Queue, destinations: seq<Destination>, op: Op, i: nat)
    requires Enabled(q, op) && Allowed(policy, q, destinations, op)
    requires i < |q.submissions| && q.submissions[i].status == Pending && HeldUp(q, destinations, q.submissions[i].id)
    ensures var q' := Next(policy, q, op);
            q'.submissions[i] == q.submissions[i] && HeldUp(q', destinations, q.submissions[i].id)
  {
    var p :| p in HeldRows(q, destinations) && p.submission == q.submissions[i].id;
    assert HasRow(q.deliveries, p.submission, Pending);
    assert p in HeldRows(Next(policy, q, op), destinations);
  }

  lemma StuckStays(policy: Policy, q: Queue, destinations: seq<Destination>, k: nat, op: Op, i: nat)
    requires QueueInv(q) && Blocked(policy, q, destinations, k) && Enabled(q, op) && Allowed(policy, q, destinations, op)
    requires i < k && Stuck(q, destinations, q.submissions[i])
    ensures var q' := Next(policy, q, op);
            q'.submissions[i] == q.submissions[i] && Stuck(q', destinations, q'.submissions[i])
  {
    if HeldUp(q, destinations, q.submissions[i].id) {
      HeldUpStays(policy, q, destinations, op, i);
    } else {
      RowlessStays(policy, q, destinations, k, op, i);
    }
  }

  lemma StepKeepsBlocked(policy: Policy, q: Queue, destinations: seq<Destination>, k: nat, op: Op)
    requires QueueInv(q) && Blocked(policy, q, destinations, k) && Enabled(q, op) && Allowed(policy, q, destinations, op)
    ensures Blocked(policy, Next(policy, q, op), destinations, k)
    ensures Next(policy, q, op).submissions[k] == q.submissions[k]
  {
    var q' := Next(policy, q, op);
    forall i | 0 <= i < k && IsStuck(q, destinations)(q.submissions[i]) ensures IsStuck(q', destinations)(q'.submissions[i]) {
      StuckStays(policy, q, destinations, k, op, i);
    }
    RowlessStays(policy, q, destinations, k, op, k);
    FilterCount(q.submissions[..k], q'.submissions[..k], IsStuck(q, destinations), IsStuck(q', destinations));
  }

  /** A full batch of stuck submissions keeps submission k from being owed to anyone, in every run. */
  lemma {:induction false} StuckBatchBlocksTheQueue(policy: Policy, q: Queue, destinations: seq<Destination>, k: nat,
                                                    ops: seq<Op>)
    requires QueueInv(q) && Blocked(policy, q, destinations, k)
    requires Runs(policy, q, ops) && Configured(policy, q, destinations, ops)
    ensures Blocked(policy, Run(policy, q, ops), destinations, k)
    ensures Run(policy, q, ops).submissions[k] == q.submissions[k]
  {
    if ops != [] {
      var before := ops[..|ops| - 1];
      StuckBatchBlocksTheQueue(policy, q, destinations, k, before);
      RunKeepsStatus(policy, q, before);
      StepKeepsBlocked(policy, Run(policy, q, before), destinations, k, ops[|ops| - 1]);
    }
  }

  // ---- Such a batch can arise ----

  /** Submissions 0 .. n - 1 with the same payload. */
  function Backlog(n: nat, payload: Payload): (out: seq<Submission>)
    ensures |out| == n && forall i :: 0 <= i < n ==> out[i] == Submission(i, payload, Pending)
  {
    seq(n, i requires 0 <= i < n => Submission(i, payload, Pending))
  }

  function Enqueues(submissions: seq<Submission>): (out: seq<Op>)
    ensures |out| == |submissions| && forall i :: 0 <= i < |out| ==> out[i] == Enqueue(submissions[i])
  {
    seq(|submissions|, i requires 0 <= i < |submissions| => Enqueue(submissions[i]))
  }

  lemma {:induction false} EnqueuesRun(policy: Policy, submissions: seq<Submission>)
    requires forall i :: 0 <= i < |submissions| ==> submissions[i].id == i && submissions[i].status == Pending
    ensures Runs(policy, EMPTY, Enqueues(submissions))
    ensures Run(policy, EMPTY, Enqueues(submissions)) == Queue(submissions, map[])
  {
    if submissions != [] {
      var n := |submissions| - 1;
      EnqueuesRun(policy, submissions[..n]);
      assert Enqueues(submissions)[..n] == Enqueues(submissions[..n]);
      assert submissions == submissions[..n] + [submissions[n]];
    }
  }

  /** Enqueuing a batch that nobody wants blocks whatever is enqueued next, wanted or not. */
  lemma UnwantedBacklogBlocks(policy: Policy, destinations: seq<Destination>, unwanted: Payload, late: Payload)
    requires forall j :: 0 <= j < |destinations| && destinations[j].enabled ==> !Wants(destinations[j], PayloadKind(unwanted))
    ensures var n := policy.batchSize;
            var submissions := Backlog(n, unwanted) + [Submission(n, late, Pending)];
            var ops := Enqueues(submissions);
      && Runs(policy, EMPTY, ops)
      && Run(policy, EMPTY, ops) == Queue(submissions, map[])
      && Blocked(policy, Run(policy, EMPTY, ops), destinations, n)
  {
    var n := policy.batchSize;
    var submissions := Backlog(n, unwanted) + [Submission(n, late, Pending)];
    EnqueuesRun(policy, submissions);
    var q := Queue(submissions, map[]);
    assert submissions[..n] == Backlog(n, unwanted);
    FilterAll(Backlog(n, unwanted), IsStuck(q, destinations));
  }

  lemma {:induction false} RunsOn(policy: Policy, q: Queue, a: seq<Op>, b: seq<Op>, destinations: seq<Destination>)
    requires Runs(policy, q, a) && Runs(policy, Run(policy, q, a), b)
    ensures Runs(policy, q, a + b) && Run(policy, q, a + b) == Run(policy, Run(policy, q, a), b)
    ensures Configured(policy, q, destinations, a) && Configured(policy, Run(policy, q, a), destinations, b)
        ==> Configured(policy, q, destinations, a + b)
    decreases |b|
  {
    if b == [] {
      assert a + b == a;
    } else {
      RunsOn(policy, q, a, b[..|b| - 1], destinations);
      assert (a + b)[..|a + b| - 1] == a + b[..|b| - 1];
    }
  }

  lemma OneOp(policy: Policy, q: Queue, op: Op, destinations: seq<Destination>)
    requires Enabled(q, op)
    ensures Runs(policy, q, [op]) && Run(policy, q, [op]) == Next(policy, q, op)
    ensures Configured(policy, q, destinations, [op]) <==> Allowed(policy, q, destinations, op)
  {
    var ops := [op];
    assert ops[..|ops| - 1] == [] && ops[|ops| - 1] == op;
    assert Runs(policy, q, []) && Run(policy, q, []) == q;
  }

  /** The queue once a backlog has been fanned out and one more submission enqueued. */
  function OwedBacklog(policy: Policy, before: seq<Destination>, payload: Payload, late: Payload): Queue {
    var n := policy.batchSize;
    var owed := Ensured(map[], Owed(PendingBatch(Backlog(n, payload), n), Filter(before, IsEnabled())));
    Queue(Backlog(n, payload) + [Submission(n, late, Pending)], owed)
  }

  lemma BacklogRows(policy: Policy, before: seq<Destination>, payload: Payload, late: Payload, d: nat)
    requires d < |before| && before[d].enabled && Wants(before[d], PayloadKind(payload))
    ensures var q := OwedBacklog(policy, before, payload, late);
      && (forall i :: 0 <= i < policy.batchSize ==>
            Pair(i, before[d].id) in q.deliveries && q.deliveries[Pair(i, before[d].id)] == NEW_DELIVERY)
      && Rowless(q, policy.batchSize)
  {
    var n, enabled := policy.batchSize, Filter(before, IsEnabled());
    var batch := PendingBatch(Backlog(n, payload), n);
    FilterAll(Backlog(n, payload), IsPending());
    assert batch == Backlog(n, payload);
    FilterMembers(before, IsEnabled());
    assert before[d] in before && IsEnabled()(before[d]);
    var l :| 0 <= l < |enabled| && enabled[l] == before[d];
    forall i | 0 <= i < n ensures Pair(i, before[d].id) in Owed(batch, enabled) {
      OwedMembers(batch, enabled, Pair(i, before[d].id));
      assert enabled[l].id == before[d].id;
      assert IsOwed(Pair(i, before[d].id), batch[i], enabled);
    }
    forall p | p in Owed(batch, enabled) ensures p.submission != n {
      OwedMembers(batch, enabled, p);
    }
  }

  /**
    A backlog owed to a destination that is then disabled blocks whatever is enqueued next,
    whoever else is enabled to receive it.
   */
  lemma DisabledBacklogBlocks(policy: Policy, before: seq<Destination>, after: seq<Destination>, d: nat,
                              payload: Payload, late: Payload)
    requires d < |before| && before[d].enabled && Wants(before[d], PayloadKind(payload))
    requires !Serving(after, before[d].id)
    ensures var n := policy.batchSize;
            var ops := Enqueues(Backlog(n, payload)) + ([FanOut(before)] + [Enqueue(Submission(n, late, Pending))]);
      && Runs(policy, EMPTY, ops)
      && Run(policy, EMPTY, ops) == OwedBacklog(policy, before, payload, late)
      && Blocked(policy, Run(policy, EMPTY, ops), after, n)
  {
    var n, q := policy.batchSize, OwedBacklog(policy, before, payload, late);
    var first := Queue(Backlog(n, payload), map[]);
    var owed := Next(policy, first, FanOut(before));
    EnqueuesRun(policy, Backlog(n, payload));
    OneOp(policy, first, FanOut(before), before);
    OneOp(policy, owed, Enqueue(Submission(n, late, Pending)), before);
    RunsOn(policy, first, [FanOut(before)], [Enqueue(Submission(n, late, Pending))], before);
    RunsOn(policy, EMPTY, Enqueues(Backlog(n, payload)), [FanOut(before)] + [Enqueue(Submission(n, late, Pending))], before);
    BacklogRows(policy, before, payload, late, d);
    assert q.submissions[..n] == Backlog(n, payload);
    forall i | 0 <= i < n ensures IsStuck(q, after)(Backlog(n, payload)[i]) {
      assert Pair(i, before[d].id) in HeldRows(q, after);
    }
    FilterAll(Backlog(n, payload), IsStuck(q, after));
  }

  // ---- And nothing else blocks ----

  lemma WantedIsOwed(s: Submission, destinations: seq<Destination>) returns (p: Pair)
    requires s.status == Pending && !Unwanted(s, destinations)
    ensures p.submission == s.id && IsOwed(p, s, Filter(destinations, IsEnabled()))
  {
    var j :| 0 <= j < |destinations| && destinations[j].enabled && Wants(destinations[j], PayloadKind(s.payload));
    p := Pair(s.id, destinations[j].id);
    FilterMembers(destinations, IsEnabled());
    var enabled := Filter(destinations, IsEnabled());
    assert destinations[j] in destinations && IsEnabled()(destinations[j]);
    var l :| 0 <= l < |enabled| && enabled[l] == destinations[j];
    assert enabled[l].id == p.destination && Wants(enabled[l], PayloadKind(s.payload));
  }

  /** Fan-out gives a row to a wanted submission of the batch. */
  lemma FanOutReaches(policy: Policy, q: Queue, destinations: seq<Destination>, s: Submission)
    requires s in PendingBatch(q.submissions, policy.batchSize) && s.status == Pending
    requires !Unwanted(s, destinations) || !Rowless(q, s.id)
    ensures !Rowless(Next(policy, q, FanOut(destinations)), s.id)
  {
    var q' := Next(policy, q, FanOut(destinations));
    if Rowless(q, s.id) {
      var batch := PendingBatch(q.submissions, policy.batchSize);
      var p := WantedIsOwed(s, destinations);
      OwedMembers(batch, Filter(destinations, IsEnabled()), p);
      var i :| 0 <= i < |batch| && batch[i] == s;
      assert p in q'.deliveries;
    } else {
      var p :| p in q.deliveries && p.submission == s.id;
      assert p in q'.deliveries;
    }
  }

  lemma BatchHolds(submissions: seq<Submission>, limit: nat, k: nat)
    requires k < |submissions| && submissions[k].status == Pending
    requires |Filter(submissions[..k], IsPending())| < limit
    ensures submissions[k] in PendingBatch(submissions, limit)
  {
    var head, here, tail := submissions[..k], [submissions[k]], submissions[k + 1..];
    assert submissions == head + (here + tail) && (here + tail)[1..] == tail;
    FilterAppend(head, here + tail, IsPending());
    var before, pending := Filter(head, IsPending()), Filter(submissions, IsPending());
    assert Filter(here + tail, IsPending())[0] == submissions[k];
    assert pending[|before|] == submissions[k];
    if |pending| > limit {
      assert pending[..limit][|before|] == submissions[k];
    }
  }

  /** A full batch that is not stuck throughout holds a submission that can be moved. */
  lemma UnstuckInBatch(policy: Policy, q: Queue, destinations: seq<Destination>, k: nat) returns (i: nat)
    requires k <= |q.submissions|
    requires |Filter(q.submissions[..k], IsPending())| >= policy.batchSize > |Filter(q.submissions[..k], IsStuck(q, destinations))|
    ensures i < k && q.submissions[i].status == Pending && !IsStuck(q, destinations)(q.submissions[i])
    ensures q.submissions[i] in PendingBatch(q.submissions, policy.batchSize)
  {
    var head, stuck := q.submissions[..k], IsStuck(q, destinations);
    var pending := Filter(head, IsPending());
    var batch, more := pending[..policy.batchSize], pending[policy.batchSize..];
    BatchIsBefore(q.submissions, policy.batchSize, k);
    if forall j :: 0 <= j < |batch| ==> stuck(batch[j]) {
      FilterAll(batch, stuck);
      assert pending == batch + more;
      FilterAppend(batch, more, stuck);
      FilterTwice(head, IsPending(), stuck, stuck);
      assert false;
    }
    var j :| 0 <= j < |batch| && !stuck(batch[j]);
    FilterMembers(head, IsPending());
    assert pending[j] in head && IsPending()(pending[j]);
    i :| 0 <= i < |head| && head[i] == batch[j];
    assert batch[j] in batch;
  }

  /** Fan-out under this configuration holds up nobody. */
  lemma FanOutHoldsNobody(policy: Policy, q: Queue, destinations: seq<Destination>)
    ensures HeldRows(Next(policy, q, FanOut(destinations)), destinations) == HeldRows(q, destinations)
  {
    var q' := Next(policy, q, FanOut(destinations));
    var batch, enabled := PendingBatch(q.submissions, policy.batchSize), Filter(destinations, IsEnabled());
    forall p | p in Owed(batch, enabled) ensures Serving(destinations, p.destination) {
      OwedMembers(batch, enabled, p);
      var i :| 0 <= i < |batch| && IsOwed(p, batch[i], enabled);
      var j :| 0 <= j < |enabled| && enabled[j].id == p.destination && Wants(enabled[j], PayloadKind(batch[i].payload));
      FilterMembers(destinations, IsEnabled());
      assert enabled[j] in destinations && IsEnabled()(enabled[j]);
      var l :| 0 <= l < |destinations| && destinations[l] == enabled[j];
    }
  }

  /** `ops` deliver rows and nothing else; none of them was held up. */
  ghost predicate Delivers(policy: Policy, q: Queue, destinations: seq<Destination>, ops: seq<Op>) {
    && Runs(policy, q, ops) && Configured(policy, q, destinations, ops)
    && var q' := Run(policy, q, ops);
       && q'.submissions == q.submissions && q'.deliveries.Keys == q.deliveries.Keys
       && HeldRows(q', destinations) == HeldRows(q, destinations)
  }

  lemma DeliversOn(policy: Policy, q: Queue, destinations: seq<Destination>, a: seq<Op>, b: seq<Op>)
    requires Delivers(policy, q, destinations, a) && Delivers(policy, Run(policy, q, a), destinations, b)
    ensures Delivers(policy, q, destinations, a + b) && Run(policy, q, a + b) == Run(policy, Run(policy, q, a), b)
  {
    RunsOn(policy, q, a, b, destinations);
  }

  /** With nothing left to fetch of older submissions, a served row of submission n can be delivered. */
  lemma OneRowDelivered(policy: Policy, q: Queue, destinations: seq<Destination>, n: nat, p: Pair) returns (op: Op)
    requires policy.batchSize > 0 && n < |q.submissions| && ServedBefore(q, destinations, n) == {}
    requires p in ServedBefore(q, destinations, n + 1)
    ensures Enabled(q, op) && Delivers(policy, q, destinations, [op]) && Run(policy, q, [op]) == Next(policy, q, op)
    ensures ServedBefore(Next(policy, q, op), destinations, n) == {}
    ensures ServedBefore(Next(policy, q, op), destinations, n + 1) == ServedBefore(q, destinations, n + 1) - {p}
  {
    var next := q.deliveries[p].nextAttemptAt;
    op := Attempt(p, Try(Accepted, if next.Some? then next.value else 0));
    var q' := Next(policy, q, op);
    assert DueBefore(q, destinations, n, op.t.now) == {};
    assert p !in ServedBefore(q, destinations, n);
    var j :| 0 <= j < n + 1 && q.submissions[j].id == p.submission;
    assert j == n;
    assert Fetchable(policy, q, destinations, p, op.t.now);
    OneOp(policy, q, op, destinations);
    assert HeldRows(q', destinations) == HeldRows(q, destinations);
    assert ServedBefore(q', destinations, n) == {};
    assert ServedBefore(q', destinations, n + 1) == ServedBefore(q, destinations, n + 1) - {p};
  }

  lemma {:induction false} RowsOfOneDelivered(policy: Policy, q: Queue, destinations: seq<Destination>, n: nat) returns (ops: seq<Op>)
    requires policy.batchSize > 0 && n < |q.submissions| && ServedBefore(q, destinations, n) == {}
    ensures Delivers(policy, q, destinations, ops)
    ensures ServedBefore(Run(policy, q, ops), destinations, n + 1) == {}
    decreases |ServedBefore(q, destinations, n + 1)|
  {
    if ServedBefore(q, destinations, n + 1) == {} {
      ops := [];
    } else {
      var p :| p in ServedBefore(q, destinations, n + 1);
      var op := OneRowDelivered(policy, q, destinations, n, p);
      var rest := RowsOfOneDelivered(policy, Next(policy, q, op), destinations, n);
      DeliversOn(policy, q, destinations, [op], rest);
      ops := [op] + rest;
    }
  }

  /** Oldest first, everything owed to enabled destinations can be delivered. */
  lemma {:induction false} OldestDelivered(policy: Policy, q: Queue, destinations: seq<Destination>, n: nat) returns (ops: seq<Op>)
    requires policy.batchSize > 0 && n <= |q.submissions|
    ensures Delivers(policy, q, destinations, ops)
    ensures ServedBefore(Run(policy, q, ops), destinations, n) == {}
    decreases n
  {
    if n == 0 {
      ops := [];
    } else {
      var older := OldestDelivered(policy, q, destinations, n - 1);
      var rest := RowsOfOneDelivered(policy, Run(policy, q, older), destinations, n - 1);
      DeliversOn(policy, q, destinations, older, rest);
      ops := older + rest;
    }
  }

  /** `ops` keep every row, hold up nobody else, and settle submission `id` alone. */
  ghost predicate Settles(policy: Policy, q: Queue, destinations: seq<Destination>, ops: seq<Op>, id: nat) {
    && Runs(policy, q, ops) && Configured(policy, q, destinations, ops)
    && var q' := Run(policy, q, ops);
       && q.deliveries.Keys <= q'.deliveries.Keys
       && HeldRows(q', destinations) <= HeldRows(q, destinations)
       && exists status :: status != Pending && q'.submissions == SetStatus(q.submissions, id, status)
  }

  lemma DeliveredIsCandidate(q: Queue, destinations: seq<Destination>, i: nat)
    requires i < |q.submissions| && q.submissions[i].status == Pending
    requires !Rowless(q, q.submissions[i].id) && !HeldUp(q, destinations, q.submissions[i].id)
    requires ServedBefore(q, destinations, i + 1) == {}
    ensures Candidate(q, q.submissions[i].id)
  {
    var id := q.submissions[i].id;
    forall p | p in q.deliveries && p.submission == id ensures q.deliveries[p].state != Pending {
      assert p !in HeldRows(q, destinations) && p !in ServedBefore(q, destinations, i + 1);
    }
    var p :| p in q.deliveries && p.submission == id;
    assert HasRow(q.deliveries, id, q.deliveries[p].state);
  }

  lemma OwedCanSettle(policy: Policy, q: Queue, destinations: seq<Destination>, i: nat) returns (ops: seq<Op>)
    requires policy.batchSize > 0 && i < |q.submissions| && q.submissions[i].status == Pending
    requires !Rowless(q, q.submissions[i].id) && !HeldUp(q, destinations, q.submissions[i].id)
    ensures Settles(policy, q, destinations, ops, q.submissions[i].id)
  {
    var id := q.submissions[i].id;
    var deliver := OldestDelivered(policy, q, destinations, i + 1);
    var delivered := Run(policy, q, deliver);
    var p :| p in q.deliveries && p.submission == id;
    assert p in delivered.deliveries;
    DeliveredIsCandidate(delivered, destinations, i);
    OneOp(policy, delivered, Settle(id), destinations);
    RunsOn(policy, q, deliver, [Settle(id)], destinations);
    ops := deliver + [Settle(id)];
  }

  /** A submission of the batch that is not stuck can be moved out of the way. */
  lemma BatchedCanSettle(policy: Policy, q: Queue, destinations: seq<Destination>, i: nat) returns (ops: seq<Op>)
    requires policy.batchSize > 0
    requires i < |q.submissions| && q.submissions[i].status == Pending && !Stuck(q, destinations, q.submissions[i])
    requires q.submissions[i] in PendingBatch(q.submissions, policy.batchSize)
    ensures Settles(policy, q, destinations, ops, q.submissions[i].id)
  {
    FanOutReaches(policy, q, destinations, q.submissions[i]);
    FanOutHoldsNobody(policy, q, destinations);
    OneOp(policy, q, FanOut(destinations), destinations);
    var owed := Next(policy, q, FanOut(destinations));
    var settle := OwedCanSettle(policy, owed, destinations, i);
    RunsOn(policy, q, [FanOut(destinations)], settle, destinations);
    ops := [FanOut(destinations)] + settle;
  }

  /** Submission k is wanted, and fewer than a full batch stand stuck before it. */
  ghost predicate Open(policy: Policy, q: Queue, destinations: seq<Destination>, k: nat) {
    && k < |q.submissions| && q.submissions[k].status == Pending && !Unwanted(q.submissions[k], destinations)
    && |Filter(q.submissions[..k], IsStuck(q, destinations))| < policy.batchSize
  }

  /** Settling a submission before k keeps the way open and leaves one pending submission less. */
  lemma SettlingKeepsOpen(policy: Policy, q: Queue, q': Queue, destinations: seq<Destination>, k: nat, i: nat, status: State)
    requires QueueInv(q) && Open(policy, q, destinations, k) && i < k && q.submissions[i].status == Pending
    requires status != Pending && q'.submissions == SetStatus(q.submissions, q.submissions[i].id, status)
    requires q.deliveries.Keys <= q'.deliveries.Keys && HeldRows(q', destinations) <= HeldRows(q, destinations)
    ensures Open(policy, q', destinations, k) && q'.submissions[k] == q.submissions[k]
    ensures |Filter(q'.submissions[..k], IsPending())| < |Filter(q.submissions[..k], IsPending())|
  {
    var head, head' := q.submissions[..k], q'.submissions[..k];
    assert q.submissions[i].id != q.submissions[k].id;
    forall j | 0 <= j < k && IsStuck(q', destinations)(head'[j]) ensures IsStuck(q, destinations)(head[j]) {
      assert forall p: Pair :: p in q.deliveries ==> p in q'.deliveries;
    }
    FilterCount(head', head, IsStuck(q', destinations), IsStuck(q, destinations));
    assert !IsPending()(head'[i]) && IsPending()(head[i]);
    FilterCount(head', head, IsPending(), IsPending());
  }

  lemma {:induction false} OpenCanBeOwed(policy: Policy, q: Queue, destinations: seq<Destination>, k: nat) returns (ops: seq<Op>)
    requires QueueInv(q) && Open(policy, q, destinations, k)
    ensures Runs(policy, q, ops) && Configured(policy, q, destinations, ops)
    ensures !Rowless(Run(policy, q, ops), q.submissions[k].id)
    decreases |Filter(q.submissions[..k], IsPending())|
  {
    if |Filter(q.submissions[..k], IsPending())| < policy.batchSize {
      BatchHolds(q.submissions, policy.batchSize, k);
      FanOutReaches(policy, q, destinations, q.submissions[k]);
      OneOp(policy, q, FanOut(destinations), destinations);
      ops := [FanOut(destinations)];
    } else {
      var i := UnstuckInBatch(policy, q, destinations, k);
      var first := BatchedCanSettle(policy, q, destinations, i);
      var q' := Run(policy, q, first);
      var status :| status != Pending && q'.submissions == SetStatus(q.submissions, q.submissions[i].id, status);
      SettlingKeepsOpen(policy, q, q', destinations, k, i, status);
      RunKeepsStatus(policy, q, first);
      var rest := OpenCanBeOwed(policy, q', destinations, k);
      RunsOn(policy, q, first, rest, destinations);
      ops := first + rest;
    }
  }

  ghost predicate CanBeOwed(policy: Policy, q: Queue, destinations: seq<Destination>, id: nat) {
    exists ops :: Runs(policy, q, ops) && Configured(policy, q, destinations, ops) && !Rowless(Run(policy, q, ops), id)
  }

  /**
    A pending submission that some enabled destination wants, and that nobody is owed yet, can
    come to be owed under the present configuration exactly when fewer than a full batch of
    stuck submissions stand before it.
   */
  lemma OwedIffNotBlocked(policy: Policy, q: Queue, destinations: seq<Destination>, k: nat)
    requires QueueInv(q) && k < |q.submissions| && q.submissions[k].status == Pending
    requires Rowless(q, q.submissions[k].id) && !Unwanted(q.submissions[k], destinations)
    ensures CanBeOwed(policy, q, destinations, q.submissions[k].id)
       <==> |Filter(q.submissions[..k], IsStuck(q, destinations))| < policy.batchSize
  {
    if Open(policy, q, destinations, k) {
      var ops := OpenCanBeOwed(policy, q, destinations, k);
    } else {
      forall ops | Runs(policy, q, ops) && Configured(policy, q, destinations, ops)
        ensures Rowless(Run(policy, q, ops), q.submissions[k].id)
      {
        StuckBatchBlocksTheQueue(policy, q, destinations, k, ops);
      }
    }
  }
}
