/**
  What the outbox owes to whom and what an answer does to a delivery, told from the
  submissions, the destinations and the answer themselves.
 */
module OutboxLaws {
  import opened Chars
  import opened Deliveries
  import opened Dispatcher
  import opened Seqs

  // ---- what an answer does ----

  /** There is an address to send to: one with a character that is not white space. */
  ghost predicate HasAddress(d: Destination) {
    d.endpoint.Some? && exists i :: 0 <= i < |d.endpoint.value| && !IsWhitespace(d.endpoint.value[i])
  }

  /** A success status counts as taken, unless the body refuses and the destination speaks that contract. */
  ghost predicate Took(d: Destination, result: SendResult) {
    && result.Answered? && result.success
    && (result.verdict == Some(false) ==> d.kind == "peppol" || d.kind == "webhook")
  }

  ghost function Later(policy: Policy, now: int, failures: nat): Option<int> {
    Some(now + policy.baseBackoff * [1, 2, 4, 8, 16, 32, 64][Min(failures, 6)])
  }

  /** The row after one attempt, case by case. */
  ghost predicate Attempted(policy: Policy, d: Destination, result: SendResult, now: int, row: Delivery, row': Delivery) {
    var n := row.attempts + 1;
    if !HasAddress(d) then row' == Delivery(DeadLetter, n, row.unreachable, None)
    else if d.secret != Missing && Took(d, result) then row' == Delivery(Delivered, n, row.unreachable, None)
    else if d.secret != Missing && result.ConnectError? then
      row' == Delivery(Pending, row.attempts, row.unreachable + 1, Later(policy, now, row.unreachable))
    else if n < policy.maxAttempts then
      row' == Delivery(Pending, n, row.unreachable, Later(policy, now, row.attempts))
    else row' == Delivery(DeadLetter, n, row.unreachable, None)
  }

  /** An attempt moves its own row as the answer says, and nothing else. */
  lemma AnswerDecides(policy: Policy, q: Queue, p: Pair, d: Destination, result: SendResult, now: int)
    requires Enabled(q, Attempt(p, Try(OutcomeOf(d, result), now)))
    ensures var q' := Next(policy, q, Attempt(p, Try(OutcomeOf(d, result), now)));
      && q'.submissions == q.submissions
      && p in q'.deliveries && q'.deliveries == q.deliveries[p := q'.deliveries[p]]
      && Attempted(policy, d, result, now, q.deliveries[p], q'.deliveries[p])
  {
    var row := q.deliveries[p];
    BackoffDoubles(policy, row.attempts);
    BackoffDoubles(policy, row.unreachable);
  }

  // ---- who is owed what ----

  /** What a payload is: its event type if it has one, else the first of its parts. */
  ghost predicate IsOfKind(p: Payload, kind: string) {
    match p
    case Payload(Some(event), _, _, _) => kind == if event == "stock.movement" then "stock.movement" else "unknown"
    case Payload(None, true, _, _) => kind == "order"
    case Payload(None, false, true, _) => kind == "return"
    case Payload(None, false, false, true) => kind == "shift"
    case Payload(None, false, false, false) => kind == "unknown"
  }

  /** The destination lists the payload's kind, or lists nothing. */
  ghost predicate Lists(d: Destination, p: Payload) {
    || d.payloadKinds.None?
    || |d.payloadKinds.value| == 0
    || (exists k :: 0 <= k < |d.payloadKinds.value|
          && d.payloadKinds.value[k].Some? && IsOfKind(p, d.payloadKinds.value[k].value))
  }

  ghost function PendingIn(submissions: seq<Submission>): nat {
    if submissions == [] then 0
    else PendingIn(submissions[1..]) + if submissions[0].status == Pending then 1 else 0
  }

  /** Submission i is pending with fewer than `limit` pending ones before it. */
  ghost predicate AmongOldest(submissions: seq<Submission>, limit: nat, i: int) {
    0 <= i < |submissions| && submissions[i].status == Pending && PendingIn(submissions[..i]) < limit
  }

  ghost predicate OwesPair(policy: Policy, q: Queue, destinations: seq<Destination>, p: Pair, i: int, j: int) {
    && AmongOldest(q.submissions, policy.batchSize, i)
    && 0 <= j < |destinations| && destinations[j].enabled
    && p == Pair(q.submissions[i].id, destinations[j].id)
    && Lists(destinations[j], q.submissions[i].payload)
  }

  lemma {:induction false} PendingAreKept(submissions: seq<Submission>)
    ensures |Filter(submissions, IsPending())| == PendingIn(submissions)
  {
    if submissions != [] {
      PendingAreKept(submissions[1..]);
    }
  }

  lemma KeptAt(submissions: seq<Submission>, i: nat)
    requires i < |submissions| && submissions[i].status == Pending
    ensures var kept, n := Filter(submissions, IsPending()), PendingIn(submissions[..i]);
            n < |kept| && kept[n] == submissions[i]
  {
    var before, after := submissions[..i], submissions[i + 1..];
    PendingAreKept(before);
    FilterCons(submissions[i], after, IsPending());
    FilterAppend(before, [submissions[i]] + after, IsPending());
    assert submissions == before + ([submissions[i]] + after);
  }

  lemma {:induction false} KeptFrom(submissions: seq<Submission>, n: nat) returns (i: nat)
    requires n < |Filter(submissions, IsPending())|
    ensures i < |submissions| && submissions[i].status == Pending && PendingIn(submissions[..i]) == n
    ensures Filter(submissions, IsPending())[n] == submissions[i]
  {
    if submissions[0].status == Pending && n == 0 {
      i := 0;
    } else {
      var j := KeptFrom(submissions[1..], if submissions[0].status == Pending then n - 1 else n);
      i := j + 1;
      assert submissions[..i][1..] == submissions[1..][..j];
    }
  }

  /** The batch holds exactly the oldest pending submissions. */
  lemma BatchIsOldest(submissions: seq<Submission>, limit: nat, s: Submission)
    ensures s in PendingBatch(submissions, limit) <==> exists i :: AmongOldest(submissions, limit, i) && submissions[i] == s
  {
    var kept, batch := Filter(submissions, IsPending()), PendingBatch(submissions, limit);
    if s in batch {
      var n :| 0 <= n < |batch| && batch[n] == s;
      var i := KeptFrom(submissions, n);
      assert AmongOldest(submissions, limit, i);
    }
    if i :| AmongOldest(submissions, limit, i) && submissions[i] == s {
      KeptAt(submissions, i);
      assert batch[PendingIn(submissions[..i])] == s;
    }
  }

  lemma KindIs(p: Payload, kind: string)
    ensures IsOfKind(p, kind) <==> kind == PayloadKind(p)
  {
  }

  lemma WantsIs(d: Destination, p: Payload)
    ensures Wants(d, PayloadKind(p)) <==> Lists(d, p)
  {
    KindIs(p, PayloadKind(p));
    if d.payloadKinds.Some? {
      var kinds := d.payloadKinds.value;
      if Some(PayloadKind(p)) in kinds {
        var k :| 0 <= k < |kinds| && kinds[k] == Some(PayloadKind(p));
        assert kinds[k].Some? && IsOfKind(p, kinds[k].value);
      }
      if k :| 0 <= k < |kinds| && kinds[k].Some? && IsOfKind(p, kinds[k].value) {
        KindIs(p, kinds[k].value);
        assert Some(PayloadKind(p)) == kinds[k];
      }
    }
  }

  /**
    Fan-out inserts a fresh row for exactly the pairs of one of the oldest pending submissions
    and an enabled destination that lists its kind, and leaves every existing row alone.
   */
  lemma FanOutOwes(policy: Policy, q: Queue, destinations: seq<Destination>, p: Pair)
    ensures var q' := Next(policy, q, FanOut(destinations));
      && q'.submissions == q.submissions
      && (p in q'.deliveries <==> p in q.deliveries || exists i, j :: OwesPair(policy, q, destinations, p, i, j))
      && (p in q.deliveries ==> q'.deliveries[p] == q.deliveries[p])
      && (p in q'.deliveries && p !in q.deliveries ==> q'.deliveries[p] == Delivery(Pending, 0, 0, None))
  {
    var batch, enabled := PendingBatch(q.submissions, policy.batchSize), Filter(destinations, IsEnabled());
    OwedMembers(batch, enabled, p);
    FilterMembers(destinations, IsEnabled());
    if n :| 0 <= n < |batch| && IsOwed(p, batch[n], enabled) {
      var l :| 0 <= l < |enabled| && enabled[l].id == p.destination && Wants(enabled[l], PayloadKind(batch[n].payload));
      var j :| 0 <= j < |destinations| && destinations[j] == enabled[l];
      WantsIs(destinations[j], batch[n].payload);
      BatchIsOldest(q.submissions, policy.batchSize, batch[n]);
      var i :| AmongOldest(q.submissions, policy.batchSize, i) && q.submissions[i] == batch[n];
      assert OwesPair(policy, q, destinations, p, i, j);
    }
    if i, j :| OwesPair(policy, q, destinations, p, i, j) {
      var s := q.submissions[i];
      BatchIsOldest(q.submissions, policy.batchSize, s);
      var n :| 0 <= n < |batch| && batch[n] == s;
      WantsIs(destinations[j], s.payload);
      assert destinations[j] in enabled;
      var l :| 0 <= l < |enabled| && enabled[l] == destinations[j];
      assert IsOwed(p, batch[n], enabled);
    }
  }
}
