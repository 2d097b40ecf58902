/**
  At-most-once execution of POS commands: a table of weakly held locks, one per idempotency
  key, and a store of successful responses.

  Any number of requests run interleaved. Each step below is one that the source performs
  without giving way to another request on the same data.
 */
module CommandLocks {
  import opened Seqs

  type Key = nat
  type LockId = nat
  type ReqId = nat

  datatype Response = Response(success: bool, body: string)

  /** Where a request stands. From `Waiting` on it keeps its lock object alive. */
  datatype Phase =
    | Arrived
    | Waiting(lock: LockId)
    | Holding(lock: LockId)
    | Missed(lock: LockId)
    | Executed(lock: LockId, response: Response)
    | Replying(lock: LockId, response: Response)
    | Done(response: Response)
    | Gone

  datatype Request = Request(key: Key, phase: Phase)

  datatype Execution = Execution(key: Key, req: ReqId, response: Response)

  /** `log` records every execution; the hub itself keeps no such record. */
  datatype State = State(
    reqs: map<ReqId, Request>, table: map<Key, LockId>, next: LockId,
    store: map<Key, Response>, log: seq<Execution>)

  datatype Action =
    | Arrive(req: ReqId, key: Key)
    | Claim(req: ReqId)
    | Acquire(req: ReqId)
    | Lookup(req: ReqId, readOk: bool)
    | Execute(req: ReqId, response: Response)
    | Store(req: ReqId, writeOk: bool)
    | Release(req: ReqId)
    | Cancel(req: ReqId)

  predicate Refers(p: Phase) {
    p.Waiting? || p.Holding? || p.Missed? || p.Executed? || p.Replying?
  }

  predicate Owns(p: Phase) { Refers(p) && !p.Waiting? }

  /** Locks some request still refers to. */
  function Live(reqs: map<ReqId, Request>): set<LockId> {
    set r | r in reqs && Refers(reqs[r].phase) :: reqs[r].phase.lock
  }

  /** The requests that refer to a lock; their number is the lock's strong count. */
  function Holders(reqs: map<ReqId, Request>, lock: LockId): set<ReqId> {
    set r | r in reqs && Refers(reqs[r].phase) && reqs[r].phase.lock == lock
  }

  /** The table after a claim: dead entries dropped, and an entry for the key. */
  function ClaimTable(table: map<Key, LockId>, live: set<LockId>, key: Key, next: LockId): map<Key, LockId> {
    var kept := map k | k in table && table[k] in live :: table[k];
    if key in kept then kept else kept[key := next]
  }

  predicate Enabled(s: State, a: Action) {
    if a.Arrive? then a.req !in s.reqs
    else
      a.req in s.reqs &&
      var p := s.reqs[a.req].phase;
      match a
      case Arrive(_, _) => true
      case Claim(_) => p.Arrived?
      case Acquire(_) =>
        p.Waiting? && forall r | r in s.reqs :: Owns(s.reqs[r].phase) ==> s.reqs[r].phase.lock != p.lock
      case Lookup(_, _) => p.Holding?
      case Execute(_, _) => p.Missed?
      case Store(_, _) => p.Executed?
      case Release(_) => p.Replying?
      case Cancel(_) => p.Arrived? || Refers(p)
  }

  function SetPhase(s: State, r: ReqId, p: Phase): State
    requires r in s.reqs
  {
    s.(reqs := s.reqs[r := s.reqs[r].(phase := p)])
  }

  function Next(s: State, a: Action): State
    requires Enabled(s, a)
  {
    if a.Arrive? then s.(reqs := s.reqs[a.req := Request(a.key, Arrived)])
    else
      var r, key, p := a.req, s.reqs[a.req].key, s.reqs[a.req].phase;
      match a
      case Arrive(_, _) => s
      case Claim(_) =>
        var table := ClaimTable(s.table, Live(s.reqs), key, s.next);
        SetPhase(s, r, Waiting(table[key])).(table := table, next := s.next + 1)
      case Acquire(_) => SetPhase(s, r, Holding(p.lock))
      case Lookup(_, readOk) =>
        if readOk && key in s.store then SetPhase(s, r, Replying(p.lock, s.store[key]))
        else SetPhase(s, r, Missed(p.lock))
      case Execute(_, response) =>
        SetPhase(s, r, Executed(p.lock, response)).(log := s.log + [Execution(key, r, response)])
      case Store(_, writeOk) =>
        var s' := SetPhase(s, r, Replying(p.lock, p.response));
        if p.response.success && writeOk then s'.(store := s.store[key := p.response]) else s'
      case Release(_) => SetPhase(s, r, Done(p.response))
      case Cancel(_) => SetPhase(s, r, Gone)
  }

  const INITIAL: State := State(map[], map[], 0, map[], [])

  ghost predicate Runs(s: State, actions: seq<Action>)
    decreases |actions|
  {
    actions == [] || (Enabled(s, actions[0]) && Runs(Next(s, actions[0]), actions[1..]))
  }

  ghost function After(s: State, actions: seq<Action>): State
    requires Runs(s, actions)
    decreases |actions|
  {
    if actions == [] then s else After(Next(s, actions[0]), actions[1..])
  }

  // ---- the lock table ----

  /** A request's lock is the one its key maps to. */
  ghost predicate LockOfKey(s: State, r: ReqId)
    requires r in s.reqs
  {
    var q := s.reqs[r];
    Refers(q.phase) ==> q.key in s.table && s.table[q.key] == q.phase.lock
  }

  ghost predicate TableInv(table: map<Key, LockId>, next: LockId) {
    && (forall k, k' :: k in table && k' in table && table[k] == table[k'] ==> k == k')
    && (forall k :: k in table ==> table[k] < next)
  }

  ghost predicate OwnsLock(s: State, r: ReqId, lock: LockId) {
    r in s.reqs && Owns(s.reqs[r].phase) && s.reqs[r].phase.lock == lock
  }

  /** Requests find their locks in the table, no two keys share a lock, and a lock has one owner. */
  ghost predicate LocksInv(s: State) {
    && (forall r :: r in s.reqs ==> LockOfKey(s, r))
    && TableInv(s.table, s.next)
    && (forall r, r', lock :: OwnsLock(s, r, lock) && OwnsLock(s, r', lock) ==> r == r')
  }

  lemma ClaimFacts(table: map<Key, LockId>, live: set<LockId>, key: Key, next: LockId)
    requires TableInv(table, next)
    ensures var t := ClaimTable(table, live, key, next);
      && TableInv(t, next + 1)
      && key in t
      && (forall k :: k in table && table[k] in live ==> k in t && t[k] == table[k])
      && (forall k :: k in t && k != key ==> k in table && t[k] == table[k] && t[k] in live)
      && (forall k :: k in t && k in table && t[k] in live ==> t[k] == table[k] || k == key)
  {
  }

  /** A step that changes one request's phase, keeping its lock or dropping it. */
  lemma PhaseKeepsLocks(s: State, r: ReqId, p: Phase)
    requires LocksInv(s) && r in s.reqs
    requires Refers(p) ==> Refers(s.reqs[r].phase) && p.lock == s.reqs[r].phase.lock
    requires Owns(p) ==> forall q :: q != r ==> !OwnsLock(s, q, p.lock)
    ensures LocksInv(SetPhase(s, r, p))
  {
    var s' := SetPhase(s, r, p);
    forall q | q in s'.reqs ensures LockOfKey(s', q) {
      assert LockOfKey(s, q);
    }
    forall q, q', lock | OwnsLock(s', q, lock) && OwnsLock(s', q', lock) ensures q == q' {
      assert q != r ==> OwnsLock(s, q, lock);
      assert q' != r ==> OwnsLock(s, q', lock);
    }
  }

  lemma ClaimKeepsLocks(s: State, r: ReqId)
    requires LocksInv(s) && Enabled(s, Claim(r))
    ensures LocksInv(Next(s, Claim(r)))
  {
    var key, live := s.reqs[r].key, Live(s.reqs);
    var s' := Next(s, Claim(r));
    ClaimFacts(s.table, live, key, s.next);
    forall q | q in s'.reqs ensures LockOfKey(s', q) {
      if q != r && Refers(s.reqs[q].phase) {
        assert LockOfKey(s, q);
        assert s.reqs[q].phase.lock in live;
      }
    }
    forall q, q', lock | OwnsLock(s', q, lock) && OwnsLock(s', q', lock) ensures q == q' {
      assert q != r && q' != r;
      assert OwnsLock(s, q, lock) && OwnsLock(s, q', lock);
    }
  }

  /** After every claim the table holds only keys with a live lock. */
  lemma ClaimLeavesOnlyLive(s: State, r: ReqId)
    requires LocksInv(s) && Enabled(s, Claim(r))
    ensures var s' := Next(s, Claim(r));
            forall k :: k in s'.table ==> s'.table[k] in Live(s'.reqs)
  {
    var s' := Next(s, Claim(r));
    ClaimFacts(s.table, Live(s.reqs), s.reqs[r].key, s.next);
    forall k | k in s'.table ensures s'.table[k] in Live(s'.reqs) {
      if k == s.reqs[r].key {
        assert s'.reqs[r].phase == Waiting(s'.table[k]);
      } else {
        var q :| q in s.reqs && Refers(s.reqs[q].phase) && s.reqs[q].phase.lock == s.table[k];
        assert s'.reqs[q] == s.reqs[q];
      }
    }
  }

  /** The phase a request moves to in a step other than arriving and claiming. */
  function NextPhase(s: State, a: Action): Phase
    requires Enabled(s, a) && !a.Arrive? && !a.Claim?
  {
    var key, p := s.reqs[a.req].key, s.reqs[a.req].phase;
    match a
    case Acquire(_) => Holding(p.lock)
    case Lookup(_, readOk) => if readOk && key in s.store then Replying(p.lock, s.store[key]) else Missed(p.lock)
    case Execute(_, response) => Executed(p.lock, response)
    case Store(_, _) => Replying(p.lock, p.response)
    case Release(_) => Done(p.response)
    case _ => Gone
  }

  lemma StepKeepsLocks(s: State, a: Action)
    requires LocksInv(s) && Enabled(s, a)
    ensures LocksInv(Next(s, a))
  {
    if a.Arrive? {
      ArriveKeepsLocks(s, a);
    } else if a.Claim? {
      ClaimKeepsLocks(s, a.req);
    } else {
      var p := NextPhase(s, a);
      forall q | q != a.req && Owns(p) ensures !OwnsLock(s, q, p.lock) {
        assert !a.Acquire? ==> OwnsLock(s, a.req, p.lock);
      }
      PhaseKeepsLocks(s, a.req, p);
      SameLocks(SetPhase(s, a.req, p), Next(s, a));
    }
  }

  lemma SameLocks(s: State, s': State)
    requires LocksInv(s) && s'.reqs == s.reqs && s'.table == s.table && s'.next == s.next
    ensures LocksInv(s')
  {
    forall r | r in s'.reqs ensures LockOfKey(s', r) {
      assert LockOfKey(s, r);
    }
    forall q, q', lock | OwnsLock(s', q, lock) && OwnsLock(s', q', lock) ensures q == q' {
      assert OwnsLock(s, q, lock) && OwnsLock(s, q', lock);
    }
  }

  lemma ArriveKeepsLocks(s: State, a: Action)
    requires LocksInv(s) && Enabled(s, a) && a.Arrive?
    ensures LocksInv(Next(s, a))
  {
    var s' := Next(s, a);
    forall r | r in s'.reqs ensures LockOfKey(s', r) {
      assert r != a.req ==> LockOfKey(s, r);
    }
    forall q, q', lock | OwnsLock(s', q, lock) && OwnsLock(s', q', lock) ensures q == q' {
      assert OwnsLock(s, q, lock) && OwnsLock(s, q', lock);
    }
  }

  /** Two requests with the same key never own a lock at the same time, whatever was pruned before. */
  lemma SameKeyExcludes(s: State, r: ReqId, r': ReqId)
    requires LocksInv(s) && r in s.reqs && r' in s.reqs && s.reqs[r].key == s.reqs[r'].key
    requires Owns(s.reqs[r].phase) && Owns(s.reqs[r'].phase)
    ensures r == r'
  {
    assert LockOfKey(s, r) && LockOfKey(s, r');
    assert OwnsLock(s, r, s.reqs[r].phase.lock) && OwnsLock(s, r', s.reqs[r].phase.lock);
  }

  // ---- responses ----

  /** How often a key has been executed successfully. */
  function Successes(log: seq<Execution>, key: Key): nat {
    if log == [] then 0
    else
      var e := log[|log| - 1];
      Successes(log[..|log| - 1], key) + if e.key == key && e.response.success then 1 else 0
  }

  /** The response of the key's first successful execution. */
  function FirstSuccess(log: seq<Execution>, key: Key): Response
    requires Successes(log, key) > 0
  {
    var rest, e := log[..|log| - 1], log[|log| - 1];
    if Successes(rest, key) > 0 then FirstSuccess(rest, key) else e.response
  }

  lemma LogGrows(log: seq<Execution>, e: Execution, key: Key)
    ensures Successes(log + [e], key) == Successes(log, key) + if e.key == key && e.response.success then 1 else 0
    ensures Successes(log, key) > 0 ==> FirstSuccess(log + [e], key) == FirstSuccess(log, key)
    ensures Successes(log, key) == 0 && Successes(log + [e], key) > 0 ==> FirstSuccess(log + [e], key) == e.response
  {
    assert (log + [e])[..|log|] == log;
  }

  /** Request `r` has executed its command successfully and is about to store the response. */
  ghost predicate Storing(s: State, r: ReqId, key: Key) {
    r in s.reqs && s.reqs[r].key == key && s.reqs[r].phase.Executed? && s.reqs[r].phase.response.success
  }

  /** The key has succeeded at most once, and its success is stored or about to be. */
  ghost predicate OnceInv(s: State, key: Key) {
    Successes(s.log, key) <= 1 &&
    (Successes(s.log, key) == 1 && key !in s.store ==> exists r :: Storing(s, r, key))
  }

  /** A request that will execute finds the key without a success; one that has executed is the only one. */
  ghost predicate OnceReqInv(s: State, r: ReqId)
    requires r in s.reqs
  {
    var key, p := s.reqs[r].key, s.reqs[r].phase;
    match p
    case Missed(_) => key !in s.store && Successes(s.log, key) == 0
    case Executed(_, response) => key !in s.store && Successes(s.log, key) == if response.success then 1 else 0
    case _ => true
  }

  /** What keeps one key at most once. */
  ghost predicate Once(s: State, key: Key) {
    && LocksInv(s)
    && OnceInv(s, key)
    && (forall r :: r in s.reqs && s.reqs[r].key == key ==> OnceReqInv(s, r))
  }

  /** Some logged execution was made for request `r` and gave this response. */
  ghost predicate RanFor(log: seq<Execution>, key: Key, r: ReqId, response: Response) {
    exists i :: 0 <= i < |log| && log[i] == Execution(key, r, response)
  }

  lemma StillRanFor(log: seq<Execution>, log': seq<Execution>, key: Key)
    requires log <= log'
    ensures forall r, response :: RanFor(log, key, r, response) ==> RanFor(log', key, r, response)
  {
    forall r, response | RanFor(log, key, r, response) ensures RanFor(log', key, r, response) {
      var i :| 0 <= i < |log| && log[i] == Execution(key, r, response);
      assert log'[i] == log[i];
    }
  }

  /** What request `r` is answered: what the store holds, or what its own execution gave. */
  ghost predicate Answers(s: State, key: Key, r: ReqId, response: Response) {
    && (response.success ==> key in s.store && s.store[key] == response)
    && ((key in s.store && s.store[key] == response) || RanFor(s.log, key, r, response))
  }

  /**
    The stored response is that of the key's one success, and every request is answered with it
    or with the outcome of its own execution, which is the former if it succeeded.
   */
  ghost predicate SameReply(s: State, key: Key) {
    && (key in s.store ==> Successes(s.log, key) == 1 && FirstSuccess(s.log, key) == s.store[key])
    && (forall r :: r in s.reqs && s.reqs[r].key == key ==> SameReplyTo(s, r))
  }

  ghost predicate SameReplyTo(s: State, r: ReqId)
    requires r in s.reqs
  {
    var key, p := s.reqs[r].key, s.reqs[r].phase;
    match p
    case Executed(_, response) =>
      && RanFor(s.log, key, r, response)
      && (response.success ==> Successes(s.log, key) == 1 && FirstSuccess(s.log, key) == response)
    case Replying(_, response) => Answers(s, key, r, response)
    case Done(response) => Answers(s, key, r, response)
    case _ => true
  }

  /** The step does not lose a response: the store does not fail, and no success is dropped before it is stored. */
  predicate Reliable(s: State, a: Action) {
    && (a.Lookup? ==> a.readOk) && (a.Store? ==> a.writeOk)
    && (a.Cancel? && a.req in s.reqs && s.reqs[a.req].phase.Executed? ==> !s.reqs[a.req].phase.response.success)
  }

  /** The step is of a request with this key. */
  predicate Concerns(s: State, a: Action, key: Key) {
    if a.Arrive? then a.key == key else a.req in s.reqs && s.reqs[a.req].key == key
  }

  /** No response of this key is lost in the whole run. */
  ghost predicate ReliableFor(s: State, actions: seq<Action>, key: Key)
    requires Runs(s, actions)
    decreases |actions|
  {
    actions == [] ||
    ((Concerns(s, actions[0], key) ==> Reliable(s, actions[0])) && ReliableFor(Next(s, actions[0]), actions[1..], key))
  }

  /** A step of a request with another key changes nothing of this one. */
  lemma OthersStep(s: State, a: Action, key: Key)
    requires Enabled(s, a) && !Concerns(s, a, key)
    ensures var s' := Next(s, a);
      && s.log <= s'.log && Successes(s'.log, key) == Successes(s.log, key)
      && (Successes(s.log, key) > 0 ==> FirstSuccess(s'.log, key) == FirstSuccess(s.log, key))
      && (key in s'.store <==> key in s.store) && (key in s.store ==> s'.store[key] == s.store[key])
      && (forall r :: r in s'.reqs && s'.reqs[r].key == key ==> r in s.reqs && s'.reqs[r] == s.reqs[r])
      && (forall r :: r in s.reqs && s.reqs[r].key == key ==> r in s'.reqs && s'.reqs[r] == s.reqs[r])
  {
    if a.Execute? {
      LogGrows(s.log, Execution(s.reqs[a.req].key, a.req, a.response), key);
    }
  }

  lemma OthersKeepOnce(s: State, a: Action, key: Key)
    requires Once(s, key) && Enabled(s, a) && !Concerns(s, a, key)
    ensures Once(Next(s, a), key)
  {
    var s' := Next(s, a);
    OthersStep(s, a, key);
    StepKeepsLocks(s, a);
    if r :| Storing(s, r, key) {
      assert Storing(s', r, key);
    }
    forall r | r in s'.reqs && s'.reqs[r].key == key ensures OnceReqInv(s', r) {
      assert OnceReqInv(s, r);
    }
  }

  /** While a request with the key owns its lock, no other one does. */
  lemma OwnsAlone(s: State, a: Action, key: Key)
    requires LocksInv(s) && Enabled(s, a) && !a.Arrive? && s.reqs[a.req].key == key && Owns(s.reqs[a.req].phase)
    ensures forall r :: r in s.reqs && s.reqs[r].key == key && r != a.req ==> !Owns(s.reqs[r].phase)
  {
    forall r | r in s.reqs && s.reqs[r].key == key && r != a.req ensures !Owns(s.reqs[r].phase) {
      if Owns(s.reqs[r].phase) {
        SameKeyExcludes(s, r, a.req);
      }
    }
  }

  /** Requests other than `r` are as before. */
  ghost predicate OnlyMoves(s: State, s': State, r: ReqId) {
    && (forall q :: q in s.reqs && q != r ==> q in s'.reqs && s'.reqs[q] == s.reqs[q])
    && (forall q :: q in s'.reqs && q != r ==> q in s.reqs && s'.reqs[q] == s.reqs[q])
  }

  lemma OnceAfterMove(s: State, s': State, r: ReqId, key: Key)
    requires OnceInv(s, key) && OnlyMoves(s, s', r) && !Storing(s, r, key)
    requires s'.log == s.log && s'.store == s.store
    ensures OnceInv(s', key)
  {
    if q :| Storing(s, q, key) {
      assert Storing(s', q, key);
    }
  }

  lemma OnceAfterExecution(s: State, s': State, r: ReqId, key: Key, response: Response)
    requires Successes(s.log, key) == 0 && s'.log == s.log + [Execution(key, r, response)]
    requires r in s'.reqs && s'.reqs[r].key == key && s'.reqs[r].phase.Executed? && s'.reqs[r].phase.response == response
    ensures OnceInv(s', key)
  {
    LogGrows(s.log, Execution(key, r, response), key);
    assert response.success ==> Storing(s', r, key);
  }

  lemma OwnKeepsOnceInv(s: State, a: Action, key: Key)
    requires Once(s, key) && Enabled(s, a) && Concerns(s, a, key) && Reliable(s, a)
    ensures OnceInv(Next(s, a), key)
  {
    var s' := Next(s, a);
    if a.Execute? {
      assert OnceReqInv(s, a.req);
      OnceAfterExecution(s, s', a.req, key, a.response);
    } else if a.Store? {
      assert OnceReqInv(s, a.req);
    } else {
      OnceAfterMove(s, s', a.req, key);
    }
  }

  lemma OwnKeepsOnce(s: State, a: Action, key: Key)
    requires Once(s, key) && Enabled(s, a) && Concerns(s, a, key) && Reliable(s, a)
    ensures Once(Next(s, a), key)
  {
    var s' := Next(s, a);
    StepKeepsLocks(s, a);
    OwnKeepsOnceInv(s, a, key);
    if !a.Arrive? && Owns(s.reqs[a.req].phase) {
      OwnsAlone(s, a, key);
    }
    forall r | r in s'.reqs && s'.reqs[r].key == key ensures OnceReqInv(s', r) {
      if r == a.req {
        OwnStepKeepsOnceReq(s, a, key);
      } else {
        assert OnceReqInv(s, r);
      }
    }
  }

  lemma OwnStepKeepsOnceReq(s: State, a: Action, key: Key)
    requires Once(s, key) && Enabled(s, a) && Concerns(s, a, key) && Reliable(s, a)
    ensures a.req in Next(s, a).reqs && OnceReqInv(Next(s, a), a.req)
  {
    if !a.Arrive? {
      assert OnceReqInv(s, a.req);
      if a.Execute? {
        LogGrows(s.log, Execution(key, a.req, a.response), key);
      } else if a.Lookup? {
        if q :| Storing(s, q, key) {
          SameKeyExcludes(s, q, a.req);
        }
      }
    }
  }

  lemma StepKeepsOnce(s: State, a: Action, key: Key)
    requires Once(s, key) && Enabled(s, a) && (Concerns(s, a, key) ==> Reliable(s, a))
    ensures Once(Next(s, a), key)
  {
    if Concerns(s, a, key) {
      OwnKeepsOnce(s, a, key);
    } else {
      OthersKeepOnce(s, a, key);
    }
  }

  lemma OthersKeepReply(s: State, a: Action, key: Key)
    requires SameReply(s, key) && Enabled(s, a) && !Concerns(s, a, key)
    ensures SameReply(Next(s, a), key)
  {
    OthersStep(s, a, key);
    StillRanFor(s.log, Next(s, a).log, key);
    forall r | r in Next(s, a).reqs && Next(s, a).reqs[r].key == key ensures SameReplyTo(Next(s, a), r) {
      assert SameReplyTo(s, r);
    }
  }

  lemma ReplyAfterMove(s: State, s': State, r: ReqId, key: Key)
    requires SameReply(s, key) && OnlyMoves(s, s', r) && s'.log == s.log && s'.store == s.store
    requires r in s'.reqs && s'.reqs[r].key == key && SameReplyTo(s', r)
    ensures SameReply(s', key)
  {
    forall q | q in s'.reqs && s'.reqs[q].key == key ensures SameReplyTo(s', q) {
      assert q != r ==> SameReplyTo(s, q);
    }
  }

  /** Before the key's first success nobody has been given one, so a first success suits everyone. */
  lemma ReplyAfterFirst(s: State, s': State, r: ReqId, key: Key)
    requires SameReply(s, key) && OnlyMoves(s, s', r) && key !in s.store && s.log <= s'.log
    requires forall q :: q in s.reqs && s.reqs[q].key == key && q != r ==> !Owns(s.reqs[q].phase)
    requires key in s'.store ==> Successes(s'.log, key) == 1 && FirstSuccess(s'.log, key) == s'.store[key]
    requires r in s'.reqs && s'.reqs[r].key == key && SameReplyTo(s', r)
    ensures SameReply(s', key)
  {
    StillRanFor(s.log, s'.log, key);
    forall q | q in s'.reqs && s'.reqs[q].key == key ensures SameReplyTo(s', q) {
      assert q != r ==> SameReplyTo(s, q);
    }
  }

  /** The one success of the log is the response of the request that has just executed. */
  lemma ReplyAfterExecution(s: State, s': State, r: ReqId, key: Key, lock: LockId, response: Response)
    requires SameReply(s, key) && OnlyMoves(s, s', r) && key !in s.store && s'.store == s.store
    requires Successes(s.log, key) == 0 && s'.log == s.log + [Execution(key, r, response)]
    requires r in s'.reqs && s'.reqs[r] == Request(key, Executed(lock, response))
    requires forall q :: q in s.reqs && s.reqs[q].key == key && q != r ==> !Owns(s.reqs[q].phase)
    ensures SameReply(s', key)
  {
    LogGrows(s.log, Execution(key, r, response), key);
    assert s'.log[|s.log|] == Execution(key, r, response);
    ReplyAfterFirst(s, s', r, key);
  }

  lemma ExecuteEffect(s: State, r: ReqId, response: Response)
    requires Enabled(s, Execute(r, response))
    ensures var s', key := Next(s, Execute(r, response)), s.reqs[r].key;
      && OnlyMoves(s, s', r) && s'.store == s.store && s'.log == s.log + [Execution(key, r, response)]
      && r in s'.reqs && s'.reqs[r] == Request(key, Executed(s.reqs[r].phase.lock, response))
  {
  }

  lemma ExecuteKeepsReply(s: State, r: ReqId, response: Response)
    requires r in s.reqs && Once(s, s.reqs[r].key) && SameReply(s, s.reqs[r].key) && Enabled(s, Execute(r, response))
    ensures SameReply(Next(s, Execute(r, response)), s.reqs[r].key)
  {
    var key, lock := s.reqs[r].key, s.reqs[r].phase.lock;
    assert OnceReqInv(s, r);
    OwnsAlone(s, Execute(r, response), key);
    ExecuteEffect(s, r, response);
    ReplyAfterExecution(s, Next(s, Execute(r, response)), r, key, lock, response);
  }

  lemma StoreEffect(s: State, r: ReqId)
    requires Enabled(s, Store(r, true))
    ensures var s', key, p := Next(s, Store(r, true)), s.reqs[r].key, s.reqs[r].phase;
      && OnlyMoves(s, s', r) && s'.log == s.log
      && s'.store == (if p.response.success then s.store[key := p.response] else s.store)
      && r in s'.reqs && s'.reqs[r] == Request(key, Replying(p.lock, p.response))
  {
  }

  lemma StoreKeepsReply(s: State, r: ReqId)
    requires r in s.reqs && Once(s, s.reqs[r].key) && SameReply(s, s.reqs[r].key) && Enabled(s, Store(r, true))
    ensures SameReply(Next(s, Store(r, true)), s.reqs[r].key)
  {
    assert OnceReqInv(s, r) && SameReplyTo(s, r);
    OwnsAlone(s, Store(r, true), s.reqs[r].key);
    StoreEffect(s, r);
    ReplyAfterFirst(s, Next(s, Store(r, true)), r, s.reqs[r].key);
  }

  lemma MoveKeepsReply(s: State, a: Action, key: Key)
    requires SameReply(s, key) && Enabled(s, a) && Concerns(s, a, key) && !a.Execute? && !a.Store?
    ensures SameReply(Next(s, a), key)
  {
    var s' := Next(s, a);
    assert a.req in s.reqs ==> SameReplyTo(s, a.req);
    assert s'.log == s.log && s'.store == s.store && OnlyMoves(s, s', a.req);
    assert SameReplyTo(s', a.req);
    ReplyAfterMove(s, s', a.req, key);
  }

  lemma OwnKeepsReply(s: State, a: Action, key: Key)
    requires Once(s, key) && SameReply(s, key) && Enabled(s, a) && Concerns(s, a, key) && Reliable(s, a)
    ensures SameReply(Next(s, a), key)
  {
    match a
    case Execute(r, response) => ExecuteKeepsReply(s, r, response);
    case Store(r, _) => StoreKeepsReply(s, r);
    case _ => MoveKeepsReply(s, a, key);
  }

  lemma StepKeepsReply(s: State, a: Action, key: Key)
    requires Once(s, key) && SameReply(s, key) && Enabled(s, a) && (Concerns(s, a, key) ==> Reliable(s, a))
    ensures SameReply(Next(s, a), key)
  {
    if Concerns(s, a, key) {
      OwnKeepsReply(s, a, key);
    } else {
      OthersKeepReply(s, a, key);
    }
  }

  lemma {:induction false} RunKeepsOnce(s: State, actions: seq<Action>, key: Key)
    requires Once(s, key) && Runs(s, actions) && ReliableFor(s, actions, key)
    ensures Once(After(s, actions), key)
    ensures SameReply(s, key) ==> SameReply(After(s, actions), key)
    decreases |actions|
  {
    if actions != [] {
      StepKeepsOnce(s, actions[0], key);
      if SameReply(s, key) {
        StepKeepsReply(s, actions[0], key);
      }
      RunKeepsOnce(Next(s, actions[0]), actions[1..], key);
    }
  }

  /** Whatever the response store does, the locks stay safe. */
  lemma {:induction false} RunKeepsLocks(s: State, actions: seq<Action>)
    requires LocksInv(s) && Runs(s, actions)
    ensures LocksInv(After(s, actions))
    decreases |actions|
  {
    if actions != [] {
      StepKeepsLocks(s, actions[0]);
      RunKeepsLocks(Next(s, actions[0]), actions[1..]);
    }
  }

  /**
    In every interleaving of any number of requests, for every key none of whose responses is
    lost: at most one execution succeeds, and every reply is the response of that success or
    of an execution made for that very request.
   */
  lemma AtMostOnce(actions: seq<Action>, key: Key)
    requires Runs(INITIAL, actions) && ReliableFor(INITIAL, actions, key)
    ensures var s := After(INITIAL, actions);
      && Successes(s.log, key) <= 1
      && (forall r :: r in s.reqs && s.reqs[r].key == key && s.reqs[r].phase.Done? ==>
            var response, succeeded := s.reqs[r].phase.response, Successes(s.log, key) == 1;
            && (response.success ==> succeeded && FirstSuccess(s.log, key) == response)
            && ((succeeded && FirstSuccess(s.log, key) == response) || RanFor(s.log, key, r, response)))
  {
    RunKeepsOnce(INITIAL, actions, key);
    var s := After(INITIAL, actions);
    forall r | r in s.reqs && s.reqs[r].key == key && s.reqs[r].phase.Done?
      ensures var response, succeeded := s.reqs[r].phase.response, Successes(s.log, key) == 1;
        && (response.success ==> succeeded && FirstSuccess(s.log, key) == response)
        && ((succeeded && FirstSuccess(s.log, key) == response) || RanFor(s.log, key, r, response))
    {
      assert SameReplyTo(s, r);
    }
  }

  // ---- what happens when the store fails, or the command does ----

  lemma Prepend(s: State, a: Action, rest: seq<Action>, key: Key)
    requires Enabled(s, a) && Runs(Next(s, a), rest)
    ensures Runs(s, [a] + rest) && After(s, [a] + rest) == After(Next(s, a), rest)
    ensures ReliableFor(s, [a] + rest, key)
       <==> (Concerns(s, a, key) ==> Reliable(s, a)) && ReliableFor(Next(s, a), rest, key)
  {
    assert ([a] + rest)[1..] == rest;
  }

  lemma {:induction false} Then(s: State, first: seq<Action>, rest: seq<Action>, key: Key)
    requires Runs(s, first) && Runs(After(s, first), rest)
    ensures Runs(s, first + rest) && After(s, first + rest) == After(After(s, first), rest)
    ensures ReliableFor(s, first + rest, key) <==> ReliableFor(s, first, key) && ReliableFor(After(s, first), rest, key)
    decreases |first|
  {
    if first == [] {
      assert first + rest == rest;
    } else {
      Then(Next(s, first[0]), first[1..], rest, key);
      Prepend(s, first[0], first[1..] + rest, key);
      assert [first[0]] + (first[1..] + rest) == first + rest;
    }
  }

  ghost predicate Idle(s: State) {
    forall r :: r in s.reqs ==> !Refers(s.reqs[r].phase)
  }

  function Enter(r: ReqId, key: Key, readOk: bool): seq<Action> {
    [Arrive(r, key)] + ([Claim(r)] + ([Acquire(r)] + ([Lookup(r, readOk)] + [])))
  }

  function Leave(r: ReqId, response: Response, writeOk: bool): seq<Action> {
    [Execute(r, response)] + ([Store(r, writeOk)] + ([Release(r)] + []))
  }

  /** A whole request that executes, with the outcomes of its read and its write of the store. */
  function Serve(r: ReqId, key: Key, response: Response, readOk: bool, writeOk: bool): seq<Action> {
    Enter(r, key, readOk) + Leave(r, response, writeOk)
  }

  ghost function Looked(s: State, key: Key, readOk: bool, lock: LockId): Phase {
    if readOk && key in s.store then Replying(lock, s.store[key]) else Missed(lock)
  }

  /** A request that runs alone misses, or is about to be answered with what the store holds. */
  lemma EnterAlone(s: State, r: ReqId, key: Key, readOk: bool)
    requires Idle(s) && r !in s.reqs
    ensures Runs(s, Enter(r, key, readOk))
    ensures readOk ==> ReliableFor(s, Enter(r, key, readOk), key)
    ensures var s' := After(s, Enter(r, key, readOk));
      && s'.log == s.log && s'.store == s.store
      && exists lock :: s'.reqs == s.reqs[r := Request(key, Looked(s, key, readOk, lock))]
  {
    var s1 := Next(s, Arrive(r, key));
    var s2 := Next(s1, Claim(r));
    var s3 := Next(s2, Acquire(r));
    var s4 := Next(s3, Lookup(r, readOk));
    assert s4.reqs == s.reqs[r := Request(key, Looked(s, key, readOk, s3.reqs[r].phase.lock))];
    Prepend(s3, Lookup(r, readOk), [], key);
    Prepend(s2, Acquire(r), [Lookup(r, readOk)] + [], key);
    Prepend(s1, Claim(r), [Acquire(r)] + ([Lookup(r, readOk)] + []), key);
    Prepend(s, Arrive(r, key), [Claim(r)] + ([Acquire(r)] + ([Lookup(r, readOk)] + [])), key);
  }

  lemma LeaveAlone(s: State, r: ReqId, response: Response, writeOk: bool)
    requires r in s.reqs && s.reqs[r].phase.Missed?
    ensures Runs(s, Leave(r, response, writeOk))
    ensures writeOk ==> ReliableFor(s, Leave(r, response, writeOk), s.reqs[r].key)
    ensures var s' := After(s, Leave(r, response, writeOk));
      var key := s.reqs[r].key;
      && s'.log == s.log + [Execution(key, r, response)]
      && s'.store == (if response.success && writeOk then s.store[key := response] else s.store)
      && s'.reqs == s.reqs[r := Request(key, Done(response))]
  {
    var key := s.reqs[r].key;
    var s1 := Next(s, Execute(r, response));
    var s2 := Next(s1, Store(r, writeOk));
    var s3 := Next(s2, Release(r));
    assert s3.reqs == s.reqs[r := Request(key, Done(response))];
    Prepend(s2, Release(r), [], key);
    Prepend(s1, Store(r, writeOk), [Release(r)] + [], key);
    Prepend(s, Execute(r, response), [Store(r, writeOk)] + ([Release(r)] + []), key);
  }

  /** A request that runs alone and is shown nothing stored executes its command. */
  lemma ServeAlone(s: State, r: ReqId, key: Key, response: Response, readOk: bool, writeOk: bool)
    requires Idle(s) && r !in s.reqs && (readOk ==> key !in s.store)
    ensures Runs(s, Serve(r, key, response, readOk, writeOk))
    ensures readOk && writeOk ==> ReliableFor(s, Serve(r, key, response, readOk, writeOk), key)
    ensures var s' := After(s, Serve(r, key, response, readOk, writeOk));
      && s'.log == s.log + [Execution(key, r, response)]
      && s'.store == (if response.success && writeOk then s.store[key := response] else s.store)
      && s'.reqs == s.reqs[r := Request(key, Done(response))]
      && Idle(s')
  {
    EnterAlone(s, r, key, readOk);
    var entered := After(s, Enter(r, key, readOk));
    LeaveAlone(entered, r, response, writeOk);
    Then(s, Enter(r, key, readOk), Leave(r, response, writeOk), key);
    var s' := After(entered, Leave(r, response, writeOk));
    assert s'.reqs == s.reqs[r := Request(key, Done(response))];
  }

  /** A request that is answered from the store. */
  function Retry(r: ReqId, key: Key): seq<Action> {
    Enter(r, key, true) + ([Release(r)] + [])
  }

  /** Once a response is stored, a request that runs alone gets it back and executes nothing. */
  lemma RetryIsAnsweredFromStore(s: State, r: ReqId, key: Key)
    requires Idle(s) && r !in s.reqs && key in s.store
    ensures Runs(s, Retry(r, key)) && ReliableFor(s, Retry(r, key), key)
    ensures var s' := After(s, Retry(r, key));
      && s'.log == s.log && s'.store == s.store
      && s'.reqs == s.reqs[r := Request(key, Done(s.store[key]))]
      && Idle(s')
  {
    EnterAlone(s, r, key, true);
    var entered := After(s, Enter(r, key, true));
    ReleaseReplies(entered, r);
    Prepend(entered, Release(r), [], key);
    Then(s, Enter(r, key, true), [Release(r)] + [], key);
    assert entered.reqs[r := Request(key, Done(s.store[key]))] == s.reqs[r := Request(key, Done(s.store[key]))];
  }

  lemma ReleaseReplies(s: State, r: ReqId)
    requires r in s.reqs && s.reqs[r].phase.Replying?
    ensures Enabled(s, Release(r))
    ensures var s' := Next(s, Release(r));
      && s'.log == s.log && s'.store == s.store
      && s'.reqs == s.reqs[r := Request(s.reqs[r].key, Done(s.reqs[r].phase.response))]
  {
  }

  /** A failed execution is retried by the next request with the same key. */
  lemma FailureIsRetried(key: Key, failed: Response, response: Response)
    requires !failed.success
    ensures var actions := Serve(0, key, failed, true, true) + Serve(1, key, response, true, true);
      && Runs(INITIAL, actions)
      && After(INITIAL, actions).log == [Execution(key, 0, failed), Execution(key, 1, response)]
  {
    ServeAlone(INITIAL, 0, key, failed, true, true);
    ServeAlone(After(INITIAL, Serve(0, key, failed, true, true)), 1, key, response, true, true);
    Then(INITIAL, Serve(0, key, failed, true, true), Serve(1, key, response, true, true), key);
  }

  lemma TwoSuccesses(key: Key, response: Response, wroteFirst: bool, readSecond: bool)
    requires response.success && !(wroteFirst && readSecond)
    ensures var actions := Serve(0, key, response, true, wroteFirst) + Serve(1, key, response, readSecond, true);
      Runs(INITIAL, actions) && Successes(After(INITIAL, actions).log, key) == 2
  {
    var first, second := Serve(0, key, response, true, wroteFirst), Serve(1, key, response, readSecond, true);
    ServeAlone(INITIAL, 0, key, response, true, wroteFirst);
    ServeAlone(After(INITIAL, first), 1, key, response, readSecond, true);
    Then(INITIAL, first, second, key);
    LogGrows([], Execution(key, 0, response), key);
    LogGrows([Execution(key, 0, response)], Execution(key, 1, response), key);
    assert [] + [Execution(key, 0, response)] == [Execution(key, 0, response)];
  }

  /** The result of writing the response is ignored: after a lost write the key succeeds a second time. */
  lemma LostWriteRepeats(key: Key, response: Response)
    requires response.success
    ensures var actions := Serve(0, key, response, true, false) + Serve(1, key, response, true, true);
      Runs(INITIAL, actions) && Successes(After(INITIAL, actions).log, key) == 2
  {
    TwoSuccesses(key, response, false, true);
  }

  /** A failed read counts as nothing stored: with every write done, the key succeeds a second time. */
  lemma FailedReadRepeats(key: Key, response: Response)
    requires response.success
    ensures var actions := Serve(0, key, response, true, true) + Serve(1, key, response, false, true);
      Runs(INITIAL, actions) && Successes(After(INITIAL, actions).log, key) == 2
  {
    TwoSuccesses(key, response, true, false);
  }

  /** A request dropped between executing and storing has the effect of a lost write. */
  lemma DroppedRequestRepeats(key: Key, response: Response)
    requires response.success
    ensures var dropped := Enter(0, key, true) + ([Execute(0, response)] + ([Cancel(0)] + []));
            var actions := dropped + Serve(1, key, response, true, true);
      Runs(INITIAL, actions) && Successes(After(INITIAL, actions).log, key) == 2
  {
    var leave := [Execute(0, response)] + ([Cancel(0)] + []);
    EnterAlone(INITIAL, 0, key, true);
    var entered := After(INITIAL, Enter(0, key, true));
    var executed := Next(entered, Execute(0, response));
    Prepend(executed, Cancel(0), [], key);
    Prepend(entered, Execute(0, response), [Cancel(0)] + [], key);
    Then(INITIAL, Enter(0, key, true), leave, key);
    var dropped := After(INITIAL, Enter(0, key, true) + leave);
    ServeAlone(dropped, 1, key, response, true, true);
    Then(INITIAL, Enter(0, key, true) + leave, Serve(1, key, response, true, true), key);
    LogGrows([], Execution(key, 0, response), key);
    LogGrows([Execution(key, 0, response)], Execution(key, 1, response), key);
    assert [] + [Execution(key, 0, response)] == [Execution(key, 0, response)];
  }

  lemma {:induction false} AboveAll(ids: set<ReqId>) returns (top: ReqId)
    ensures forall r :: r in ids ==> r < top
    decreases |ids|
  {
    top := 0;
    if ids != {} {
      var r :| r in ids;
      var rest := AboveAll(ids - {r});
      assert forall x :: x in ids ==> x == r || x in ids - {r};
      top := if rest > r then rest else r + 1;
    }
  }

  /** However a run continues, the key succeeds at most once as long as the store serves it. */
  ghost predicate StaysOnce(s: State, key: Key) {
    forall more :: Runs(s, more) && ReliableFor(s, more, key) ==> Successes(After(s, more).log, key) <= 1
  }

  /** With no request under way, nothing executed so far or one success that is stored. */
  ghost predicate Settled(s: State, key: Key) {
    Successes(s.log, key) == 0 || (Successes(s.log, key) == 1 && key in s.store)
  }

  lemma SettledStaysOnce(s: State, key: Key)
    requires LocksInv(s) && Idle(s) && Settled(s, key)
    ensures StaysOnce(s, key)
  {
    forall r | r in s.reqs && s.reqs[r].key == key ensures OnceReqInv(s, r) {
      assert !Refers(s.reqs[r].phase);
    }
    forall more | Runs(s, more) && ReliableFor(s, more, key) ensures Successes(After(s, more).log, key) <= 1 {
      RunKeepsOnce(s, more, key);
    }
  }

  lemma UnsettledRepeats(s: State, key: Key)
    requires Idle(s) && !Settled(s, key)
    ensures !StaysOnce(s, key)
  {
    if Successes(s.log, key) > 1 {
      assert Runs(s, []) && ReliableFor(s, [], key) && After(s, []) == s;
    } else {
      var response := Response(true, "");
      var r := AboveAll(s.reqs.Keys);
      var more := Serve(r, key, response, true, true);
      ServeAlone(s, r, key, response, true, true);
      LogGrows(s.log, Execution(key, r, response), key);
      assert Successes(After(s, more).log, key) == 2;
    }
  }

  /**
    After any run, whatever the store did in it, with no request under way: from here on the
    key succeeds at most once in every continuation the store serves exactly when it has not
    succeeded yet, or has once and the success is stored.
   */
  lemma StaysOnceIffSettled(actions: seq<Action>, key: Key)
    requires Runs(INITIAL, actions) && Idle(After(INITIAL, actions))
    ensures StaysOnce(After(INITIAL, actions), key) <==> Settled(After(INITIAL, actions), key)
  {
    var s := After(INITIAL, actions);
    RunKeepsLocks(INITIAL, actions);
    if Settled(s, key) {
      SettledStaysOnce(s, key);
    } else {
      UnsettledRepeats(s, key);
    }
  }

  // ---- the table itself ----

  /** The lock table under its mutex, with the strong counts of the lock objects. */
  class LockTable {
    var keys: map<Key, LockId>
    var strong: map<LockId, nat>
    var next: LockId

    /** The table is that of the state, and a lock's strong count is the number of requests that refer to it. */
    ghost predicate Represents(s: State)
      reads this
    {
      keys == s.table && next == s.next && forall lock :: Get(strong, lock) == |Holders(s.reqs, lock)|
    }

    function Alive(): set<LockId>
      reads this
    {
      set lock | lock in strong && strong[lock] > 0
    }

    constructor ()
      ensures Represents(INITIAL)
    {
      keys, strong, next := map[], map[], 0;
    }

    lemma AliveIsLive(s: State)
      requires Represents(s)
      ensures Alive() == Live(s.reqs)
    {
      forall lock ensures lock in Alive() <==> lock in Live(s.reqs) {
        assert Get(strong, lock) == |Holders(s.reqs, lock)|;
        if Holders(s.reqs, lock) != {} {
          var r :| r in Holders(s.reqs, lock);
          assert s.reqs[r].phase.lock in Live(s.reqs);
        }
        if lock in Live(s.reqs) {
          var r :| r in s.reqs && Refers(s.reqs[r].phase) && s.reqs[r].phase.lock == lock;
          assert r in Holders(s.reqs, lock);
        }
      }
    }

    /** Prunes dead entries, then upgrades the key's entry or makes a new lock for it. */
    method Claim(key: Key, ghost s: State, ghost r: ReqId) returns (lock: LockId)
      requires Represents(s) && Enabled(s, Action.Claim(r)) && s.reqs[r].key == key
      modifies this
      ensures Represents(Next(s, Action.Claim(r)))
      ensures Next(s, Action.Claim(r)).reqs[r].phase == Waiting(lock)
    {
      AliveIsLive(s);
      keys := map k | k in keys && keys[k] in Alive() :: keys[k];
      if key in keys {
        lock := keys[key];
      } else {
        lock := next;
        keys := keys[key := lock];
      }
      ClaimedHolders(s, r, lock);
      strong := strong[lock := Get(strong, lock) + 1];
      next := next + 1;
    }

    /** Every other step leaves the table as it is, and it goes on representing the state. */
    lemma OtherStepsRepresent(s: State, a: Action)
      requires Represents(s) && Enabled(s, a)
      requires !a.Claim? && (a.Release? || a.Cancel? ==> !Refers(s.reqs[a.req].phase))
      ensures Represents(Next(s, a))
    {
      var s' := Next(s, a);
      forall lock ensures Get(strong, lock) == |Holders(s'.reqs, lock)| {
        OtherStepsKeepHolders(s, a, lock);
      }
    }

    /** Dropping the reference of a request that replies or is cancelled. */
    method Drop(lock: LockId, ghost s: State, ghost a: Action)
      requires Represents(s) && Enabled(s, a) && (a.Release? || a.Cancel?)
      requires Refers(s.reqs[a.req].phase) && s.reqs[a.req].phase.lock == lock
      modifies this`strong
      ensures Represents(Next(s, a))
    {
      DroppedHolders(s, a);
      assert Get(strong, lock) == |Holders(s.reqs, lock)|;
      strong := strong[lock := strong[lock] - 1];
    }
  }

  lemma OneMoreHolder(reqs: map<ReqId, Request>, r: ReqId, lock: LockId, other: LockId)
    requires r in reqs && !Refers(reqs[r].phase)
    ensures |Holders(reqs[r := reqs[r].(phase := Waiting(lock))], other)|
         == |Holders(reqs, other)| + if other == lock then 1 else 0
  {
    assert r !in Holders(reqs, other);
    assert Holders(reqs[r := reqs[r].(phase := Waiting(lock))], other)
        == Holders(reqs, other) + if other == lock then {r} else {};
  }

  lemma ClaimedHolders(s: State, r: ReqId, lock: LockId)
    requires Enabled(s, Claim(r)) && Next(s, Claim(r)).reqs[r].phase == Waiting(lock)
    ensures var s' := Next(s, Claim(r));
      forall other :: |Holders(s'.reqs, other)| == |Holders(s.reqs, other)| + if other == lock then 1 else 0
  {
    var s' := Next(s, Claim(r));
    assert s'.reqs == s.reqs[r := s.reqs[r].(phase := Waiting(lock))];
    forall other
      ensures |Holders(s'.reqs, other)| == |Holders(s.reqs, other)| + if other == lock then 1 else 0
    {
      OneMoreHolder(s.reqs, r, lock, other);
    }
  }

  lemma DroppedHolders(s: State, a: Action)
    requires Enabled(s, a) && (a.Release? || a.Cancel?) && Refers(s.reqs[a.req].phase)
    ensures var s', lock := Next(s, a), s.reqs[a.req].phase.lock;
      && |Holders(s.reqs, lock)| > 0
      && forall other :: |Holders(s'.reqs, other)| == |Holders(s.reqs, other)| - if other == lock then 1 else 0
  {
    var s', lock := Next(s, a), s.reqs[a.req].phase.lock;
    assert a.req in Holders(s.reqs, lock);
    assert Holders(s'.reqs, lock) == Holders(s.reqs, lock) - {a.req};
    forall other | other != lock ensures |Holders(s'.reqs, other)| == |Holders(s.reqs, other)| {
      assert Holders(s'.reqs, other) == Holders(s.reqs, other);
    }
  }

  lemma OtherStepsKeepHolders(s: State, a: Action, lock: LockId)
    requires Enabled(s, a) && !a.Claim? && (a.Release? || a.Cancel? ==> !Refers(s.reqs[a.req].phase))
    ensures Holders(Next(s, a).reqs, lock) == Holders(s.reqs, lock)
    ensures Next(s, a).table == s.table && Next(s, a).next == s.next
  {
  }
}
