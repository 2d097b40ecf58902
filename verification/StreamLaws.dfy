/**
  Which answer a reconnecting client gets, told from the log alone, and that it catches up.
 */
module StreamLaws {
  import opened Stream
  import opened StreamSession

  /** The ring no longer holds everything after `since`. */
  ghost predicate TooOld(h: Hub, since: nat) {
    h.recorded == 0 || since + HISTORY_CAPACITY < h.recorded
  }

  /**
    What reading the ring leads to: a resnapshot exactly when events were missed and the ring
    no longer holds them all; otherwise the replay of everything recorded after `since`.
   */
  lemma RingDecides(s: State)
    requires SessionInv(s) && s.phase.ReadSeq?
    ensures var h, p := s.hub, s.phase;
      Next(s, ReadHistory) == s.(phase :=
        if s.since >= p.current then Replaying(p.cursor, [], 0)
        else if TooOld(h, s.since) then MustResnapshot(p.cursor)
        else if s.since >= h.recorded then Replaying(p.cursor, [], 0)
        else Replaying(p.cursor, h.log[s.since..h.recorded], h.recorded))
  {
    var h, p := s.hub, s.phase;
    RingAnswers(h.log, h.recorded, p.current, s.since);
    if s.since < p.current && !TooOld(h, s.since) && s.since < h.recorded {
      MaxSeqOfRun(h.log[s.since..h.recorded], s.since + 1);
    }
  }

  lemma LogGrowsInStep(s: State, a: Action)
    requires Enabled(s, a)
    ensures s.hub.log <= Next(s, a).hub.log && s.hub.recorded <= Next(s, a).hub.recorded
    ensures Next(s, a).since == s.since
  {
  }

  lemma {:induction false} LogGrowsInRun(s: State, actions: seq<Action>)
    requires Runs(s, actions)
    ensures s.hub.log <= Run(s, actions).hub.log && s.hub.recorded <= Run(s, actions).hub.recorded
    decreases |actions|
  {
    if actions != [] {
      LogGrowsInStep(s, actions[0]);
      LogGrowsInRun(Next(s, actions[0]), actions[1..]);
    }
  }

  /** No resnapshot was sent or is due. */
  ghost predicate Unbroken(s: State) {
    !s.phase.MustResnapshot? && (s.out == [] || s.out[0].Event?)
  }

  lemma StepStaysUnbroken(s: State, a: Action)
    requires SessionInv(s) && Enabled(s, a) && Unbroken(s)
    requires 0 < s.hub.recorded && |s.hub.log| <= s.since + HISTORY_CAPACITY
    ensures Unbroken(Next(s, a))
  {
    if a.ReadHistory? {
      RingDecides(s);
    }
  }

  lemma {:induction false} RunStaysUnbroken(s: State, actions: seq<Action>)
    requires SessionInv(s) && Runs(s, actions) && Unbroken(s)
    requires 0 < s.hub.recorded && |Run(s, actions).hub.log| <= s.since + HISTORY_CAPACITY
    ensures Unbroken(Run(s, actions))
    decreases |actions|
  {
    if actions != [] {
      LogGrowsInStep(s, actions[0]);
      LogGrowsInRun(Next(s, actions[0]), actions[1..]);
      StepStaysUnbroken(s, actions[0]);
      StepKeepsSession(s, actions[0]);
      RunStaysUnbroken(Next(s, actions[0]), actions[1..]);
    }
  }

  /**
    A client that misses no more than the ring holds is never told to resnapshot: in every run
    it is sent the very events after `since`.
   */
  lemma RecentClientIsReplayed(hub: Hub, since: nat, actions: seq<Action>)
    requires HubInv(hub) && 0 < hub.recorded && since <= hub.sent && Runs(Fresh(hub, since), actions)
    requires |Run(Fresh(hub, since), actions).hub.log| <= since + HISTORY_CAPACITY
    ensures var s := Run(Fresh(hub, since), actions);
            since + |s.out| <= |s.hub.log| && s.out == Events(s.hub.log, since, |s.out|)
  {
    var s := Run(Fresh(hub, since), actions);
    RunStaysUnbroken(Fresh(hub, since), actions);
    SinceStays(Fresh(hub, since), actions);
    ReconnectIsContiguous(hub, since, actions);
    var through :| Delivered(s, through);
  }

  lemma {:induction false} SinceStays(s: State, actions: seq<Action>)
    requires Runs(s, actions)
    ensures Run(s, actions).since == s.since
    decreases |actions|
  {
    if actions != [] {
      SinceStays(Next(s, actions[0]), actions[1..]);
    }
  }

  /** Nothing was sent before the resnapshot, and none is skipped. */
  ghost predicate Broken(s: State) {
    if s.out == [] then !s.phase.Replaying? && !s.phase.Forwarding? else s.out[0].Resnapshot?
  }

  lemma StepStaysBroken(s: State, a: Action)
    requires SessionInv(s) && Enabled(s, a) && Broken(s) && s.since + HISTORY_CAPACITY < s.hub.recorded
    requires s.phase.ReadSeq? ==> s.since < s.phase.current
    requires s.phase.Replaying? ==> s.out == []
    ensures Broken(Next(s, a)) && (Next(s, a).phase.Replaying? ==> Next(s, a).out == [])
    ensures Next(s, a).phase.ReadSeq? ==> s.since < Next(s, a).phase.current
  {
    if a.ReadHistory? {
      RingDecides(s);
    }
  }

  lemma {:induction false} RunStaysBroken(s: State, actions: seq<Action>)
    requires SessionInv(s) && Runs(s, actions) && Broken(s) && s.since + HISTORY_CAPACITY < s.hub.recorded
    requires s.phase.ReadSeq? ==> s.since < s.phase.current
    requires s.phase.Replaying? ==> s.out == []
    ensures Broken(Run(s, actions))
    decreases |actions|
  {
    if actions != [] {
      LogGrowsInStep(s, actions[0]);
      StepStaysBroken(s, actions[0]);
      StepKeepsSession(s, actions[0]);
      RunStaysBroken(Next(s, actions[0]), actions[1..]);
    }
  }

  /** A client that misses more than the ring holds is sent nothing before it is told to resnapshot. */
  lemma StaleClientIsTold(hub: Hub, since: nat, actions: seq<Action>)
    requires HubInv(hub) && since + HISTORY_CAPACITY < hub.recorded && Runs(Fresh(hub, since), actions)
    ensures var s := Run(Fresh(hub, since), actions);
            && (s.out != [] ==> s.out[0].Resnapshot?)
            && (s.phase.Forwarding? ==> s.out != [])
  {
    RunStaysBroken(Fresh(hub, since), actions);
  }

  // ---- catching up ----

  lemma {:induction false} SendAll(s: State) returns (actions: seq<Action>)
    requires s.phase.Replaying?
    ensures Runs(s, actions)
    ensures Run(s, actions) == s.(phase := Forwarding(s.phase.cursor, s.phase.sentThrough),
                                  out := s.out + seq(|s.phase.pending|, i requires 0 <= i < |s.phase.pending| =>
                                                                          Event(s.phase.pending[i])))
    decreases |s.phase.pending|
  {
    var pending := s.phase.pending;
    if pending == [] {
      actions := [BeginForward];
      Prepend(s, BeginForward, []);
    } else {
      var rest := SendAll(Next(s, SendReplay));
      actions := [SendReplay] + rest;
      Prepend(s, SendReplay, rest);
      assert seq(|pending|, i requires 0 <= i < |pending| => Event(pending[i]))
        == [Event(pending[0])] + seq(|pending| - 1, i requires 0 <= i < |pending| - 1 => Event(pending[1..][i]));
    }
  }

  /** With the hub at rest, a client can be brought up to date, or is told where to start from. */
  lemma CatchesUp(hub: Hub, since: nat) returns (actions: seq<Action>)
    requires HubInv(hub) && hub.sent == |hub.log| && since <= hub.sent
    ensures Runs(Fresh(hub, since), actions)
    ensures var s, n := Run(Fresh(hub, since), actions), |hub.log|;
      && s.hub == hub && s.phase.Forwarding? && s.phase.cursor == n
      && s.out == if since + HISTORY_CAPACITY < n then [Resnapshot(n)] else Events(hub.log, since, n - since)
  {
    var start := Fresh(hub, since);
    var subscribed := Next(start, Subscribe);
    var read := Next(subscribed, LoadSeq);
    var answered := Next(read, ReadHistory);
    RingDecides(read);
    if answered.phase.MustResnapshot? {
      actions := [SendResnapshot];
      Prepend(answered, SendResnapshot, []);
    } else {
      actions := SendAll(answered);
      assert Run(answered, actions).out == Events(hub.log, since, |hub.log| - since);
    }
    Prepend(read, ReadHistory, actions);
    actions := [ReadHistory] + actions;
    Prepend(subscribed, LoadSeq, actions);
    actions := [LoadSeq] + actions;
    Prepend(start, Subscribe, actions);
    actions := [Subscribe] + actions;
  }

  /** A client that is up to date is sent the next published event. */
  lemma NextEventIsForwarded(s: State, kind: string, payload: string) returns (actions: seq<Action>)
    requires SessionInv(s) && s.phase.Forwarding? && s.phase.cursor == s.hub.sent == |s.hub.log|
    requires s.phase.sentThrough <= |s.hub.log|
    ensures Runs(s, actions)
    ensures Run(s, actions).out == s.out + [Event(Envelope(|s.hub.log| + 1, kind, payload))]
  {
    var numbered := Next(s, Number(kind, payload));
    var recorded := Next(numbered, Record);
    var broadcast := Next(recorded, Broadcast);
    Prepend(broadcast, Receive, []);
    Prepend(recorded, Broadcast, [Receive]);
    Prepend(numbered, Record, [Broadcast] + [Receive]);
    Prepend(s, Number(kind, payload), [Record] + ([Broadcast] + [Receive]));
    actions := [Number(kind, payload)] + ([Record] + ([Broadcast] + [Receive]));
  }

  /** A client that falls behind by more than the channel holds is cut off, with nothing skipped. */
  lemma LaggingClientIsClosed(s: State)
    requires SessionInv(s) && s.phase.Forwarding? && s.hub.sent - s.phase.cursor > 256
    ensures Enabled(s, Receive) && Next(s, Receive) == s.(phase := Closed)
  {
  }
}
