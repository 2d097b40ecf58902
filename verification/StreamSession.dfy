/**
  One reconnecting client of the event stream, interleaved with a publisher.

  Publishing is three steps (take a number, record in the ring, broadcast) with at most one
  publish in flight; the client's connection handler subscribes, reads the sequence number
  and then the ring, sends the replay and forwards live events. The steps interleave freely.
 */
module StreamSession {
  import opened Seqs
  import opened Stream

  /** How many broadcast messages a subscriber may fall behind. */
  const BROADCAST_CAPACITY: nat := 256

  /** `log` holds every numbered event; the first `sent` of them have been broadcast. */
  datatype Hub = Hub(log: seq<Envelope>, history: seq<Envelope>, recorded: nat, sent: nat)

  datatype Message = Event(event: Envelope) | Resnapshot(seqNo: nat)

  /** The handler's progress. `cursor` counts the broadcast messages its receiver has consumed. */
  datatype Phase =
    | Connecting
    | Subscribed(cursor: nat)
    | ReadSeq(cursor: nat, current: nat)
    | MustResnapshot(cursor: nat)
    | Replaying(cursor: nat, pending: seq<Envelope>, sentThrough: nat)
    | Forwarding(cursor: nat, sentThrough: nat)
    | Closed

  datatype State = State(hub: Hub, since: nat, phase: Phase, out: seq<Message>)

  datatype Action =
    | Number(kind: string, payload: string)
    | Record
    | Broadcast
    | Subscribe
    | LoadSeq
    | ReadHistory
    | SendResnapshot
    | SendReplay
    | BeginForward
    | Receive
    | Disconnect

  /** The highest sequence number among the replayed events, or zero. */
  function MaxSeq(events: seq<Envelope>): nat {
    if events == [] then 0 else Max(events[0].seqNo, MaxSeq(events[1..]))
  }

  predicate Enabled(s: State, a: Action) {
    match a
    case Number(_, _) => s.hub.sent == |s.hub.log|
    case Record => s.hub.recorded < |s.hub.log|
    case Broadcast => s.hub.sent < s.hub.recorded
    case Subscribe => s.phase.Connecting?
    case LoadSeq => s.phase.Subscribed?
    case ReadHistory => s.phase.ReadSeq?
    case SendResnapshot => s.phase.MustResnapshot?
    case SendReplay => s.phase.Replaying? && s.phase.pending != []
    case BeginForward => s.phase.Replaying? && s.phase.pending == []
    case Receive => s.phase.Forwarding? && s.phase.cursor < s.hub.sent && s.hub.sent <= |s.hub.log|
    case Disconnect => true
  }

  function Next(s: State, a: Action): State
    requires Enabled(s, a)
  {
    var h, p := s.hub, s.phase;
    match a
    case Number(kind, payload) =>
      s.(hub := h.(log := h.log + [Envelope(|h.log| + 1, kind, payload)]))
    case Record =>
      s.(hub := h.(history := RingPush(h.history, h.log[h.recorded]), recorded := h.recorded + 1))
    case Broadcast => s.(hub := h.(sent := h.sent + 1))
    case Subscribe => s.(phase := Subscribed(h.sent))
    case LoadSeq => s.(phase := ReadSeq(p.cursor, |h.log|))
    case ReadHistory =>
      s.(phase := match EventsSince(h.history, p.current, s.since)
                  case Replay(events) => Replaying(p.cursor, events, MaxSeq(events))
                  case ResnapshotRequired => MustResnapshot(p.cursor))
    case SendResnapshot => s.(phase := Forwarding(p.cursor, |h.log|), out := s.out + [Resnapshot(|h.log|)])
    case SendReplay => s.(phase := p.(pending := p.pending[1..]), out := s.out + [Event(p.pending[0])])
    case BeginForward => s.(phase := Forwarding(p.cursor, p.sentThrough))
    case Receive =>
      // A receiver that has fallen behind the channel's capacity gets an error and the loop ends.
      if h.sent - p.cursor > BROADCAST_CAPACITY then s.(phase := Closed)
      else if h.log[p.cursor].seqNo <= p.sentThrough then s.(phase := p.(cursor := p.cursor + 1))
      else s.(phase := p.(cursor := p.cursor + 1), out := s.out + [Event(h.log[p.cursor])])
    case Disconnect => s.(phase := Closed)
  }

  ghost predicate Runs(s: State, actions: seq<Action>)
    decreases |actions|
  {
    actions == [] || (Enabled(s, actions[0]) && Runs(Next(s, actions[0]), actions[1..]))
  }

  ghost function Run(s: State, actions: seq<Action>): State
    requires Runs(s, actions)
    decreases |actions|
  {
    if actions == [] then s else Run(Next(s, actions[0]), actions[1..])
  }

  ghost predicate HubInv(h: Hub) {
    && Numbered(h.log)
    && h.sent <= h.recorded <= |h.log| <= h.sent + 1
    && h.history == LastOf(h.log[..h.recorded], HISTORY_CAPACITY)
  }

  /** The events numbered from + 1 .. from + n. */
  function Events(log: seq<Envelope>, from: nat, n: nat): (out: seq<Message>)
    requires from + n <= |log|
    ensures |out| == n && forall i :: 0 <= i < n ==> out[i] == Event(log[from + i])
  {
    seq(n, i requires 0 <= i < n => Event(log[from + i]))
  }

  /**
    What the client may have been sent: exactly the events after `since`, in order, up to
    number `through`; or one resnapshot marker and exactly the events after it.
   */
  ghost predicate Delivered(s: State, through: nat) {
    through <= |s.hub.log| &&
    if s.out != [] && s.out[0].Resnapshot? then
      var q := s.out[0].seqNo;
      q <= through && s.out == [Resnapshot(q)] + Events(s.hub.log, q, through - q)
    else s.since <= through && s.out == Events(s.hub.log, s.since, through - s.since)
  }

  ghost predicate Contiguous(s: State) { exists through :: Delivered(s, through) }

  ghost predicate SessionInv(s: State) {
    && HubInv(s.hub)
    && match s.phase
       case Connecting => s.out == [] && s.since <= s.hub.sent
       case Subscribed(cursor) => s.out == [] && s.since <= cursor <= s.hub.sent
       case ReadSeq(cursor, current) => s.out == [] && s.since <= cursor <= s.hub.sent && cursor <= current <= |s.hub.log|
       case MustResnapshot(cursor) => s.out == [] && s.since <= cursor <= s.hub.sent
       case Replaying(cursor, pending, sentThrough) =>
         && cursor <= s.hub.sent
         && var through := s.since + |s.out| + |pending|;
            && through <= |s.hub.log|
            && s.out == Events(s.hub.log, s.since, |s.out|)
            && pending == s.hub.log[s.since + |s.out|..through]
            && through == Max(cursor, sentThrough)
       case Forwarding(cursor, sentThrough) =>
         cursor <= s.hub.sent && Delivered(s, Max(cursor, sentThrough))
       case Closed => Contiguous(s)
  }

  lemma EventsGrow(log: seq<Envelope>, e: Envelope, from: nat, n: nat)
    requires from + n <= |log|
    ensures Events(log + [e], from, n) == Events(log, from, n)
  {
  }

  lemma DeliveredGrows(s: State, e: Envelope, through: nat)
    requires Delivered(s, through)
    ensures Delivered(s.(hub := s.hub.(log := s.hub.log + [e])), through)
  {
    if s.out != [] && s.out[0].Resnapshot? {
      EventsGrow(s.hub.log, e, s.out[0].seqNo, through - s.out[0].seqNo);
    } else {
      EventsGrow(s.hub.log, e, s.since, through - s.since);
    }
  }

  lemma PublisherKeepsHub(s: State, a: Action)
    requires HubInv(s.hub) && Enabled(s, a)
    ensures HubInv(Next(s, a).hub)
  {
    var h := s.hub;
    if a.Record? {
      RingKeepsLast(h.log[..h.recorded], h.log[h.recorded]);
      assert h.log[..h.recorded] + [h.log[h.recorded]] == h.log[..h.recorded + 1];
    } else if a.Number? {
      var log := h.log + [Envelope(|h.log| + 1, a.kind, a.payload)];
      assert log[..h.recorded] == h.log[..h.recorded];
    }
  }

  lemma PublisherKeepsSession(s: State, a: Action)
    requires SessionInv(s) && Enabled(s, a) && (a.Record? || a.Broadcast?)
    ensures SessionInv(Next(s, a))
  {
    PublisherKeepsHub(s, a);
    if s.phase.Closed? {
      var through :| Delivered(s, through);
      assert Delivered(Next(s, a), through);
    }
  }

  lemma NumberKeepsSession(s: State, a: Action)
    requires SessionInv(s) && Enabled(s, a) && a.Number?
    ensures SessionInv(Next(s, a))
  {
    PublisherKeepsHub(s, a);
    var e := Envelope(|s.hub.log| + 1, a.kind, a.payload);
    var s' := Next(s, a);
    match s.phase
    case Replaying(cursor, pending, sentThrough) =>
      EventsGrow(s.hub.log, e, s.since, |s.out|);
      var through := s.since + |s.out| + |pending|;
      assert s'.hub.log[s.since + |s.out|..through] == s.hub.log[s.since + |s.out|..through];
    case Forwarding(cursor, sentThrough) => DeliveredGrows(s, e, Max(cursor, sentThrough));
    case Closed =>
      var through :| Delivered(s, through);
      DeliveredGrows(s, e, through);
      assert Delivered(s', through);
    case _ =>
  }

  lemma {:induction false} MaxSeqOfRun(events: seq<Envelope>, first: nat)
    requires forall i :: 0 <= i < |events| ==> events[i].seqNo == first + i
    ensures MaxSeq(events) == if events == [] then 0 else first + |events| - 1
  {
    if events != [] {
      MaxSeqOfRun(events[1..], first + 1);
    }
  }

  lemma ReadHistoryKeepsSession(s: State)
    requires SessionInv(s) && s.phase.ReadSeq?
    ensures SessionInv(Next(s, ReadHistory))
  {
    var h, p := s.hub, s.phase;
    RingAnswers(h.log, h.recorded, p.current, s.since);
    var answer := EventsSince(h.history, p.current, s.since);
    if answer.Replay? {
      MaxSeqOfRun(answer.events, s.since + 1);
      assert s.out == Events(h.log, s.since, 0);
    }
  }

  lemma SendKeepsSession(s: State, a: Action)
    requires SessionInv(s) && Enabled(s, a) && (a.SendReplay? || a.BeginForward? || a.SendResnapshot?)
    ensures SessionInv(Next(s, a))
  {
    var log, p := s.hub.log, s.phase;
    if a.SendReplay? {
      var n := |s.out|;
      assert p.pending[0] == log[s.since + n];
      assert s.out + [Event(p.pending[0])] == Events(log, s.since, n + 1);
    } else if a.SendResnapshot? {
      assert Next(s, a).out == [Resnapshot(|log|)] + Events(log, |log|, 0);
    }
  }

  lemma DeliveredOneMore(s: State, through: nat)
    requires Delivered(s, through) && through < |s.hub.log|
    ensures Delivered(s.(out := s.out + [Event(s.hub.log[through])]), through + 1)
  {
    var log := s.hub.log;
    var from := if s.out != [] && s.out[0].Resnapshot? then s.out[0].seqNo else s.since;
    assert Events(log, from, through + 1 - from) == Events(log, from, through - from) + [Event(log[through])];
  }

  lemma ReceiveKeepsSession(s: State)
    requires SessionInv(s) && Enabled(s, Receive)
    ensures SessionInv(Next(s, Receive))
  {
    var log, p := s.hub.log, s.phase;
    var through := Max(p.cursor, p.sentThrough);
    if s.hub.sent - p.cursor > BROADCAST_CAPACITY {
      assert Delivered(Next(s, Receive), through);
    } else if log[p.cursor].seqNo > p.sentThrough {
      DeliveredOneMore(s, through);
    }
  }

  /** Whatever the handler is doing, the client holds a contiguous piece of the log. */
  lemma SessionIsContiguous(s: State)
    requires SessionInv(s)
    ensures Contiguous(s)
  {
    match s.phase
    case Closed =>
    case Replaying(_, _, _) => assert Delivered(s, s.since + |s.out|);
    case Forwarding(cursor, sentThrough) => assert Delivered(s, Max(cursor, sentThrough));
    case _ =>
      assert s.out == Events(s.hub.log, s.since, 0);
      assert Delivered(s, s.since);
  }

  lemma StepKeepsSession(s: State, a: Action)
    requires SessionInv(s) && Enabled(s, a)
    ensures SessionInv(Next(s, a))
  {
    match a
    case Number(_, _) => NumberKeepsSession(s, a);
    case Record => PublisherKeepsSession(s, a);
    case Broadcast => PublisherKeepsSession(s, a);
    case ReadHistory => ReadHistoryKeepsSession(s);
    case Receive => ReceiveKeepsSession(s);
    case Disconnect =>
      SessionIsContiguous(s);
      var through :| Delivered(s, through);
      assert Delivered(Next(s, a), through);
    case Subscribe =>
    case LoadSeq =>
    case _ => SendKeepsSession(s, a);
  }

  lemma {:induction false} RunKeepsSession(s: State, actions: seq<Action>)
    requires SessionInv(s) && Runs(s, actions)
    ensures SessionInv(Run(s, actions))
    decreases |actions|
  {
    if actions != [] {
      StepKeepsSession(s, actions[0]);
      RunKeepsSession(Next(s, actions[0]), actions[1..]);
    }
  }

  /** A client about to subscribe to a hub. */
  function Fresh(hub: Hub, since: nat): State { State(hub, since, Connecting, []) }

  /**
    Wherever publishes fall, a client whose `since` was broadcast before it subscribed always
    holds the events after `since`, in order, without gap or duplicate (or a resnapshot marker
    and the events after it).
   */
  lemma ReconnectIsContiguous(hub: Hub, since: nat, actions: seq<Action>)
    requires HubInv(hub) && since <= hub.sent && Runs(Fresh(hub, since), actions)
    ensures Contiguous(Run(Fresh(hub, since), actions))
  {
    RunKeepsSession(Fresh(hub, since), actions);
    SessionIsContiguous(Run(Fresh(hub, since), actions));
  }

  lemma Prepend(s: State, a: Action, rest: seq<Action>)
    requires Enabled(s, a) && Runs(Next(s, a), rest)
    ensures Runs(s, [a] + rest) && Run(s, [a] + rest) == Run(Next(s, a), rest)
  {
    assert ([a] + rest)[1..] == rest;
  }

  /** The publisher can always get one more event out. */
  lemma PublisherCanBroadcast(s: State) returns (actions: seq<Action>)
    requires HubInv(s.hub)
    ensures Runs(s, actions)
    ensures var s' := Run(s, actions);
            s' == s.(hub := s'.hub) && HubInv(s'.hub) && s'.hub.sent == s.hub.sent + 1
  {
    PublisherCanRecord(s);
    if s.hub.sent < s.hub.recorded {
      actions := [];
    } else if s.hub.recorded < |s.hub.log| {
      actions := [Record];
    } else {
      actions := [Number("", ""), Record];
    }
    var ready := Run(s, actions);
    PublisherKeepsHub(ready, Broadcast);
    Prepend(ready, Broadcast, []);
    RunAppend(s, actions, [Broadcast]);
    actions := actions + [Broadcast];
  }

  lemma PublisherCanRecord(s: State)
    requires HubInv(s.hub)
    ensures s.hub.sent == s.hub.recorded < |s.hub.log|
        ==> Recorded(s, [Record])
    ensures s.hub.sent == |s.hub.log| ==> Recorded(s, [Number("", ""), Record])
  {
    if s.hub.sent == s.hub.recorded < |s.hub.log| {
      PublisherKeepsHub(s, Record);
      Prepend(s, Record, []);
    } else if s.hub.sent == |s.hub.log| {
      var numbered := Next(s, Number("", ""));
      PublisherKeepsHub(s, Number("", ""));
      PublisherKeepsHub(numbered, Record);
      Prepend(numbered, Record, []);
      Prepend(s, Number("", ""), [Record]);
      assert [Number("", "")] + [Record] == [Number("", ""), Record];
    }
  }

  /** The actions leave an event recorded but not broadcast, and touch only the hub. */
  ghost predicate Recorded(s: State, actions: seq<Action>) {
    && Runs(s, actions)
    && var s' := Run(s, actions);
       s' == s.(hub := s'.hub) && HubInv(s'.hub) && s'.hub.sent == s.hub.sent < s'.hub.recorded
  }

  lemma {:induction false} RunAppend(s: State, xs: seq<Action>, ys: seq<Action>)
    requires Runs(s, xs) && Runs(Run(s, xs), ys)
    ensures Runs(s, xs + ys) && Run(s, xs + ys) == Run(Run(s, xs), ys)
    decreases |xs|
  {
    if xs == [] {
      assert xs + ys == ys;
    } else {
      RunAppend(Next(s, xs[0]), xs[1..], ys);
      assert xs + ys == [xs[0]] + (xs[1..] + ys);
      Prepend(s, xs[0], xs[1..] + ys);
    }
  }

  /** A live loop without a mark delivers the next broadcast whatever the client already has. */
  lemma UnmarkedLoopRepeats(s: State)
    requires HubInv(s.hub) && s.out == [] && s.hub.sent > 0 && s.since >= s.hub.sent
    requires s.phase == Forwarding(s.hub.sent - 1, 0)
    ensures Runs(s, [Receive]) && !Contiguous(Run(s, [Receive]))
  {
    Prepend(s, Receive, []);
    assert Next(s, Receive).out == [Event(s.hub.log[s.hub.sent - 1])];
  }

  /**
    A client that subscribes ahead of the broadcasts can be sent an event numbered at or below its `since`:
    the ring answers that nothing is missing, and the live loop has no mark to filter by.
   */
  lemma AheadCanSeeDuplicate(hub: Hub, since: nat) returns (actions: seq<Action>)
    requires HubInv(hub) && since > hub.sent
    ensures var s := Next(Fresh(hub, since), Subscribe);
            Runs(s, actions) && !Contiguous(Run(s, actions))
  {
    var subscribed := Next(Fresh(hub, since), Subscribe);
    var read := Next(subscribed, LoadSeq);
    var replaying := Next(read, ReadHistory);
    assert replaying.phase == Replaying(hub.sent, [], 0);
    var forwarding := Next(replaying, BeginForward);
    var publish := PublisherCanBroadcast(forwarding);
    UnmarkedLoopRepeats(Run(forwarding, publish));
    RunAppend(forwarding, publish, [Receive]);
    actions := publish + [Receive];
    Prepend(replaying, BeginForward, actions);
    actions := [BeginForward] + actions;
    Prepend(read, ReadHistory, actions);
    actions := [ReadHistory] + actions;
    Prepend(subscribed, LoadSeq, actions);
    actions := [LoadSeq] + actions;
  }

  ghost predicate AlwaysContiguous(s: State) {
    forall actions :: Runs(s, actions) ==> Contiguous(Run(s, actions))
  }

  /** A client that subscribes now is served contiguously in every run just when its `since` has been broadcast. */
  lemma ContiguousIffBroadcast(hub: Hub, since: nat)
    requires HubInv(hub)
    ensures AlwaysContiguous(Next(Fresh(hub, since), Subscribe)) <==> since <= hub.sent
  {
    var s := Fresh(hub, since);
    var subscribed := Next(s, Subscribe);
    if since <= hub.sent {
      forall actions | Runs(subscribed, actions) ensures Contiguous(Run(subscribed, actions)) {
        Prepend(s, Subscribe, actions);
        ReconnectIsContiguous(hub, since, [Subscribe] + actions);
      }
    } else {
      var actions := AheadCanSeeDuplicate(hub, since);
    }
  }
}
