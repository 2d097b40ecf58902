/**
  The per-store event stream: a bounded ring of recent events that stands in for the
  unbounded log of everything published.
 */
module Stream {
  import opened Seqs

  const HISTORY_CAPACITY: nat := 256

  datatype Envelope = Envelope(seqNo: nat, kind: string, payload: string)

  datatype ReplayResult = Replay(events: seq<Envelope>) | ResnapshotRequired

  /** Appends to the ring, dropping the oldest event of a full one. */
  function RingPush(history: seq<Envelope>, e: Envelope): seq<Envelope> {
    (if |history| == HISTORY_CAPACITY then history[1..] else history) + [e]
  }

  function After(since: nat): Envelope -> bool { (e: Envelope) => e.seqNo > since }

  /** The replay for a client that has everything up to `since`, given the sequence number and the ring. */
  function EventsSince(history: seq<Envelope>, current: nat, since: nat): ReplayResult {
    if since >= current then Replay([])
    else if history != [] && history[0].seqNo <= since + 1 then Replay(Filter(history, After(since)))
    else ResnapshotRequired
  }

  /** Events carry the sequence numbers 1, 2, 3, ... */
  ghost predicate Numbered(log: seq<Envelope>) {
    forall i :: 0 <= i < |log| ==> log[i].seqNo == i + 1
  }

  function LastOf(log: seq<Envelope>, n: nat): seq<Envelope> {
    if |log| <= n then log else log[|log| - n..]
  }

  lemma RingKeepsLast(log: seq<Envelope>, e: Envelope)
    ensures RingPush(LastOf(log, HISTORY_CAPACITY), e) == LastOf(log + [e], HISTORY_CAPACITY)
  {
  }

  /** Filtering consecutively numbered events keeps a suffix. */
  lemma {:induction false} FilterSuffix(events: seq<Envelope>, first: nat, since: nat)
    requires forall i :: 0 <= i < |events| ==> events[i].seqNo == first + i
    ensures first <= since + 1 && since + 1 - first <= |events| ==> Filter(events, After(since)) == events[since + 1 - first..]
    ensures first <= since + 1 && since + 1 - first > |events| ==> Filter(events, After(since)) == []
    ensures first > since ==> Filter(events, After(since)) == events
  {
    if events != [] {
      FilterSuffix(events[1..], first + 1, since);
      if first > since {
        assert events == [events[0]] + events[1..];
      } else if since + 1 - first <= |events| {
        assert events[1..][since + 1 - (first + 1)..] == events[since + 1 - first..];
      }
    }
  }

  /** What the ring answers, in terms of the first `recorded` events of the log. */
  lemma RingAnswers(log: seq<Envelope>, recorded: nat, current: nat, since: nat)
    requires Numbered(log) && recorded <= |log|
    ensures EventsSince(LastOf(log[..recorded], HISTORY_CAPACITY), current, since)
         == if since >= current then Replay([])
            else if recorded == 0 || since + HISTORY_CAPACITY < recorded then ResnapshotRequired
            else Replay(if since <= recorded then log[since..recorded] else [])
  {
    var history := LastOf(log[..recorded], HISTORY_CAPACITY);
    var first := recorded - |history| + 1;
    forall i | 0 <= i < |history| ensures history[i].seqNo == first + i {
      assert history[i] == log[recorded - |history| + i];
    }
    FilterSuffix(history, first, since);
    if since < current && recorded > 0 && since + HISTORY_CAPACITY >= recorded {
      if since <= recorded {
        assert history[since + 1 - first..] == log[since..recorded];
      }
    }
  }

  method Newer(history: seq<Envelope>, since: nat) returns (events: seq<Envelope>)
    ensures events == Filter(history, After(since))
  {
    events := [];
    for i := 0 to |history|
      invariant Filter(history, After(since)) == events + Filter(history[i..], After(since))
    {
      assert history[i..][1..] == history[i + 1..];
      if history[i].seqNo > since {
        events := events + [history[i]];
      }
    }
  }

  class StoreChannel {
    var seqNo: nat
    var history: seq<Envelope>
    /** Everything ever published; the hub keeps only the ring. */
    ghost var log: seq<Envelope>

    ghost predicate Valid()
      reads this
    {
      Numbered(log) && seqNo == |log| && history == LastOf(log, HISTORY_CAPACITY)
    }

    constructor ()
      ensures Valid() && log == []
    {
      seqNo, history, log := 0, [], [];
    }

    method Publish(kind: string, payload: string) returns (published: nat)
      requires Valid()
      modifies this
      ensures Valid()
      ensures published == old(|log|) + 1 && log == old(log) + [Envelope(published, kind, payload)]
    {
      seqNo := seqNo + 1;
      var e := Envelope(seqNo, kind, payload);
      RingKeepsLast(log, e);
      if |history| == HISTORY_CAPACITY {
        history := history[1..];
      }
      history := history + [e];
      log := log + [e];
      published := seqNo;
    }

    /** Exactly the events after `since`, or a resnapshot when they are no longer all in the ring. */
    method ReplaySince(since: nat) returns (r: ReplayResult)
      requires Valid()
      ensures r == if since >= |log| then Replay([])
                   else if since + HISTORY_CAPACITY < |log| then ResnapshotRequired
                   else Replay(log[since..])
    {
      assert log[..|log|] == log;
      RingAnswers(log, |log|, seqNo, since);
      if since >= seqNo {
        return Replay([]);
      }
      if history != [] && history[0].seqNo <= since + 1 {
        var events := Newer(history, since);
        return Replay(events);
      }
      return ResnapshotRequired;
    }
  }
}
