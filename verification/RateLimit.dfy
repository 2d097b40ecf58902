/**
  The sliding-window rate limiter: per client and bucket, the admission times of the last
  window; a request is admitted while fewer than `limit` of them remain.
 */
module RateLimit {
  import opened Seqs

  /** One minute; times are in nanoseconds. */
  const WINDOW: nat := 60_000_000_000

  datatype Bucket = Auth | Pos

  datatype Settings = Settings(authPerMinute: nat, posPerMinute: nat) {
    function LimitFor(bucket: Bucket): nat {
      match bucket
      case Auth => authPerMinute
      case Pos => posPerMinute
    }
  }

  datatype Client = Client(address: string, bucket: Bucket)

  /** Instants at or before the front of the queue by a window or more are dropped. */
  function Unexpired(times: seq<nat>, now: nat): seq<nat> {
    if times != [] && Sub(now, times[0]) >= WINDOW then Unexpired(times[1..], now) else times
  }

  function Lookup(stored: map<Client, seq<nat>>, c: Client): seq<nat> {
    if c in stored then stored[c] else []
  }

  datatype Decision = Decision(admitted: bool, times: seq<nat>)

  function Decide(times: seq<nat>, limit: nat, now: nat): Decision {
    var kept := Unexpired(times, now);
    if |kept| >= limit then Decision(false, kept) else Decision(true, kept + [now])
  }

  datatype Request = Request(client: Client, now: nat)

  /** What a run has stored, and every admission it made to each client. */
  datatype Trace = Trace(stored: map<Client, seq<nat>>, admitted: map<Client, seq<nat>>)

  function Serve(settings: Settings, t: Trace, r: Request): Trace {
    var limit := settings.LimitFor(r.client.bucket);
    if limit == 0 then t
    else
      var d := Decide(Lookup(t.stored, r.client), limit, r.now);
      Trace(t.stored[r.client := d.times],
            if d.admitted then t.admitted[r.client := Lookup(t.admitted, r.client) + [r.now]] else t.admitted)
  }

  function ServeAll(settings: Settings, requests: seq<Request>): Trace {
    if requests == [] then Trace(map[], map[])
    else Serve(settings, ServeAll(settings, requests[..|requests| - 1]), requests[|requests| - 1])
  }

  function Admissions(settings: Settings, requests: seq<Request>, c: Client): seq<nat> {
    Lookup(ServeAll(settings, requests).admitted, c)
  }

  class RateLimiter {
    const settings: Settings
    var buckets: map<Client, seq<nat>>
    /** Every request so far. */
    ghost var requests: seq<Request>

    ghost predicate Valid()
      reads this
    {
      buckets == ServeAll(settings, requests).stored
    }

    constructor (settings: Settings)
      ensures Valid() && this.settings == settings && requests == []
    {
      this.settings := settings;
      buckets, requests := map[], [];
    }

    /** Admits the request just when its client has room, or the bucket has no limit. */
    method Allow(c: Client, now: nat) returns (allowed: bool)
      requires Valid()
      modifies this`buckets, this`requests
      ensures Valid() && requests == old(requests) + [Request(c, now)]
      ensures var limit := settings.LimitFor(c.bucket);
              allowed == (limit == 0 || Decide(Lookup(old(buckets), c), limit, now).admitted)
      ensures Quota(settings, c) == 0 ==> allowed && buckets == old(buckets)
      ensures forall other :: other != c ==> Lookup(buckets, other) == Lookup(old(buckets), other)
    {
      requests := requests + [Request(c, now)];
      assert requests[..|requests| - 1] == old(requests);
      var limit := settings.LimitFor(c.bucket);
      if limit == 0 {
        return true;
      }
      var entry := Lookup(buckets, c);
      while entry != [] && Sub(now, entry[0]) >= WINDOW
        invariant Unexpired(entry, now) == Unexpired(Lookup(old(buckets), c), now)
        decreases |entry|
      {
        entry := entry[1..];
      }
      if |entry| >= limit {
        buckets := buckets[c := entry];
        return false;
      }
      buckets := buckets[c := entry + [now]];
      return true;
    }
  }

  // ---- The window ----

  /** Less than a window old at `now`. */
  function IsRecent(now: nat): nat -> bool { (t: nat) => t + WINDOW > now }

  /** In the half-open window starting at `from`. */
  function InWindow(from: nat): nat -> bool { (t: nat) => from <= t < from + WINDOW }

  ghost predicate Ordered(times: seq<nat>) {
    forall i, j :: 0 <= i <= j < |times| ==> times[i] <= times[j]
  }

  /** Any `limit + 1` consecutive admissions span at least a window. */
  ghost predicate Spaced(times: seq<nat>, limit: nat) {
    forall i :: 0 <= i && i + limit < |times| ==> times[i + limit] >= times[i] + WINDOW
  }

  lemma {:induction false} FilterNone(times: seq<nat>, keep: nat -> bool)
    requires forall i :: 0 <= i < |times| ==> !keep(times[i])
    ensures Filter(times, keep) == []
  {
    if times != [] {
      FilterNone(times[1..], keep);
    }
  }

  lemma {:induction false} FilterLength(times: seq<nat>, keep: nat -> bool)
    ensures |Filter(times, keep)| <= |times|
  {
    if times != [] {
      FilterLength(times[1..], keep);
    }
  }

  /** What was recent earlier, less what has expired since, is what is recent now. */
  lemma {:induction false} ExpiryKeepsRecent(times: seq<nat>, earlier: nat, now: nat)
    requires Ordered(times) && earlier <= now
    ensures Unexpired(Filter(times, IsRecent(earlier)), now) == Filter(times, IsRecent(now))
  {
    if times != [] {
      if times[0] + WINDOW > now {
        FilterAll(times, IsRecent(earlier));
        FilterAll(times, IsRecent(now));
      } else {
        ExpiryKeepsRecent(times[1..], earlier, now);
      }
    }
  }

  lemma FullWindow(times: seq<nat>, limit: nat, now: nat)
    requires Ordered(times) && limit <= |times| && |Filter(times, IsRecent(now))| < limit
    ensures times[|times| - limit] + WINDOW <= now
  {
    if times[|times| - limit] + WINDOW > now {
      var head, tail := times[..|times| - limit], times[|times| - limit..];
      assert times == head + tail;
      FilterAppend(head, tail, IsRecent(now));
      FilterAll(tail, IsRecent(now));
    }
  }

  /** Spaced admissions put at most `limit` in any half-open window. */
  lemma {:induction false} WindowHoldsAtMostLimit(times: seq<nat>, limit: nat, from: nat)
    requires Ordered(times) && Spaced(times, limit)
    ensures |Filter(times, InWindow(from))| <= limit
  {
    if times != [] {
      if InWindow(from)(times[0]) {
        if |times| <= limit {
          FilterLength(times, InWindow(from));
        } else {
          var head, tail := times[..limit], times[limit..];
          assert times == head + tail;
          FilterAppend(head, tail, InWindow(from));
          FilterLength(head, InWindow(from));
          FilterNone(tail, InWindow(from));
        }
      } else {
        WindowHoldsAtMostLimit(times[1..], limit, from);
      }
    }
  }

  // ---- Whole runs ----

  /** The clock never goes back over the run. */
  ghost predicate Clocked(requests: seq<Request>) {
    forall i, j :: 0 <= i <= j < |requests| ==> requests[i].now <= requests[j].now
  }

  /** When the client last asked. */
  function LastAsked(requests: seq<Request>, c: Client): nat {
    if requests == [] then 0
    else if requests[|requests| - 1].client == c then requests[|requests| - 1].now
    else LastAsked(requests[..|requests| - 1], c)
  }

  ghost predicate ClientInv(settings: Settings, requests: seq<Request>, c: Client) {
    var admitted, asked := Admissions(settings, requests, c), LastAsked(requests, c);
    && Ordered(admitted) && Spaced(admitted, settings.LimitFor(c.bucket))
    && (admitted != [] ==> admitted[|admitted| - 1] <= asked)
    && Lookup(ServeAll(settings, requests).stored, c) == Filter(admitted, IsRecent(asked))
    && (requests != [] ==> asked <= requests[|requests| - 1].now)
  }

  /** One request of the client itself. */
  lemma OwnRequest(admitted: seq<nat>, limit: nat, asked: nat, now: nat)
    requires Ordered(admitted) && Spaced(admitted, limit) && (admitted != [] ==> admitted[|admitted| - 1] <= asked)
    requires asked <= now && limit > 0
    ensures var d := Decide(Filter(admitted, IsRecent(asked)), limit, now);
            && (d.admitted <==> |Filter(admitted, IsRecent(now))| < limit)
            && var after := if d.admitted then admitted + [now] else admitted;
               Ordered(after) && Spaced(after, limit) && d.times == Filter(after, IsRecent(now))
  {
    ExpiryKeepsRecent(admitted, asked, now);
    FilterAppend(admitted, [now], IsRecent(now));
    assert Filter([now], IsRecent(now)) == [now];
    if |Filter(admitted, IsRecent(now))| < limit <= |admitted| {
      FullWindow(admitted, limit, now);
    }
  }

  /**
    In every run whose clock never goes back, the stored queue is exactly the client's
    admissions of the window before it last asked, and every half-open window holds at most
    `limit` admissions of one client and bucket.
   */
  lemma {:induction false} StoredAreTheRecentAdmissions(settings: Settings, requests: seq<Request>, c: Client)
    requires Clocked(requests) && settings.LimitFor(c.bucket) > 0
    ensures ClientInv(settings, requests, c)
    decreases |requests|
  {
    if requests != [] {
      var before, r := requests[..|requests| - 1], requests[|requests| - 1];
      StoredAreTheRecentAdmissions(settings, before, c);
      if r.client == c {
        OwnRequest(Admissions(settings, before, c), settings.LimitFor(c.bucket), LastAsked(before, c), r.now);
      }
    }
  }

  lemma AtMostLimitPerWindow(settings: Settings, requests: seq<Request>, c: Client, from: nat)
    requires Clocked(requests) && settings.LimitFor(c.bucket) > 0
    ensures |Filter(Admissions(settings, requests, c), InWindow(from))| <= settings.LimitFor(c.bucket)
  {
    StoredAreTheRecentAdmissions(settings, requests, c);
    WindowHoldsAtMostLimit(Admissions(settings, requests, c), settings.LimitFor(c.bucket), from);
  }

  /** Each bucket has its own setting. */
  ghost function Quota(settings: Settings, c: Client): nat {
    if c.bucket == Auth then settings.authPerMinute else settings.posPerMinute
  }

  /** A minute in nanoseconds. */
  ghost predicate WithinAMinute(t: nat, now: nat) { now < t + 60 * 1_000_000_000 }

  ghost function CountRecent(times: seq<nat>, now: nat): nat {
    if times == [] then 0
    else CountRecent(times[1..], now) + if WithinAMinute(times[0], now) then 1 else 0
  }

  /** The client's requests that found fewer than `quota` of its admissions in the minute before them. */
  ghost function Granted(requests: seq<Request>, c: Client, quota: nat): seq<nat> {
    if requests == [] then []
    else
      var before, r := Granted(requests[..|requests| - 1], c, quota), requests[|requests| - 1];
      if r.client == c && CountRecent(before, r.now) < quota then before + [r.now] else before
  }

  lemma {:induction false} RecentAreCounted(times: seq<nat>, now: nat)
    ensures |Filter(times, IsRecent(now))| == CountRecent(times, now)
  {
    if times != [] {
      RecentAreCounted(times[1..], now);
    }
  }

  /** The limiter grants exactly what the sliding minute allows under the bucket's own setting. */
  lemma {:induction false} GrantsByTheMinute(settings: Settings, requests: seq<Request>, c: Client)
    requires Clocked(requests) && Quota(settings, c) > 0
    ensures Admissions(settings, requests, c) == Granted(requests, c, Quota(settings, c))
    decreases |requests|
  {
    if requests != [] {
      var before, r := requests[..|requests| - 1], requests[|requests| - 1];
      GrantsByTheMinute(settings, before, c);
      if r.client == c {
        StoredAreTheRecentAdmissions(settings, before, c);
        var admitted := Admissions(settings, before, c);
        OwnRequest(admitted, Quota(settings, c), LastAsked(before, c), r.now);
        RecentAreCounted(admitted, r.now);
      }
    }
  }

  /** A request is refused just when its client already has `limit` admissions less than a window old. */
  lemma RefusedIffWindowIsFull(settings: Settings, requests: seq<Request>, r: Request)
    requires Clocked(requests + [r]) && settings.LimitFor(r.client.bucket) > 0
    ensures var admitted, limit := Admissions(settings, requests, r.client), settings.LimitFor(r.client.bucket);
            var stored := Lookup(ServeAll(settings, requests).stored, r.client);
            && (!Decide(stored, limit, r.now).admitted <==> |Filter(admitted, IsRecent(r.now))| == limit)
            && |Filter(admitted, IsRecent(r.now))| <= limit
  {
    var admitted, limit := Admissions(settings, requests, r.client), settings.LimitFor(r.client.bucket);
    assert Clocked(requests) by {
      assert forall i :: 0 <= i < |requests| ==> requests[i] == (requests + [r])[i];
    }
    StoredAreTheRecentAdmissions(settings, requests, r.client);
    var asked := LastAsked(requests, r.client);
    assert asked <= r.now by {
      if requests != [] {
        assert (requests + [r])[|requests| - 1].now <= (requests + [r])[|requests|].now;
      }
    }
    OwnRequest(admitted, limit, asked, r.now);
    RecentFitsLimit(admitted, limit, r.now);
  }

  lemma RecentFitsLimit(times: seq<nat>, limit: nat, now: nat)
    requires Ordered(times) && Spaced(times, limit) && (times != [] ==> times[|times| - 1] <= now)
    ensures |Filter(times, IsRecent(now))| <= limit
  {
    var from := Sub(now + 1, WINDOW);
    forall i | 0 <= i < |times| ensures IsRecent(now)(times[i]) ==> InWindow(from)(times[i]) {
      assert times[i] <= times[|times| - 1];
    }
    FilterCount(times, times, IsRecent(now), InWindow(from));
    WindowHoldsAtMostLimit(times, limit, from);
  }

  function Of(c: Client): Request -> bool { (r: Request) => r.client == c }

  /** No other client, and no other bucket, has any influence on what a client is granted. */
  lemma {:induction false} ClientsAreIsolated(settings: Settings, requests: seq<Request>, c: Client)
    ensures var own := Filter(requests, Of(c));
            && Admissions(settings, requests, c) == Admissions(settings, own, c)
            && Lookup(ServeAll(settings, requests).stored, c) == Lookup(ServeAll(settings, own).stored, c)
  {
    if requests != [] {
      var before, r := requests[..|requests| - 1], requests[|requests| - 1];
      ClientsAreIsolated(settings, before, c);
      assert requests == before + [r];
      FilterAppend(before, [r], Of(c));
      if r.client == c {
        var own := Filter(before, Of(c));
        assert Filter(requests, Of(c)) == own + [r] && (own + [r])[..|own|] == own;
      } else {
        assert Filter(requests, Of(c)) == Filter(before, Of(c));
      }
    }
  }
}
