/**
  The tamper-evident audit log: each row's hash is a keyed MAC over the previous row's hash
  and the row's own fields, joined by '|'.

  The MAC is any function from messages to strings; nothing is assumed about collisions, which
  the results name instead.
 */
module Audit {
  import opened Seqs

  datatype Row = Row(
    id: nat, eventType: string, entityId: Option<string>, payload: Option<string>,
    createdAt: string, prevHash: string, hash: string, hubKeyId: string)

  datatype Key = Key(hubKeyId: string, mac: string -> string)

  function Text(field: Option<string>): string { if field.Some? then field.value else "" }

  function Message(prevHash: string, eventType: string, entityId: string, payload: string,
                   createdAt: string, hubKeyId: string): string {
    prevHash + "|" + eventType + "|" + entityId + "|" + payload + "|" + createdAt + "|" + hubKeyId
  }

  function MessageOf(row: Row): string {
    Message(row.prevHash, row.eventType, Text(row.entityId), Text(row.payload), row.createdAt, row.hubKeyId)
  }

  ghost predicate NoPipe(s: string) { '|' !in s }

  // ---- The message determines its fields ----

  lemma FirstField(a: string, x: string, b: string, y: string)
    requires NoPipe(a) && NoPipe(b) && a + "|" + x == b + "|" + y
    ensures a == b && x == y
  {
    var s, t := a + "|" + x, b + "|" + y;
    assert s[|a|] == '|' && t[|b|] == '|';
    assert |a| == |b|;
    assert s[..|a|] == a && t[..|a|] == b;
    assert s[|a| + 1..] == x && t[|a| + 1..] == y;
  }

  lemma LastField(x: string, a: string, y: string, b: string)
    requires NoPipe(a) && NoPipe(b) && x + "|" + a == y + "|" + b
    ensures a == b && x == y
  {
    var s, t := x + "|" + a, y + "|" + b;
    assert s[|x|] == '|' && t[|y|] == '|';
    assert |x| == |y|;
    assert s[..|x|] == x && t[..|x|] == y;
    assert s[|x| + 1..] == a && t[|x| + 1..] == b;
  }

  /** Every field but the payload must be free of the separator; the payload may hold anything. */
  ghost predicate Separable(row: Row) {
    && NoPipe(row.prevHash) && NoPipe(row.eventType) && NoPipe(Text(row.entityId))
    && NoPipe(row.createdAt) && NoPipe(row.hubKeyId)
  }

  /** The rows carry the same signed content: NULL and the empty string are one, ids are not signed. */
  ghost predicate SameContent(a: Row, b: Row) {
    && a.prevHash == b.prevHash && a.eventType == b.eventType && a.createdAt == b.createdAt && a.hubKeyId == b.hubKeyId
    && Text(a.entityId) == Text(b.entityId) && Text(a.payload) == Text(b.payload)
  }

  lemma HeadIsInjective(p: string, e: string, t: string, x: string, p': string, e': string, t': string, x': string)
    requires NoPipe(p) && NoPipe(e) && NoPipe(t) && NoPipe(p') && NoPipe(e') && NoPipe(t')
    requires p + "|" + e + "|" + t + "|" + x == p' + "|" + e' + "|" + t' + "|" + x'
    ensures p == p' && e == e' && t == t' && x == x'
  {
    var body, body' := t + "|" + x, t' + "|" + x';
    assert p + "|" + e + "|" + t + "|" + x == p + "|" + (e + "|" + body);
    assert p' + "|" + e' + "|" + t' + "|" + x' == p' + "|" + (e' + "|" + body');
    FirstField(p, e + "|" + body, p', e' + "|" + body');
    FirstField(e, body, e', body');
    FirstField(t, x, t', x');
  }

  lemma MessageIsInjective(a: Row, b: Row)
    requires Separable(a) && Separable(b)
    ensures MessageOf(a) == MessageOf(b) <==> SameContent(a, b)
  {
    if MessageOf(a) == MessageOf(b) {
      var headA := a.prevHash + "|" + a.eventType + "|" + Text(a.entityId) + "|" + Text(a.payload);
      var headB := b.prevHash + "|" + b.eventType + "|" + Text(b.entityId) + "|" + Text(b.payload);
      LastField(headA + "|" + a.createdAt, a.hubKeyId, headB + "|" + b.createdAt, b.hubKeyId);
      LastField(headA, a.createdAt, headB, b.createdAt);
      HeadIsInjective(a.prevHash, a.eventType, Text(a.entityId), Text(a.payload),
                      b.prevHash, b.eventType, Text(b.entityId), Text(b.payload));
    }
  }

  /** A separator inside any other field lets content move between fields under one hash. */
  lemma SeparatorInsideFieldCollides(row: Row, left: string, right: string)
    ensures var a := row.(eventType := left + "|" + right, entityId := None);
            var b := row.(eventType := left, entityId := Some(right), payload := Some("|" + Text(row.payload)));
            MessageOf(a) == MessageOf(b) && !SameContent(a, b)
  {
    var a := row.(eventType := left + "|" + right, entityId := None);
    var b := row.(eventType := left, entityId := Some(right), payload := Some("|" + Text(row.payload)));
    assert MessageOf(a) == row.prevHash + "|" + left + "|" + right + "||" + Text(row.payload) + "|" + row.createdAt + "|" + row.hubKeyId;
    assert MessageOf(b) == row.prevHash + "|" + left + "|" + right + "||" + Text(row.payload) + "|" + row.createdAt + "|" + row.hubKeyId;
  }

  // ---- What verification accepts ----

  /** Rows written before the chain existed; verification skips them. */
  predicate Legacy(row: Row) { row.hash == "" && row.prevHash == "" && row.hubKeyId == "" }

  /** The hash the next row must link to. */
  function LinkTip(rows: seq<Row>): string {
    if rows == [] then ""
    else if Legacy(rows[|rows| - 1]) then LinkTip(rows[..|rows| - 1])
    else rows[|rows| - 1].hash
  }

  /** How many rows are part of the chain. */
  function Chained(rows: seq<Row>): nat {
    if rows == [] then 0
    else Chained(rows[..|rows| - 1]) + if Legacy(rows[|rows| - 1]) then 0 else 1
  }

  datatype Fault = WrongLink | WrongHash

  /** What is wrong with a row that follows `before`. Rows under another key are only checked for their link. */
  function FaultOf(before: seq<Row>, row: Row, key: Key): Option<Fault> {
    if Legacy(row) then None
    else if row.prevHash != LinkTip(before) then Some(WrongLink)
    else if row.hubKeyId == key.hubKeyId && key.mac(MessageOf(row)) != row.hash then Some(WrongHash)
    else None
  }

  function FaultAt(rows: seq<Row>, key: Key, i: nat): Option<Fault>
    requires i < |rows|
  {
    FaultOf(rows[..i], rows[i], key)
  }

  ghost predicate Sound(rows: seq<Row>, key: Key) {
    forall i :: 0 <= i < |rows| ==> FaultAt(rows, key, i) == None
  }

  datatype Verification = Verification(ok: bool, checked: nat, firstBadId: Option<nat>, reason: Option<Fault>)

  /** The verdict names the least faulty row `i`. */
  ghost predicate Blames(v: Verification, rows: seq<Row>, key: Key, i: nat) {
    && i < |rows|
    && Sound(rows[..i], key)
    && FaultAt(rows, key, i).Some?
    && v == Verification(false, Chained(rows[..i]), Some(rows[i].id), FaultAt(rows, key, i))
  }

  class AuditLog {
    /** The table in id order. */
    var rows: seq<Row>
    var key: Key

    constructor (stored: seq<Row>, key: Key)
      ensures this.rows == stored && this.key == key
    {
      this.rows, this.key := stored, key;
    }

    method SetKey(key: Key)
      modifies this`key
      ensures this.key == key
    {
      this.key := key;
    }

    method ComputeHash(prevHash: string, eventType: string, entityId: Option<string>, payload: string,
                       createdAt: string, hubKeyId: string)
      returns (hash: string)
      ensures hash == key.mac(Message(prevHash, eventType, Text(entityId), payload, createdAt, hubKeyId))
    {
      var fed := prevHash;
      fed := fed + "|";
      fed := fed + eventType;
      fed := fed + "|";
      fed := fed + match entityId case Some(id) => id case None => "";
      fed := fed + "|";
      fed := fed + payload;
      fed := fed + "|";
      fed := fed + createdAt;
      fed := fed + "|";
      fed := fed + hubKeyId;
      hash := key.mac(fed);
    }

    method Record(eventType: string, entityId: Option<string>, payload: string, now: string)
      modifies this`rows
      ensures rows == Appended(old(rows), Entry(key, eventType, entityId, payload, now))
    {
      var prevHash := if rows == [] then "" else rows[|rows| - 1].hash;
      var hash := ComputeHash(prevHash, eventType, entityId, payload, now, key.hubKeyId);
      rows := rows + [Row(NextId(rows), eventType, entityId, Some(payload), now, prevHash, hash, key.hubKeyId)];
    }

    /** A history of records, each under the key installed before it. */
    method RecordAll(entries: seq<Entry>)
      modifies this
      ensures rows == AppendAll(old(rows), entries)
    {
      assert entries[..0] == [];
      for i := 0 to |entries|
        invariant rows == AppendAll(old(rows), entries[..i])
      {
        var e := entries[i];
        assert entries[..i + 1][..i] == entries[..i];
        SetKey(e.key);
        Record(e.eventType, e.entityId, e.payload, e.now);
      }
      assert entries[..|entries|] == entries;
    }

    /** Accepts exactly the logs without a faulty row, and otherwise names the first one. */
    method VerifyChain() returns (v: Verification)
      ensures v.ok <==> Sound(rows, key)
      ensures v.ok ==> v == Verification(true, Chained(rows), None, None)
      ensures !v.ok ==> exists i :: Blames(v, rows, key, i)
    {
      var checked, expectedPrev := 0, "";
      for i := 0 to |rows|
        invariant Sound(rows[..i], key)
        invariant checked == Chained(rows[..i]) && expectedPrev == LinkTip(rows[..i])
      {
        var row := rows[i];
        SoundStep(rows, key, i);
        if row.hash == "" && row.prevHash == "" && row.hubKeyId == "" {
          continue;
        }
        if row.prevHash != expectedPrev {
          v := Verification(false, checked, Some(row.id), Some(WrongLink));
          assert Blames(v, rows, key, i);
          return;
        }
        if row.hubKeyId != key.hubKeyId {
          expectedPrev := row.hash;
          checked := checked + 1;
          continue;
        }
        var recomputed := ComputeHash(row.prevHash, row.eventType, row.entityId, Text(row.payload), row.createdAt, row.hubKeyId);
        if recomputed != row.hash {
          v := Verification(false, checked, Some(row.id), Some(WrongHash));
          assert Blames(v, rows, key, i);
          return;
        }
        expectedPrev := row.hash;
        checked := checked + 1;
      }
      assert rows[..|rows|] == rows;
      v := Verification(true, checked, None, None);
    }
  }

  lemma SoundStep(rows: seq<Row>, key: Key, i: nat)
    requires i < |rows|
    ensures Sound(rows[..i + 1], key) <==> Sound(rows[..i], key) && FaultAt(rows, key, i) == None
    ensures LinkTip(rows[..i + 1]) == if Legacy(rows[i]) then LinkTip(rows[..i]) else rows[i].hash
    ensures Chained(rows[..i + 1]) == Chained(rows[..i]) + if Legacy(rows[i]) then 0 else 1
    ensures Sound(rows, key) ==> FaultAt(rows, key, i) == None
  {
    var longer := rows[..i + 1];
    assert longer[..i] == rows[..i];
    forall j | 0 <= j < i ensures FaultAt(longer, key, j) == FaultAt(rows[..i], key, j) {
      assert longer[..j] == rows[..i][..j];
    }
    assert FaultAt(longer, key, i) == FaultAt(rows, key, i);
  }

  // ---- Two verified chains with one tip ----

  ghost predicate Hex(key: Key) {
    forall m: string :: key.mac(m) != "" && NoPipe(key.mac(m))
  }

  /** A verified chain signed throughout with the current key, whose other fields hold no separator. */
  ghost predicate CurrentChain(rows: seq<Row>, key: Key) {
    && Sound(rows, key)
    && forall i :: 0 <= i < |rows| ==> SignedNow(rows[i], key)
  }

  ghost predicate SignedNow(row: Row, key: Key) {
    && !Legacy(row) && row.hubKeyId == key.hubKeyId
    && NoPipe(row.eventType) && NoPipe(Text(row.entityId)) && NoPipe(row.createdAt)
  }

  ghost predicate SameLog(a: seq<Row>, b: seq<Row>) {
    |a| == |b| && forall i :: 0 <= i < |a| ==> SameContent(a[i], b[i]) && a[i].hash == b[i].hash
  }

  /** Rows `i` and `j` sign different messages with one hash. */
  ghost predicate Collision(a: seq<Row>, b: seq<Row>, key: Key, i: nat, j: nat) {
    && i < |a| && j < |b|
    && MessageOf(a[i]) != MessageOf(b[j]) && key.mac(MessageOf(a[i])) == key.mac(MessageOf(b[j]))
  }

  lemma LastRow(rows: seq<Row>, key: Key)
    requires CurrentChain(rows, key) && rows != [] && Hex(key) && NoPipe(key.hubKeyId)
    ensures var n := |rows| - 1;
            && CurrentChain(rows[..n], key)
            && rows[n].prevHash == LinkTip(rows[..n])
            && rows[n].hash == LinkTip(rows) == key.mac(MessageOf(rows[n])) != ""
  {
    var n := |rows| - 1;
    SoundStep(rows, key, n);
    assert rows[..n + 1] == rows;
  }

  lemma TipHasNoPipe(rows: seq<Row>, key: Key)
    requires CurrentChain(rows, key) && Hex(key) && NoPipe(key.hubKeyId)
    ensures NoPipe(LinkTip(rows))
  {
    if rows != [] {
      LastRow(rows, key);
    }
  }

  /** Equal tips mean equal logs, row by row, unless the MAC itself collides on two of their rows. */
  lemma {:induction false} EqualTipsMeanEqualLogs(a: seq<Row>, b: seq<Row>, key: Key)
    requires CurrentChain(a, key) && CurrentChain(b, key) && Hex(key) && NoPipe(key.hubKeyId)
    requires LinkTip(a) == LinkTip(b)
    ensures SameLog(a, b) || exists i, j :: Collision(a, b, key, i, j)
    decreases |a|
  {
    if a != [] { LastRow(a, key); }
    if b != [] { LastRow(b, key); }
    if a != [] && b != [] {
      var n, m := |a| - 1, |b| - 1;
      if MessageOf(a[n]) != MessageOf(b[m]) {
        assert Collision(a, b, key, n, m);
      } else {
        TipHasNoPipe(a[..n], key);
        TipHasNoPipe(b[..m], key);
        MessageIsInjective(a[n], b[m]);
        EqualTipsMeanEqualLogs(a[..n], b[..m], key);
        if !SameLog(a[..n], b[..m]) {
          var i, j :| Collision(a[..n], b[..m], key, i, j);
          assert Collision(a, b, key, i, j);
        }
      }
    }
  }

  // ---- Which changes to a verified log are caught ----

  ghost predicate AllLegacy(rows: seq<Row>) {
    forall i :: 0 <= i < |rows| ==> Legacy(rows[i])
  }

  /** Rows that verify when they follow a log with this link tip. */
  ghost predicate SoundAfter(tip: string, rows: seq<Row>, key: Key)
    decreases |rows|
  {
    rows == [] ||
    if Legacy(rows[0]) then SoundAfter(tip, rows[1..], key)
    else
      && rows[0].prevHash == tip
      && (rows[0].hubKeyId == key.hubKeyId ==> key.mac(MessageOf(rows[0])) == rows[0].hash)
      && SoundAfter(rows[0].hash, rows[1..], key)
  }

  lemma {:induction false} SoundInParts(a: seq<Row>, b: seq<Row>, key: Key)
    ensures Sound(a + b, key) <==> Sound(a, key) && SoundAfter(LinkTip(a), b, key)
    decreases |b|
  {
    if b == [] {
      assert a + b == a;
    } else {
      var longer := a + [b[0]];
      assert longer + b[1..] == a + b;
      SoundInParts(longer, b[1..], key);
      assert longer[..|a|] == a && longer[..|a| + 1] == longer;
      SoundStep(longer, key, |a|);
    }
  }

  /** Only the first chained row reads the tip it follows. */
  lemma {:induction false} TipIsReadOnce(tip: string, other: string, rows: seq<Row>, key: Key)
    requires SoundAfter(tip, rows, key)
    ensures SoundAfter(other, rows, key) <==> other == tip || AllLegacy(rows)
  {
    if rows != [] && Legacy(rows[0]) {
      TipIsReadOnce(tip, other, rows[1..], key);
      assert AllLegacy(rows) <==> AllLegacy(rows[1..]) by {
        assert forall i :: 0 < i < |rows| ==> rows[i] == rows[1..][i - 1];
      }
    }
  }

  /**
    Whatever replaces the beginning of a verified log: the result verifies exactly when the
    new beginning does and links to what follows, unless nothing chained follows.
   */
  lemma BeginningReplaced(before: seq<Row>, changed: seq<Row>, rest: seq<Row>, key: Key)
    requires Sound(before + rest, key)
    ensures Sound(changed + rest, key)
       <==> Sound(changed, key) && (LinkTip(changed) == LinkTip(before) || AllLegacy(rest))
  {
    SoundInParts(before, rest, key);
    SoundInParts(changed, rest, key);
    TipIsReadOnce(LinkTip(before), LinkTip(changed), rest, key);
  }

  /**
    Deleting the rows from i up to j goes unnoticed exactly when the tip before them is the tip
    after them, or nothing chained follows.
   */
  lemma DeletionVerifies(rows: seq<Row>, key: Key, i: nat, j: nat)
    requires Sound(rows, key) && i <= j <= |rows|
    ensures Sound(rows[..i] + rows[j..], key) <==> LinkTip(rows[..i]) == LinkTip(rows[..j]) || AllLegacy(rows[j..])
  {
    assert rows == rows[..j] + rows[j..] == rows[..i] + rows[i..];
    SoundInParts(rows[..i], rows[i..], key);
    BeginningReplaced(rows[..j], rows[..i], rows[j..], key);
  }

  /** In particular, dropping rows from the end always does: only a remembered tip shows it. */
  lemma TruncationVerifies(rows: seq<Row>, key: Key, n: nat)
    requires Sound(rows, key) && n <= |rows|
    ensures Sound(rows[..n], key)
  {
    DeletionVerifies(rows, key, n, |rows|);
    assert rows[..n] + rows[|rows|..] == rows[..n];
  }

  /**
    Replacing row i goes unnoticed exactly when the new row has no fault in its place, and has
    the old row's effect on the link tip, unless nothing chained follows.
   */
  lemma ReplacementVerifies(rows: seq<Row>, key: Key, i: nat, r: Row)
    requires Sound(rows, key) && i < |rows|
    ensures Sound(rows[i := r], key)
       <==> FaultOf(rows[..i], r, key) == None
            && (LinkTip(rows[..i] + [r]) == LinkTip(rows[..i + 1]) || AllLegacy(rows[i + 1..]))
  {
    var changed := rows[..i] + [r];
    assert rows == rows[..i + 1] + rows[i + 1..] && rows[i := r] == changed + rows[i + 1..];
    BeginningReplaced(rows[..i + 1], changed, rows[i + 1..], key);
    assert rows == rows[..i] + rows[i..];
    SoundInParts(rows[..i], rows[i..], key);
    assert changed[..i] == rows[..i] && changed[..i + 1] == changed;
    SoundStep(changed, key, i);
  }

  /**
    Editing the content of a chained row in place, its two hashes kept, goes unnoticed exactly
    when the edited row claims another key or its message has the stored hash.
   */
  lemma EditVerifies(rows: seq<Row>, key: Key, i: nat, r: Row)
    requires Sound(rows, key) && i < |rows| && !Legacy(rows[i]) && !Legacy(r)
    requires r.prevHash == rows[i].prevHash && r.hash == rows[i].hash
    ensures Sound(rows[i := r], key) <==> r.hubKeyId != key.hubKeyId || key.mac(MessageOf(r)) == r.hash
  {
    ReplacementVerifies(rows, key, i, r);
    SoundStep(rows, key, i);
    assert (rows[..i] + [r])[..i] == rows[..i];
  }

  /** So any content may stand in a row with a hash once its key id is changed to another. */
  lemma OtherKeyIdHidesEdits(rows: seq<Row>, key: Key, i: nat, eventType: string, payload: Option<string>, hubKeyId: string)
    requires Sound(rows, key) && i < |rows| && rows[i].hash != "" && hubKeyId != key.hubKeyId
    ensures Sound(rows[i := rows[i].(eventType := eventType, payload := payload, hubKeyId := hubKeyId)], key)
  {
    EditVerifies(rows, key, i, rows[i].(eventType := eventType, payload := payload, hubKeyId := hubKeyId));
  }

  /**
    Inserting a row before row i goes unnoticed exactly when it has no fault there and leaves the
    tip as it was, unless nothing chained follows.
   */
  lemma InsertionVerifies(rows: seq<Row>, key: Key, i: nat, r: Row)
    requires Sound(rows, key) && i <= |rows|
    ensures Sound(rows[..i] + [r] + rows[i..], key)
       <==> FaultOf(rows[..i], r, key) == None
            && (LinkTip(rows[..i] + [r]) == LinkTip(rows[..i]) || AllLegacy(rows[i..]))
  {
    var changed := rows[..i] + [r];
    assert rows == rows[..i] + rows[i..];
    BeginningReplaced(rows[..i], changed, rows[i..], key);
    SoundInParts(rows[..i], rows[i..], key);
    assert changed[..i] == rows[..i] && changed[..i + 1] == changed;
    SoundStep(changed, key, i);
  }

  // ---- Recorded histories ----

  /** One call of `record`, with the key current at that time. */
  datatype Entry = Entry(key: Key, eventType: string, entityId: Option<string>, payload: string, now: string)

  function NextId(rows: seq<Row>): nat { if rows == [] then 1 else rows[|rows| - 1].id + 1 }

  function Appended(rows: seq<Row>, e: Entry): seq<Row> {
    var prevHash := if rows == [] then "" else rows[|rows| - 1].hash;
    var hash := e.key.mac(Message(prevHash, e.eventType, Text(e.entityId), e.payload, e.now, e.key.hubKeyId));
    rows + [Row(NextId(rows), e.eventType, e.entityId, Some(e.payload), e.now, prevHash, hash, e.key.hubKeyId)]
  }

  function AppendAll(rows: seq<Row>, entries: seq<Entry>): seq<Row> {
    if entries == [] then rows
    else Appended(AppendAll(rows, entries[..|entries| - 1]), entries[|entries| - 1])
  }

  /** The key with this id signs the row as it was signed when recorded. */
  ghost predicate KeyStillSigns(key: Key, e: Entry, row: Row) {
    e.key.hubKeyId == key.hubKeyId ==> e.key.mac(MessageOf(row)) == key.mac(MessageOf(row))
  }

  lemma {:induction false} LegacyIsUnchained(rows: seq<Row>, key: Key)
    requires AllLegacy(rows)
    ensures Sound(rows, key) && LinkTip(rows) == "" && Chained(rows) == 0
  {
    if rows != [] {
      LegacyIsUnchained(rows[..|rows| - 1], key);
    }
  }

  /** What one record does to a log whose last hash is its link tip. */
  lemma AppendedRow(rows: seq<Row>, e: Entry, key: Key)
    requires LinkTip(rows) == (if rows == [] then "" else rows[|rows| - 1].hash)
    requires Hex(e.key)
    ensures var after := Appended(rows, e);
            && |after| == |rows| + 1 && after[..|rows|] == rows
            && LinkTip(after) == after[|rows|].hash
            && Chained(after) == Chained(rows) + 1
            && (Sound(after, key) <==> Sound(rows, key) && KeyStillSigns(key, e, after[|rows|]))
  {
    var after := Appended(rows, e);
    assert after[..|rows|] == rows && after[..|rows| + 1] == after;
    SoundStep(after, key, |rows|);
  }

  /** Every recorded row is still signed as it was by any key that has its id. */
  ghost predicate AllStillSigned(key: Key, entries: seq<Entry>, rows: seq<Row>, from: nat)
    requires from + |entries| <= |rows|
  {
    forall i :: 0 <= i < |entries| ==> KeyStillSigns(key, entries[i], rows[from + i])
  }

  lemma StillSignedStep(key: Key, entries: seq<Entry>, before: seq<Row>, rows: seq<Row>, from: nat)
    requires entries != [] && from + |entries| == |rows| && before == rows[..|rows| - 1]
    ensures AllStillSigned(key, entries, rows, from)
       <==> AllStillSigned(key, entries[..|entries| - 1], before, from) && KeyStillSigns(key, entries[|entries| - 1], rows[|rows| - 1])
  {
    var n := |entries| - 1;
    assert forall i :: 0 <= i < n ==> entries[..n][i] == entries[i] && before[from + i] == rows[from + i];
    if AllStillSigned(key, entries, rows, from) {
      forall i | 0 <= i < n ensures KeyStillSigns(key, entries[..n][i], before[from + i]) {
        assert KeyStillSigns(key, entries[i], rows[from + i]);
      }
      assert KeyStillSigns(key, entries[n], rows[from + n]);
    }
    if AllStillSigned(key, entries[..n], before, from) && KeyStillSigns(key, entries[n], rows[from + n]) {
      forall i | 0 <= i < |entries| ensures KeyStillSigns(key, entries[i], rows[from + i]) {
        if i < n {
          assert KeyStillSigns(key, entries[..n][i], before[from + i]);
        }
      }
    }
  }

  /** What holds of `rows`, made of `legacy` rows and one row for each entry. */
  ghost predicate History(legacy: seq<Row>, entries: seq<Entry>, rows: seq<Row>, key: Key) {
    && |rows| == |legacy| + |entries|
    && rows[..|legacy|] == legacy
    && LinkTip(rows) == (if rows == [] then "" else rows[|rows| - 1].hash)
    && Chained(rows) == |entries|
    && (Sound(rows, key) <==> AllStillSigned(key, entries, rows, |legacy|))
  }

  lemma HistoryStep(legacy: seq<Row>, entries: seq<Entry>, before: seq<Row>, key: Key)
    requires entries != [] && Hex(entries[|entries| - 1].key)
    requires History(legacy, entries[..|entries| - 1], before, key)
    ensures History(legacy, entries, Appended(before, entries[|entries| - 1]), key)
  {
    var e := entries[|entries| - 1];
    var rows := Appended(before, e);
    AppendedRow(before, e, key);
    assert rows[..|legacy|] == before[..|legacy|];
    StillSignedStep(key, entries, before, rows, |legacy|);
  }

  /**
    Legacy rows followed by records verify exactly when the current key, wherever it has the id
    of a recording key, still signs that key's rows as they were signed; the chain then counts
    every record and no legacy row.
   */
  lemma {:induction false} RecordedHistoryVerifies(legacy: seq<Row>, entries: seq<Entry>, key: Key)
    requires AllLegacy(legacy)
    requires forall i :: 0 <= i < |entries| ==> Hex(entries[i].key)
    ensures History(legacy, entries, AppendAll(legacy, entries), key)
    decreases |entries|
  {
    if entries == [] {
      LegacyIsUnchained(legacy, key);
    } else {
      RecordedHistoryVerifies(legacy, entries[..|entries| - 1], key);
      HistoryStep(legacy, entries, AppendAll(legacy, entries[..|entries| - 1]), key);
    }
  }

  // ---- What a fault is, and what a record holds ----

  ghost predicate Unsigned(row: Row) { row.prevHash == row.hash == row.hubKeyId == "" }

  ghost predicate UnsignedBetween(rows: seq<Row>, from: int, to: int) {
    forall k :: 0 <= k < |rows| && from <= k < to ==> Unsigned(rows[k])
  }

  ghost predicate LastSigned(rows: seq<Row>, i: int, j: int) {
    0 <= j < i <= |rows| && !Unsigned(rows[j]) && UnsignedBetween(rows, j + 1, i)
  }

  /** The last signed row before row i has this hash; with none before it, the link is empty. */
  ghost predicate Links(rows: seq<Row>, i: nat, link: string) {
    && (UnsignedBetween(rows, 0, i) ==> link == "")
    && (forall j :: LastSigned(rows, i, j) ==> link == rows[j].hash)
  }

  ghost function Piped(fields: seq<string>): string {
    if fields == [] then "" else if |fields| == 1 then fields[0] else fields[0] + ("|" + Piped(fields[1..]))
  }

  lemma MessageIsPiped(p: string, e: string, x: string, y: string, t: string, k: string)
    ensures Message(p, e, x, y, t, k) == Piped([p, e, x, y, t, k])
  {
    var m1 := t + ("|" + k);
    var m2 := y + ("|" + m1);
    var m3 := x + ("|" + m2);
    var m4 := e + ("|" + m3);
    assert [t, k][1..] == [k] && Piped([t, k]) == m1;
    assert [y, t, k][1..] == [t, k] && Piped([y, t, k]) == m2;
    assert [x, y, t, k][1..] == [y, t, k] && Piped([x, y, t, k]) == m3;
    assert [e, x, y, t, k][1..] == [x, y, t, k] && Piped([e, x, y, t, k]) == m4;
    assert [p, e, x, y, t, k][1..] == [e, x, y, t, k];
    assert p + "|" + e + "|" + x + "|" + y + "|" + m1 == Message(p, e, x, y, t, k);
    assert p + "|" + e + "|" + x + "|" + m2 == p + "|" + e + "|" + x + "|" + y + "|" + m1;
    assert p + "|" + e + "|" + m3 == p + "|" + e + "|" + x + "|" + m2;
    assert p + ("|" + m4) == p + "|" + e + "|" + m3;
  }

  lemma {:induction false} TipLinks(rows: seq<Row>, i: nat)
    requires i <= |rows|
    ensures Links(rows, i, LinkTip(rows[..i]))
  {
    if i > 0 {
      TipLinks(rows, i - 1);
      assert rows[..i][..i - 1] == rows[..i - 1];
      if Unsigned(rows[i - 1]) {
        LinksPassOver(rows, i, LinkTip(rows[..i]));
      } else {
        assert LastSigned(rows, i, i - 1);
      }
    }
  }

  /** An unsigned row passes the link on. */
  lemma LinksPassOver(rows: seq<Row>, i: nat, link: string)
    requires 0 < i <= |rows| && Unsigned(rows[i - 1])
    ensures Links(rows, i, link) <==> Links(rows, i - 1, link)
  {
    assert UnsignedBetween(rows, 0, i) <==> UnsignedBetween(rows, 0, i - 1);
    forall j ensures LastSigned(rows, i, j) <==> LastSigned(rows, i - 1, j) {
    }
  }

  lemma {:induction false} OneLink(rows: seq<Row>, i: nat, a: string, b: string)
    requires i <= |rows| && Links(rows, i, a) && Links(rows, i, b)
    ensures a == b
  {
    if i > 0 {
      if Unsigned(rows[i - 1]) {
        LinksPassOver(rows, i, a);
        LinksPassOver(rows, i, b);
        OneLink(rows, i - 1, a, b);
      } else {
        assert LastSigned(rows, i, i - 1);
      }
    }
  }

  /**
    A signed row is at fault when it does not name the hash of the last signed row before it,
    or else when it claims the current key and its hash is not that key's MAC of its own fields.
   */
  lemma FaultIs(rows: seq<Row>, key: Key, i: nat, link: string)
    requires i < |rows| && Links(rows, i, link)
    ensures var r := rows[i];
      var message := Piped([r.prevHash, r.eventType, Text(r.entityId), Text(r.payload), r.createdAt, r.hubKeyId]);
      && (FaultAt(rows, key, i) == Some(WrongLink) <==> !Unsigned(r) && r.prevHash != link)
      && (FaultAt(rows, key, i) == Some(WrongHash) <==>
            !Unsigned(r) && r.prevHash == link && r.hubKeyId == key.hubKeyId && r.hash != key.mac(message))
  {
    var r := rows[i];
    TipLinks(rows, i);
    OneLink(rows, i, link, LinkTip(rows[..i]));
    MessageIsPiped(r.prevHash, r.eventType, Text(r.entityId), Text(r.payload), r.createdAt, r.hubKeyId);
  }

  /** The row holds what was recorded, under the key of that time, after a row with this id and hash. */
  ghost predicate Holds(row: Row, e: Entry, lastId: nat, lastHash: string) {
    && row.id == lastId + 1 && row.prevHash == lastHash && row.hubKeyId == e.key.hubKeyId
    && row.eventType == e.eventType && row.entityId == e.entityId && row.payload == Some(e.payload) && row.createdAt == e.now
    && row.hash == e.key.mac(Piped([lastHash, e.eventType, Text(e.entityId), e.payload, e.now, e.key.hubKeyId]))
  }

  /** Row n holds the record, chained to the row before it. */
  ghost predicate HoldsAt(rows: seq<Row>, n: nat, e: Entry) {
    && n < |rows|
    && if n == 0 then Holds(rows[n], e, 0, "") else Holds(rows[n], e, rows[n - 1].id, rows[n - 1].hash)
  }

  lemma HoldsStays(rows: seq<Row>, longer: seq<Row>, n: nat, e: Entry)
    requires HoldsAt(rows, n, e) && rows <= longer
    ensures HoldsAt(longer, n, e)
  {
  }

  /** Every record is held in its own row, in order, chained to the row before it; older rows stay. */
  lemma HistoryHoldsItsRecords(stored: seq<Row>, entries: seq<Entry>, i: nat)
    requires i < |entries|
    ensures var rows := AppendAll(stored, entries);
            |rows| == |stored| + |entries| && stored <= rows && HoldsAt(rows, |stored| + i, entries[i])
  {
    AppendedLength(stored, entries);
    AppendedLength(stored, entries[..i]);
    AppendedHolds(AppendAll(stored, entries[..i]), entries[i]);
    assert entries[..i + 1][..i] == entries[..i];
    RowsStay(stored, entries, i + 1);
    HoldsStays(AppendAll(stored, entries[..i + 1]), AppendAll(stored, entries), |stored| + i, entries[i]);
  }

  lemma {:induction false} RowsStay(stored: seq<Row>, entries: seq<Entry>, n: nat)
    requires n <= |entries|
    ensures AppendAll(stored, entries[..n]) <= AppendAll(stored, entries)
    decreases |entries|
  {
    if n == |entries| {
      assert entries[..n] == entries;
    } else {
      var before := entries[..|entries| - 1];
      RowsStay(stored, before, n);
      assert before[..n] == entries[..n];
    }
  }

  lemma AppendedHolds(rows: seq<Row>, e: Entry)
    ensures HoldsAt(Appended(rows, e), |rows|, e)
  {
    var lastHash := if rows == [] then "" else rows[|rows| - 1].hash;
    MessageIsPiped(lastHash, e.eventType, Text(e.entityId), e.payload, e.now, e.key.hubKeyId);
  }

  lemma {:induction false} AppendedLength(stored: seq<Row>, entries: seq<Entry>)
    ensures |AppendAll(stored, entries)| == |stored| + |entries| && stored <= AppendAll(stored, entries)
  {
    if entries != [] {
      AppendedLength(stored, entries[..|entries| - 1]);
    }
  }
}
