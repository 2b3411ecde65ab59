/** The hash-chained audit log (auth/audit.py). The table is the sequence of its rows in order. */
module AuditLog {
  import opened Basics

  /** Sixty-four zeros: what the first event records as its predecessor. */
  function Genesis(): string { seq(64, _ => '0') }

  /** Everything an event's hash covers. Metadata values are JSON texts. */
  datatype Body = Body(
    sequence: int, eventId: string, createdAtUtc: string, actorSubject: string, action: string,
    resourceKind: string, resourceId: string, outcome: string, metadata: map<string, string>, previousHash: string)

  datatype Event = Event(body: Body, eventHash: string)

  type Log = seq<Event>

  type Digest = Body -> string

  /** The caller's arguments; an empty time or id stands for an omitted one. */
  datatype Entry = Entry(
    actorSubject: string, action: string, resourceKind: string, resourceId: string, outcome: string,
    metadata: map<string, string>, createdAtUtc: string, eventId: string)

  // ----- what append accepts

  function SensitiveFragments(): seq<string> { ["password", "secret", "token", "authorization", "credential"] }

  predicate ContainsAt(text: string, fragment: string, at: nat) {
    at + |fragment| <= |text| && text[at..at + |fragment|] == fragment
  }

  predicate Contains(text: string, fragment: string) {
    exists at: nat :: at <= |text| && ContainsAt(text, fragment, at)
  }

  predicate IsSensitive(key: string) {
    exists i :: 0 <= i < |SensitiveFragments()| && Contains(Lower(key), SensitiveFragments()[i])
  }

  predicate HasBlankField(entry: Entry) {
    || Trim(entry.actorSubject) == "" || Trim(entry.action) == "" || Trim(entry.resourceKind) == ""
    || Trim(entry.resourceId) == "" || Upper(Trim(entry.outcome)) == ""
  }

  predicate HasSensitiveMetadata(entry: Entry) {
    exists key :: key in entry.metadata && IsSensitive(key)
  }

  // ----- the table

  function LastSequence(log: Log): int { if log == [] then 0 else log[|log| - 1].body.sequence }

  /** The hash of the last row, or the genesis value. */
  function LastHash(log: Log): string { if log == [] then Genesis() else log[|log| - 1].eventHash }

  predicate HasId(log: Log, id: string) { exists i :: 0 <= i < |log| && log[i].body.eventId == id }

  predicate HasHash(log: Log, hash: string) { exists i :: 0 <= i < |log| && log[i].eventHash == hash }

  /** What the table's own constraints keep: rows in order of their key, unique ids and hashes. */
  ghost predicate Constrained(log: Log) {
    forall i, j :: 0 <= i < j < |log| ==>
      && log[i].body.sequence < log[j].body.sequence
      && log[i].body.eventId != log[j].body.eventId
      && log[i].eventHash != log[j].eventHash
  }

  /** The row that `append` would insert, given the clock's time and a fresh identifier. */
  function NextEvent(digest: Digest, log: Log, entry: Entry, now: string, freshId: string): Event {
    var body := Body(
      LastSequence(log) + 1,
      if entry.eventId == "" then freshId else entry.eventId,
      if entry.createdAtUtc == "" then now else entry.createdAtUtc,
      Trim(entry.actorSubject), Trim(entry.action), Trim(entry.resourceKind), Trim(entry.resourceId),
      Upper(Trim(entry.outcome)), entry.metadata, LastHash(log));
    Event(body, digest(body))
  }

  function Append(digest: Digest, log: Log, entry: Entry, now: string, freshId: string): Result<Event> {
    var event := NextEvent(digest, log, entry, now, freshId);
    if HasBlankField(entry) then Err("audit actor/action/resource/outcome fields must be non-empty")
    else if HasSensitiveMetadata(entry) then Err("audit metadata must not contain sensitive field")
    else if HasId(log, event.body.eventId) || HasHash(log, event.eventHash) then Err("UNIQUE constraint failed")
    else Ok(event)
  }

  function Appended(log: Log, result: Result<Event>): Log {
    if result.Ok? then log + [result.value] else log
  }

  // ----- the chain

  predicate LinkHolds(digest: Digest, log: Log, i: nat)
    requires i < |log|
  {
    && log[i].body.sequence == i + 1
    && log[i].body.previousHash == (if i == 0 then Genesis() else log[i - 1].eventHash)
    && log[i].eventHash == digest(log[i].body)
  }

  /** What `verify` checks, for every row at once. */
  ghost predicate Chained(digest: Digest, log: Log) {
    forall i :: 0 <= i < |log| ==> LinkHolds(digest, log, i)
  }

  ghost predicate Accepts(digest: Digest, log: Log, expectedHead: Option<string>) {
    Chained(digest, log) && (expectedHead.Some? ==> LastHash(log) == expectedHead.value)
  }

  /** The log is accepted exactly when its rows are numbered from one, each hash is the digest of its row, each row
      names the digest of the row before it and the first the genesis value, and the last digest is the expected one. */
  lemma AcceptsExactlyWhen(digest: Digest, log: Log, expectedHead: Option<string>)
    ensures Accepts(digest, log, expectedHead) <==>
      Numbered(log) && DigestsMatch(digest, log) && (expectedHead.Some? ==> expectedHead.value == DigestBefore(digest, log, |log|))
  {
    hide Genesis;
    if Chained(digest, log) {
      forall i | 0 <= i < |log|
        ensures log[i].body.sequence == i + 1 && log[i].eventHash == digest(log[i].body)
        ensures log[i].body.previousHash == DigestBefore(digest, log, i)
      {
        assert LinkHolds(digest, log, i) && (i > 0 ==> LinkHolds(digest, log, i - 1));
      }
    }
    if Numbered(log) && DigestsMatch(digest, log) {
      forall i | 0 <= i < |log| ensures LinkHolds(digest, log, i) {
        assert log[i].body.sequence == i + 1 && log[i].body.previousHash == DigestBefore(digest, log, i);
        assert i > 0 ==> log[i - 1].eventHash == digest(log[i - 1].body);
      }
    }
  }

  /** The digest of the row before the `i`-th, or the genesis value. */
  function DigestBefore(digest: Digest, log: Log, i: nat): string
    requires i <= |log|
  {
    if i == 0 then Genesis() else digest(log[i - 1].body)
  }

  predicate Numbered(log: Log) { forall i :: 0 <= i < |log| ==> log[i].body.sequence == i + 1 }

  ghost predicate DigestsMatch(digest: Digest, log: Log) {
    forall i :: 0 <= i < |log| ==>
      log[i].eventHash == digest(log[i].body) && log[i].body.previousHash == DigestBefore(digest, log, i)
  }

  datatype Verification = Verification(eventCount: nat, headHash: string)

  class TamperEvidentAuditLog {
    const digest: Digest
    var events: Log

    constructor (digest: Digest)
      ensures this.digest == digest && events == []
    {
      this.digest := digest;
      this.events := [];
    }

    method AppendEvent(entry: Entry, now: string, freshId: string) returns (r: Result<Event>)
      modifies this`events
      ensures r == Append(digest, old(events), entry, now, freshId)
      ensures events == Appended(old(events), r)
    {
      hide Trim, Upper, Genesis, HasId, HasHash, HasSensitiveMetadata;
      var actor := Trim(entry.actorSubject);
      var action := Trim(entry.action);
      var kind := Trim(entry.resourceKind);
      var resource := Trim(entry.resourceId);
      var outcome := Upper(Trim(entry.outcome));
      if actor == "" || action == "" || kind == "" || resource == "" || outcome == "" {
        return Err("audit actor/action/resource/outcome fields must be non-empty");
      }
      if HasSensitiveMetadata(entry) {
        return Err("audit metadata must not contain sensitive field");
      }
      var timestamp := if entry.createdAtUtc == "" then now else entry.createdAtUtc;
      var identifier := if entry.eventId == "" then freshId else entry.eventId;
      var sequence, previousHash := 1, Genesis();
      if events != [] {
        var row := events[|events| - 1];
        sequence, previousHash := row.body.sequence + 1, row.eventHash;
      }
      var body := Body(sequence, identifier, timestamp, actor, action, kind, resource, outcome, entry.metadata, previousHash);
      var eventHash := digest(body);
      assert NextEvent(digest, events, entry, now, freshId) == Event(body, eventHash);
      hide NextEvent;
      if HasId(events, identifier) || HasHash(events, eventHash) {
        return Err("UNIQUE constraint failed");
      }
      events := events + [Event(body, eventHash)];
      r := Ok(Event(body, eventHash));
    }

    /** Accepts exactly the logs whose every link holds and whose head is the anchor, when one is given. */
    method Verify(expectedHeadHash: Option<string>) returns (r: Result<Verification>)
      ensures r.Ok? <==> Accepts(digest, events, expectedHeadHash)
      ensures r.Ok? ==> r.value == Verification(|events|, LastHash(events))
    {
      var previousHash := Genesis();
      for i := 0 to |events|
        invariant previousHash == LastHash(events[..i])
        invariant forall j :: 0 <= j < i ==> LinkHolds(digest, events, j)
      {
        var event := events[i];
        if event.body.sequence != i + 1 || event.body.previousHash != previousHash {
          assert !LinkHolds(digest, events, i);
          return Err("audit chain sequence or previous hash is invalid");
        }
        var actual := digest(event.body);
        if actual != event.eventHash {
          assert !LinkHolds(digest, events, i);
          return Err("audit chain hash mismatch");
        }
        previousHash := actual;
      }
      assert events[..|events|] == events;
      if expectedHeadHash.Some? && previousHash != expectedHeadHash.value {
        return Err("audit chain head does not match external anchor");
      }
      r := Ok(Verification(|events|, previousHash));
    }
  }

  // ----- logs built by append

  datatype Call = Call(entry: Entry, now: string, freshId: string)

  /** The log after a run of calls, failed ones included. */
  function Built(digest: Digest, calls: seq<Call>): Log {
    if calls == [] then []
    else
      var log, call := Built(digest, calls[..|calls| - 1]), calls[|calls| - 1];
      Appended(log, Append(digest, log, call.entry, call.now, call.freshId))
  }

  lemma AppendKeepsChain(digest: Digest, log: Log, entry: Entry, now: string, freshId: string)
    requires Chained(digest, log)
    ensures Chained(digest, Appended(log, Append(digest, log, entry, now, freshId)))
  {
    hide HasBlankField, HasSensitiveMetadata, HasId, HasHash, Trim, Upper, Genesis;
    var event := NextEvent(digest, log, entry, now, freshId);
    var extended := log + [event];
    if log != [] {
      assert LinkHolds(digest, log, |log| - 1);
    }
    forall i | 0 <= i < |extended| ensures LinkHolds(digest, extended, i) {
      if i < |log| {
        assert LinkHolds(digest, log, i);
        assert i > 0 ==> extended[i - 1] == log[i - 1];
      }
    }
  }

  lemma AppendKeepsConstraints(digest: Digest, log: Log, entry: Entry, now: string, freshId: string)
    requires Constrained(log)
    ensures Constrained(Appended(log, Append(digest, log, entry, now, freshId)))
  {
    hide HasBlankField, HasSensitiveMetadata, Trim, Upper, Genesis;
  }

  /** Every log built by append verifies, keeps the table's constraints, and only ever grows. */
  lemma {:induction false} BuiltLogVerifies(digest: Digest, calls: seq<Call>, n: nat)
    requires n <= |calls|
    ensures Chained(digest, Built(digest, calls)) && Constrained(Built(digest, calls))
    ensures Built(digest, calls[..n]) <= Built(digest, calls)
    decreases |calls|
  {
    hide Chained, Constrained, Append;
    if calls == [] {
      EmptyLogVerifies(digest);
    } else {
      var prefix, call := calls[..|calls| - 1], calls[|calls| - 1];
      BuiltLogVerifies(digest, prefix, if n < |calls| then n else |calls| - 1);
      AppendKeepsChain(digest, Built(digest, prefix), call.entry, call.now, call.freshId);
      AppendKeepsConstraints(digest, Built(digest, prefix), call.entry, call.now, call.freshId);
      if n < |calls| {
        assert prefix[..n] == calls[..n];
      } else {
        assert calls[..n] == calls;
      }
    }
  }

  lemma EmptyLogVerifies(digest: Digest)
    ensures Chained(digest, []) && Constrained([])
  {}

  // ----- what the head hash fixes

  /** A digest without collisions that never yields the genesis value. */
  ghost predicate CollisionFree(digest: Digest) {
    && (forall a: Body, b: Body :: digest(a) == digest(b) ==> a == b)
    && (forall a: Body :: digest(a) != Genesis())
  }

  /** In chained logs an event hash determines its row, its place and everything before it. */
  lemma {:induction false} HashFixesPrefix(digest: Digest, a: Log, b: Log, i: nat, j: nat)
    requires CollisionFree(digest) && Chained(digest, a) && Chained(digest, b)
    requires i < |a| && j < |b| && a[i].eventHash == b[j].eventHash
    ensures i == j && a[..i + 1] == b[..i + 1]
  {
    hide Genesis;
    assert LinkHolds(digest, a, i) && LinkHolds(digest, b, j);
    assert a[i].body == b[j].body;
    if i > 0 {
      assert a[i - 1].eventHash == b[i - 1].eventHash;
      HashFixesPrefix(digest, a, b, i - 1, i - 1);
      assert a[..i + 1] == a[..i] + [a[i]] && b[..i + 1] == b[..i] + [b[i]];
    }
  }

  lemma HeadIsNotGenesis(digest: Digest, log: Log)
    requires CollisionFree(digest) && Chained(digest, log) && log != []
    ensures LastHash(log) != Genesis()
  {
    hide Genesis;
    assert LinkHolds(digest, log, |log| - 1);
  }

  /** The anchored head fixes length, order and content: against the head of a verifying log, `verify`
      accepts that log and no other. */
  lemma AnchorAcceptsOnlyItsLog(digest: Digest, log: Log, presented: Log)
    requires CollisionFree(digest) && Chained(digest, log)
    ensures Accepts(digest, presented, Some(LastHash(log))) <==> presented == log
  {
    hide Genesis;
    if Accepts(digest, presented, Some(LastHash(log))) {
      if log != [] {
        HeadIsNotGenesis(digest, log);
      }
      if presented != [] {
        HeadIsNotGenesis(digest, presented);
      }
      if log != [] && presented != [] {
        HashFixesPrefix(digest, presented, log, |presented| - 1, |log| - 1);
        assert presented[..|presented|] == presented && log[..|log|] == log;
      }
    }
  }

  /** Without an anchor a truncated log still verifies; with the anchor it does not. */
  lemma TruncationNeedsTheAnchor(digest: Digest, log: Log, n: nat)
    requires CollisionFree(digest) && Chained(digest, log) && n < |log|
    ensures Accepts(digest, log[..n], None)
    ensures !Accepts(digest, log[..n], Some(LastHash(log)))
  {
    hide Genesis;
    forall i | 0 <= i < n ensures LinkHolds(digest, log[..n], i) {
      assert LinkHolds(digest, log, i);
    }
    AnchorAcceptsOnlyItsLog(digest, log, log[..n]);
  }

  /** Without collisions, append on a verifying log fails only for its caller's own reasons. */
  lemma AppendFailsExactlyWhen(digest: Digest, log: Log, entry: Entry, now: string, freshId: string)
    requires CollisionFree(digest) && Chained(digest, log)
    ensures Append(digest, log, entry, now, freshId).Err? <==>
      HasBlankField(entry) || HasSensitiveMetadata(entry) || HasId(log, if entry.eventId == "" then freshId else entry.eventId)
  {
    hide HasBlankField, HasSensitiveMetadata, Trim, Upper, Genesis;
    var event := NextEvent(digest, log, entry, now, freshId);
    if log != [] {
      assert LinkHolds(digest, log, |log| - 1);
    }
    NextHashIsNew(digest, log, event.body);
  }

  lemma NextHashIsNew(digest: Digest, log: Log, body: Body)
    requires CollisionFree(digest) && Chained(digest, log) && body.sequence == |log| + 1
    ensures !HasHash(log, digest(body))
  {
    forall i | 0 <= i < |log| ensures log[i].eventHash != digest(body) {
      assert LinkHolds(digest, log, i);
    }
  }
}
