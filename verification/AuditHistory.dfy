/** What an audit log says about the calls that built it (auth/audit.py). */
module AuditHistory {
  import opened Basics
  import opened AuditLog

  // ----- the caller's own reasons

  predicate IsBlank(text: string) { forall c :: c in text ==> IsSpace(c) }

  predicate IsSecretWord(word: string) { word in {"password", "secret", "token", "authorization", "credential"} }

  predicate StartsAt(text: string, word: string, at: nat) { at <= |text| && word <= text[at..] }

  /** Some key of the metadata, in lower case, contains a secret word. */
  ghost predicate NamesSecret(metadata: map<string, string>) {
    exists key, word, at: nat :: key in metadata && IsSecretWord(word) && StartsAt(Lower(key), word, at)
  }

  lemma SecretExactlyWhen(entry: Entry)
    ensures HasSensitiveMetadata(entry) <==> NamesSecret(entry.metadata)
  {
    hide Lower;
    if HasSensitiveMetadata(entry) {
      var key :| key in entry.metadata && IsSensitive(key);
      SensitiveExactlyWhen(Lower(key));
    }
    if NamesSecret(entry.metadata) {
      var key, word, at: nat :| key in entry.metadata && IsSecretWord(word) && StartsAt(Lower(key), word, at);
      SensitiveExactlyWhen(Lower(key));
    }
  }

  lemma SensitiveExactlyWhen(text: string)
    ensures (exists i :: 0 <= i < |SensitiveFragments()| && Contains(text, SensitiveFragments()[i]))
       <==> exists word, at: nat :: IsSecretWord(word) && StartsAt(text, word, at)
  {
    var fragments := SensitiveFragments();
    if i :| 0 <= i < |fragments| && Contains(text, fragments[i]) {
      var at: nat :| at <= |text| && ContainsAt(text, fragments[i], at);
      SameOccurrence(text, fragments[i], at);
      assert IsSecretWord(fragments[i]) && StartsAt(text, fragments[i], at);
    }
    if word, at: nat :| IsSecretWord(word) && StartsAt(text, word, at) {
      SameOccurrence(text, word, at);
      assert fragments[0] == word || fragments[1] == word || fragments[2] == word || fragments[3] == word || fragments[4] == word;
      assert Contains(text, word);
    }
  }

  lemma SameOccurrence(text: string, word: string, at: nat)
    ensures StartsAt(text, word, at) <==> ContainsAt(text, word, at)
  {}

  predicate NamesEverything(entry: Entry) {
    !IsBlank(entry.actorSubject) && !IsBlank(entry.action) && !IsBlank(entry.resourceKind) && !IsBlank(entry.resourceId) && !IsBlank(entry.outcome)
  }

  lemma BlankFieldExactlyWhen(entry: Entry)
    ensures HasBlankField(entry) <==> !NamesEverything(entry)
  {
    hide Trim;
    BlankExactlyWhen(entry.actorSubject);
    BlankExactlyWhen(entry.action);
    BlankExactlyWhen(entry.resourceKind);
    BlankExactlyWhen(entry.resourceId);
    BlankExactlyWhen(entry.outcome);
    assert Upper(Trim(entry.outcome)) == "" <==> Trim(entry.outcome) == "";
  }

  function IdOf(call: Call): string { if call.entry.eventId == "" then call.freshId else call.entry.eventId }

  /** The calls of a run that leave a row: complete, without secrets, and with an id no earlier one of them had. */
  ghost function Recorded(calls: seq<Call>): seq<Call> {
    if calls == [] then []
    else
      var before, call := Recorded(calls[..|calls| - 1]), calls[|calls| - 1];
      if NamesEverything(call.entry) && !NamesSecret(call.entry.metadata) && forall c :: c in before ==> IdOf(c) != IdOf(call)
      then before + [call] else before
  }

  // ----- the rows

  /** Row `i` of the log records `call`: its fields trimmed, its outcome in upper case, its metadata as given, its place
      in the sequence, the hash of the row before, and the digest of all of it. */
  ghost predicate RowRecords(digest: Digest, log: Log, i: nat, call: Call)
    requires i < |log|
  {
    var body := log[i].body;
    && body.sequence == i + 1
    && body.eventId == IdOf(call)
    && body.createdAtUtc == (if call.entry.createdAtUtc == "" then call.now else call.entry.createdAtUtc)
    && body.actorSubject == Trim(call.entry.actorSubject) && body.action == Trim(call.entry.action)
    && body.resourceKind == Trim(call.entry.resourceKind) && body.resourceId == Trim(call.entry.resourceId)
    && body.outcome == Upper(Trim(call.entry.outcome)) && body.metadata == call.entry.metadata
    && body.previousHash == (if i == 0 then Genesis() else log[i - 1].eventHash)
    && log[i].eventHash == digest(body)
  }

  ghost predicate LogRecords(digest: Digest, log: Log, calls: seq<Call>) {
    |log| == |calls| && forall i :: 0 <= i < |log| ==> RowRecords(digest, log, i, calls[i])
  }

  lemma NextRowRecords(digest: Digest, log: Log, calls: seq<Call>, call: Call)
    requires Chained(digest, log) && LogRecords(digest, log, calls)
    ensures LogRecords(digest, log + [NextEvent(digest, log, call.entry, call.now, call.freshId)], calls + [call])
  {
    hide Trim, Upper, Genesis;
    var extended := log + [NextEvent(digest, log, call.entry, call.now, call.freshId)];
    if log != [] {
      assert LinkHolds(digest, log, |log| - 1);
    }
    forall i | 0 <= i < |extended| ensures RowRecords(digest, extended, i, (calls + [call])[i]) {
      if i < |log| {
        assert RowRecords(digest, log, i, calls[i]);
        assert i > 0 ==> extended[i - 1] == log[i - 1];
      }
    }
  }

  lemma IdTakenExactlyWhen(digest: Digest, log: Log, calls: seq<Call>, id: string)
    requires LogRecords(digest, log, calls)
    ensures HasId(log, id) <==> exists c :: c in calls && IdOf(c) == id
  {
    hide Trim, Upper, Genesis;
    if HasId(log, id) {
      var i :| 0 <= i < |log| && log[i].body.eventId == id;
      assert RowRecords(digest, log, i, calls[i]);
      assert calls[i] in calls;
    }
    if c :| c in calls && IdOf(c) == id {
      var i :| 0 <= i < |calls| && calls[i] == c;
      assert RowRecords(digest, log, i, calls[i]);
    }
  }

  /** With a collision-free digest, the log of any run of calls holds exactly one row for each recordable call, in
      order, and each row holds what its call said. */
  lemma {:induction false} LogIsItsCalls(digest: Digest, calls: seq<Call>)
    requires CollisionFree(digest)
    ensures LogRecords(digest, Built(digest, calls), Recorded(calls))
  {
    hide Append, NextEvent, LogRecords, NamesEverything, NamesSecret, CollisionFree, Chained, HasBlankField, HasSensitiveMetadata;
    if calls == [] {
      NothingRecorded(digest);
    } else {
      var prefix, call := calls[..|calls| - 1], calls[|calls| - 1];
      LogIsItsCalls(digest, prefix);
      BuiltLogVerifies(digest, prefix, 0);
      AppendRecords(digest, Built(digest, prefix), Recorded(prefix), call);
    }
  }

  lemma NothingRecorded(digest: Digest)
    ensures LogRecords(digest, [], [])
  {}

  /** One call more. */
  lemma AppendRecords(digest: Digest, log: Log, calls: seq<Call>, call: Call)
    requires CollisionFree(digest) && Chained(digest, log) && LogRecords(digest, log, calls)
    ensures var recordable := NamesEverything(call.entry) && !NamesSecret(call.entry.metadata) && forall c :: c in calls ==> IdOf(c) != IdOf(call);
      LogRecords(digest, Appended(log, Append(digest, log, call.entry, call.now, call.freshId)), if recordable then calls + [call] else calls)
  {
    hide NextEvent, LogRecords, NamesEverything, NamesSecret, CollisionFree, Chained, HasBlankField, HasSensitiveMetadata;
    SecretExactlyWhen(call.entry);
    BlankFieldExactlyWhen(call.entry);
    IdTakenExactlyWhen(digest, log, calls, IdOf(call));
    AppendFailsExactlyWhen(digest, log, call.entry, call.now, call.freshId);
    NextRowRecords(digest, log, calls, call);
  }
}
