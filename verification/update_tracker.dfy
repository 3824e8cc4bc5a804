/**
 * The update tracker's change detector (`check_update_status`) and its
 * bootstrap writer (`ensure_update_json_exists`).
 *
 * Each tick looks at the status file's timestamp. Timestamp 0 means the file
 * is absent: at most one waiting message every 10 seconds, nothing else. An
 * unchanged timestamp is a no-op. A new timestamp is recorded first, then the
 * file is read, and `progress`, `status` and `step` are each taken from it
 * when present; the resulting snapshot is committed and shown.
 */
module UpdateTracker {
  import opened Wrappers
  import opened JsonField
  import opened CNumbers
  import opened StatusDocument
  import opened FileAccess

  /** The status file (the simulator build's path). */
  const UpdateJsonPath: string := "current_update_step.json"
  /** `JSON_BUFFER_SIZE`: the read buffer, so at most 511 bytes are read. */
  const JsonBufferSize: nat := 512
  /** `value_str[32]`, the buffer the progress token is copied into. */
  const ProgressTextSize: nat := 32
  /** `char status[64]` and `char step[64]` of `update_status_t`. */
  const TextFieldSize: nat := 64
  /** Minimum time between two waiting messages, in milliseconds. */
  const LogInterval: int := 10000

  /** `update_status_t`: the snapshot shown on screen. */
  datatype UpdateStatus = UpdateStatus(progress: int, status: string, step: string)

  /** The initial `current_status`. */
  const InitialStatus: UpdateStatus := UpdateStatus(0, "System Ready", "Waiting for update")

  /** The strings fit their 64-character arrays together with the terminator. */
  predicate WellFormed(s: UpdateStatus)
  {
    |s.status| < TextFieldSize && '\0' !in s.status &&
    |s.step| < TextFieldSize && '\0' !in s.step
  }

  /** The value extracted for `key` when there is one, else the previous value. */
  function FieldOr(text: string, key: string, maxLen: nat, previous: string): string
    requires maxLen >= 1
  {
    match ParseJsonValue(text, key, maxLen)
    case Some(v) => v
    case None => previous
  }

  /**
   * The snapshot after reading `text`: each field independently, and a field
   * that cannot be extracted keeps its previous value.
   */
  function ApplyDocument(text: string, s: UpdateStatus): (r: UpdateStatus)
    ensures WellFormed(s) ==> WellFormed(r)
    ensures |r.status| < TextFieldSize || r.status == s.status
    ensures |r.step| < TextFieldSize || r.step == s.step
  {
    var progress :=
      match ParseJsonValue(text, "progress", ProgressTextSize)
      case Some(v) => Atoi(v)
      case None => s.progress;
    UpdateStatus(progress, FieldOr(text, "status", TextFieldSize, s.status),
                 FieldOr(text, "step", TextFieldSize, s.step))
  }

  /** The globals `last_modified_time`, `current_status` and the static `last_log_time`. */
  datatype PollState = PollState(lastModifiedTime: int, current: UpdateStatus, lastLogTime: int)

  const InitialState: PollState := PollState(0, InitialStatus, 0)

  /** What a tick did that can be observed: the log line, or the snapshot pushed to the screen. */
  datatype TickOutcome =
    | Waiting(logged: bool)
    | Unchanged
    | ReadFailed
    | Updated(shown: UpdateStatus)

  datatype Tick = Tick(state: PollState, outcome: TickOutcome)

  /** One call of `check_update_status` at time `now` (milliseconds). */
  function Poll(st: PollState, files: Files, now: int): (r: Tick)
    ensures var ts := Timestamp(files, UpdateJsonPath);
      && (r.outcome.Waiting? <==> ts == 0)
      && (r.outcome.Unchanged? <==> ts != 0 && ts == st.lastModifiedTime)
      && (r.outcome.ReadFailed? <==>
            ts != 0 && ts != st.lastModifiedTime && ReadFile(files, UpdateJsonPath, JsonBufferSize).None?)
      && (r.state.lastModifiedTime == if ts == 0 then st.lastModifiedTime else ts)
    ensures r.outcome.Waiting? ==>
      (r.outcome.logged <==> now - st.lastLogTime > LogInterval) &&
      r.state.lastLogTime == (if r.outcome.logged then now else st.lastLogTime)
    ensures !r.outcome.Waiting? ==> r.state.lastLogTime == st.lastLogTime
    ensures r.outcome.Updated? ==>
      r.outcome.shown == r.state.current &&
      r.state.current == ApplyDocument(ReadFile(files, UpdateJsonPath, JsonBufferSize).value, st.current)
    ensures !r.outcome.Updated? ==> r.state.current == st.current
  {
    var ts := Timestamp(files, UpdateJsonPath);
    if ts == 0 then
      if now - st.lastLogTime > LogInterval then Tick(st.(lastLogTime := now), Waiting(true))
      else Tick(st, Waiting(false))
    else if ts == st.lastModifiedTime then Tick(st, Unchanged)
    else
      var recorded := st.(lastModifiedTime := ts);
      match ReadFile(files, UpdateJsonPath, JsonBufferSize)
      case None => Tick(recorded, ReadFailed)
      case Some(text) =>
        var s := ApplyDocument(text, st.current);
        Tick(recorded.(current := s), Updated(s))
  }

  // ---------------------------------------------------------------------
  // Properties of a tick and of successive ticks
  // ---------------------------------------------------------------------

  /** A tick keeps the snapshot's strings within their arrays. */
  lemma PollPreservesWellFormed(st: PollState, files: Files, now: int)
    requires WellFormed(st.current)
    ensures WellFormed(Poll(st, files, now).state.current)
  {
  }

  /**
   * A file that is present is processed once per timestamp: the tick after
   * any tick sees the same timestamp and does nothing, whether the read
   * succeeded or failed.
   */
  lemma ChangeSeenOnce(st: PollState, files: Files, now: int, later: int)
    requires Timestamp(files, UpdateJsonPath) != 0
    ensures var first := Poll(st, files, now);
      Poll(first.state, files, later) == Tick(first.state, Unchanged)
  {
  }

  /** A failed read is not retried while the timestamp stays the same. */
  lemma ReadFailureNotRetried(st: PollState, files: Files, now: int, later: int)
    requires Poll(st, files, now).outcome == ReadFailed
    ensures var first := Poll(st, files, now);
      first.state.current == st.current &&
      Poll(first.state, files, later) == Tick(first.state, Unchanged)
  {
    ChangeSeenOnce(st, files, now, later);
  }

  /** Two waiting messages are more than 10 seconds apart. */
  lemma WaitingMessagesThrottled(st: PollState, files: Files, now: int, files2: Files, later: int)
    requires Poll(st, files, now).outcome == Waiting(true)
    requires Poll(Poll(st, files, now).state, files2, later).outcome == Waiting(true)
    ensures later - now > LogInterval
  {
  }

  /**
   * The timestamp is all the tracker compares: a rewrite that keeps the
   * modification time (`stat` has a resolution of one second) goes unseen.
   */
  lemma SameTimestampRewriteUnseen(st: PollState, files: Files, now: int, content: string, later: int)
    requires Timestamp(files, UpdateJsonPath) != 0
    ensures var first := Poll(st, files, now);
      var rewritten := files[UpdateJsonPath := FileEntry(Timestamp(files, UpdateJsonPath), content, true)];
      Poll(first.state, rewritten, later) == Tick(first.state, Unchanged)
  {
  }

  /** Reading the same document twice gives the snapshot of reading it once. */
  lemma ApplyDocumentIdempotent(text: string, s: UpdateStatus)
    ensures ApplyDocument(text, ApplyDocument(text, s)) == ApplyDocument(text, s)
  {
  }

  /** A document without the quoted key `"status"` keeps the previous status text. */
  lemma MissingStatusKept(text: string, s: UpdateStatus)
    requires forall i :: !OccursAt(CStr(text), "\"status\"", i)
    ensures ApplyDocument(text, s).status == s.status
  {
    assert SearchKey("status") == "\"status\"";
    ParseKeyAbsent(text, "status", TextFieldSize);
  }

  /** A document without the quoted key `"step"` keeps the previous step text. */
  lemma MissingStepKept(text: string, s: UpdateStatus)
    requires forall i :: !OccursAt(CStr(text), "\"step\"", i)
    ensures ApplyDocument(text, s).step == s.step
  {
    assert SearchKey("step") == "\"step\"";
    ParseKeyAbsent(text, "step", TextFieldSize);
  }

  /** A document without the quoted key `"progress"` keeps the previous progress. */
  lemma MissingProgressKept(text: string, s: UpdateStatus)
    requires forall i :: !OccursAt(CStr(text), "\"progress\"", i)
    ensures ApplyDocument(text, s).progress == s.progress
  {
    assert SearchKey("progress") == "\"progress\"";
    ParseKeyAbsent(text, "progress", ProgressTextSize);
  }

  /**
   * A document in the tracker's own layout is read back field by field, with
   * the strings cut to their arrays and the progress token through `atoi`.
   */
  lemma ApplyLayout(progressText: string, status: string, step: string, s: UpdateStatus)
    requires PlainToken(progressText) && PlainText(status) && PlainText(step)
    ensures ApplyDocument(Document(progressText, status, step), s) ==
      UpdateStatus(Atoi(Truncate(progressText, ProgressTextSize)),
                   Truncate(status, TextFieldSize), Truncate(step, TextFieldSize))
  {
    ExtractProgress(progressText, status, step, ProgressTextSize);
    ExtractStatus(progressText, status, step, TextFieldSize);
    ExtractStep(progressText, status, step, TextFieldSize);
  }

  // ---------------------------------------------------------------------
  // Bootstrap
  // ---------------------------------------------------------------------

  /**
   * The document `ensure_update_json_exists` writes: the layout with progress
   * `0`, status `System Ready` and step `Waiting for update`.
   */
  const DefaultDocument: string := Document("0", "System Ready", "Waiting for update")

  /** The default fields can be written in the layout and read back. */
  lemma DefaultFieldsPlain()
    ensures PlainToken("0") && PlainText("System Ready") && PlainText("Waiting for update")
  {
  }

  /** The default fields fit their buffers, and `atoi("0")` is 0. */
  lemma DefaultFieldsFit()
    ensures Atoi(Truncate("0", ProgressTextSize)) == 0
    ensures Truncate("System Ready", TextFieldSize) == "System Ready"
    ensures Truncate("Waiting for update", TextFieldSize) == "Waiting for update"
  {
    assert Truncate("0", ProgressTextSize) == "0";
    AtoiAllDigits("0");
  }

  /** The default document fits the read buffer and holds no NUL. */
  lemma DefaultDocumentFits()
    ensures |DefaultDocument| == 86 && '\0' !in DefaultDocument
  {
    DefaultFieldsPlain();
    DocumentWithoutNul("0", "System Ready", "Waiting for update");
  }

  /** Reading the default document gives the initial snapshot, whatever was shown before. */
  lemma DefaultDocumentYieldsInitialStatus(s: UpdateStatus)
    ensures ApplyDocument(DefaultDocument, s) == InitialStatus
  {
    DefaultFieldsPlain();
    ApplyLayout("0", "System Ready", "Waiting for update", s);
    DefaultFieldsFit();
  }

  /** The file system after `ensure_update_json_exists`. */
  function Bootstrap(files: Files, acceptsWrites: bool, mtime: int): (r: Files)
    ensures UpdateJsonPath in r <==> UpdateJsonPath in files || acceptsWrites
    ensures r != files ==> UpdateJsonPath in r && r[UpdateJsonPath] == FileEntry(mtime, DefaultDocument, true)
  {
    if Timestamp(files, UpdateJsonPath) != 0 || !acceptsWrites then files
    else files[UpdateJsonPath := FileEntry(mtime, DefaultDocument, true)]
  }

  /** Bootstrap touches nothing once the file has a timestamp, and no other path ever. */
  lemma BootstrapNeverOverwrites(files: Files, acceptsWrites: bool, mtime: int)
    ensures Timestamp(files, UpdateJsonPath) != 0 ==> Bootstrap(files, acceptsWrites, mtime) == files
    ensures forall p :: p != UpdateJsonPath ==>
      (p in Bootstrap(files, acceptsWrites, mtime) <==> p in files) &&
      (p in files ==> Bootstrap(files, acceptsWrites, mtime)[p] == files[p])
  {
  }

  /** Running the bootstrap twice is running it once. */
  lemma BootstrapIdempotent(files: Files, acceptsWrites: bool, mtime: int)
    ensures var once := Bootstrap(files, acceptsWrites, mtime);
      Bootstrap(once, acceptsWrites, mtime) == once
  {
  }

  /**
   * After the bootstrap has created the file, the next tick reads it and
   * shows the initial snapshot.
   */
  lemma BootstrapThenPoll(st: PollState, files: Files, mtime: int, now: int)
    requires Timestamp(files, UpdateJsonPath) == 0 && mtime != 0 && mtime != st.lastModifiedTime
    ensures var r := Poll(st, Bootstrap(files, true, mtime), now);
      r == Tick(st.(lastModifiedTime := mtime, current := InitialStatus), Updated(InitialStatus))
  {
    var created := Bootstrap(files, true, mtime);
    DefaultDocumentFits();
    assert DefaultDocument[..|DefaultDocument|] == DefaultDocument;
    assert ReadFile(created, UpdateJsonPath, JsonBufferSize) == Some(DefaultDocument);
    DefaultDocumentYieldsInitialStatus(st.current);
  }

  // ---------------------------------------------------------------------
  // The stateful tracker
  // ---------------------------------------------------------------------

  /** A fresh `size`-character array holding the C string `s`. */
  method NewCString(s: string, size: nat) returns (a: array<char>)
    requires |s| < size
    ensures fresh(a) && a.Length == size && a[..|s|] == s && a[|s|] == '\0'
  {
    a := new char[size]((i: int) => if 0 <= i < |s| then s[i] else '\0');
  }

  /** What a field's array holds, read as a C string, after the extractor ran on it. */
  lemma FieldAfterParse(json: string, key: string, before: string, after: string, previous: string)
    requires '\0' !in previous && |previous| < |before| && before[..|previous|] == previous
    requires before[|previous|] == '\0' && |before| >= TextFieldSize
    requires var r := ParseJsonValue(json, key, TextFieldSize);
      if r.Some? then
        |after| == |before| && after[..|r.value|] == r.value && after[|r.value|] == '\0'
      else after == before
    ensures CStr(after) == FieldOr(json, key, TextFieldSize, previous)
  {
    var r := ParseJsonValue(json, key, TextFieldSize);
    if r.Some? {
      CStrOfTerminated(after, r.value);
    } else {
      CStrOfTerminated(before, previous);
    }
  }

  /** Reading the padded read buffer gives the snapshot of reading the bytes read. */
  lemma ApplyOfPadded(text: string, s: UpdateStatus)
    requires |text| < JsonBufferSize
    ensures ApplyDocument(Padded(text, JsonBufferSize), s) == ApplyDocument(text, s)
  {
    ParseOfPadded(text, JsonBufferSize, "progress", ProgressTextSize);
    ParseOfPadded(text, JsonBufferSize, "status", TextFieldSize);
    ParseOfPadded(text, JsonBufferSize, "step", TextFieldSize);
  }

  /** The `progress` part of `check_update_status`: `atoi` of the token copied into `value_str`. */
  method ParseProgress(json: string, previous: int) returns (progress: int)
    ensures progress == match ParseJsonValue(json, "progress", ProgressTextSize)
      case Some(v) => Atoi(v)
      case None => previous
  {
    progress := previous;
    var valueStr := new char[ProgressTextSize];
    var found := ParseJsonValueInto(json, "progress", valueStr, ProgressTextSize);
    if found {
      var v := ParseJsonValue(json, "progress", ProgressTextSize).value;
      CStrOfTerminated(valueStr[..], v);
      progress := Atoi(CStr(valueStr[..]));
    }
  }

  /** A text field: the extractor writes into the array that holds the previous text. */
  method ParseTextField(json: string, key: string, previous: string) returns (text: string)
    requires |previous| < TextFieldSize && '\0' !in previous
    ensures text == FieldOr(json, key, TextFieldSize, previous)
  {
    var field := NewCString(previous, TextFieldSize);
    ghost var before := field[..];
    var found := ParseJsonValueInto(json, key, field, TextFieldSize);
    FieldAfterParse(json, key, before, field[..], previous);
    text := CStr(field[..]);
  }

  /** The three extractions of `check_update_status`, starting from the current snapshot. */
  method ParseSnapshot(json: string, current: UpdateStatus) returns (s: UpdateStatus)
    requires WellFormed(current)
    ensures s == ApplyDocument(json, current)
  {
    var progress := ParseProgress(json, current.progress);
    var status := ParseTextField(json, "status", current.status);
    var step := ParseTextField(json, "step", current.step);
    s := UpdateStatus(progress, status, step);
  }

  /**
   * The times of the waiting messages printed so far: more than `LogInterval`
   * apart, the last one at `lastLogTime`.
   */
  ghost predicate LogsSpaced(logs: seq<int>, lastLogTime: int)
  {
    (logs != [] ==> logs[|logs| - 1] == lastLogTime) &&
    forall i :: 0 < i < |logs| ==> logs[i] - logs[i - 1] > LogInterval
  }

  /** Printing at `now` keeps the messages spaced when the throttle lets it through. */
  lemma LogAppendSpaced(logs: seq<int>, lastLogTime: int, now: int)
    requires LogsSpaced(logs, lastLogTime) && now - lastLogTime > LogInterval
    ensures LogsSpaced(logs + [now], now)
  {
  }

  class Tracker {
    var lastModifiedTime: int
    var currentStatus: UpdateStatus
    var lastLogTime: int
    /** Every snapshot pushed to the screen, oldest first. */
    ghost var shown: seq<UpdateStatus>
    /** The times at which the waiting message was printed. */
    ghost var waitingLogs: seq<int>

    /**
     * The snapshot fits its arrays, and the waiting messages printed so far
     * are more than `LogInterval` apart, the last one at `lastLogTime`.
     */
    ghost predicate Valid()
      reads this
    {
      WellFormed(currentStatus) && LogsSpaced(waitingLogs, lastLogTime)
    }

    function State(): PollState
      reads this
    {
      PollState(lastModifiedTime, currentStatus, lastLogTime)
    }

    constructor()
      ensures Valid() && State() == InitialState
      ensures shown == [] && waitingLogs == []
    {
      lastModifiedTime := 0;
      currentStatus := InitialStatus;
      lastLogTime := 0;
      shown := [];
      waitingLogs := [];
    }

    /** The status file is absent: print the waiting message unless one was printed recently. */
    method NoteWaiting(now: int) returns (logged: bool)
      requires Valid()
      modifies this
      ensures Valid()
      ensures logged <==> now - old(lastLogTime) > LogInterval
      ensures lastLogTime == (if logged then now else old(lastLogTime))
      ensures waitingLogs == old(waitingLogs) + (if logged then [now] else [])
      ensures lastModifiedTime == old(lastModifiedTime) && currentStatus == old(currentStatus)
      ensures shown == old(shown)
    {
      logged := now - lastLogTime > LogInterval;
      if logged {
        LogAppendSpaced(waitingLogs, lastLogTime, now);
        waitingLogs := waitingLogs + [now];
        lastLogTime := now;
      }
    }

    /** The timestamp is new: read the file and, when that succeeds, commit and show its snapshot. */
    method ReadChange(fs: FileSystem) returns (outcome: TickOutcome)
      requires Valid()
      modifies this
      ensures Valid()
      ensures lastModifiedTime == old(lastModifiedTime) && lastLogTime == old(lastLogTime)
      ensures waitingLogs == old(waitingLogs)
      ensures match ReadFile(fs.files, UpdateJsonPath, JsonBufferSize)
        case None => outcome == ReadFailed && currentStatus == old(currentStatus) && shown == old(shown)
        case Some(text) =>
          currentStatus == ApplyDocument(text, old(currentStatus)) &&
          outcome == Updated(currentStatus) && shown == old(shown) + [currentStatus]
    {
      var buffer := new char[JsonBufferSize];
      var ok := fs.ReadFileContents(UpdateJsonPath, buffer);
      if !ok {
        return ReadFailed;
      }
      var snapshot := ParseSnapshot(buffer[..], currentStatus);
      ApplyOfPadded(ReadFile(fs.files, UpdateJsonPath, JsonBufferSize).value, currentStatus);
      currentStatus := snapshot;
      shown := shown + [currentStatus];
      outcome := Updated(currentStatus);
    }

    /** `check_update_status`: one tick of the tracker at time `now`. */
    method CheckUpdateStatus(fs: FileSystem, now: int) returns (outcome: TickOutcome)
      requires Valid()
      modifies this
      ensures Valid()
      ensures Tick(State(), outcome) == Poll(old(State()), fs.files, now)
      ensures shown == old(shown) + (if outcome.Updated? then [outcome.shown] else [])
      ensures waitingLogs == old(waitingLogs) + (if outcome == Waiting(true) then [now] else [])
    {
      var fileTime := fs.GetFileTimestamp(UpdateJsonPath);
      if fileTime == 0 {
        var logged := NoteWaiting(now);
        return Waiting(logged);
      }
      if fileTime != lastModifiedTime {
        lastModifiedTime := fileTime;
      } else {
        return Unchanged;
      }
      outcome := ReadChange(fs);
    }
  }

  /** `ensure_update_json_exists`, with `mtime` the time the file system stamps a new file with. */
  method EnsureUpdateJsonExists(fs: FileSystem, mtime: int)
    modifies fs
    ensures fs.files == Bootstrap(old(fs.files), old(fs.acceptsWrites), mtime)
    ensures fs.acceptsWrites == old(fs.acceptsWrites)
  {
    var ts := fs.GetFileTimestamp(UpdateJsonPath);
    if ts != 0 {
      return;
    }
    var ok := fs.WriteFileContents(UpdateJsonPath, DefaultDocument, mtime);
    DefaultDocumentFits();
    CStrWithoutNul(DefaultDocument);
  }
}
