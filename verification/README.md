# Update tracker: a Dafny model

This project models the update-status core of stratus-updatetracker's custom
screen (`custom/custom.c`). The tracker polls a status file (a small JSON
document that holds `progress`, `status` and `step`) and shows a snapshot of
it on screen. In the simulator build, a generator rewrites that file with
the eight phases of an update. The modelled parts are:

- `JsonField`: `parse_json_value`, a minimal field extractor working on C strings.
  - It finds the first occurrence of the quoted key and the next `:`.
  - It skips blanks, then copies a quoted string or a bare token, cut to fit
    the destination buffer.
  - It is given both as functions over `seq<char>` and as the source's
    pointer loops writing into an `array<char>`.
- `CNumbers`: `atoi` and the `%d` conversion, and the round trip between them.
- `StatusDocument`: the fixed three-line layout of the documents the core writes
  itself, and where the extractor finds each field in that layout.
- `FileAccess`: `get_file_timestamp`, `read_file_contents` and
  `write_file_contents`.
  - These work over an abstract file system: a map from path to modification
    time, content and readability.
  - The file system is a class whose methods update that map.
- `UpdateTracker`:
  - `check_update_status`, as a pure transition `Poll` over the globals
    `last_modified_time`, `current_status` and the static `last_log_time`;
  - a `Tracker` class whose method is proved equal to `Poll`;
  - `ensure_update_json_exists`.
- `Simulator`: `simulate_update_cycle`, as a class holding the function-static
  `update_phase`.

Time is a parameter.
- The poll receives `now` in milliseconds, the clock behind the throttle of
  the waiting message.
- A write receives `mtime`, the modification time the file system gives the
  written file.

Console messages are modelled as the outcome of a tick: whether the waiting
message was printed, or which snapshot was shown. The `Tracker` class also
keeps them in ghost logs.

What is proved, in the system's terms:
- the extractor's success and failure cases;
- `atoi` reading back what `%d` wrote;
- every document the core writes being read back by the tracker as the
  values written;
- a change in the file being processed once per timestamp;
- every two waiting messages the tracker prints being more than ten seconds apart, an invariant of the `Tracker` class;
- the bootstrap never overwriting an existing file;
- the simulator's phase counter and progress values.

A read failure after a new timestamp still records that timestamp
(`custom/custom.c:287-299`). So the same change is not read again on later
ticks while the timestamp stays the same, as
`UpdateTracker.ReadFailureNotRetried` proves.

## Model

| member | source | states |
|---|---|---|
| JsonField.CStr | custom/custom.c:206 | the text a C string pointer denotes: the longest NUL-free prefix, ended by the NUL when there is one |
| JsonField.CStrCut | custom/custom.c:241 | nothing after a NUL is visible to the scan |
| JsonField.SearchKey | custom/custom.c:199-203 | the search key is the key in double quotes, cut to 63 characters by the 64-byte buffer, and always starts with a quote |
| JsonField.ValueSpan | custom/custom.c:206-244 | where the value of a field lies in the text: the first key, the next `:`, the blanks, then the quoted text or the bare token; none when the key, the colon or the closing quote is missing; the span always lies inside the text |
| JsonField.FindSubstring | custom/custom.c:206-209 | `strstr`: the first position at or after `from` where the pattern occurs, or none when it occurs nowhere |
| JsonField.FindChar | custom/custom.c:212-215 | `strchr`: the first position at or after `from` holding the character, or none when no position does |
| JsonField.SkipBlanks | custom/custom.c:218-221 | the first position after the colon that is not space, tab, newline or carriage return |
| JsonField.TokenEnd | custom/custom.c:240-244 | a bare value runs to the first `,`, `}`, blank or the end of the text |
| JsonField.Truncate | custom/custom.c:246-249 | a value longer than `max_len - 1` is cut to `max_len - 1` characters, a shorter one is kept whole, and the result is a prefix of the value |
| JsonField.ParseJsonValue | custom/custom.c:197-255 | an extracted value always fits its buffer together with its terminator and holds no NUL |
| JsonField.QuotedSpan | custom/custom.c:223-237 | for a value starting with `"` after the colon and blanks, the span runs from after the opening quote to the next quote |
| JsonField.BareSpan | custom/custom.c:238-251 | for any other value, the span is the token from the first non-blank character to its end |
| JsonField.ParseStringValue | custom/custom.c:224-237 | success on a quoted value: the text between the quotes, cut to the buffer |
| JsonField.ParseBareValue | custom/custom.c:238-252 | success on a bare value: the token, cut to the buffer |
| JsonField.ParseFromSpan | custom/custom.c:231-251 | in a NUL-free text, the value copied is the span's text cut to the buffer |
| JsonField.ParseKeyAbsent | custom/custom.c:206-209 | failure when the quoted key does not occur |
| JsonField.ParseNoColon | custom/custom.c:212-215 | failure when no `:` follows the first occurrence of the key |
| JsonField.UnterminatedSpan | custom/custom.c:224-229 | a quoted value with no closing quote has no span |
| JsonField.ParseUnterminated | custom/custom.c:224-229 | failure when a quoted value has no closing quote |
| JsonField.ParseStopsAtNul | custom/custom.c:206 | the extractor's answer does not depend on anything after the first NUL |
| JsonField.FirstOccurrenceUnique | custom/custom.c:206 | the search finds exactly the first occurrence of the key |
| JsonField.LocateValue | custom/custom.c:206-244 | the pointer scans (key, colon, blanks, closing quote or token end) find the value's span, and none exactly when the extractor fails |
| JsonField.CopyTerminated | custom/custom.c:236-237 | `memcpy` then the terminator: the buffer holds the value, a NUL after it, and the rest of the buffer is unchanged |
| JsonField.ParseJsonValueInto | custom/custom.c:197-255 | answers true exactly when a value is found; then the buffer holds that value and a NUL, the rest untouched; on false the buffer is not written at all |
| CNumbers.SkipSpaces | custom/custom.c:303 | `atoi` skips leading white space, the six characters `isspace` accepts |
| CNumbers.LeadingDigits | custom/custom.c:303 | `atoi` reads the longest run of digits and stops at the first non-digit |
| CNumbers.Decimal | custom/custom.c:418 | `%d` of a non-negative number is a non-empty digit string with no leading zero, denoting that number |
| CNumbers.FormatInt | custom/custom.c:418 | `%d` of a number starts with `-` exactly when the number is negative |
| CNumbers.DecimalLength | custom/custom.c:411-418 | a progress below 100 is written with at most two digits |
| CNumbers.Atoi | custom/custom.c:303 | `atoi`: white space, an optional sign, then digits; no digit after the white space gives 0, and a negative result comes only from a leading `-` |
| CNumbers.AtoiAllDigits | custom/custom.c:303 | `atoi` of a string of digits is the number it denotes |
| CNumbers.AtoiFormatInt | custom/custom.c:303 | `atoi` reads back every number `%d` writes |
| StatusDocument.Document | custom/custom.c:376-380 | the three-field layout of the literal at 376-380 and of the simulator's format string at 416-421: 55 characters besides the three field texts |
| StatusDocument.LayoutOfProgressLine | custom/custom.c:376-377 | where the opening brace, the key `"progress"`, the colon, the token and the separator sit in the layout |
| StatusDocument.LayoutOfStatusLine | custom/custom.c:378 | where the key `"status"` and its quoted value sit in the layout |
| StatusDocument.LayoutFromStatus | custom/custom.c:379-380 | where the key `"step"`, its quoted value and the closing brace sit in the layout |
| StatusDocument.DocumentWithoutNul | custom/custom.c:376-380 | the layout holds no NUL when its fields hold none |
| StatusDocument.ExtractProgress | custom/custom.c:377 | the extractor reads the layout's `progress` field as its token, cut to the buffer |
| StatusDocument.ExtractStatus | custom/custom.c:378 | the extractor reads the layout's `status` field as its text, cut to the buffer |
| StatusDocument.ExtractStep | custom/custom.c:379 | the extractor reads the layout's `step` field as its text, cut to the buffer, whatever the status text |
| StatusDocument.DocumentStepLine | custom/custom.c:378-379 | the step line follows the status line, the status text lies between the status quotes and the step text between the step quotes |
| StatusDocument.NoStepKeyBefore | custom/custom.c:376-378 | when the status text is not `step`, the key `"step"` does not occur before the step line |
| StatusDocument.StepSpan | custom/custom.c:206-237 | when the status text is not `step`, the key is first found on the step line, and the value found is the step text |
| StatusDocument.StepSpanAfterStepStatus | custom/custom.c:206-237 | when the status text is `step`, the key `"step"` is first found as the quoted status value, but the next `:` is the step line's, so the value found is still the step text |
| FileAccess.ReadFile | custom/custom.c:138-149 | POSIX read: fails exactly when the file is absent, cannot be opened or yields no byte; otherwise the first `min(size, max_size - 1)` bytes |
| FileAccess.Padded | custom/custom.c:144-145 | the buffer after a read: the bytes read, then NULs up to its size |
| FileAccess.ParseOfPadded | custom/custom.c:144-148 | the zero padding of the read buffer never changes what the extractor finds |
| FileAccess.Timestamp | custom/custom.c:98-113 | the timestamp `stat` gives: 0 for an absent file, and a non-zero timestamp only for a present file, as its modification time |
| FileAccess.FileSystem.GetFileTimestamp | custom/custom.c:106-112 | the modification time of the file, or 0 when `stat` fails |
| FileAccess.FileSystem.ReadFileContents | custom/custom.c:139-148 | true exactly when `ReadFile` succeeds; the buffer then holds the bytes read followed by NULs; a file that cannot be opened leaves the buffer untouched; an opened file that yields nothing leaves it all NUL |
| FileAccess.FileSystem.WriteFileContents | custom/custom.c:171-190 | when the file can be opened for writing, it holds the C string written, with the new modification time; otherwise nothing changes |
| UpdateTracker.ApplyDocument | custom/custom.c:301-315 | each field is taken from the document when it can be extracted; a field that cannot keeps its previous value; the text fields stay within their 64-byte arrays |
| UpdateTracker.Poll | custom/custom.c:260-339 | timestamp 0: wait, logging only when more than 10000 ms have passed since the last log; same timestamp: nothing; new timestamp: recorded, then a failed read changes nothing else and a good read commits and shows the snapshot of the document read |
| UpdateTracker.PollPreservesWellFormed | custom/custom.c:66-70 | every tick keeps the status and step texts within their 64-byte arrays |
| UpdateTracker.ChangeSeenOnce | custom/custom.c:286-293 | the tick after any tick that saw the file does nothing while the timestamp stays the same |
| UpdateTracker.ReadFailureNotRetried | custom/custom.c:287-299 | a failed read leaves the snapshot alone but records the timestamp, so the next tick does not read the file again |
| UpdateTracker.WaitingMessagesThrottled | custom/custom.c:279-282 | waiting messages printed on two successive ticks are more than 10000 ms apart |
| UpdateTracker.LogAppendSpaced | custom/custom.c:279-282 | a message the throttle lets through keeps all printed waiting messages more than 10000 ms apart, the last one at `last_log_time` |
| UpdateTracker.SameTimestampRewriteUnseen | custom/custom.c:287-293 | a rewrite of the file that keeps its modification time is never read |
| UpdateTracker.ApplyDocumentIdempotent | custom/custom.c:301-315 | reading the same document twice gives the snapshot of reading it once |
| UpdateTracker.MissingProgressKept | custom/custom.c:302-304 | a document without the key `"progress"` keeps the previous progress |
| UpdateTracker.MissingStatusKept | custom/custom.c:306-308 | a document without the key `"status"` keeps the previous status text |
| UpdateTracker.MissingStepKept | custom/custom.c:310-312 | a document without the key `"step"` keeps the previous step text |
| UpdateTracker.ApplyLayout | custom/custom.c:301-312 | a document in the layout becomes the snapshot of its fields (any status and step text without quote or NUL): the status and step cut to 63 characters, the progress through `atoi` of the token cut to 31 |
| UpdateTracker.DefaultFieldsPlain | custom/custom.c:376-380 | the default fields hold no quote, no NUL and no token terminator |
| UpdateTracker.DefaultFieldsFit | custom/custom.c:376-380 | the default fields fit their buffers, and the progress token reads as 0 |
| UpdateTracker.DefaultDocumentFits | custom/custom.c:376-380 | the default document is 86 characters long and holds no NUL |
| UpdateTracker.DefaultDocumentYieldsInitialStatus | custom/custom.c:93 | reading the default document gives the initial `current_status`, whatever was shown before |
| UpdateTracker.Bootstrap | custom/custom.c:367-388 | the status file exists afterwards exactly when it existed before or the file could be written; when anything changes, it is the status file, now holding the default document |
| UpdateTracker.BootstrapNeverOverwrites | custom/custom.c:370-373 | an existing file is left as it is, and no other path is ever touched |
| UpdateTracker.BootstrapIdempotent | custom/custom.c:367-388 | running the bootstrap twice is the same as running it once |
| UpdateTracker.BootstrapThenPoll | custom/custom.c:367-388 | after the bootstrap has created the file, the next tick reads it and shows the initial snapshot |
| UpdateTracker.FieldAfterParse | custom/custom.c:306-312 | a text field's array, read as a C string after the extractor ran on it, is the new value or the previous one |
| UpdateTracker.ApplyOfPadded | custom/custom.c:296-312 | the snapshot of the padded read buffer is the snapshot of the bytes read |
| UpdateTracker.NewCString | custom/custom.c:263 | a 64-byte array holding the previous text and its terminator |
| UpdateTracker.ParseProgress | custom/custom.c:302-304 | the progress is `atoi` of the value copied into the 32-byte `value_str` when the key is found, else unchanged |
| UpdateTracker.ParseTextField | custom/custom.c:306-312 | the text field is the value written into its own 64-byte array when found, else the previous text |
| UpdateTracker.ParseSnapshot | custom/custom.c:301-312 | the three in-place extractions give the snapshot `ApplyDocument` specifies |
| UpdateTracker.Tracker.constructor | custom/custom.c:91-93 | the globals start at timestamp 0, the initial status and log time 0 |
| UpdateTracker.Tracker.NoteWaiting | custom/custom.c:279-283 | prints the waiting message exactly when more than 10000 ms have passed since the last one, then records the time; nothing else changes |
| UpdateTracker.Tracker.ReadChange | custom/custom.c:295-338 | a failed read changes nothing; a good read commits the snapshot of the document read and shows it |
| UpdateTracker.Tracker.CheckUpdateStatus | custom/custom.c:260-339 | one tick changes the tracker's globals exactly as `Poll` does and returns its outcome; a shown snapshot and a waiting message are appended to the ghost logs; the invariant kept says the snapshot fits its arrays and every two printed waiting messages are more than 10000 ms apart |
| UpdateTracker.EnsureUpdateJsonExists | custom/custom.c:367-388 | the file system afterwards is the bootstrap of the one before: the default document is written only when the file has no timestamp and can be written |
| Simulator.PhaseProgress | custom/custom.c:410-412 | the progress of a phase is `phase * 100 / 8` rounded down: at least 0 and below 100 |
| Simulator.ProgressValues | custom/custom.c:411 | the eight phases write 0, 12, 25, 37, 50, 62, 75 and 87 |
| Simulator.ClampNeverTaken | custom/custom.c:412 | the clamp to 100 never fires, and 100 is never written |
| Simulator.NextPhase | custom/custom.c:427-432 | the next phase is the phase plus one modulo 8, and it is 0 exactly after the last phase |
| Simulator.PhaseAfterIsModulo | custom/custom.c:427-432 | after `n` cycles from the start, the phase is `n mod 8` |
| Simulator.ProgressTokenPlain | custom/custom.c:411-418 | the progress token of every phase is one or two digits |
| Simulator.FormattedDocument | custom/custom.c:415-423 | what `snprintf` writes into the 512-byte buffer: a prefix of the phase's document that fits with its terminator |
| Simulator.SimulatorDocument | custom/custom.c:416-423 | the layout holding the phase's progress, "System Updating..." and the phase's step; always shorter than 512 characters |
| Simulator.StepPlain | custom/custom.c:398-407 | every step text holds no quote and no NUL, and fits the 64-byte `step` array |
| Simulator.PhaseFieldsPlain | custom/custom.c:398-420 | every phase's fields can be written in the layout and read back |
| Simulator.SimulatorDocumentFits | custom/custom.c:415-423 | the document fits the 512-byte buffer, so `snprintf` does not cut it, and it holds no NUL |
| Simulator.SimulatorDocumentReadBack | custom/custom.c:416-423 | the tracker reads a simulated document as that phase's progress, "System Updating..." and the phase's step |
| Simulator.SimulatorThenPoll | custom/custom.c:425 | once the simulator has written a phase with a new timestamp, the next tick shows that phase |
| Simulator.UpdateSimulator.constructor | custom/custom.c:397 | the simulator starts in phase 0 |
| Simulator.UpdateSimulator.SimulateUpdateCycle | custom/custom.c:394-433 | writes the current phase's document when the file can be written, ignores a failed write, and moves to the next phase |

## Left out

- The LVGL wiring is not part of this model, for it is display code, not update logic.
  - It covers `custom_init`, `update_tracker_task`, `set_update_polling_interval` and the timers.
  - It also covers the label and bar updates in `check_update_status`, along with the `"%d%%"` label text.
  - A shown snapshot is the `Updated` outcome.
- Console output is left out. Only the waiting message and the shown snapshot are kept, as tick outcomes and ghost logs.
- Clocks are left out. `time(NULL) * 1000` becomes the parameter `now`, and the modification time the file system gives a written file becomes `mtime`.
- The Zephyr variants of the file operations and of the clock are left out. Only the POSIX variant is modelled.
  - Under it, an empty file is a read failure.
  - Zephyr's `fs_read` would accept an empty file.
- Only the simulator build's path `current_update_step.json` is modelled. The two other build paths only select a different file.
- The directory creation and second `fopen` in `write_file_contents` are left out.
  - The file system has a single "accepts writes" flag, which stands for the outcome of both attempts.
- FileAccess.FileSystem.WriteFileContents: a write is all or nothing.
  - The case where `fopen` truncates the file and a short `fwrite` then leaves part of the content is not modelled.
- Writes from another process, and a read racing a write, are not modelled. A different file content is a different file system value between ticks.
- Bytes are modelled as `char`s.
- CNumbers.AtoiFormatInt: integers are unbounded, so the undefined overflow of `atoi` and of `int` is not modelled.
- JsonField.ParseJsonValue requires `max_len >= 1`. Every caller passes 32 or 64, and `max_len - 1` would wrap at 0.
- The default document, written literally at `custom/custom.c:376-380`, is defined here as the layout `Document("0", "System Ready", "Waiting for update")`. The layout's pieces are the literal's lines.
- The simulator's final progress stays at 87, never 100. The model keeps the source's arithmetic and proves the clamp never fires, without changing it.
