# Bulk stream reader: lookahead and version gate

A model of `_BulkStreamReader` from the Bing Ads Python SDK
(`bingads/internal/bulk/stream_reader.py`). The reader sits over a row
source that decodes a bulk download file (CSV or tab-separated) into typed
records, one per call. It offers three read operations:

- `_peek`: a one-record lookahead.
- `try_read(type, predicate)`: consumes the pending record only when it
  matches.
- `read`: consumes whatever comes next.

The first row of the file may be a format-version marker. Versions `"3"`
and `"3.0"` are accepted and the marker is dropped. Any other version fails
with `NotImplementedError`.

The project has four modules:

- `BulkRecords` (`records.dfy`): records, the record types a caller can
  filter on, and the choice of delimiter.
- `StreamReaderSpec` (`reader_spec.dfy`): the reader as a state machine
  over values. The state is the first-row flag, the lookahead slot and the
  row source's cursor into the decoded rows. Every operation returns its
  outcome together with the new state.
- `StreamReaderProperties` (`reader_properties.dfy`): the lookahead
  protocol's guarantees, proved as lemmas.
- `StreamReader` (`stream_reader.dfy`): the reader as a class. Its fields
  are updated in place. Each method is proved to make exactly the
  transition that the matching `StreamReaderSpec` function describes.

The related-data hook is `read_related_data_from_stream`. `try_read` calls
it with the lookahead slot already empty. The model describes the hooks of
the record types by a `Hooks` value with two parts:

- `callsBack(a)` says whether `a`'s hook reads from the reader at all. A
  hook that does not (the base class's `pass`) leaves the slot empty and
  the source positioned just past the record.
- `owns(a, b)` says whether `b` belongs to `a`. A hook that calls back keeps
  calling `try_read(_BulkObject, …)` for as long as the next row belongs to
  its record.

The version check is not one-shot. The unsupported-version branch raises
before `_passed_first_row` is set (lines 73-78). A reader used again after
that error therefore runs the check again, on the following row
(`GateRerunsAfterFailure`). Rows after the first that happen to be format
markers are returned like any other record.

## Model

| member | source | states |
|---|---|---|
| BulkRecords.DelimiterFor | bingads/internal/bulk/stream_reader.py:18 | the delimiter is ',' exactly when the format is CSV, and tab otherwise |
| StreamReader.BulkStreamReader.constructor | bingads/internal/bulk/stream_reader.py:13-22 | path, format and encoding are stored; the delimiter follows the format; the flag is down, the slot is empty and the source is at its first row |
| StreamReader.BulkStreamReader.ReadNextBulkObject | bingads/internal/bulk/stream_reader.py:71 | called only with the slot empty, the row source returns the record at the cursor and advances by one, or returns None and stays put at the end |
| StreamReader.BulkStreamReader.Peek | bingads/internal/bulk/stream_reader.py:69-82 | in-place _peek makes exactly the transition of StreamReaderSpec.Peek and keeps the reader valid |
| StreamReader.BulkStreamReader.TryRead | bingads/internal/bulk/stream_reader.py:52-67 | in-place try_read makes exactly the transition of StreamReaderSpec.TryRead, including the re-entrant hook call |
| StreamReader.BulkStreamReader.ReadRelatedDataFromStream | bingads/internal/bulk/stream_reader.py:64-65 | the hook is entered only with the slot empty and the first row passed; it changes nothing when it does not call back, and otherwise consumes exactly what StreamReaderSpec.PullOwned consumes |
| StreamReader.BulkStreamReader.Read | bingads/internal/bulk/stream_reader.py:42-50 | read makes the transition of StreamReaderSpec.Read, that is try_read with the base class, returning only the record |
| StreamReader.BulkStreamReader.Next | bingads/internal/bulk/stream_reader.py:33-40 | __next__ and next make the same transition as read |
| StreamReader.ReadSupportedFile | bingads/internal/bulk/stream_reader.py:42-50 | a reader over "3.0", RecordA, RecordB returns RecordA, then RecordB, then None |
| StreamReaderSpec.ReadNext | bingads/internal/bulk/stream_reader.py:81 | the row source yields the record at the cursor and moves one step, or yields None without moving at the end |
| StreamReaderSpec.Cached | bingads/internal/bulk/stream_reader.py:79-82 | an occupied slot is returned with nothing changed; an empty one is filled by at most one fetch; the slot always holds what is returned |
| StreamReaderSpec.Peek | bingads/internal/bulk/stream_reader.py:69-82 | on success the flag is up and the slot holds the returned record; an error happens only while the flag is down, consumes the marker and changes nothing else; no error once past the first row |
| StreamReaderSpec.TryRead | bingads/internal/bulk/stream_reader.py:52-67 | a true result carries a record of the requested type that satisfies the predicate and strictly shrinks what is left; a false result carries None; no error once past the first row |
| StreamReaderSpec.Hook | bingads/internal/bulk/stream_reader.py:64-65 | the related-data hook, entered past the first row with the slot empty, never fails and never grows what is left; a hook that does not call back leaves the state exactly as it found it |
| StreamReaderSpec.PullOwned | bingads/internal/bulk/stream_reader.py:65 | a calling-back hook's loop of try_read calls never fails and never grows what is left |
| StreamReaderSpec.Read | bingads/internal/bulk/stream_reader.py:42-50 | reading a record strictly shrinks what is left |
| StreamReaderSpec.Span | bingads/internal/bulk/stream_reader.py:63-66 | a successful read consumes at least one and at most all of the upcoming rows |
| StreamReaderSpec.Related | bingads/internal/bulk/stream_reader.py:65 | a hook pulls at least one row exactly when it calls back and owns the next row, and never more rows than remain |
| StreamReaderSpec.TopLevel | bingads/internal/bulk/stream_reader.py:42-50 | calling read() until it returns None yields no more records than there are rows, starting with the first upcoming one |
| StreamReaderSpec.ReadAll | bingads/internal/bulk/stream_reader.py:42-50 | calling read() until it returns None: never fails past the first row, returns no more records than are left, starts with what the first read returns, and is empty exactly when the first read returns None |
| StreamReaderSpec.Initial | bingads/internal/bulk/stream_reader.py:19-22 | a fresh reader has the flag down, the slot empty and the source at its first row |
| StreamReaderSpec.Anything | bingads/internal/bulk/stream_reader.py:52 | the default predicate of try_read accepts every record |
| BulkRecords.IsInstance | bingads/internal/bulk/stream_reader.py:63 | every record is an instance of the base class; a marker is an instance of the marker class only; an entity is an instance of its own kind only |
| StreamReaderSpec.Gated | bingads/internal/bulk/stream_reader.py:70-78 | the gate fails exactly on a first-row marker outside "3" and "3.0", with that version; it drops a supported marker; it leaves a file without a first-row marker whole |
| StreamReaderProperties.PeekAfterFirstRow | bingads/internal/bulk/stream_reader.py:79-82 | past the first row, peek returns the next upcoming record, changes nothing about what is upcoming, reads at most one row, and reads none when the slot is occupied |
| StreamReaderProperties.FirstPeek | bingads/internal/bulk/stream_reader.py:69-82 | the first peek drops a supported marker, returns a non-marker first row itself, and fails on an unsupported marker with the flag still down |
| StreamReaderProperties.SupportedMarkerSkipped | bingads/internal/bulk/stream_reader.py:70-82 | with a supported marker, the first peek returns the row after it and advances the source by two (by one when the marker is the only row) |
| StreamReaderProperties.PeekIdempotent | bingads/internal/bulk/stream_reader.py:79-80 | a second peek after a successful one returns the same record and changes nothing |
| StreamReaderProperties.PeekRepeated | bingads/internal/bulk/stream_reader.py:79-80 | any number of further peeks leave the state as the first peek left it and return the same record |
| StreamReaderProperties.TryReadUpcoming | bingads/internal/bulk/stream_reader.py:62-67 | past the first row, a match returns the head and drops the head's whole group of rows; a non-match returns (false, None) and drops nothing |
| StreamReaderProperties.HookUpcoming | bingads/internal/bulk/stream_reader.py:64-65 | the hook drops exactly the rows Related counts: none when it does not call back |
| StreamReaderProperties.PullUpcoming | bingads/internal/bulk/stream_reader.py:65 | a calling-back hook drops exactly the rows its record owns, including each of their own groups |
| StreamReaderProperties.TryReadMatchNoCallback | bingads/internal/bulk/stream_reader.py:63-66 | a matching try_read of a record whose hook does not call back returns (true, peeked), empties the slot and leaves the source just past that record |
| StreamReaderProperties.TryReadNoMatch | bingads/internal/bulk/stream_reader.py:62-67 | a rejected or end-of-stream try_read returns (false, None) and leaves the state peek left, and a read from there returns the same record |
| StreamReaderProperties.TryReadNoMatchPending | bingads/internal/bulk/stream_reader.py:62-67 | with a record pending, a rejected try_read leaves slot and cursor exactly as they were |
| StreamReaderProperties.TryReadMatch | bingads/internal/bulk/stream_reader.py:62-66 | a matching try_read returns (true, peeked); when the record owns no rows it consumes exactly one, and the next peek returns the following row |
| StreamReaderProperties.ReadOne | bingads/internal/bulk/stream_reader.py:49-50 | when no record owns rows, read returns the next upcoming record and consumes exactly that one |
| StreamReaderProperties.ReadAtEnd | bingads/internal/bulk/stream_reader.py:79-82 | a read that returns None leaves nothing upcoming and is a fixed point: the next read returns None and changes nothing |
| StreamReaderProperties.ReadsAfterEnd | bingads/internal/bulk/stream_reader.py:79-82 | after the first None, any number of further reads keep returning None |
| StreamReaderProperties.ReadAllUpcoming | bingads/internal/bulk/stream_reader.py:42-50 | past the first row, calling read() until it returns None yields the head of every group of upcoming rows, in order |
| StreamReaderProperties.FirstTryRead | bingads/internal/bulk/stream_reader.py:69-78 | after a successful gate, the first try_read behaves like a try_read on the state the gate leaves |
| StreamReaderProperties.ReadAllFromStart | bingads/internal/bulk/stream_reader.py:69-82 | calling read() on a fresh reader until it returns None fails on an unsupported marker, and otherwise yields the group heads of the file without its supported marker |
| StreamReaderProperties.TopLevelWithoutRelated | bingads/internal/bulk/stream_reader.py:64-65 | when no record owns rows, every row is returned |
| StreamReaderProperties.MarkerNeverReturned | bingads/internal/bulk/stream_reader.py:72-73 | with a supported marker and no related rows, calling read() until it returns None yields exactly the rows after the marker |
| StreamReaderProperties.UnsupportedMarkerFails | bingads/internal/bulk/stream_reader.py:72-75 | with an unsupported marker, peek, try_read, read and reading until None all fail with that version; the flag stays down and only the marker is consumed |
| StreamReaderProperties.GateRerunsAfterFailure | bingads/internal/bulk/stream_reader.py:70-78 | after an unsupported-version failure the flag is still down, so the next peek returns the second row when it is not a marker |
| StreamReaderProperties.ScenarioSupportedFile | bingads/internal/bulk/stream_reader.py:11 | calling read() on the file "3.0", RecordA, RecordB until None yields RecordA, RecordB |
| StreamReaderProperties.ScenarioUnsupportedFile | bingads/internal/bulk/stream_reader.py:73-75 | the file "2.0", RecordA fails with version "2.0" and returns no record |
| StreamReaderProperties.ScenarioRetryWithOtherType | bingads/internal/bulk/stream_reader.py:62-67 | with RecordA pending, try_read(RecordB) returns (false, None) and a following try_read(RecordA) returns that RecordA |

## Left out

- File handling is not modelled: opening `_BulkObjectReader`, `__enter__`, `__exit__`, `close` and `__iter__`. The row source is the in-memory sequence of records it would decode, so I/O errors do not arise.
- Tokenising rows and decoding them by schema, inside `read_next_bulk_object`, are not part of this model. Only the "next record or None" contract is kept.
- The bodies of the per-type `read_related_data_from_stream` hooks are not part of this model. Each hook is modelled either as doing nothing or as pulling the following rows its record owns, through `try_read`. The hook's effect on the record itself, attaching the rows it pulls, is not modelled.
- The error message text built by `_ErrorMessages` is not part of this model. The failure is `UnsupportedFormatVersion` carrying the version string.
- The `encoding` field is stored and readable, but it plays no part in reading. The source never passes it to the row source.
- The property getters (`file_path`, `file_format`, `delimiter`, `encoding`) are the class's constant fields.
- Python's class hierarchy is reduced to three record types: the base class (any record), the format marker, and one entity kind per name. A subclass test against an intermediate base class is not modelled.
- Next: `__next__` never raises `StopIteration`. At the end of the stream it returns None on every call (`ReadsAfterEnd`), so a `for` loop over the reader does not end. `ReadAll` models a caller that calls `read()` until it returns None, not Python's iteration protocol.
- Predicates that raise or have side effects are not modelled. A predicate is a total function of the record.
