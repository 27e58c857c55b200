/** The reader object: fields updated in place by _peek and try_read, each
    method proved to make exactly the transition of StreamReaderSpec. */
module StreamReader {
  import opened BulkRecords
  import opened StreamReaderSpec
  import StreamReaderProperties

  class BulkStreamReader {
    const filePath: string
    const fileFormat: DownloadFileType
    const encoding: Option<string>
    const delimiter: char
    /** The records the row source decodes from the file, in order. */
    const rows: seq<Record>
    /** The related-data hooks of the record types. */
    const hooks: Hooks

    var passedFirstRow: bool
    /** The lookahead slot. */
    var next: Option<Record>
    /** The row source's cursor into `rows`. */
    var pos: nat

    function State(): StreamReaderSpec.State
      reads this
    {
      StreamReaderSpec.State(passedFirstRow, next, pos)
    }

    ghost predicate Valid()
      reads this
    {
      StreamReaderSpec.Valid(rows, State())
    }

    /** Opening a reader: the delimiter follows the format, the flag is
        down, the slot is empty and the source is at its first row. */
    constructor (filePath: string, fileFormat: DownloadFileType, encoding: Option<string>,
                 rows: seq<Record>, hooks: Hooks)
      ensures Valid()
      ensures this.filePath == filePath && this.fileFormat == fileFormat && this.encoding == encoding
      ensures this.rows == rows && this.hooks == hooks
      ensures delimiter == DelimiterFor(fileFormat)
      ensures State() == Initial()
    {
      this.filePath := filePath;
      this.fileFormat := fileFormat;
      this.encoding := encoding;
      this.rows := rows;
      this.hooks := hooks;
      delimiter := if fileFormat == Csv then ',' else '\t';
      passedFirstRow := false;
      next := None;
      pos := 0;
    }

    /** read_next_bulk_object of the row source, which the reader calls
        only while its slot is empty. */
    method ReadNextBulkObject() returns (row: Option<Record>)
      requires Valid() && next.None?
      modifies this`pos
      ensures Valid()
      ensures (row, pos) == ReadNext(rows, old(pos))
    {
      if pos < |rows| {
        row := Some(rows[pos]);
        pos := pos + 1;
      } else {
        row := None;
      }
    }

    method Peek() returns (res: Result<Option<Record>>)
      requires Valid()
      modifies this`passedFirstRow, this`next, this`pos
      ensures Valid()
      ensures Step(res, State()) == StreamReaderSpec.Peek(rows, old(State()))
    {
      if !passedFirstRow {
        var first := ReadNextBulkObject();
        if first.Some? && first.value.FormatVersion? {
          if first.value.value !in SupportedVersions {
            return Err(UnsupportedFormatVersion(first.value.value));
          }
        } else {
          next := first;
        }
        passedFirstRow := true;
      }
      if next.Some? {
        return Ok(next);
      }
      next := ReadNextBulkObject();
      return Ok(next);
    }

    method TryRead(ty: RecordType, pred: Filter) returns (res: Result<(bool, Option<Record>)>)
      requires Valid()
      modifies this
      ensures Valid()
      ensures Step(res, State()) == StreamReaderSpec.TryRead(rows, hooks, old(State()), ty, pred)
      decreases Measure(rows, State()), 0
    {
      var peeked := Peek();
      if peeked.Err? {
        return Err(peeked.error);
      }
      if peeked.value.Some? && IsInstance(peeked.value.value, ty) && pred(peeked.value.value) {
        next := None;
        ReadRelatedDataFromStream(peeked.value.value);
        return Ok((true, peeked.value));
      }
      return Ok((false, None));
    }

    /** The related-data hook of `parent`, called back into this reader with
        the slot already empty. A hook that does not call back (the base
        class's) returns at once; one that does reads its owned rows through
        try_read. */
    method ReadRelatedDataFromStream(parent: Record)
      requires Valid() && passedFirstRow && next.None?
      modifies this
      ensures Valid()
      ensures State() == Hook(rows, hooks, parent, old(State()))
      decreases Measure(rows, State()), 1
    {
      if !hooks.callsBack(parent) {
        return;
      }
      var more := true;
      while more
        invariant Valid() && passedFirstRow
        invariant Measure(rows, State()) <= Measure(rows, old(State()))
        invariant more ==> PullOwned(rows, hooks, parent, State()) == PullOwned(rows, hooks, parent, old(State()))
        invariant !more ==> State() == PullOwned(rows, hooks, parent, old(State()))
        decreases Measure(rows, State()), more
      {
        var res := TryRead(BulkObject, OwnedBy(hooks, parent));
        more := res.value.0;
      }
    }

    method Read() returns (res: Result<Option<Record>>)
      requires Valid()
      modifies this
      ensures Valid()
      ensures Step(res, State()) == StreamReaderSpec.Read(rows, hooks, old(State()))
    {
      var r := TryRead(BulkObject, Anything);
      match r
      case Err(e) => return Err(e);
      case Ok((_, rec)) => return Ok(rec);
    }

    /** __next__ and next: the iterator protocol's step, which is read. */
    method Next() returns (res: Result<Option<Record>>)
      requires Valid()
      modifies this
      ensures Valid()
      ensures Step(res, State()) == StreamReaderSpec.Read(rows, hooks, old(State()))
    {
      res := Read();
    }
  }

  /** The file "3.0", RecordA, RecordB read through a reader object:
      RecordA, then RecordB, then the end of the stream. */
  method ReadSupportedFile(path: string) returns (first: Result<Option<Record>>, second: Result<Option<Record>>, third: Result<Option<Record>>)
    ensures first == Ok(Some(Entity("RecordA", ["foo"])))
    ensures second == Ok(Some(Entity("RecordB", ["bar"])))
    ensures third == Ok(None)
  {
    var a, b := Entity("RecordA", ["foo"]), Entity("RecordB", ["bar"]);
    var src, hooks := [FormatVersion("3.0"), a, b], Hooks(x => false, (x, y) => false);
    var reader := new BulkStreamReader(path, Csv, None, src, hooks);
    StreamReaderProperties.FirstPeek(src);
    StreamReaderProperties.FirstTryRead(src, hooks, BulkObject, Anything);
    StreamReaderProperties.ReadOne(src, hooks, Peek(src, Initial()).state);
    first := reader.Read();
    StreamReaderProperties.ReadOne(src, hooks, reader.State());
    second := reader.Read();
    StreamReaderProperties.ReadOne(src, hooks, reader.State());
    third := reader.Read();
  }
}
