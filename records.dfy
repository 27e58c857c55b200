/** Values the bulk stream reader passes around: the decoded records the row
    source yields, the record types a caller may filter on, and the file
    formats that decide the field delimiter. */
module BulkRecords {

  datatype Option<+T> = None | Some(value: T)

  /** One decoded row. The format-version marker is the only variant the
      reader itself inspects; every other row is an entity of some kind
      (for example "Campaign" or "Campaign Error") with its column values. */
  datatype Record =
    | FormatVersion(value: string)
    | Entity(kind: string, fields: seq<string>)

  /** The class a caller passes to try_read. `BulkObject` is the common base
      class, of which every record is an instance. */
  datatype RecordType =
    | BulkObject
    | FormatVersionType
    | EntityType(kind: string)

  /** `isinstance(record, recordType)`: every record is a bulk object, a
      marker is an instance of the marker class only, and an entity is an
      instance of its own kind only. */
  function IsInstance(r: Record, t: RecordType): (b: bool)
    ensures t == BulkObject ==> b
    ensures t == FormatVersionType ==> (b <==> r.FormatVersion?)
    ensures t.EntityType? ==> (b <==> r.Entity? && r.kind == t.kind)
  {
    match t
    case BulkObject => true
    case FormatVersionType => r.FormatVersion?
    case EntityType(k) => r.Entity? && r.kind == k
  }

  /** The file formats a bulk download can be written in. */
  datatype DownloadFileType = Csv | Tsv

  /** Comma for a CSV file, tab for anything else. */
  function DelimiterFor(format: DownloadFileType): (d: char)
    ensures d == ',' <==> format == Csv
    ensures d != ',' ==> d == '\t'
  {
    if format == Csv then ',' else '\t'
  }
}
