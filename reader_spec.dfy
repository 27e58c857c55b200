/** The lookahead reader of a bulk file as a state machine over values.
    `src` is the sequence of records the row source decodes, in file order;
    a state holds the first-row flag, the one-record lookahead slot and the
    row source's cursor. Each function returns the caller-visible outcome
    together with the state the reader is left in. */
module StreamReaderSpec {
  import opened BulkRecords

  /** The version strings the reader accepts in the first row. */
  const SupportedVersions: seq<string> := ["3", "3.0"]

  datatype ReaderError = UnsupportedFormatVersion(version: string)

  datatype Result<+T> = Ok(value: T) | Err(error: ReaderError)

  datatype State = State(passedFirstRow: bool, next: Option<Record>, pos: nat)

  /** An outcome and the state after it. */
  datatype Step<+T> = Step(out: Result<T>, state: State)

  /** A filter on records: the predicate a caller hands to try_read. */
  type Filter = Record -> bool

  /** The related-data hooks of the record types. `callsBack(a)` says that
      `a`'s hook reads from the reader at all; the base class's hook does
      not. A hook that does calls try_read for as long as the next row is
      one `a` owns: `owns(a, b)` (for example, an entity owns the error rows
      that follow it). */
  datatype Hooks = Hooks(callsBack: Record -> bool, owns: (Record, Record) -> bool)

  /** The default predicate of try_read. */
  function Anything(r: Record): (b: bool)
    ensures b
  {
    true
  }

  /** The predicate a record's related-data hook passes to try_read. */
  function OwnedBy(hooks: Hooks, parent: Record): (f: Filter)
    ensures forall x :: f(x) == hooks.owns(parent, x)
  {
    x => hooks.owns(parent, x)
  }

  /** The cursor is within the rows, the slot is empty until the first row
      is passed, and a pending record is the row the source gave last. */
  ghost predicate Valid(src: seq<Record>, st: State)
  {
    && st.pos <= |src|
    && (!st.passedFirstRow ==> st.next.None?)
    && (st.next.Some? ==> 1 <= st.pos && src[st.pos - 1] == st.next.value)
  }

  /** The state of a freshly opened reader. */
  function Initial(): (st: State)
    ensures !st.passedFirstRow && st.next == None && st.pos == 0
  {
    State(false, None, 0)
  }

  /** Records fetched or still to be fetched, counting the lookahead slot:
      what bounds every chain of reads. */
  function Measure(src: seq<Record>, st: State): nat
    requires st.pos <= |src|
  {
    |src| - st.pos + (if st.next.Some? then 1 else 0)
  }

  /** Once the first row is behind it, the reader's whole future is the
      record in the slot followed by the rows the source has not yet given. */
  function Upcoming(src: seq<Record>, st: State): (u: seq<Record>)
    requires st.pos <= |src|
    ensures |u| == Measure(src, st)
  {
    (if st.next.Some? then [st.next.value] else []) + src[st.pos..]
  }

  /** The row source: the next record, or None (and no movement) at the end. */
  function ReadNext(src: seq<Record>, pos: nat): (r: (Option<Record>, nat))
    requires pos <= |src|
    ensures r.1 <= |src|
    ensures r.0.Some? <==> pos < |src|
    ensures r.0.Some? ==> r.0.value == src[pos] && r.1 == pos + 1
    ensures r.0.None? ==> r.1 == pos
  {
    if pos < |src| then (Some(src[pos]), pos + 1) else (None, pos)
  }

  /** The second half of _peek: return the slot, or fill it from the source. */
  function Cached(src: seq<Record>, st: State): (r: Step<Option<Record>>)
    requires Valid(src, st) && st.passedFirstRow
    ensures Valid(src, r.state) && r.state.passedFirstRow
    ensures r.out.Ok? && r.state.next == r.out.value
    ensures st.next.Some? ==> r.state == st
    ensures r.state.pos <= st.pos + 1
    ensures Upcoming(src, r.state) == Upcoming(src, st)
  {
    if st.next.Some? then Step(Ok(st.next), st)
    else
      var (row, p) := ReadNext(src, st.pos);
      Step(Ok(row), st.(next := row, pos := p))
  }

  /** _peek: the first-row gate, run while the flag is down, then Cached. */
  function Peek(src: seq<Record>, st: State): (r: Step<Option<Record>>)
    requires Valid(src, st)
    ensures Valid(src, r.state)
    ensures Measure(src, r.state) <= Measure(src, st)
    ensures r.out.Ok? ==> r.state.passedFirstRow && r.state.next == r.out.value
    ensures r.out.Err? ==> !st.passedFirstRow && r.state == st.(pos := st.pos + 1)
    ensures st.passedFirstRow ==> r.out.Ok?
  {
    if !st.passedFirstRow then
      var (first, p) := ReadNext(src, st.pos);
      if first.Some? && first.value.FormatVersion? then
        if first.value.value !in SupportedVersions then
          Step(Err(UnsupportedFormatVersion(first.value.value)), st.(pos := p))
        else
          Cached(src, State(true, st.next, p))
      else
        Cached(src, State(true, first, p))
    else
      Cached(src, st)
  }

  /** try_read(ty, pred): peek; consume the peeked record only if it is an
      instance of `ty` and satisfies `pred`, emptying the slot before the
      record's related-data hook runs. */
  function TryRead(src: seq<Record>, hooks: Hooks, st: State, ty: RecordType, pred: Filter)
    : (r: Step<(bool, Option<Record>)>)
    requires Valid(src, st)
    ensures Valid(src, r.state)
    ensures Measure(src, r.state) <= Measure(src, st)
    ensures st.passedFirstRow ==> r.out.Ok?
    ensures r.out.Ok? ==> r.state.passedFirstRow
    ensures r.out.Ok? && r.out.value.0 ==>
      Measure(src, r.state) < Measure(src, st) &&
      r.out.value.1.Some? && IsInstance(r.out.value.1.value, ty) && pred(r.out.value.1.value)
    ensures r.out.Ok? && !r.out.value.0 ==> r.out.value.1.None?
    decreases Measure(src, st), 0
  {
    var p := Peek(src, st);
    if p.out.Err? then Step(Err(p.out.error), p.state)
    else if p.out.value.Some? && IsInstance(p.out.value.value, ty) && pred(p.out.value.value) then
      var h := Hook(src, hooks, p.out.value.value, p.state.(next := None));
      Step(Ok((true, p.out.value)), h)
    else
      Step(Ok((false, None)), p.state)
  }

  /** read_related_data_from_stream of `parent`, entered with the slot
      empty: nothing at all when the hook does not call back, otherwise
      the pull of the rows `parent` owns. */
  function Hook(src: seq<Record>, hooks: Hooks, parent: Record, st: State): (r: State)
    requires Valid(src, st) && st.passedFirstRow && st.next.None?
    ensures Valid(src, r) && r.passedFirstRow
    ensures Measure(src, r) <= Measure(src, st)
    ensures !hooks.callsBack(parent) ==> r == st
    decreases Measure(src, st), 2
  {
    if hooks.callsBack(parent) then PullOwned(src, hooks, parent, st) else st
  }

  /** A calling-back hook: keep consuming the following rows for as long as
      try_read accepts one that `parent` owns. */
  function PullOwned(src: seq<Record>, hooks: Hooks, parent: Record, st: State): (r: State)
    requires Valid(src, st) && st.passedFirstRow
    ensures Valid(src, r) && r.passedFirstRow
    ensures Measure(src, r) <= Measure(src, st)
    decreases Measure(src, st), 1
  {
    var t := TryRead(src, hooks, st, BulkObject, OwnedBy(hooks, parent));
    if t.out.value.0 then PullOwned(src, hooks, parent, t.state) else t.state
  }

  /** read(): try_read with the base class and the default predicate. */
  function Read(src: seq<Record>, hooks: Hooks, st: State): (r: Step<Option<Record>>)
    requires Valid(src, st)
    ensures Valid(src, r.state)
    ensures Measure(src, r.state) <= Measure(src, st)
    ensures r.out.Ok? ==> r.state.passedFirstRow
    ensures r.out.Ok? && r.out.value.Some? ==> Measure(src, r.state) < Measure(src, st)
  {
    var t := TryRead(src, hooks, st, BulkObject, Anything);
    match t.out
    case Err(e) => Step(Err(e), t.state)
    case Ok((_, rec)) => Step(Ok(rec), t.state)
  }

  /** A caller calling read() until it returns None: the records returned
      before the None, or the error that stopped it. */
  function ReadAll(src: seq<Record>, hooks: Hooks, st: State): (r: Result<seq<Record>>)
    requires Valid(src, st)
    ensures st.passedFirstRow ==> r.Ok?
    ensures r.Ok? ==> |r.value| <= Measure(src, st)
    ensures r.Ok? && r.value != [] ==> Read(src, hooks, st).out == Ok(Some(r.value[0]))
    ensures r.Ok? && r.value == [] ==> Read(src, hooks, st).out == Ok(None)
    decreases Measure(src, st)
  {
    var step := Read(src, hooks, st);
    match step.out
    case Err(e) => Err(e)
    case Ok(None) => Ok([])
    case Ok(Some(x)) =>
      match ReadAll(src, hooks, step.state)
      case Err(e) => Err(e)
      case Ok(rest) => Ok([x] + rest)
  }

  /** How many rows a successful read of the head of `u` consumes: the head
      itself and, recursively, every group its hook pulls. */
  function Span(hooks: Hooks, u: seq<Record>): (n: nat)
    requires u != []
    ensures 1 <= n <= |u|
    decreases |u|, 0
  {
    1 + Related(hooks, u[0], u[1..])
  }

  /** How many rows of `t` the hook of `parent` pulls. */
  function Related(hooks: Hooks, parent: Record, t: seq<Record>): (n: nat)
    ensures n <= |t|
    ensures n >= 1 <==> hooks.callsBack(parent) && t != [] && hooks.owns(parent, t[0])
    decreases |t|, 1
  {
    if hooks.callsBack(parent) && t != [] && hooks.owns(parent, t[0]) then
      var m := Span(hooks, t);
      m + Related(hooks, parent, t[m..])
    else 0
  }

  /** The records that successive reads return from `u`: the head of each
      group, never the rows pulled as related data. */
  function TopLevel(hooks: Hooks, u: seq<Record>): (s: seq<Record>)
    ensures |s| <= |u|
    ensures u != [] ==> s != [] && s[0] == u[0]
    decreases |u|
  {
    if u == [] then [] else [u[0]] + TopLevel(hooks, u[Span(hooks, u)..])
  }

  /** What the first-row gate leaves for the reader to return, or the
      error it raises. */
  function Gated(src: seq<Record>): (r: Result<seq<Record>>)
    ensures r.Err? <==> src != [] && src[0].FormatVersion? && src[0].value !in SupportedVersions
    ensures r.Err? ==> r.error == UnsupportedFormatVersion(src[0].value)
    ensures src != [] && src[0].FormatVersion? && src[0].value in SupportedVersions ==> r == Ok(src[1..])
    ensures (src == [] || !src[0].FormatVersion?) ==> r == Ok(src)
  {
    if src != [] && src[0].FormatVersion? then
      if src[0].value in SupportedVersions then Ok(src[1..])
      else Err(UnsupportedFormatVersion(src[0].value))
    else Ok(src)
  }
}
