/** What the lookahead protocol guarantees, proved of the state machine in
    StreamReaderSpec. */
module StreamReaderProperties {
  import opened BulkRecords
  import opened StreamReaderSpec

  /** After the first row, _peek is the slot or exactly one fetch: it returns
      the head of the upcoming records, keeps the future unchanged, and moves
      the source only when the slot was empty. */
  lemma PeekAfterFirstRow(src: seq<Record>, st: State)
    requires Valid(src, st) && st.passedFirstRow
    ensures var r := Peek(src, st); var u := Upcoming(src, st);
      && r.out == Ok(if u == [] then None else Some(u[0]))
      && r.state.passedFirstRow
      && Upcoming(src, r.state) == u
      && st.pos <= r.state.pos <= st.pos + 1
      && (st.next.Some? ==> r.state == st)
  {
    if st.next.None? {
      assert Upcoming(src, st) == src[st.pos..];
    }
  }

  /** The first call: a supported marker is dropped and the record after it
      is returned; a non-marker row is itself returned; an unsupported marker
      fails, leaves the flag down and returns nothing. */
  lemma FirstPeek(src: seq<Record>)
    ensures var r := Peek(src, Initial());
      match Gated(src)
      case Err(e) => r == Step(Err(e), State(false, None, 1))
      case Ok(u) =>
        && r.out == Ok(if u == [] then None else Some(u[0]))
        && r.state.passedFirstRow
        && Upcoming(src, r.state) == u
  {
    var r := Peek(src, Initial());
    if src != [] && src[0].FormatVersion? && src[0].value in SupportedVersions {
      var mid := State(true, None, 1);
      assert Upcoming(src, mid) == src[1..];
      PeekAfterFirstRow(src, mid);
    } else if src != [] && !src[0].FormatVersion? {
      var mid := State(true, Some(src[0]), 1);
      assert Upcoming(src, mid) == src;
      PeekAfterFirstRow(src, mid);
    }
  }

  /** A supported marker costs the source two reads on the first peek (one
      if it is the only row), and the marker is not what peek returns. */
  lemma SupportedMarkerSkipped(src: seq<Record>)
    requires src != [] && src[0].FormatVersion? && src[0].value in SupportedVersions
    ensures var r := Peek(src, Initial());
      && r.out == Ok(if |src| >= 2 then Some(src[1]) else None)
      && r.state.pos == (if |src| >= 2 then 2 else 1)
      && r.state.passedFirstRow
  {
    FirstPeek(src);
  }

  /** Peeking again after a successful peek changes nothing. */
  lemma PeekIdempotent(src: seq<Record>, st: State)
    requires Valid(src, st) && Peek(src, st).out.Ok?
    ensures Peek(src, Peek(src, st).state) == Peek(src, st)
  {
    var p := Peek(src, st);
    PeekAfterFirstRow(src, p.state);
  }

  /** Applying peek `n` times in a row. */
  function PeekTimes(src: seq<Record>, st: State, n: nat): (r: State)
    requires Valid(src, st)
    ensures Valid(src, r)
    decreases n
  {
    if n == 0 then st else PeekTimes(src, Peek(src, st).state, n - 1)
  }

  /** N consecutive peeks after a successful one see the same record and
      leave the reader where the first left it. */
  lemma {:induction false} PeekRepeated(src: seq<Record>, st: State, n: nat)
    requires Valid(src, st) && Peek(src, st).out.Ok?
    ensures var p := Peek(src, st);
      PeekTimes(src, p.state, n) == p.state && Peek(src, PeekTimes(src, p.state, n)) == p
    decreases n
  {
    PeekIdempotent(src, st);
    if n > 0 {
      PeekRepeated(src, st, n - 1);
      var p := Peek(src, st);
      assert PeekTimes(src, p.state, n) == PeekTimes(src, Peek(src, p.state).state, n - 1);
    }
  }

  /** try_read after the first row, in terms of the upcoming records: a match
      returns the head and drops its whole group; anything else returns
      (false, None) and drops nothing. */
  lemma {:induction false} TryReadUpcoming(src: seq<Record>, hooks: Hooks, st: State, ty: RecordType, pred: Filter)
    requires Valid(src, st) && st.passedFirstRow
    ensures var r := TryRead(src, hooks, st, ty, pred); var u := Upcoming(src, st);
      && r.out.Ok? && r.state.passedFirstRow
      && if u != [] && IsInstance(u[0], ty) && pred(u[0]) then
           r.out.value == (true, Some(u[0])) && Upcoming(src, r.state) == u[Span(hooks, u)..]
         else
           r.out.value == (false, None) && Upcoming(src, r.state) == u
    decreases Measure(src, st), 0
  {
    var u := Upcoming(src, st);
    var p := Peek(src, st);
    PeekAfterFirstRow(src, st);
    assert p.out == Ok(if u == [] then None else Some(u[0]));
    if u != [] && IsInstance(u[0], ty) && pred(u[0]) {
      var cleared := p.state.(next := None);
      assert Upcoming(src, cleared) == u[1..];
      HookUpcoming(src, hooks, u[0], cleared);
      assert TryRead(src, hooks, st, ty, pred) == Step(Ok((true, Some(u[0]))), Hook(src, hooks, u[0], cleared));
    } else {
      assert TryRead(src, hooks, st, ty, pred) == Step(Ok((false, None)), p.state);
    }
  }

  /** The related-data hook of `parent` drops exactly the rows Related counts. */
  lemma {:induction false} HookUpcoming(src: seq<Record>, hooks: Hooks, parent: Record, st: State)
    requires Valid(src, st) && st.passedFirstRow && st.next.None?
    ensures var u := Upcoming(src, st);
      Upcoming(src, Hook(src, hooks, parent, st)) == u[Related(hooks, parent, u)..]
    decreases Measure(src, st), 2
  {
    if hooks.callsBack(parent) {
      PullUpcoming(src, hooks, parent, st);
    }
  }

  /** A calling-back hook pulls every following group its record owns. */
  lemma {:induction false} PullUpcoming(src: seq<Record>, hooks: Hooks, parent: Record, st: State)
    requires Valid(src, st) && st.passedFirstRow && hooks.callsBack(parent)
    ensures var u := Upcoming(src, st);
      Upcoming(src, PullOwned(src, hooks, parent, st)) == u[Related(hooks, parent, u)..]
    decreases Measure(src, st), 1
  {
    var u := Upcoming(src, st);
    var f := OwnedBy(hooks, parent);
    TryReadUpcoming(src, hooks, st, BulkObject, f);
    var t := TryRead(src, hooks, st, BulkObject, f);
    if t.out.value.0 {
      PullUpcoming(src, hooks, parent, t.state);
      var m := Span(hooks, u);
      assert u[m..][Related(hooks, parent, u[m..])..] == u[m + Related(hooks, parent, u[m..])..];
    }
  }

  /** A matching try_read of a record whose hook does not call back (the
      base class's hook) empties the slot and leaves the source just past
      that record: the reader reads no further row. */
  lemma TryReadMatchNoCallback(src: seq<Record>, hooks: Hooks, st: State, ty: RecordType, pred: Filter)
    requires Valid(src, st)
    requires Peek(src, st).out.Ok? && Peek(src, st).out.value.Some?
    requires var x := Peek(src, st).out.value.value; IsInstance(x, ty) && pred(x) && !hooks.callsBack(x)
    ensures var p := Peek(src, st); var r := TryRead(src, hooks, st, ty, pred);
      && r == Step(Ok((true, p.out.value)), State(true, None, p.state.pos))
      && 1 <= p.state.pos && src[p.state.pos - 1] == p.out.value.value
  {
  }

  /** A try_read whose filter rejects what peek sees (or that sees the end)
      returns (false, None) and consumes nothing: the state is the one peek
      leaves, and a read from there returns that same record. */
  lemma TryReadNoMatch(src: seq<Record>, hooks: Hooks, st: State, ty: RecordType, pred: Filter)
    requires Valid(src, st)
    requires Peek(src, st).out.Ok?
    requires var x := Peek(src, st).out.value; !(x.Some? && IsInstance(x.value, ty) && pred(x.value))
    ensures var p := Peek(src, st);
      && TryRead(src, hooks, st, ty, pred) == Step(Ok((false, None)), p.state)
      && Read(src, hooks, p.state).out == p.out
  {
    var p := Peek(src, st);
    TryReadUpcoming(src, hooks, p.state, BulkObject, Anything);
    PeekAfterFirstRow(src, p.state);
  }

  /** With the slot occupied, a rejected try_read leaves the reader exactly as it was. */
  lemma TryReadNoMatchPending(src: seq<Record>, hooks: Hooks, st: State, ty: RecordType, pred: Filter)
    requires Valid(src, st) && st.passedFirstRow && st.next.Some?
    requires !(IsInstance(st.next.value, ty) && pred(st.next.value))
    ensures TryRead(src, hooks, st, ty, pred) == Step(Ok((false, None)), st)
  {
  }

  /** A matching try_read returns (true, peeked) and consumes the peeked
      record together with the rows its hook claims; when its hook claims
      none, exactly one record is gone and the next peek sees the one after. */
  lemma TryReadMatch(src: seq<Record>, hooks: Hooks, st: State, ty: RecordType, pred: Filter)
    requires Valid(src, st)
    requires Peek(src, st).out.Ok? && Peek(src, st).out.value.Some?
    requires var x := Peek(src, st).out.value.value; IsInstance(x, ty) && pred(x)
    ensures var p := Peek(src, st); var u := Upcoming(src, p.state);
      var r := TryRead(src, hooks, st, ty, pred);
      && u != [] && p.out.value.value == u[0]
      && r.out == Ok((true, p.out.value))
      && Upcoming(src, r.state) == u[Span(hooks, u)..]
      && (|u| == 1 || !hooks.owns(u[0], u[1]) ==>
            Upcoming(src, r.state) == u[1..] &&
            Peek(src, r.state).out == Ok(if |u| > 1 then Some(u[1]) else None))
  {
    var p := Peek(src, st);
    PeekAfterFirstRow(src, p.state);
    TryReadUpcoming(src, hooks, p.state, ty, pred);
    var r := TryRead(src, hooks, st, ty, pred);
    assert r == TryRead(src, hooks, p.state, ty, pred);
    PeekAfterFirstRow(src, r.state);
  }

  /** When no record claims related rows, read returns the next upcoming
      record and consumes exactly that one. */
  lemma ReadOne(src: seq<Record>, hooks: Hooks, st: State)
    requires Valid(src, st) && st.passedFirstRow
    requires forall a, b :: !hooks.owns(a, b)
    ensures var r := Read(src, hooks, st); var u := Upcoming(src, st);
      && r.state.passedFirstRow
      && r.out == Ok(if u == [] then None else Some(u[0]))
      && Upcoming(src, r.state) == (if u == [] then [] else u[1..])
  {
    TryReadUpcoming(src, hooks, st, BulkObject, Anything);
    var u := Upcoming(src, st);
    if u != [] {
      assert Span(hooks, u) == 1;
    }
  }

  /** At the end of the stream read returns None and leaves the reader as it
      is, so every later read returns None as well. */
  lemma ReadAtEnd(src: seq<Record>, hooks: Hooks, st: State)
    requires Valid(src, st) && Read(src, hooks, st).out == Ok(None)
    ensures var r := Read(src, hooks, st);
      Upcoming(src, r.state) == [] && Read(src, hooks, r.state) == r
  {
    var r := Read(src, hooks, st);
    var t := TryRead(src, hooks, st, BulkObject, Anything);
    assert !t.out.value.0;
    var p := Peek(src, st);
    PeekAfterFirstRow(src, p.state);
    assert r.state == p.state;
    TryReadUpcoming(src, hooks, r.state, BulkObject, Anything);
  }

  /** Applying read `n` times in a row. */
  function ReadTimes(src: seq<Record>, hooks: Hooks, st: State, n: nat): (r: State)
    requires Valid(src, st)
    ensures Valid(src, r)
    decreases n
  {
    if n == 0 then st else ReadTimes(src, hooks, Read(src, hooks, st).state, n - 1)
  }

  /** Once read has returned None, any number of further reads return None
      and nothing earlier comes back. */
  lemma {:induction false} ReadsAfterEnd(src: seq<Record>, hooks: Hooks, st: State, n: nat)
    requires Valid(src, st) && Read(src, hooks, st).out == Ok(None)
    ensures var r := Read(src, hooks, st);
      ReadTimes(src, hooks, r.state, n) == r.state &&
      Read(src, hooks, ReadTimes(src, hooks, r.state, n)).out == Ok(None)
    decreases n
  {
    ReadAtEnd(src, hooks, st);
    if n > 0 {
      ReadsAfterEnd(src, hooks, st, n - 1);
    }
  }

  /** After the first row, calling read until it returns None yields the
      head of every record group of the upcoming rows, in order. */
  lemma {:induction false} ReadAllUpcoming(src: seq<Record>, hooks: Hooks, st: State)
    requires Valid(src, st) && st.passedFirstRow
    ensures ReadAll(src, hooks, st) == Ok(TopLevel(hooks, Upcoming(src, st)))
    decreases Measure(src, st)
  {
    var u := Upcoming(src, st);
    TryReadUpcoming(src, hooks, st, BulkObject, Anything);
    var r := Read(src, hooks, st);
    if u != [] {
      ReadAllUpcoming(src, hooks, r.state);
    }
  }

  /** From a fresh reader, the first call behaves as a call on the state
      the gate leaves behind. */
  lemma FirstTryRead(src: seq<Record>, hooks: Hooks, ty: RecordType, pred: Filter)
    requires Peek(src, Initial()).out.Ok?
    ensures var g := Peek(src, Initial()).state;
      TryRead(src, hooks, Initial(), ty, pred) == TryRead(src, hooks, g, ty, pred)
  {
    PeekIdempotent(src, Initial());
  }

  /** Calling read on a fresh reader until it returns None: the records of
      the file after a supported marker (or of the whole file when there is
      no marker), heads of groups only; an unsupported marker fails before
      any record is returned. */
  lemma ReadAllFromStart(src: seq<Record>, hooks: Hooks)
    ensures Gated(src).Err? ==> ReadAll(src, hooks, Initial()) == Err(Gated(src).error)
    ensures Gated(src).Ok? ==> ReadAll(src, hooks, Initial()) == Ok(TopLevel(hooks, Gated(src).value))
  {
    FirstPeek(src);
    var p := Peek(src, Initial());
    if p.out.Ok? {
      FirstTryRead(src, hooks, BulkObject, Anything);
      ReadAllUpcoming(src, hooks, p.state);
      PeekIdempotent(src, Initial());
      TryReadUpcoming(src, hooks, p.state, BulkObject, Anything);
      var r := Read(src, hooks, Initial());
      if Upcoming(src, p.state) != [] {
        ReadAllUpcoming(src, hooks, r.state);
      }
    }
  }

  /** When no record claims related rows, every row is its own group. */
  lemma {:induction false} TopLevelWithoutRelated(hooks: Hooks, u: seq<Record>)
    requires forall a, b :: !hooks.owns(a, b)
    ensures TopLevel(hooks, u) == u
    decreases |u|
  {
    if u != [] {
      assert Span(hooks, u) == 1;
      TopLevelWithoutRelated(hooks, u[1..]);
    }
  }

  /** The marker is never returned: with a supported marker and no related
      rows, calling read on a fresh reader until it returns None yields
      exactly the rows after the marker. */
  lemma MarkerNeverReturned(src: seq<Record>, hooks: Hooks)
    requires src != [] && src[0].FormatVersion? && src[0].value in SupportedVersions
    requires forall a, b :: !hooks.owns(a, b)
    ensures ReadAll(src, hooks, Initial()) == Ok(src[1..])
  {
    ReadAllFromStart(src, hooks);
    TopLevelWithoutRelated(hooks, src[1..]);
  }

  /** An unsupported marker: peek, read and try_read all fail with the
      marker's version, the flag stays down and nothing is returned. */
  lemma UnsupportedMarkerFails(src: seq<Record>, hooks: Hooks, ty: RecordType, pred: Filter)
    requires src != [] && src[0].FormatVersion? && src[0].value !in SupportedVersions
    ensures var e := UnsupportedFormatVersion(src[0].value); var s1 := State(false, None, 1);
      && Peek(src, Initial()) == Step(Err(e), s1)
      && TryRead(src, hooks, Initial(), ty, pred) == Step(Err(e), s1)
      && Read(src, hooks, Initial()) == Step(Err(e), s1)
      && ReadAll(src, hooks, Initial()) == Err(e)
  {
    FirstPeek(src);
    ReadAllFromStart(src, hooks);
  }

  /** The gate re-runs after an unsupported marker: the flag is still down,
      so the next call treats the second row as the first. */
  lemma GateRerunsAfterFailure(src: seq<Record>)
    requires |src| >= 2 && src[0].FormatVersion? && src[0].value !in SupportedVersions
    requires src[1].Entity?
    ensures var s1 := Peek(src, Initial()).state;
      !s1.passedFirstRow && Peek(src, s1).out == Ok(Some(src[1]))
  {
    FirstPeek(src);
  }

  /** The file "3.0", RecordA, RecordB: read returns RecordA, then RecordB,
      then the end of the stream. */
  lemma ScenarioSupportedFile(a: Record, b: Record, hooks: Hooks)
    requires a == Entity("RecordA", ["foo"]) && b == Entity("RecordB", ["bar"])
    requires forall x, y :: !hooks.owns(x, y)
    ensures ReadAll(src := [FormatVersion("3.0"), a, b], hooks := hooks, st := Initial()) == Ok([a, b])
  {
    var src := [FormatVersion("3.0"), a, b];
    MarkerNeverReturned(src, hooks);
    assert src[1..] == [a, b];
  }

  /** The file "2.0", RecordA: the first peek fails with version "2.0". */
  lemma ScenarioUnsupportedFile(a: Record, hooks: Hooks)
    requires a == Entity("RecordA", ["foo"])
    ensures var src := [FormatVersion("2.0"), a];
      && Peek(src, Initial()).out == Err(UnsupportedFormatVersion("2.0"))
      && ReadAll(src, hooks, Initial()) == Err(UnsupportedFormatVersion("2.0"))
  {
    var src := [FormatVersion("2.0"), a];
    assert "2.0" !in SupportedVersions;
    UnsupportedMarkerFails(src, hooks, BulkObject, Anything);
  }

  /** A RecordA pending: try_read(RecordB) returns (false, None); an
      immediately following try_read(RecordA) returns that RecordA. */
  lemma ScenarioRetryWithOtherType(src: seq<Record>, hooks: Hooks, st: State, a: Record)
    requires Valid(src, st) && a == Entity("RecordA", ["foo"])
    requires Peek(src, st).out == Ok(Some(a))
    ensures var r1 := TryRead(src, hooks, st, EntityType("RecordB"), Anything);
      && r1.out == Ok((false, None))
      && TryRead(src, hooks, r1.state, EntityType("RecordA"), Anything).out == Ok((true, Some(a)))
  {
    TryReadNoMatch(src, hooks, st, EntityType("RecordB"), Anything);
    var p := Peek(src, st);
    PeekIdempotent(src, st);
    TryReadMatch(src, hooks, p.state, EntityType("RecordA"), Anything);
  }
}
