/**
 * What the observer knows at the end of a stream (src/proxy/sse.rs, `dispatch`
 * and `line`): which event ended the response, under which name and with which
 * usage, and the failure to report. All of it is said of the events of the
 * stream and their fields.
 */
module TerminalEvents {
  import opened Prelude
  import opened EventStream
  import opened GatedEvents
  import O = Observers
  import G = EventGates
  import Utf8

  // ---------------------------------------------------------------------
  // Values of fields
  // ---------------------------------------------------------------------

  /** Tab, line feed, form feed, carriage return or space. */
  ghost predicate IsBlank(b: byte) {
    b in {9, 10, 12, 13, 32}
  }

  /** The part of `s` from `i` to `j` begins and ends with no blank, and all around it is blank. */
  ghost predicate IsCore(s: seq<byte>, i: nat, j: nat) {
    && i <= j <= |s| && (forall k :: 0 <= k < i || j <= k < |s| ==> IsBlank(s[k]))
    && (i < j ==> !IsBlank(s[i]) && !IsBlank(s[j - 1]))
  }

  /** `t` is `s` without the blanks around it. */
  ghost predicate IsTrimmed(s: seq<byte>, t: seq<byte>) {
    exists i: nat, j: nat :: IsCore(s, i, j) && t == s[i..j]
  }

  lemma {:induction false} TrimStartDrops(s: seq<byte>) returns (i: nat)
    ensures i <= |s| && O.TrimStart(s) == s[i..] && (forall k :: 0 <= k < i ==> IsBlank(s[k]))
    ensures O.TrimStart(s) != [] ==> !IsBlank(O.TrimStart(s)[0])
  {
    i := 0;
    if s != [] && IsBlank(s[0]) {
      i := TrimStartDrops(s[1..]);
      i := i + 1;
    }
  }

  lemma {:induction false} TrimEndDrops(s: seq<byte>) returns (j: nat)
    ensures j <= |s| && O.TrimEnd(s) == s[..j] && (forall k :: j <= k < |s| ==> IsBlank(s[k]))
    ensures O.TrimEnd(s) != [] ==> !IsBlank(O.TrimEnd(s)[|O.TrimEnd(s)| - 1])
  {
    j := |s|;
    if s != [] && IsBlank(s[|s| - 1]) {
      j := TrimEndDrops(s[..|s| - 1]);
    }
  }

  lemma TrimIsTrimmed(s: seq<byte>)
    ensures IsTrimmed(s, O.Trim(s))
  {
    var i := TrimStartDrops(s);
    var rest := s[i..];
    var j := TrimEndDrops(rest);
    var t := O.Trim(s);
    assert t == s[i..i + j];
    forall k | i + j <= k < |s| ensures IsBlank(s[k]) {
      assert rest[k - i] == s[k];
    }
    assert j > 0 ==> t[0] == rest[0] && t[j - 1] == rest[..j][j - 1];
    assert IsCore(s, i, i + j);
  }

  lemma CoreIsUnique(s: seq<byte>, i: nat, j: nat, m: nat, n: nat)
    requires IsCore(s, i, j) && IsCore(s, m, n)
    ensures (i == m && j == n) || (i == j && m == n)
  {
  }

  /** There is only one such part of a byte string. */
  lemma TrimmedIsUnique(s: seq<byte>, a: seq<byte>, b: seq<byte>)
    requires IsTrimmed(s, a) && IsTrimmed(s, b)
    ensures a == b
  {
    var i: nat, j: nat :| IsCore(s, i, j) && a == s[i..j];
    var m: nat, n: nat :| IsCore(s, m, n) && b == s[m..n];
    CoreIsUnique(s, i, j, m, n);
  }

  // ---------------------------------------------------------------------
  // The fields of an event
  // ---------------------------------------------------------------------

  /** The lines of the first event of a stream, without the empty one. */
  ghost function Lines(s: seq<byte>): seq<seq<byte>>
    decreases |s|
  {
    if !HasLine(s) || LineLength(s) == 0 then [] else [s[..LineLength(s)]] + Lines(s[LineEnd(s)..])
  }

  /** Without one leading space. */
  ghost predicate IsUnspaced(value: seq<byte>, v: seq<byte>) {
    value == [SPACE] + v || (value == v && !([SPACE] <= v))
  }

  /** The value of the last `event` line. */
  ghost function EventValue(lines: seq<seq<byte>>): Option<seq<byte>> {
    if lines == [] then None
    else
      var last := lines[|lines| - 1];
      if O.Ascii("event:") <= last then Some(last[6..]) else EventValue(lines[..|lines| - 1])
  }

  /** The values of the `data` lines. */
  ghost function DataValues(lines: seq<seq<byte>>): seq<seq<byte>> {
    if lines == [] then []
    else
      var last := lines[|lines| - 1];
      DataValues(lines[..|lines| - 1]) + if O.Ascii("data:") <= last then [last[5..]] else []
  }

  /** The name of an event: its `event` value, trimmed, cut to 100 bytes and decoded. */
  ghost predicate IsEventName(value: Option<seq<byte>>, name: seq<byte>) {
    match value
    case None => name == []
    case Some(v) => exists t :: IsTrimmed(v, t) && name == Utf8.Lossy(if |t| <= 100 then t else t[..100])
  }

  /** The data of an event: each value without one leading space, followed by a line feed. */
  ghost predicate IsData(values: seq<seq<byte>>, data: seq<byte>) {
    if values == [] then data == []
    else
      exists before, v ::
        && IsData(values[..|values| - 1], before) && IsUnspaced(values[|values| - 1], v)
        && data == before + v + [LF]
  }

  ghost predicate HasFields(lines: seq<seq<byte>>, fields: Fields) {
    fields.event == EventValue(lines) && fields.data == DataValues(lines)
  }

  lemma NoteAddsLine(lines: seq<seq<byte>>, fields: Fields, line: seq<byte>)
    requires HasFields(lines, fields)
    ensures HasFields(lines + [line], Note(fields, line))
  {
    assert (lines + [line])[..|lines|] == lines;
    assert O.StartsWith(line, O.EVENT_FIELD) <==> O.Ascii("event:") <= line;
    assert O.StartsWith(line, O.DATA_FIELD) <==> O.Ascii("data:") <= line;
    OneField(line);
  }

  lemma NameIsEventName(fields: Fields)
    ensures IsEventName(fields.event, ObservedName(fields))
  {
    if fields.event.Some? {
      TrimIsTrimmed(fields.event.value);
    }
  }

  lemma {:induction false} ObservedIsData(values: seq<seq<byte>>)
    ensures IsData(values, ObservedData(values))
  {
    if values == [] {
    } else {
      ObservedIsData(values[..|values| - 1]);
      Unspaced(values[|values| - 1]);
    }
  }

  lemma OneField(line: seq<byte>)
    ensures !(O.Ascii("event:") <= line && O.Ascii("data:") <= line)
  {
    assert O.Ascii("event:")[0] == 101 && O.Ascii("data:")[0] == 100;
  }

  lemma Unspaced(value: seq<byte>)
    ensures IsUnspaced(value, O.WithoutSpace(value))
  {
    if value != [] && value[0] == SPACE {
      assert value == [SPACE] + value[1..];
    }
  }

  lemma LinesNext(s: seq<byte>, fields: Fields, before: seq<seq<byte>>)
    requires HasLine(s) && LineLength(s) > 0
    ensures var line, rest := s[..LineLength(s)], s[LineEnd(s)..];
            && before + Lines(s) == before + [line] + Lines(rest)
            && ReadFields(s, fields) == ReadFields(rest, Note(fields, line))
  {
  }

  lemma {:induction false} ReadFieldsOfLines(s: seq<byte>, fields: Fields, before: seq<seq<byte>>,
                                             lines: seq<seq<byte>>, read: Fields)
    requires HasFields(before, fields) && lines == before + Lines(s) && read == ReadFields(s, fields)
    ensures HasFields(lines, read)
    decreases |s|
  {
    if !HasLine(s) || LineLength(s) == 0 {
      assert before + [] == before;
    } else {
      var line := s[..LineLength(s)];
      LinesNext(s, fields, before);
      NoteAddsLine(before, fields, line);
      ReadFieldsOfLines(s[LineEnd(s)..], Note(fields, line), before + [line], lines, read);
    }
  }

  lemma FieldsOfEvent(event: seq<byte>)
    ensures HasFields(Lines(event), ReadFields(event, NO_FIELDS))
  {
    assert HasFields([], NO_FIELDS);
    assert [] + Lines(event) == Lines(event);
    ReadFieldsOfLines(event, NO_FIELDS, [], Lines(event), ReadFields(event, NO_FIELDS));
  }

  /** What is dispatched of an event is exactly what its lines say. */
  lemma RecordReadsLines(event: seq<byte>)
    ensures IsEventName(EventValue(Lines(event)), EventRecord(event).eventName)
    ensures IsData(DataValues(Lines(event)), EventRecord(event).data) && !EventRecord(event).oversized
  {
    FieldsOfEvent(event);
    NameIsEventName(ReadFields(event, NO_FIELDS));
    ObservedIsData(ReadFields(event, NO_FIELDS).data);
  }

  // ---------------------------------------------------------------------
  // The event that ends a response
  // ---------------------------------------------------------------------

  ghost function Parsed(dec: Decoder, r: Record): Option<O.Event> {
    if r.oversized || r.data == [] then None else dec.parse(r.data)
  }

  ghost predicate IsErrorWord(name: seq<byte>) {
    name == O.Ascii("error") || name == O.Ascii("response.failed")
  }

  /** The kind an event names in its data counts, unless its own name is an explicit error. */
  ghost function DecisiveName(dec: Decoder, r: Record): seq<byte> {
    var event := Parsed(dec, r);
    if !IsErrorWord(r.eventName) && event.Some? && event.value.kind.Some? then event.value.kind.value else r.eventName
  }

  ghost predicate HasEndingName(dec: Decoder, r: Record) {
    var name := DecisiveName(dec, r);
    IsErrorWord(name) || name == O.Ascii("response.completed") || name == O.Ascii("response.incomplete")
  }

  /** An event that ends the response: by its name, or by the mark in its data. */
  ghost predicate Ends(dec: Decoder, r: Record) {
    HasEndingName(dec, r) || IsTrimmed(r.data, O.Ascii("[DONE]"))
  }

  /** What is known after an event that ends the response. */
  ghost predicate Knows(o: Observer, dec: Decoder, r: Record) {
    && o.terminal
    && o.terminalEvent == (if HasEndingName(dec, r) then DecisiveName(dec, r) else O.Ascii("done"))
    && o.usage == (if HasEndingName(dec, r) && Parsed(dec, r).Some? then Parsed(dec, r).value.usage else None)
  }

  ghost predicate KnowsNothing(o: Observer) {
    !o.terminal && o.terminalEvent == [] && o.usage == None
  }

  ghost function Classified(dec: Decoder, r: Record): Option<O.StreamFailure> {
    var event := Parsed(dec, r);
    if event.Some? then dec.classify(event.value, r.eventName) else None
  }

  lemma EndingNames(dec: Decoder, r: Record)
    ensures O.EventName(dec, r) == DecisiveName(dec, r)
    ensures O.IsTerminalName(O.EventName(dec, r)) <==> HasEndingName(dec, r)
    ensures O.Trim(r.data) == O.DONE_MARK <==> IsTrimmed(r.data, O.Ascii("[DONE]"))
    ensures IsTerminal(dec, r) <==> Ends(dec, r)
  {
    TrimIsTrimmed(r.data);
    if IsTrimmed(r.data, O.DONE_MARK) {
      TrimmedIsUnique(r.data, O.Trim(r.data), O.DONE_MARK);
    }
  }

  lemma DispatchKnows(o: Observer, dec: Decoder, r: Record)
    ensures Dispatched(o, dec, r).failure == Classified(dec, r)
    ensures Ends(dec, r) ==> Knows(Dispatched(o, dec, r).observer, dec, r)
    ensures !Ends(dec, r) ==> KnowsNothing(Dispatched(o, dec, r).observer)
  {
    EndingNames(dec, r);
  }

  ghost function RecordsOf(events: seq<seq<byte>>): (records: seq<Record>)
    ensures |records| == |events| && forall i :: 0 <= i < |events| ==> records[i] == EventRecord(events[i])
  {
    seq(|events|, i requires 0 <= i < |events| => EventRecord(events[i]))
  }

  /** The first of some events that ends the response. */
  ghost predicate FirstEnding(dec: Decoder, records: seq<Record>, n: nat) {
    n < |records| && Ends(dec, records[n]) && forall i :: 0 <= i < n ==> !Ends(dec, records[i])
  }

  ghost predicate NoneEnds(dec: Decoder, records: seq<Record>) {
    forall i :: 0 <= i < |records| ==> !Ends(dec, records[i])
  }

  /** The failure of the last of some events that has one. */
  ghost function LastFailure(dec: Decoder, records: seq<Record>): Option<O.StreamFailure> {
    if records == [] then None
    else
      var failure := Classified(dec, records[|records| - 1]);
      if failure.Some? then failure else LastFailure(dec, records[..|records| - 1])
  }

  /** What is known and reported once some events were read. */
  ghost predicate Tells(dec: Decoder, records: seq<Record>, seen: Seen) {
    && (NoneEnds(dec, records) ==> KnowsNothing(seen.observer) && seen.failure == LastFailure(dec, records))
    && (forall n: nat :: FirstEnding(dec, records, n) ==>
          Knows(seen.observer, dec, records[n]) && seen.failure == LastFailure(dec, records[..n + 1]))
  }

  lemma LineKnowsNothing(o: Observer, dec: Decoder)
    requires KnowsNothing(o) && O.Line(o, dec).records == []
    ensures KnowsNothing(O.Line(o, dec).observer)
  {
  }

  lemma StepKnowsNothing(o: Observer, dec: Decoder, b: byte)
    requires KnowsNothing(o) && O.Step(o, dec, b).records == []
    ensures KnowsNothing(O.Step(o, dec, b).observer)
  {
    if IsBreak(b) && !(o.skipLf && b == LF) {
      LineKnowsNothing(o.(skipLf := b == CR), dec);
    }
  }

  /** Bytes that end no event tell nothing. */
  lemma {:induction false} SilentKnowsNothing(o: Observer, dec: Decoder, bytes: seq<byte>)
    requires KnowsNothing(o) && O.Feed(o, dec, bytes).records == []
    ensures KnowsNothing(O.Feed(o, dec, bytes).observer)
    decreases |bytes|
  {
    if bytes == [] {
    } else {
      var init := bytes[..|bytes| - 1];
      SilentKnowsNothing(o, dec, init);
      StepKnowsNothing(O.Feed(o, dec, init).observer, dec, bytes[|bytes| - 1]);
    }
  }

  lemma LastFailureSnoc(dec: Decoder, records: seq<Record>, last: Record)
    ensures LastFailure(dec, records + [last])
            == if Classified(dec, last).Some? then Classified(dec, last) else LastFailure(dec, records)
  {
    assert (records + [last])[..|records|] == records;
  }

  lemma {:induction false} LastFailureCons(dec: Decoder, r: Record, records: seq<Record>)
    ensures LastFailure(dec, [r] + records)
            == if LastFailure(dec, records).Some? then LastFailure(dec, records) else Classified(dec, r)
    decreases |records|
  {
    if records == [] {
      LastFailureSnoc(dec, [], r);
      assert [r] + records == [] + [r];
    } else {
      var init, last := records[..|records| - 1], records[|records| - 1];
      LastFailureCons(dec, r, init);
      LastFailureSnoc(dec, init, last);
      LastFailureSnoc(dec, [r] + init, last);
      assert [r] + records == [r] + init + [last] && records == init + [last];
    }
  }

  /** After an event that ends the response, the others tell nothing. */
  lemma EndingTells(dec: Decoder, r: Record, rest: seq<Record>, seen: Seen)
    requires Ends(dec, r) && Knows(seen.observer, dec, r) && seen.failure == Classified(dec, r)
    ensures Tells(dec, [r] + rest, seen)
  {
    var records := [r] + rest;
    LastFailureCons(dec, r, []);
    assert records[0] == r && records[..1] == [r] + [];
    forall n: nat | FirstEnding(dec, records, n) ensures n == 0 {}
  }

  lemma NoneEndsInRest(dec: Decoder, r: Record, rest: seq<Record>)
    requires NoneEnds(dec, [r] + rest)
    ensures NoneEnds(dec, rest)
  {
    forall i | 0 <= i < |rest| ensures !Ends(dec, rest[i]) {
      assert ([r] + rest)[i + 1] == rest[i];
    }
  }

  lemma FirstEndingInRest(dec: Decoder, r: Record, rest: seq<Record>, n: nat)
    requires !Ends(dec, r) && FirstEnding(dec, [r] + rest, n)
    ensures n > 0 && FirstEnding(dec, rest, n - 1) && ([r] + rest)[n] == rest[n - 1]
    ensures ([r] + rest)[..n + 1] == [r] + rest[..n]
  {
    assert ([r] + rest)[0] == r;
    forall i | 0 <= i < n - 1 ensures !Ends(dec, rest[i]) {
      assert ([r] + rest)[i + 1] == rest[i];
    }
  }

  /** An event that does not end the response only adds its failure. */
  lemma GoingOnTells(dec: Decoder, r: Record, rest: seq<Record>, first: Seen, second: Seen)
    requires !Ends(dec, r) && first.failure == Classified(dec, r) && Tells(dec, rest, second)
    ensures Tells(dec, [r] + rest, O.Followed(first, second))
  {
    var records, seen := [r] + rest, O.Followed(first, second);
    LastFailureCons(dec, r, rest);
    if NoneEnds(dec, records) {
      NoneEndsInRest(dec, r, rest);
    }
    forall n: nat | FirstEnding(dec, records, n)
      ensures Knows(seen.observer, dec, records[n]) && seen.failure == LastFailure(dec, records[..n + 1])
    {
      FirstEndingInRest(dec, r, rest, n);
      LastFailureCons(dec, r, rest[..n]);
    }
  }

  lemma RecordsOfFirst(f: seq<byte>, rest: seq<seq<byte>>)
    ensures RecordsOf([f] + rest) == [EventRecord(f)] + RecordsOf(rest)
  {
  }

  /** What one event tells. */
  lemma FirstEventTells(o: Observer, dec: Decoder, f: seq<byte>, r: Record) returns (first: Seen)
    requires Ready(o) && IsFrame(f) && |f| <= o.limit && (o.skipLf ==> f[0] != LF) && r == EventRecord(f)
    ensures first == O.Feed(o, dec, f) && first.failure == Classified(dec, r)
    ensures if Ends(dec, r) then Knows(first.observer, dec, r)
            else Ready(first.observer) && first.observer.limit == o.limit
                 && first.observer.skipLf == (f[|f| - 1] == CR)
  {
    first := O.Feed(o, dec, f);
    OneEvent(o, dec, f);
    DispatchKnows(o, dec, r);
    EndingNames(dec, r);
  }

  lemma NothingFollows(first: Seen)
    ensures O.Followed(first, O.Seen(first.observer, None, [])).failure == first.failure
    ensures O.Followed(first, O.Seen(first.observer, None, [])).observer == first.observer
  {
  }

  /**
   * Whatever bytes arrive, the observer knows the first event that ends the
   * response, its name and its usage, and reports the last failure up to it;
   * without such an event it knows nothing.
   */
  lemma {:induction false} FirstEndingDecides(o: Observer, dec: Decoder, bytes: seq<byte>)
    requires Ready(o) && (o.skipLf && bytes != [] ==> bytes[0] != LF) && EventsFit(bytes, o.limit)
    ensures Tells(dec, RecordsOf(Events(bytes)), O.Feed(o, dec, bytes))
    decreases |bytes|
  {
    if EventEnd(bytes) == None {
      RestIsSilent(o, dec, NO_FIELDS, bytes);
      SilentKnowsNothing(o, dec, bytes);
    } else {
      var f, rest := FirstEvent(bytes);
      FitCons(f, Events(rest), o.limit);
      RecordsOfFirst(f, Events(rest));
      O.FeedConcat(o, dec, f, rest);
      var r := EventRecord(f);
      var first := FirstEventTells(o, dec, f, r);
      if Ends(dec, r) {
        O.TerminalIsFinal(first.observer, dec, rest);
        NothingFollows(first);
        EndingTells(dec, r, RecordsOf(Events(rest)), O.Feed(o, dec, bytes));
      } else {
        FirstEndingDecides(first.observer, dec, rest);
        GoingOnTells(dec, r, RecordsOf(Events(rest)), first, O.Feed(first.observer, dec, rest));
      }
    }
  }

  /** The same behind the gate: from its frames as from the chunks themselves. */
  lemma FirstEndingDecidesBehindGate(dec: Decoder, chunks: seq<seq<byte>>)
    requires G.FeedAll(G.FRESH, chunks).Some?
    ensures var r := G.FeedAll(G.FRESH, chunks).value;
            var records := RecordsOf(Events(Flatten(chunks)));
            && Tells(dec, records, O.FeedAll(O.Fresh(G.EVENT_LIMIT), dec, chunks))
            && Tells(dec, records, O.FeedAll(O.Fresh(G.EVENT_LIMIT), dec, r.frames + G.Finish(r.gate)))
  {
    var bytes, start := Flatten(chunks), O.Fresh(G.EVENT_LIMIT);
    G.WholeStream(chunks);
    O.SplitsAreInvisible(start, dec, chunks);
    O.SplitsAreInvisible(start, dec, Events(bytes));
    EventsOfEvents(bytes);
    FirstEndingDecides(start, dec, bytes);
    FirstEndingDecides(start, dec, Flatten(Events(bytes)));
  }
}
