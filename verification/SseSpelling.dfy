/**
 Streams as a server writes them: events, each a list of fields and comments, one to
 a line. What the parser reports of such a stream is told from the fields alone.
 */
module SseSpelling {
  import opened Common
  import opened Sse
  import opened SseBatch

  /** One line: a field without a colon, or a name, a colon, perhaps a space, and a value. A comment has no name. */
  datatype Entry = Bare(name: bytes) | Pair(name: bytes, space: bool, value: bytes)

  function Value(e: Entry): bytes {
    if e.Bare? then [] else e.value
  }

  function EntryText(e: Entry): bytes {
    match e
    case Bare(name) => name
    case Pair(name, space, value) => name + ([COLON] + ((if space then [SPACE] else []) + value))
  }

  predicate OneLine(text: bytes) {
    CR !in text && LF !in text
  }

  /** Without the optional space, the value must not start with one. */
  predicate EntryOk(e: Entry) {
    && OneLine(e.name) && COLON !in e.name && OneLine(Value(e))
    && (if e.Bare? then e.name != [] else e.space || e.value == [] || e.value[0] != SPACE)
  }

  function Ascii(text: string): bytes {
    seq(|text|, i requires 0 <= i < |text| => (text[i] as int % 128) as byte)
  }

  /** The names and the event type that the parser knows. */
  lemma KnownNames()
    ensures DATA == Ascii("data") && EVENT == Ascii("event") && MESSAGE == Ascii("message")
  {
  }

  /** An event: its lines and a blank one. */
  function EventText(entries: seq<Entry>): bytes {
    if entries == [] then [LF] else EntryText(entries[0]) + ([LF] + EventText(entries[1..]))
  }

  function StreamText(stream: seq<seq<Entry>>): bytes {
    if stream == [] then [] else EventText(stream[0]) + StreamText(stream[1..])
  }

  // ------------------------------------------------------------- what it says

  /** The values of the fields called `data`, in order. */
  function Data(entries: seq<Entry>): seq<bytes> {
    if entries == [] then []
    else
      var e := entries[|entries| - 1];
      Data(entries[..|entries| - 1]) + if e.name == DATA then [Value(e)] else []
  }

  /** The value of the last field called `event`, or nothing. */
  function Kind(entries: seq<Entry>): bytes {
    if entries == [] then []
    else
      var e := entries[|entries| - 1];
      if e.name == EVENT then Value(e) else Kind(entries[..|entries| - 1])
  }

  /** The values with an LF between each two. */
  function Lines(values: seq<bytes>): bytes
    requires values != []
  {
    if |values| == 1 then values[0] else values[0] + ([LF] + Lines(values[1..]))
  }

  /** What an event of acceptable length reports. */
  function Says(s: Setting, entries: seq<Entry>): Outcome {
    if Data(entries) == [] then More
    else if Kind(entries) != [] && Kind(entries) != MESSAGE then Failed(ProtocolError)
    else Judge(s, s.decode(Lines(Data(entries))))
  }

  /** What the stream reports: the first event that is too long, or has a result or an error. `extra` counts for the first one. */
  function Reports(s: Setting, stream: seq<seq<Entry>>, extra: nat): Outcome {
    if stream == [] then More
    else if |EventText(stream[0])| + extra > s.limit then Failed(LimitError)
    else if !Says(s, stream[0]).More? then Says(s, stream[0])
    else Reports(s, stream[1..], 0)
  }

  // ----------------------------------------------------------------- one line

  lemma {:induction false} FindOf(name: bytes, b: byte, rest: bytes)
    requires b !in name && (rest == [] || rest[0] == b)
    ensures Find(name + rest, b) == |name|
  {
    if name == [] {
      assert name + rest == rest;
    } else {
      assert name[0] in name && (name + rest)[1..] == name[1..] + rest;
      FindOf(name[1..], b, rest);
    }
  }

  /** A field is read back, with or without a space after the colon, or without a colon. */
  lemma FieldIsReadBack(e: Entry)
    requires EntryOk(e)
    ensures FieldName(EntryText(e)) == e.name && FieldValue(EntryText(e)) == Value(e)
  {
    var text := EntryText(e);
    if e.Bare? {
      FindOf(e.name, COLON, []);
      assert e.name + [] == e.name;
    } else {
      var rest := (if e.space then [SPACE] else []) + e.value;
      FindOf(e.name, COLON, [COLON] + rest);
      assert text[..|e.name|] == e.name && text[|e.name| + 1..] == rest;
      assert e.space ==> rest[1..] == e.value;
    }
  }

  lemma EntryIsLine(e: Entry)
    requires EntryOk(e)
    ensures OneLine(EntryText(e)) && EntryText(e) != []
  {
  }

  /** What a message means to the caller that awaits `s.id`. */
  lemma JudgeIff(s: Setting, d: Result<Message, Error>)
    ensures Judge(s, d) == More <==> d == Ok(Notification)
    ensures forall v :: Judge(s, d) == Found(v) <==> d == Ok(Response(Some(s.id), Ok(v)))
    ensures forall e :: Judge(s, d) == Failed(e) <==>
              || d == Err(e) || d == Ok(Response(Some(s.id), Err(e)))
              || (d.Ok? && d.value.Response? && d.value.id != Some(s.id) && e == ProtocolError)
  {
  }

  /** Only the first line may lose a byte order mark, and only one. */
  lemma BomIsStrippedOnce(line: bytes)
    ensures StripBom(BOM + line) == line
    ensures !(BOM <= line) ==> StripBom(line) == line
  {
  }

  // --------------------------------------------------------------- cut to lines

  /** The lines of an event; `extra` bytes stand before the first one. */
  function LinesOf(entries: seq<Entry>, extra: nat): seq<Line> {
    if entries == [] then [Line(1 + extra, [])]
    else [Line(|EntryText(entries[0])| + 1 + extra, EntryText(entries[0]))] + LinesOf(entries[1..], 0)
  }

  predicate AllOk(entries: seq<Entry>) {
    forall i :: 0 <= i < |entries| ==> EntryOk(entries[i])
  }

  /** Whether the text may be cut with this much in front: a byte order mark at the very start, or nothing. */
  predicate Prefixed(first: bool, prefix: bytes, line: bytes) {
    if first && prefix == BOM then true else prefix == [] && (first ==> !(BOM <= line))
  }

  lemma CutAt(first: bool, raw: bytes, rest: bytes)
    requires LF !in raw
    ensures Cut(first, raw + ([LF] + rest)) ==
            ([Line(|raw| + 1, if first then StripBom(raw) else raw)] + Cut(false, rest).0, Cut(false, rest).1)
  {
    hide StripBom;
    var text := raw + ([LF] + rest);
    FindOf(raw, LF, [LF] + rest);
    assert text[..|raw|] == raw && text[|raw| + 1..] == rest;
  }

  lemma CutOne(first: bool, prefix: bytes, line: bytes, rest: bytes)
    requires OneLine(line) && Prefixed(first, prefix, line)
    ensures Cut(first, prefix + (line + ([LF] + rest))) ==
            ([Line(|line| + 1 + |prefix|, line)] + Cut(false, rest).0, Cut(false, rest).1)
  {
    hide StripBom, Cut;
    assert prefix + (line + ([LF] + rest)) == prefix + line + ([LF] + rest);
    CutAt(first, prefix + line, rest);
    BomIsStrippedOnce(line);
    assert [] + line == line;
  }

  function FirstLine(entries: seq<Entry>): bytes {
    if entries == [] then [] else EntryText(entries[0])
  }

  lemma Associates<T>(a: seq<T>, b: seq<T>, c: seq<T>)
    ensures a + b + c == a + (b + c)
  {
  }

  lemma NoPrefix(line: bytes)
    ensures Prefixed(false, [], line)
  {
  }

  lemma {:induction false} CutEvent(first: bool, prefix: bytes, entries: seq<Entry>, rest: bytes)
    requires AllOk(entries) && Prefixed(first, prefix, FirstLine(entries))
    ensures Cut(first, prefix + (EventText(entries) + rest)) ==
            (LinesOf(entries, |prefix|) + Cut(false, rest).0, Cut(false, rest).1)
    decreases |entries|
  {
    hide Cut, EntryText, EntryOk, Prefixed;
    if entries == [] {
      CutOne(first, prefix, [], rest);
      assert [] + ([LF] + rest) == [LF] + rest;
    } else {
      EntryIsLine(entries[0]);
      var line, more := EntryText(entries[0]), EventText(entries[1..]);
      Associates(line, [LF] + more, rest);
      Associates([LF], more, rest);
      CutOne(first, prefix, line, more + rest);
      NoPrefix(FirstLine(entries[1..]));
      CutEvent(false, [], entries[1..], rest);
      assert [] + (more + rest) == more + rest;
      Associates([Line(|line| + 1 + |prefix|, line)], LinesOf(entries[1..], 0), Cut(false, rest).0);
    }
  }

  // ----------------------------------------------------------- group by group

  /** The group holds the lines of these entries. */
  predicate Groups(group: seq<Line>, entries: seq<Entry>) {
    |group| == |entries| && forall i :: 0 <= i < |group| ==> group[i].text == EntryText(entries[i])
  }

  lemma {:induction false} GroupSays(group: seq<Line>, entries: seq<Entry>)
    requires Groups(group, entries) && AllOk(entries)
    ensures DataValues(group) == Data(entries) && EventType(group) == Kind(entries)
  {
    hide FieldName, FieldValue, EntryText, EntryOk;
    if group != [] {
      var n := |group| - 1;
      FieldIsReadBack(entries[n]);
      GroupSays(group[..n], entries[..n]);
    }
  }

  lemma {:induction false} JoinIsLines(values: seq<bytes>)
    requires values != []
    ensures Join(values) == Lines(values)
    decreases |values|
  {
    var n := |values| - 1;
    if n > 0 {
      JoinIsLines(values[..n]);
      JoinIsLines(values[1..]);
      if n > 1 {
        JoinIsLines(values[1..n]);
        assert values[..n][1..] == values[1..n] && values[1..][..n - 1] == values[1..n];
        assert values[0] + ([LF] + Join(values[1..n])) + [LF] + values[n] ==
               values[0] + ([LF] + (Join(values[1..n]) + [LF] + values[n]));
      } else {
        assert values[0] + ([LF] + values[1]) == values[0] + [LF] + values[1];
      }
    }
  }

  lemma OutcomeSays(s: Setting, group: seq<Line>, entries: seq<Entry>)
    requires Groups(group, entries) && AllOk(entries)
    ensures EventOutcome(s, group) == Says(s, entries)
  {
    hide Join, Lines, Judge;
    GroupSays(group, entries);
    if Data(entries) != [] {
      JoinIsLines(Data(entries));
    }
  }

  /** Every line of the event, the blank one included, is valid UTF-8. */
  predicate AllUtf8(s: Setting, entries: seq<Entry>) {
    s.utf8([]) && forall i :: 0 <= i < |entries| ==> s.utf8(EntryText(entries[i]))
  }

  /** The lines of an event after those of `group`, which are of the entries `before`. */
  lemma {:induction false} BatchEvent(
    s: Setting, group: seq<Line>, before: seq<Entry>, entries: seq<Entry>, extra: nat, lines: seq<Line>, rest: nat)
    requires Groups(group, before) && AllOk(before) && AllOk(entries) && Size(group) <= s.limit
    ensures var total := Size(group) + |EventText(entries)| + extra;
            var outcome := Batch(s, group, LinesOf(entries, extra) + lines, rest);
            if !AllUtf8(s, entries) then total <= s.limit ==> outcome == Failed(ProtocolError)
            else if total > s.limit then outcome == Failed(LimitError)
            else if Says(s, before + entries).More? then outcome == Batch(s, [], lines, rest)
            else outcome == Says(s, before + entries)
    decreases |entries|
  {
    hide Batch, EventOutcome, Says, EntryText, EntryOk, Size;
    var all := LinesOf(entries, extra) + lines;
    BatchOne(s, group, all, rest);
    if entries == [] {
      assert all[0] == Line(1 + extra, []) && all[1..] == lines;
      assert before + [] == before;
      OutcomeSays(s, group, before);
    } else {
      var l := Line(|EntryText(entries[0])| + 1 + extra, EntryText(entries[0]));
      assert all[0] == l && all[1..] == LinesOf(entries[1..], 0) + lines;
      EntryIsLine(entries[0]);
      GroupGrows(group, l);
      if Size(group) + l.size <= s.limit && s.utf8(l.text) {
        BatchEvent(s, group + [l], before + [entries[0]], entries[1..], 0, lines, rest);
        assert before + [entries[0]] + entries[1..] == before + entries;
        Utf8Head(s, entries);
      }
    }
  }

  lemma NoneOk()
    ensures AllOk([])
  {
  }

  lemma Utf8Head(s: Setting, entries: seq<Entry>)
    requires entries != []
    ensures AllUtf8(s, entries) <==> s.utf8(EntryText(entries[0])) && AllUtf8(s, entries[1..])
  {
    assert forall i :: 0 < i < |entries| ==> entries[i] == entries[1..][i - 1];
  }

  lemma BatchOne(s: Setting, group: seq<Line>, lines: seq<Line>, rest: nat)
    requires lines != []
    ensures Batch(s, group, lines, rest) ==
            if Take(s, group, lines[0]).1.More? then Batch(s, Take(s, group, lines[0]).0, lines[1..], rest)
            else Take(s, group, lines[0]).1
  {
  }

  // ------------------------------------------------------------- whole streams

  predicate StreamOk(s: Setting, stream: seq<seq<Entry>>) {
    forall i :: 0 <= i < |stream| ==> AllOk(stream[i]) && AllUtf8(s, stream[i])
  }

  lemma {:induction false} BatchStream(s: Setting, first: bool, prefix: bytes, stream: seq<seq<Entry>>)
    requires StreamOk(s, stream) && Prefixed(first, prefix, if stream == [] then [] else FirstLine(stream[0]))
    requires stream == [] ==> prefix == []
    ensures var (lines, rest) := Cut(first, prefix + StreamText(stream));
            Batch(s, [], lines, rest) == Reports(s, stream, |prefix|)
    decreases |stream|
  {
    hide Batch, Says, EventText, AllOk, AllUtf8;
    if stream == [] {
      assert prefix + StreamText(stream) == [];
      NothingLeft(s, first);
    } else {
      var rest := StreamText(stream[1..]);
      CutEvent(first, prefix, stream[0], rest);
      var (lines, left) := Cut(false, rest);
      NoneOk();
      BatchEvent(s, [], [], stream[0], |prefix|, lines, left);
      assert [] + stream[0] == stream[0];
      BatchStream(s, false, [], stream[1..]);
      assert [] + rest == rest;
    }
  }

  lemma NothingLeft(s: Setting, first: bool)
    ensures Cut(first, []) == ([], 0) && Batch(s, [], [], 0) == More
  {
  }

  /**
   A stream is read as it is written: whatever chunks it comes in and whatever its
   line endings, with or without a byte order mark, the parser reports what the first
   event reports that is too long or has a result or an error.
   */
  lemma StreamIsReadAsWritten(s: Setting, bom: bool, stream: seq<seq<Entry>>, chunks: seq<bytes>)
    requires StreamOk(s, stream) && stream != [] && (bom || !(BOM <= FirstLine(stream[0])))
    requires Normal(false, Flatten(chunks)) == (if bom then BOM else []) + StreamText(stream)
    ensures RunChunks(s, START, chunks).1 == Reports(s, stream, if bom then 3 else 0)
  {
    hide Batch, Cut, Run, Reports;
    ChunksAreRun(s, START, chunks);
    ParserRefinesBatch(s, Flatten(chunks));
    BatchStream(s, true, if bom then BOM else [], stream);
  }

  /** A single event that fits answers the awaited request exactly if its data decode to the response with that id. */
  lemma EventAnswersIff(s: Setting, bom: bool, entries: seq<Entry>, v: string)
    requires AllOk(entries) && AllUtf8(s, entries) && (bom || !(BOM <= FirstLine(entries)))
    requires (if bom then 3 else 0) + |EventText(entries)| <= s.limit
    ensures Run(s, START, (if bom then BOM else []) + EventText(entries)).1 == Found(v) <==>
            && Data(entries) != [] && (Kind(entries) == [] || Kind(entries) == MESSAGE)
            && s.decode(Lines(Data(entries))) == Ok(Response(Some(s.id), Ok(v)))
  {
    hide Run, Batch, Cut, EventText;
    var text := (if bom then BOM else []) + EventText(entries);
    OneStream(s, entries, if bom then 3 else 0);
    NormalOfLines(bom, entries);
    FlattenOne(text);
    StreamIsReadAsWritten(s, bom, [entries], [text]);
    ChunksAreRun(s, START, [text]);
    if Data(entries) != [] {
      JudgeIff(s, s.decode(Lines(Data(entries))));
    }
  }

  lemma OneStream(s: Setting, entries: seq<Entry>, extra: nat)
    ensures StreamText([entries]) == EventText(entries)
    ensures |EventText(entries)| + extra <= s.limit ==> Reports(s, [entries], extra) == Says(s, entries)
  {
    hide Says;
    assert [entries][1..] == [];
    assert EventText(entries) + [] == EventText(entries);
    assert Reports(s, [], 0) == More;
  }

  lemma FlattenOne(text: bytes)
    ensures Flatten([text]) == text
  {
    assert text + [] == text;
  }

  lemma {:induction false} NormalOfPlain(input: bytes)
    requires CR !in input
    ensures Normal(false, input) == input
  {
    if input != [] {
      NormalOfPlain(input[1..]);
    }
  }

  lemma {:induction false} EventHasNoCr(entries: seq<Entry>)
    requires AllOk(entries)
    ensures CR !in EventText(entries)
  {
    if entries != [] {
      EntryIsLine(entries[0]);
      EventHasNoCr(entries[1..]);
    }
  }

  lemma NormalOfLines(bom: bool, entries: seq<Entry>)
    requires AllOk(entries)
    ensures var text := (if bom then BOM else []) + EventText(entries); Normal(false, text) == text
  {
    EventHasNoCr(entries);
    NormalOfPlain((if bom then BOM else []) + EventText(entries));
  }

  /** An event that fits but has a line that is no UTF-8 is refused. */
  lemma InvalidUtf8IsRefused(s: Setting, bom: bool, entries: seq<Entry>, rest: bytes)
    requires AllOk(entries) && !AllUtf8(s, entries) && (bom || !(BOM <= FirstLine(entries))) && CR !in rest
    requires (if bom then 3 else 0) + |EventText(entries)| <= s.limit
    ensures Run(s, START, (if bom then BOM else []) + (EventText(entries) + rest)).1 == Failed(ProtocolError)
  {
    hide Run, Batch, Cut, AllOk, AllUtf8;
    var prefix := if bom then BOM else [];
    var text := prefix + (EventText(entries) + rest);
    EventHasNoCr(entries);
    NormalOfPlain(text);
    ParserRefinesBatch(s, text);
    CutEvent(true, prefix, entries, rest);
    NoneOk();
    BatchEvent(s, [], [], entries, |prefix|, Cut(false, rest).0, Cut(false, rest).1);
  }
}
