/**
 The batch reading of an event stream: cut it into lines, group the lines on
 blank ones, join the data of a group with LF. The incremental parser refines it.
 */
module SseBatch {
  import opened Common
  import opened Sse

  /** A finished line: its text, and its length with the terminator, which is what the budget counts. */
  datatype Line = Line(size: nat, text: bytes)

  /** The lines of a stream whose endings are all LF, and the length of the unfinished rest. */
  function Cut(first: bool, input: bytes): (seq<Line>, nat)
    decreases |input|
  {
    var k := Find(input, LF);
    if k == |input| then ([], k)
    else
      var text := if first then StripBom(input[..k]) else input[..k];
      var (lines, rest) := Cut(false, input[k + 1..]);
      ([Line(k + 1, text)] + lines, rest)
  }

  function Size(group: seq<Line>): nat {
    if group == [] then 0 else Size(group[..|group| - 1]) + group[|group| - 1].size
  }

  /** The values of the `data` fields of a group, in order. */
  function DataValues(group: seq<Line>): seq<bytes> {
    if group == [] then []
    else
      var last := group[|group| - 1].text;
      DataValues(group[..|group| - 1]) + if FieldName(last) == DATA then [FieldValue(last)] else []
  }

  /** The value of the last `event` field of a group, or nothing. */
  function EventType(group: seq<Line>): bytes {
    if group == [] then []
    else
      var last := group[|group| - 1].text;
      if FieldName(last) == EVENT then FieldValue(last) else EventType(group[..|group| - 1])
  }

  function Join(values: seq<bytes>): bytes
    requires values != []
  {
    if |values| == 1 then values[0] else Join(values[..|values| - 1]) + [LF] + values[|values| - 1]
  }

  /** What a finished group of lines says. */
  function EventOutcome(s: Setting, group: seq<Line>): Outcome {
    var values := DataValues(group);
    if values == [] then More
    else if EventType(group) != [] && EventType(group) != MESSAGE then Failed(ProtocolError)
    else Judge(s, s.decode(Join(values)))
  }

  /** One more line: the group it leaves open, and what it reports. */
  function Take(s: Setting, group: seq<Line>, l: Line): (seq<Line>, Outcome) {
    if Size(group) + l.size > s.limit then (group, Failed(LimitError))
    else if !s.utf8(l.text) then (group, Failed(ProtocolError))
    else if l.text != [] then (group + [l], More)
    else ([], EventOutcome(s, group))
  }

  /** The outcome of the lines still to come, with the lines of the current group so far. */
  function Batch(s: Setting, group: seq<Line>, lines: seq<Line>, rest: nat): Outcome
    decreases |lines|
  {
    if lines == [] then (if Size(group) + rest > s.limit then Failed(LimitError) else More)
    else
      var (next, outcome) := Take(s, group, lines[0]);
      if outcome.More? then Batch(s, next, lines[1..], rest) else outcome
  }

  // ------------------------------------------------------------- refinement

  /** The data buffer of the parser after the lines of a group. */
  function Buffer(group: seq<Line>): bytes {
    if group == [] then []
    else
      var last := group[|group| - 1].text;
      Buffer(group[..|group| - 1]) + if FieldName(last) == DATA then FieldValue(last) + [LF] else []
  }

  lemma {:induction false} BufferIsJoin(group: seq<Line>)
    ensures Buffer(group) == [] <==> DataValues(group) == []
    ensures DataValues(group) != [] ==> Buffer(group) == Join(DataValues(group)) + [LF]
  {
    if group != [] {
      var before, last := group[..|group| - 1], group[|group| - 1].text;
      BufferIsJoin(before);
      if FieldName(last) == DATA {
        var values := DataValues(group);
        assert values[..|values| - 1] == DataValues(before);
        if DataValues(before) != [] {
          assert Buffer(group) == Join(DataValues(before)) + [LF] + FieldValue(last) + [LF];
        }
      } else {
        assert DataValues(group) == DataValues(before);
      }
    }
  }

  /** The parser between two lines: it holds exactly the fields of the group so far. */
  function Between(group: seq<Line>, first: bool): Parser {
    Parser([], Buffer(group), EventType(group), Size(group), false, first)
  }

  lemma {:induction false} RunPlain(s: Setting, p: Parser, input: bytes)
    requires !p.afterCr && CR !in input && LF !in input
    ensures p.used + |input| > s.limit && input != [] ==> Run(s, p, input).1 == Failed(LimitError)
    ensures p.used + |input| <= s.limit || input == [] ==>
              Run(s, p, input) == (p.(line := p.line + input, used := p.used + |input|), More)
    decreases |input|
  {
    if input == [] {
      assert p.line + input == p.line;
    } else {
      var b := input[0];
      assert b in input;
      var (q, outcome) := Step(s, p, b);
      if outcome.More? {
        RunPlain(s, q, input[1..]);
        assert p.line + [b] + input[1..] == p.line + input;
      }
    }
  }

  lemma {:induction false} FindFirst(input: bytes, b: byte)
    ensures var k := Find(input, b); b !in input[..k] && (k < |input| ==> input[k] == b)
  {
    if input != [] && input[0] != b {
      FindFirst(input[1..], b);
      var k := Find(input, b);
      assert input[..k] == [input[0]] + input[1..][..k - 1];
    }
  }

  /** One more line in a group extends what the parser buffers. */
  lemma GroupGrows(group: seq<Line>, l: Line)
    ensures Size(group + [l]) == Size(group) + l.size
    ensures Buffer(group + [l]) ==
            if FieldName(l.text) == DATA then Buffer(group) + FieldValue(l.text) + [LF] else Buffer(group)
    ensures EventType(group + [l]) == if FieldName(l.text) == EVENT then FieldValue(l.text) else EventType(group)
  {
    assert (group + [l])[..|group + [l]| - 1] == group;
    assert Buffer(group) + (FieldValue(l.text) + [LF]) == Buffer(group) + FieldValue(l.text) + [LF];
    assert Buffer(group) + [] == Buffer(group);
  }

  /** A blank line reports exactly what the group says. */
  lemma GroupEnds(s: Setting, group: seq<Line>, p: Parser)
    requires p.data == Buffer(group) && p.event == EventType(group)
    ensures Dispatched(s, p) == (p.(used := 0, data := [], event := []), EventOutcome(s, group))
  {
    BufferIsJoin(group);
    if DataValues(group) != [] {
      assert p.data[..|p.data| - 1] == Join(DataValues(group));
    }
  }

  /** What the parser does with the line it just finished. */
  lemma EndStep(s: Setting, group: seq<Line>, first: bool, raw: bytes, l: Line)
    requires (first ==> group == []) && l == Line(|raw| + 1, if first then StripBom(raw) else raw)
    requires Size(group) + l.size <= s.limit
    ensures var (q, outcome) := LineEnded(s, Between(group, first).(line := raw, used := Size(group) + l.size));
            var (next, expected) := Take(s, group, l);
            outcome == expected && (outcome.More? ==> q == Between(next, false) && Size(next) <= s.limit)
  {
    if s.utf8(l.text) {
      if l.text == [] {
        GroupEnds(s, group, Between(group, false).(used := Size(group) + l.size));
      } else {
        GroupGrows(group, l);
        assert DATA[0] != EVENT[0];
      }
    }
  }

  /** A terminator within the budget ends the line. */
  lemma StepLf(s: Setting, p: Parser)
    requires !p.afterCr && p.used + 1 <= s.limit
    ensures Run(s, p, [LF]) == LineEnded(s, p.(used := p.used + 1))
  {
    RunOne(s, p, LF);
    assert p.(afterCr := LF == CR, used := p.used + 1) == p.(used := p.used + 1);
  }

  /** A raw line and its terminator, within the budget. */
  lemma LineStep(s: Setting, p: Parser, raw: bytes)
    requires !p.afterCr && p.line == [] && p.used + |raw| + 1 <= s.limit && CR !in raw && LF !in raw
    ensures Run(s, p, raw + [LF]) == LineEnded(s, p.(line := raw, used := p.used + |raw| + 1))
  {
    hide Run, LineEnded;
    var full := p.(line := raw, used := p.used + |raw|);
    RunConcat(s, p, raw, [LF]);
    RunPlain(s, p, raw);
    assert p.line + raw == raw;
    assert Run(s, p, raw) == (full, More);
    StepLf(s, full);
    assert full.(used := full.used + 1) == p.(line := raw, used := p.used + |raw| + 1);
  }

  /** One finished line takes the parser from group to group. */
  lemma LineOutcome(s: Setting, group: seq<Line>, first: bool, raw: bytes, l: Line)
    requires (first ==> group == []) && l == Line(|raw| + 1, if first then StripBom(raw) else raw)
    requires Size(group) <= s.limit && CR !in raw && LF !in raw
    ensures Run(s, Between(group, first), raw + [LF]).1 == Take(s, group, l).1
    ensures Take(s, group, l).1.More? ==>
              && Run(s, Between(group, first), raw + [LF]).0 == Between(Take(s, group, l).0, false)
              && Size(Take(s, group, l).0) <= s.limit
  {
    hide LineEnded;
    hide EventOutcome;
    if Size(group) + l.size > s.limit {
      OverBudget(s, Between(group, first), raw);
    } else {
      LineStep(s, Between(group, first), raw);
      EndStep(s, group, first, raw, l);
    }
  }

  lemma RunOne(s: Setting, p: Parser, b: byte)
    ensures Run(s, p, [b]) == Step(s, p, b)
  {
    var (q, outcome) := Step(s, p, b);
    assert [b][1..] == [];
    assert Run(s, q, []) == (q, More);
  }

  lemma {:induction false} RunIsBatch(s: Setting, group: seq<Line>, first: bool, input: bytes)
    requires CR !in input && Size(group) <= s.limit && (first ==> group == [])
    ensures Run(s, Between(group, first), input).1 == Batch(s, group, Cut(first, input).0, Cut(first, input).1)
    decreases |input|
  {
    var p := Between(group, first);
    var k := Find(input, LF);
    FindFirst(input, LF);
    if k == |input| {
      assert input[..k] == input;
      RunPlain(s, p, input);
    } else {
      var raw, rest := input[..k], input[k + 1..];
      assert input == raw + [LF] + rest;
      var l := Line(k + 1, if first then StripBom(raw) else raw);
      assert Cut(first, input).0[1..] == Cut(false, rest).0;
      RunConcat(s, p, raw + [LF], rest);
      LineOutcome(s, group, first, raw, l);
      var (next, outcome) := Take(s, group, l);
      if outcome.More? {
        RunIsBatch(s, next, false, rest);
      }
    }
  }

  lemma OverBudget(s: Setting, p: Parser, raw: bytes)
    requires !p.afterCr && CR !in raw && LF !in raw && p.used + |raw| + 1 > s.limit
    ensures Run(s, p, raw + [LF]).1 == Failed(LimitError)
  {
    RunPlain(s, p, raw);
    RunConcat(s, p, raw, [LF]);
    RunOne(s, p.(line := p.line + raw, used := p.used + |raw|), LF);
  }

  /** The incremental parser computes the batch reading of any stream, whatever its line endings. */
  lemma ParserRefinesBatch(s: Setting, input: bytes)
    ensures var (lines, rest) := Cut(true, Normal(false, input));
            Run(s, START, input).1 == Batch(s, [], lines, rest)
  {
    NormalHasNoCr(false, input);
    RunOfNormal(s, START, input);
    RunIsBatch(s, [], true, Normal(false, input));
  }

  lemma {:induction false} NormalHasNoCr(afterCr: bool, input: bytes)
    ensures CR !in Normal(afterCr, input)
    decreases |input|
  {
    if input != [] {
      NormalHasNoCr(input[0] == CR, input[1..]);
      NormalHasNoCr(false, input[1..]);
    }
  }
}
