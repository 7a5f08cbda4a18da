/**
 The incremental server-sent-events parser (src/mcp/sse.rs), after section 9.2
 of the WHATWG HTML standard, with a byte budget per event. Bytes are the
 numbers below 256; UTF-8 validity and the JSON-RPC decoder are parameters.
 */
module Sse {
  import opened Common

  const LF: byte := 10
  const CR: byte := 13
  const SPACE: byte := 32
  const COLON: byte := 58
  const BOM: bytes := [0xEF, 0xBB, 0xBF]
  const DATA: bytes := [100, 97, 116, 97]
  const EVENT: bytes := [101, 118, 101, 110, 116]
  const MESSAGE: bytes := [109, 101, 115, 115, 97, 103, 101]

  datatype Error = LimitError | ProtocolError | RemoteError(code: int)

  datatype Message =
    | Notification
    | Response(id: Option<string>, result: Result<string, Error>)

  /** What the parser is given: UTF-8 validity, the message decoder, the awaited id and the budget. */
  datatype Setting = Setting(
    utf8: bytes -> bool,
    decode: bytes -> Result<Message, Error>,
    id: string,
    limit: nat)

  /** `Ok(None)`, `Ok(Some(value))` or an error of `feed`. */
  datatype Outcome = More | Found(value: string) | Failed(error: Error)

  datatype Parser = Parser(
    line: bytes,
    data: bytes,
    event: bytes,
    used: nat,
    afterCr: bool,
    firstLine: bool)

  const START := Parser([], [], [], 0, false, true)

  // --------------------------------------------------- one byte, as a function

  function StripBom(line: bytes): bytes {
    if BOM <= line then line[3..] else line
  }

  function Find(line: bytes, b: byte): (k: nat)
    ensures k <= |line|
  {
    if line == [] || line[0] == b then 0 else 1 + Find(line[1..], b)
  }

  function FieldName(line: bytes): bytes {
    line[..Find(line, COLON)]
  }

  /** The value of a field: what follows the colon, less one leading space. */
  function FieldValue(line: bytes): bytes {
    var k := Find(line, COLON);
    var value := if k < |line| then line[k + 1..] else [];
    if value != [] && value[0] == SPACE then value[1..] else value
  }

  /** What a message means to the caller waiting for `s.id`. */
  function Judge(s: Setting, decoded: Result<Message, Error>): Outcome {
    match decoded
    case Err(error) => Failed(error)
    case Ok(Notification) => More
    case Ok(Response(id, result)) =>
      if id != Some(s.id) then Failed(ProtocolError)
      else match result
        case Ok(value) => Found(value)
        case Err(error) => Failed(error)
  }

  function Dispatched(s: Setting, p: Parser): (Parser, Outcome) {
    var q := p.(used := 0, data := [], event := []);
    if p.data == [] then (q, More)
    else if p.event != [] && p.event != MESSAGE then (q, Failed(ProtocolError))
    else (q, Judge(s, s.decode(p.data[..|p.data| - 1])))
  }

  function LineEnded(s: Setting, p: Parser): (Parser, Outcome) {
    var line := if p.firstLine then StripBom(p.line) else p.line;
    var q := p.(line := [], firstLine := false);
    if !s.utf8(line) then (q, Failed(ProtocolError))
    else if line == [] then Dispatched(s, q)
    else if FieldName(line) == DATA then (q.(data := q.data + FieldValue(line) + [LF]), More)
    else if FieldName(line) == EVENT then (q.(event := FieldValue(line)), More)
    else (q, More)
  }

  function Step(s: Setting, p: Parser, b: byte): (Parser, Outcome) {
    if p.afterCr && b == LF then (p.(afterCr := false), More)
    else
      var q := p.(afterCr := b == CR, used := p.used + 1);
      if q.used > s.limit then (q, Failed(LimitError))
      else if b != CR && b != LF then (q.(line := q.line + [b]), More)
      else LineEnded(s, q)
  }

  /** Byte after byte until the first result or error. */
  function Run(s: Setting, p: Parser, input: bytes): (Parser, Outcome)
    decreases |input|
  {
    if input == [] then (p, More)
    else
      var (q, outcome) := Step(s, p, input[0]);
      if outcome.More? then Run(s, q, input[1..]) else (q, outcome)
  }

  // ------------------------------------------------------------ the class

  class Events {
    const setting: Setting
    var line: bytes
    var data: bytes
    var event: bytes
    var used: nat
    var afterCr: bool
    var firstLine: bool

    constructor (setting: Setting)
      ensures this.setting == setting && Abs() == START
    {
      this.setting := setting;
      line, data, event, used, afterCr, firstLine := [], [], [], 0, false, true;
    }

    function Abs(): Parser
      reads this
    {
      Parser(line, data, event, used, afterCr, firstLine)
    }

    method Dispatch() returns (outcome: Outcome)
      modifies this
      ensures (Abs(), outcome) == Dispatched(setting, old(Abs()))
    {
      used := 0;
      var payload, kind := data, event;
      data, event := [], [];
      if payload == [] {
        return More;
      }
      if kind != [] && kind != MESSAGE {
        return Failed(ProtocolError);
      }
      return Judge(setting, setting.decode(payload[..|payload| - 1]));
    }

    method EndLine() returns (outcome: Outcome)
      modifies this
      ensures (Abs(), outcome) == LineEnded(setting, old(Abs()))
    {
      var text := line;
      line := [];
      if firstLine {
        text := StripBom(text);
      }
      firstLine := false;
      if !setting.utf8(text) {
        return Failed(ProtocolError);
      }
      if text == [] {
        outcome := Dispatch();
        return;
      }
      var field, value := FieldName(text), FieldValue(text);
      if field == DATA {
        data := data + value + [LF];
      } else if field == EVENT {
        event := value;
      }
      return More;
    }

    /** `feed`: consume a chunk up to the first result or error. */
    method Feed(chunk: bytes) returns (outcome: Outcome)
      modifies this
      ensures (Abs(), outcome) == Run(setting, old(Abs()), chunk)
    {
      for i := 0 to |chunk|
        invariant Run(setting, old(Abs()), chunk) == Run(setting, Abs(), chunk[i..])
      {
        var b := chunk[i];
        assert chunk[i..][0] == b && chunk[i..][1..] == chunk[i + 1..];
        if afterCr && b == LF {
          afterCr := false;
          continue;
        }
        afterCr := b == CR;
        used := used + 1;
        if used > setting.limit {
          return Failed(LimitError);
        }
        if b != CR && b != LF {
          line := line + [b];
          continue;
        }
        outcome := EndLine();
        if !outcome.More? {
          return;
        }
      }
      return More;
    }
  }

  // ---------------------------------------------------- chunking does not matter

  lemma {:induction false} RunConcat(s: Setting, p: Parser, a: bytes, b: bytes)
    ensures Run(s, p, a + b) == (if Run(s, p, a).1.More? then Run(s, Run(s, p, a).0, b) else Run(s, p, a))
    decreases |a|
  {
    if a == [] {
      assert a + b == b;
    } else {
      assert (a + b)[0] == a[0] && (a + b)[1..] == a[1..] + b;
      RunConcat(s, Step(s, p, a[0]).0, a[1..], b);
    }
  }

  /** Feeding chunk after chunk, as the caller does. */
  function RunChunks(s: Setting, p: Parser, chunks: seq<bytes>): (Parser, Outcome)
    decreases |chunks|
  {
    if chunks == [] then (p, More)
    else
      var (q, outcome) := Run(s, p, chunks[0]);
      if outcome.More? then RunChunks(s, q, chunks[1..]) else (q, outcome)
  }

  function Flatten(chunks: seq<bytes>): bytes {
    if chunks == [] then [] else chunks[0] + Flatten(chunks[1..])
  }

  /** Any two ways to split the same bytes give the same first result or error. */
  lemma ChunkingDoesNotMatter(s: Setting, chunks: seq<bytes>, others: seq<bytes>)
    requires Flatten(chunks) == Flatten(others)
    ensures RunChunks(s, START, chunks) == RunChunks(s, START, others)
  {
    ChunksAreRun(s, START, chunks);
    ChunksAreRun(s, START, others);
  }

  lemma {:induction false} ChunksAreRun(s: Setting, p: Parser, chunks: seq<bytes>)
    ensures RunChunks(s, p, chunks) == Run(s, p, Flatten(chunks))
    decreases |chunks|
  {
    if chunks != [] {
      RunConcat(s, p, chunks[0], Flatten(chunks[1..]));
      ChunksAreRun(s, Run(s, p, chunks[0]).0, chunks[1..]);
    }
  }

  // ------------------------------------------------------------- line endings

  /** CRLF and CR become LF; `afterCr` says that a CR came just before. */
  function Normal(afterCr: bool, input: bytes): bytes
    decreases |input|
  {
    if input == [] then []
    else if afterCr && input[0] == LF then Normal(false, input[1..])
    else [if input[0] == CR then LF else input[0]] + Normal(input[0] == CR, input[1..])
  }

  /** Every stream gives the outcome of the stream with all its line endings made LF. */
  lemma {:induction false} RunOfNormal(s: Setting, p: Parser, input: bytes)
    ensures Run(s, p, input).1 == Run(s, p.(afterCr := false), Normal(p.afterCr, input)).1
    decreases |input|
  {
    if input != [] {
      var b := input[0];
      var (q, outcome) := Step(s, p, b);
      var rest := input[1..];
      if !(p.afterCr && b == LF) {
        var n := if b == CR then LF else b;
        var normal := Normal(p.afterCr, input);
        assert normal[0] == n && normal[1..] == Normal(b == CR, rest);
        assert Step(s, p.(afterCr := false), n) == (q.(afterCr := false), outcome);
      }
      if outcome.More? {
        RunOfNormal(s, q, rest);
      }
    }
  }

  function ReplaceLf(ending: bytes, input: bytes): bytes {
    if input == [] then []
    else (if input[0] == LF then ending else [input[0]]) + ReplaceLf(ending, input[1..])
  }

  lemma {:induction false} NormalOfReplaced(ending: bytes, input: bytes, afterCr: bool)
    requires CR !in input && (ending == [CR] || ending == [CR, LF])
    requires afterCr ==> ending == [CR]
    ensures Normal(afterCr, ReplaceLf(ending, input)) == input
  {
    if input != [] {
      var b, rest := input[0], ReplaceLf(ending, input[1..]);
      var all := ReplaceLf(ending, input);
      if b != LF {
        assert all[0] == b && all[1..] == rest;
        NormalOfReplaced(ending, input[1..], false);
      } else if ending == [CR, LF] {
        assert all[0] == CR && all[1..] == [LF] + rest && all[1..][1..] == rest;
        NormalOfReplaced(ending, input[1..], false);
      } else {
        assert all[0] == ending[0] && all[1..] == rest;
        NormalOfReplaced(ending, input[1..], ending == [CR]);
      }
    }
  }

  /** Replacing every LF of a CR-free stream by CR or CRLF changes nothing, the budget included. */
  lemma LineEndingsDoNotMatter(s: Setting, ending: bytes, input: bytes)
    requires CR !in input && (ending == [CR] || ending == [CR, LF])
    ensures Run(s, START, ReplaceLf(ending, input)).1 == Run(s, START, input).1
  {
    RunOfNormal(s, START, ReplaceLf(ending, input));
    NormalOfReplaced(ending, input, false);
  }
}
