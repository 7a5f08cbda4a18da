/**
 The request headers made from a tool call (`tool_headers` and `primitive` in
 src/mcp/headers.rs): the tool's name, and one header for each annotated
 argument that is present.
 */
module ToolHeaders {
  import opened Common
  import opened Json
  import opened HeaderAnnotations
  import opened AnnotationSites
  import HeaderEncoding
  import HeaderIntegers

  const NAME_HEADER := "mcp-name"

  // ------------------------------------------------------ text as UTF-8 bytes

  function Utf8Char(c: char): bytes {
    var n := c as int;
    if n < 0x80 then [n]
    else if n < 0x800 then [0xC0 + n / 0x40, 0x80 + n % 0x40]
    else if n < 0x1_0000 then [0xE0 + n / 0x1000, 0x80 + n / 0x40 % 0x40, 0x80 + n % 0x40]
    else [0xF0 + n / 0x4_0000, 0x80 + n / 0x1000 % 0x40, 0x80 + n / 0x40 % 0x40, 0x80 + n % 0x40]
  }

  function Utf8(s: string): bytes {
    if s == [] then [] else Utf8Char(s[0]) + Utf8(s[1..])
  }

  function EncodedText(s: string): bytes {
    HeaderEncoding.Encoded(Utf8(s))
  }

  /** The first byte tells how many bytes a character takes. */
  lemma FirstByteTellsLength(c: char, d: char)
    requires Utf8Char(c)[0] == Utf8Char(d)[0]
    ensures |Utf8Char(c)| == |Utf8Char(d)|
  {
  }

  lemma Digits64(n: nat)
    ensures n == n / 0x40 * 0x40 + n % 0x40
    ensures n / 0x1000 == n / 0x40 / 0x40
    ensures n / 0x4_0000 == n / 0x1000 / 0x40
  {
  }

  /** The number that the bytes of one character carry. */
  function Utf8Number(b: seq<int>): int {
    if |b| == 1 then b[0]
    else if |b| == 2 then b[0] * 0x40 + b[1] - 0x3080
    else if |b| == 3 then b[0] * 0x1000 + b[1] * 0x40 + b[2] - 0xE_2080
    else if |b| == 4 then b[0] * 0x4_0000 + b[1] * 0x1000 + b[2] * 0x40 + b[3] - 0x3C8_2080
    else 0
  }

  lemma NumberOfChar(c: char)
    ensures Utf8Number(Utf8Char(c)) == c as int
  {
    var n := c as int;
    Digits64(n);
    Digits64(n / 0x40);
    Digits64(n / 0x1000);
  }

  lemma Utf8CharIsInjective(c: char, d: char)
    requires Utf8Char(c) == Utf8Char(d)
    ensures c == d
  {
    NumberOfChar(c);
    NumberOfChar(d);
  }

  lemma {:induction false} Utf8IsInjective(s: string, t: string)
    requires Utf8(s) == Utf8(t)
    ensures s == t
  {
    hide Utf8Char;
    if s == [] || t == [] {
      EmptyText(s);
      EmptyText(t);
    } else {
      CharHasBytes(s[0]);
      CharHasBytes(t[0]);
      var a, b := Utf8Char(s[0]), Utf8Char(t[0]);
      assert a[0] == Utf8(s)[0] && b[0] == Utf8(t)[0];
      FirstByteTellsLength(s[0], t[0]);
      assert a == Utf8(s)[..|a|] && b == Utf8(t)[..|a|];
      assert Utf8(s[1..]) == Utf8(s)[|a|..] && Utf8(t[1..]) == Utf8(t)[|a|..];
      Utf8CharIsInjective(s[0], t[0]);
      Utf8IsInjective(s[1..], t[1..]);
      assert s == [s[0]] + s[1..] && t == [t[0]] + t[1..];
    }
  }

  /** The bytes of a character: as many as its code point takes, a leading byte that tells how many, continuations. */
  lemma Utf8Form(c: char)
    ensures var n, b := c as int, Utf8Char(c);
            && |b| == (if n < 0x80 then 1 else if n < 0x800 then 2 else if n < 0x1_0000 then 3 else 4)
            && (|b| == 1 ==> b[0] < 0x80) && (|b| == 2 ==> 0xC0 <= b[0] < 0xE0)
            && (|b| == 3 ==> 0xE0 <= b[0] < 0xF0) && (|b| == 4 ==> 0xF0 <= b[0] < 0xF8)
            && (forall i :: 1 <= i < |b| ==> 0x80 <= b[i] < 0xC0)
            && Utf8Number(b) == n
  {
    NumberOfChar(c);
  }

  lemma CharHasBytes(c: char)
    ensures |Utf8Char(c)| > 0
  {
  }

  lemma EmptyText(s: string)
    ensures Utf8(s) == [] <==> s == []
  {
    if s != [] {
      CharHasBytes(s[0]);
    }
  }

  /** Different strings never share a header value. */
  lemma EncodedTextIsInjective(s: string, t: string)
    requires EncodedText(s) == EncodedText(t)
    ensures s == t
  {
    HeaderEncoding.EncodedIsInjective(Utf8(s), Utf8(t));
    Utf8IsInjective(s, t);
  }

  // ------------------------------------------------------------- one argument

  /** Follow the property names down from the arguments. */
  function Lookup(arguments: Value, path: seq<string>): Option<Value>
    decreases |path|
  {
    if path == [] then Some(arguments)
    else
      var parent := Lookup(arguments, path[..|path| - 1]);
      if parent.Some? then Get(parent.value, path[|path| - 1]) else None
  }

  function Keys(path: seq<string>): Position {
    seq(|path|, i requires 0 <= i < |path| => Key(path[i]))
  }

  lemma {:induction false} AtLast(v: Value, p: Position, name: string)
    ensures At(v, p + [Key(name)]) == if At(v, p).Some? then Get(At(v, p).value, name) else None
    decreases |p|
  {
    var all := p + [Key(name)];
    if p == [] {
      assert all[1..] == [];
      if Get(v, name).Some? {
        assert At(Get(v, name).value, []) == Some(Get(v, name).value);
      }
    } else {
      assert all[1..] == p[1..] + [Key(name)];
      match p[0] {
        case Key(first) =>
          if Get(v, first).Some? {
            AtLast(Get(v, first).value, p[1..], name);
          }
        case Item(i) =>
          if v.Array? && i < |v.items| {
            AtLast(v.items[i], p[1..], name);
          }
      }
    }
  }

  /** The argument is what stands at the position of these keys, each below the one before. */
  lemma {:induction false} LookupIsAt(arguments: Value, path: seq<string>)
    ensures Lookup(arguments, path) == At(arguments, Keys(path))
    decreases |path|
  {
    if path != [] {
      var n := |path| - 1;
      LookupIsAt(arguments, path[..n]);
      AtLast(arguments, Keys(path[..n]), path[n]);
      assert Keys(path) == Keys(path[..n]) + [Key(path[n])];
    }
  }

  /** The argument is there and not null. */
  predicate Present(arguments: Value, path: seq<string>) {
    Lookup(arguments, path).Some? && !Lookup(arguments, path).value.Null?
  }

  function Primitive(value: Value, kind: string): Result<string, Error> {
    match value
    case String(chars) => if kind == "string" then Ok(chars) else Err(ArgumentError)
    case Bool(b) => if kind == "boolean" then Ok(if b then "true" else "false") else Err(ArgumentError)
    case Number(text) =>
      if kind == "integer" && HeaderIntegers.Integer(text).Ok? then Ok(HeaderIntegers.Integer(text).value)
      else Err(ArgumentError)
    case _ => Err(ArgumentError)
  }

  /** The text to mirror for a present argument. */
  function Mirrored(arguments: Value, x: Parameter): Result<string, Error>
    requires Present(arguments, x.path)
  {
    Primitive(Lookup(arguments, x.path).value, x.kind)
  }

  // ------------------------------------ what is mirrored, told of the argument

  /** This argument has the annotated kind, and if it is a number it stands for an integer of the safe range. */
  ghost predicate Suits(value: Value, kind: string) {
    || (value.String? && kind == "string")
    || (value.Bool? && kind == "boolean")
    || (value.Number? && kind == "integer"
        && exists n :: -HeaderIntegers.MAX_SAFE <= n <= HeaderIntegers.MAX_SAFE && HeaderIntegers.Stands(value.text, n))
  }

  ghost predicate ShowsInteger(header: bytes, text: string) {
    exists n :: -HeaderIntegers.MAX_SAFE <= n <= HeaderIntegers.MAX_SAFE
                && HeaderIntegers.Stands(text, n) && header == EncodedText(HeaderIntegers.SignedText(n))
  }

  /** The header holds the argument itself: its characters, the word of its truth value, or the decimal of its integer. */
  ghost predicate Shows(header: bytes, value: Value) {
    || (value.String? && header == EncodedText(value.chars))
    || (value == Bool(true) && header == EncodedText("true"))
    || (value == Bool(false) && header == EncodedText("false"))
    || (value.Number? && ShowsInteger(header, value.text))
  }

  /** A number among the annotated arguments is a JSON number. */
  ghost predicate NumberOk(arguments: Value, x: Parameter) {
    Present(arguments, x.path) && Lookup(arguments, x.path).value.Number? ==>
      HeaderIntegers.IsNumber(Lookup(arguments, x.path).value.text)
  }

  lemma PrimitiveIff(value: Value, kind: string)
    requires value.Number? ==> HeaderIntegers.IsNumber(value.text)
    ensures Primitive(value, kind).Ok? <==> Suits(value, kind)
    ensures Primitive(value, kind).Ok? ==> Shows(EncodedText(Primitive(value, kind).value), value)
  {
    hide EncodedText, HeaderIntegers.Integer, HeaderIntegers.Stands, HeaderIntegers.IsNumber, HeaderIntegers.SignedText;
    if value.Number? {
      HeaderIntegers.IntegerIff(value.text);
    }
  }

  method Argument(arguments: Value, path: seq<string>) returns (value: Option<Value>)
    ensures value == Lookup(arguments, path)
  {
    value := Some(arguments);
    for i := 0 to |path|
      invariant value == Lookup(arguments, path[..i])
    {
      assert path[..i + 1][..i] == path[..i];
      value := if value.Some? then Get(value.value, path[i]) else None;
    }
    assert path[..|path|] == path;
  }

  // ------------------------------------------------------------- all headers

  type Headers = map<string, bytes>

  /** The header of `x` is there just when its argument is, and holds that argument. */
  predicate Holds(headers: Headers, arguments: Value, x: Parameter) {
    if !Present(arguments, x.path) then x.name !in headers
    else Mirrored(arguments, x).Ok? && x.name in headers && headers[x.name] == EncodedText(Mirrored(arguments, x).value)
  }

  predicate Mirrorable(arguments: Value, x: Parameter) {
    Present(arguments, x.path) ==> Mirrored(arguments, x).Ok?
  }

  /** The annotated parameters of a schema, told without the walk. */
  ghost predicate IsParameter(schema: Value, x: Parameter) {
    ChainParameter(schema, x.path) == Some(x)
  }

  lemma HeaderNamesDiffer(schema: Value, x: Parameter)
    requires IsParameter(schema, x)
    ensures x.name != NAME_HEADER
  {
    var annotation := Get(At(schema, Chain(x.path)).value, "x-mcp-header").value;
    var name := "Mcp-Param-" + annotation.chars;
    assert name[4] == 'P';
    assert Lower(name)[4] == 'p' && NAME_HEADER[4] == 'n';
  }

  /**
   Succeeds exactly when the schema is well annotated and every present argument
   can be mirrored. Then the map holds the tool's name, one header for each
   present annotated argument, and nothing else.
   */
  method ToolHeaders(name: string, schema: Value, arguments: Value) returns (result: Result<Headers, Error>)
    requires UniqueKeys(schema)
    ensures result.Ok? <==>
            && WellAnnotated(schema)
            && forall x: Parameter :: IsParameter(schema, x) ==> Mirrorable(arguments, x)
    ensures !WellAnnotated(schema) ==> result == Err(ProtocolError)
    ensures WellAnnotated(schema) && result.Err? ==> result == Err(ArgumentError)
    ensures (forall x: Parameter :: IsParameter(schema, x) ==> NumberOk(arguments, x)) ==>
              (result.Ok? <==>
                && WellAnnotated(schema)
                && forall x: Parameter :: IsParameter(schema, x) && Present(arguments, x.path) ==>
                     Suits(Lookup(arguments, x.path).value, x.kind))
    ensures result.Ok? ==> forall x: Parameter ::
              IsParameter(schema, x) && NumberOk(arguments, x) && Present(arguments, x.path) ==>
                x.name in result.value && Shows(result.value[x.name], Lookup(arguments, x.path).value)
    ensures result.Ok? ==> NAME_HEADER in result.value && result.value[NAME_HEADER] == EncodedText(name)
    ensures result.Ok? ==> forall x: Parameter :: IsParameter(schema, x) ==> Holds(result.value, arguments, x)
    ensures result.Ok? ==> forall n :: n in result.value ==>
              n == NAME_HEADER || exists x: Parameter :: IsParameter(schema, x) && x.name == n
  {
    hide Holds, Mirrored, EncodedText, WellAnnotated, IsParameter, Annotations, HeaderEncoding.Encoded;
    hide Suits, Shows, NumberOk, Mirrorable;
    forall x: Parameter | NumberOk(arguments, x) && Present(arguments, x.path)
      ensures Mirrorable(arguments, x) <==> Suits(Lookup(arguments, x.path).value, x.kind)
    {
      MirrorableIff(arguments, x);
    }
    forall x: Parameter | !Present(arguments, x.path) ensures Mirrorable(arguments, x) {
      AbsentIsMirrorable(arguments, x);
    }
    var headers: Headers := map[NAME_HEADER := EncodedText(name)];
    AnnotationsAcceptWellAnnotated(schema);
    var found := FindAnnotations(schema);
    if found.Err? {
      OnlyProtocolErrors(schema);
      return Err(found.error);
    }
    var parameters := found.value;
    ParametersOf(schema);
    for i := 0 to |parameters|
      invariant NAME_HEADER in headers && headers[NAME_HEADER] == EncodedText(name)
      invariant forall k :: 0 <= k < i ==> Holds(headers, arguments, parameters[k])
      invariant forall k :: 0 <= k < i ==> Mirrorable(arguments, parameters[k])
      invariant forall n :: n in headers ==> n == NAME_HEADER || exists k :: 0 <= k < i && parameters[k].name == n
    {
      var x := parameters[i];
      assert x in parameters;
      HeaderNamesDiffer(schema, x);
      var value := Argument(arguments, x.path);
      ghost var before := headers;
      if value.Some? && !value.value.Null? {
        var text := Primitive(value.value, x.kind);
        Outcome(arguments, x, text);
        if text.Err? {
          return Err(ArgumentError);
        }
        headers := headers[x.name := EncodedText(text.value)];
      }
      HoldsAfter(before, headers, arguments, x);
      forall k | 0 <= k < i ensures Holds(headers, arguments, parameters[k]) {
        HoldsStill(before, headers, arguments, parameters[k], x.name);
      }
    }
    forall x: Parameter | IsParameter(schema, x) ensures Holds(headers, arguments, x) && Mirrorable(arguments, x) {
      assert x in parameters;
    }
    forall n | n in headers && n != NAME_HEADER
      ensures exists x: Parameter :: IsParameter(schema, x) && x.name == n
    {
      var k :| 0 <= k < |parameters| && parameters[k].name == n;
      assert parameters[k] in parameters;
    }
    forall x: Parameter | IsParameter(schema, x) && NumberOk(arguments, x) && Present(arguments, x.path)
      ensures x.name in headers && Shows(headers[x.name], Lookup(arguments, x.path).value)
    {
      HeldIsShown(headers, arguments, x);
    }
    return Ok(headers);
  }

  lemma MirrorableIff(arguments: Value, x: Parameter)
    requires NumberOk(arguments, x) && Present(arguments, x.path)
    ensures Mirrorable(arguments, x) <==> Suits(Lookup(arguments, x.path).value, x.kind)
  {
    hide Primitive, Suits, Shows;
    PrimitiveIff(Lookup(arguments, x.path).value, x.kind);
  }

  lemma AbsentIsMirrorable(arguments: Value, x: Parameter)
    requires !Present(arguments, x.path)
    ensures Mirrorable(arguments, x)
  {
  }

  lemma HeldIsShown(headers: Headers, arguments: Value, x: Parameter)
    requires Holds(headers, arguments, x) && NumberOk(arguments, x) && Present(arguments, x.path)
    ensures x.name in headers && Shows(headers[x.name], Lookup(arguments, x.path).value)
  {
    hide Primitive, Suits, Shows;
    PrimitiveIff(Lookup(arguments, x.path).value, x.kind);
  }

  lemma OnlyProtocolErrors(schema: Value)
    ensures Annotations(schema).Err? ==> Annotations(schema) == Err(ProtocolError)
  {
  }

  lemma ParametersOf(schema: Value)
    requires UniqueKeys(schema) && Annotations(schema).Ok?
    ensures forall x :: x in Annotations(schema).value <==> IsParameter(schema, x)
    ensures forall i, j :: 0 <= i < j < |Annotations(schema).value| ==>
                             Annotations(schema).value[i].name != Annotations(schema).value[j].name
  {
    hide Annotations, ChainParameter;
    AnnotationsAreThoseAtChains(schema);
  }

  lemma Outcome(arguments: Value, x: Parameter, text: Result<string, Error>)
    requires Present(arguments, x.path) && text == Primitive(Lookup(arguments, x.path).value, x.kind)
    ensures Mirrorable(arguments, x) <==> text.Ok?
    ensures text == Mirrored(arguments, x)
  {
  }

  lemma HoldsAfter(before: Headers, headers: Headers, arguments: Value, x: Parameter)
    requires x.name !in before && Mirrorable(arguments, x)
    requires headers == if Present(arguments, x.path) then before[x.name := EncodedText(Mirrored(arguments, x).value)]
                        else before
    ensures Holds(headers, arguments, x)
  {
  }

  lemma HoldsStill(before: Headers, headers: Headers, arguments: Value, x: Parameter, other: string)
    requires Holds(before, arguments, x) && x.name != other
    requires x.name in headers <==> x.name in before
    requires x.name in before ==> headers[x.name] == before[x.name]
    ensures Holds(headers, arguments, x)
  {
  }
}
