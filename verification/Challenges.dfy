/**
 Parsing WWW-Authenticate (src/auth/challenge.rs; sections 11.6.1 and 5.6.4 of
 RFC 9110).
 */
module Challenges {
  import opened Common

  datatype Error = Invalid

  type Fields = map<string, string>

  datatype Parsed = Parsed(scheme: string, fields: Fields)

  // -------------------------------------------------------------- characters

  predicate IsAlphanumeric(c: char) {
    'a' <= c <= 'z' || 'A' <= c <= 'Z' || '0' <= c <= '9'
  }

  predicate IsTokenChar(c: char) {
    IsAlphanumeric(c) || c in {'!', '#', '$', '%', '&', '\'', '*', '+', '-', '.', '^', '_', '`', '|', '~'}
  }

  predicate IsToken68Char(c: char) {
    IsAlphanumeric(c) || c in {'-', '.', '_', '~', '+', '/'}
  }

  /** Unicode White_Space. */
  predicate IsSpace(c: char) {
    var n := c as int;
    9 <= n <= 13 || n in {0x20, 0x85, 0xA0, 0x1680, 0x2028, 0x2029, 0x202F, 0x205F, 0x3000} || 0x2000 <= n <= 0x200A
  }

  predicate IsControl(c: char) {
    c as int < 0x20 || 0x7F <= c as int <= 0x9F
  }

  predicate IsGap(c: char) {
    c == ' ' || c == '\t' || c == ','
  }

  function LowerChar(c: char): char {
    if 'A' <= c <= 'Z' then (c as int + 32) as char else c
  }

  function Lower(s: string): string {
    seq(|s|, i requires 0 <= i < |s| => LowerChar(s[i]))
  }

  predicate IsBearer(word: string) {
    Lower(word) == "bearer"
  }

  // --------------------------------------------------------- cutting the text

  function TrimStart(s: string): (t: string)
    ensures |t| <= |s|
    ensures t != [] ==> !IsSpace(t[0])
  {
    if s != [] && IsSpace(s[0]) then TrimStart(s[1..]) else s
  }

  function SkipGap(s: string): (t: string)
    ensures |t| <= |s|
    ensures t != [] ==> !IsGap(t[0])
  {
    if s != [] && IsGap(s[0]) then SkipGap(s[1..]) else s
  }

  predicate Blank(s: string) {
    TrimStart(s) == []
  }

  function TokenLength(s: string): (n: nat)
    ensures n <= |s|
  {
    if s != [] && IsTokenChar(s[0]) then 1 + TokenLength(s[1..]) else 0
  }

  /** Index of the first comma, space or tab, or the length. */
  function GapIndex(s: string): (n: nat)
    ensures n <= |s|
  {
    if s != [] && !IsGap(s[0]) then 1 + GapIndex(s[1..]) else 0
  }

  function TrimEquals(s: string): (t: string)
    ensures |t| <= |s|
  {
    if s != [] && s[|s| - 1] == '=' then TrimEquals(s[..|s| - 1]) else s
  }

  predicate AllToken68(s: string) {
    forall i :: 0 <= i < |s| ==> IsToken68Char(s[i])
  }

  /** What follows a token68, or the input itself if it does not start with one. */
  function SkipToken68(s: string): (t: string)
    ensures |t| <= |s|
  {
    var n := GapIndex(s);
    var text := TrimEquals(s[..n]);
    if text != [] && AllToken68(text) then s[n..] else s
  }

  // --------------------------------------------------------------- parameters

  /** The rest of a quoted string, after `value` was read. */
  function Quoted(s: string, value: string, escaped: bool): (r: Result<(string, string), Error>)
    ensures r.Ok? ==> |r.value.1| < |s|
  {
    if s == [] || IsControl(s[0]) then Err(Invalid)
    else if escaped then Quoted(s[1..], value + [s[0]], false)
    else if s[0] == '\\' then Quoted(s[1..], value, true)
    else if s[0] == '"' then Ok((value, s[1..]))
    else Quoted(s[1..], value + [s[0]], false)
  }

  function Parameter(s: string): (r: Result<(string, string), Error>)
    ensures r.Ok? ==> |r.value.1| < |s|
  {
    if s != [] && s[0] == '"' then Quoted(s[1..], [], false)
    else if TokenLength(s) == 0 then Err(Invalid)
    else Ok((s[..TokenLength(s)], s[TokenLength(s)..]))
  }

  method ReadParameter(s: string) returns (result: Result<(string, string), Error>)
    ensures result == Parameter(s)
  {
    if s == [] || s[0] != '"' {
      var n := TokenLength(s);
      return if n == 0 then Err(Invalid) else Ok((s[..n], s[n..]));
    }
    var value, escaped := [], false;
    var body := s[1..];
    for i := 0 to |body|
      invariant Quoted(body, [], false) == Quoted(body[i..], value, escaped)
    {
      var c := body[i];
      assert body[i..][0] == c && body[i..][1..] == body[i + 1..];
      if IsControl(c) {
        return Err(Invalid);
      }
      if escaped {
        value, escaped := value + [c], false;
      } else if c == '\\' {
        escaped := true;
      } else if c == '"' {
        assert s[i + 2..] == body[i + 1..];
        return Ok((value, s[i + 2..]));
      } else {
        value := value + [c];
      }
    }
    return Err(Invalid);
  }

  // --------------------------------------------------------------- challenges

  /** One turn of the loop, at a word: what is left to read and what was found so far. */
  function Turn(at: string, output: seq<Parsed>): (r: Result<(string, seq<Parsed>), Error>)
    ensures r.Ok? ==> |r.value.0| < |at|
  {
    var n := TokenLength(at);
    if n == 0 then Err(Invalid)
    else
      var word, rest := at[..n], TrimStart(at[n..]);
      if rest != [] && rest[0] == '=' then AddField(word, rest[1..], output)
      else
        Ok((if IsBearer(word) then rest else SkipToken68(rest), output + [Parsed(word, map[])]))
  }

  function AddField(word: string, rest: string, output: seq<Parsed>): (r: Result<(string, seq<Parsed>), Error>)
    ensures r.Ok? ==> |r.value.0| <= |rest|
  {
    if output == [] then Err(Invalid)
    else
      var parameter := Parameter(TrimStart(rest));
      if parameter.Err? then Err(Invalid)
      else
        var last, key := Last(output), Lower(word);
        var after := TrimStart(parameter.value.1);
        if key in last.fields || (after != [] && after[0] != ',') then Err(Invalid)
        else Ok((after, output[..|output| - 1] + [last.(fields := last.fields[key := parameter.value.0])]))
  }

  function ParseFrom(input: string, output: seq<Parsed>): Result<seq<Parsed>, Error>
    decreases |input|
  {
    if Blank(input) || SkipGap(input) == [] then Ok(output)
    else
      var turn := Turn(SkipGap(input), output);
      if turn.Err? then Err(Invalid) else ParseFrom(turn.value.0, turn.value.1)
  }

  method ReadChallenges(header: string) returns (result: Result<seq<Parsed>, Error>)
    ensures result == ParseFrom(header, [])
  {
    hide TrimStart, SkipGap, TokenLength, Quoted, Parameter, SkipToken68, IsBearer, Lower;
    var input, output := header, [];
    while !Blank(input)
      invariant ParseFrom(header, []) == ParseFrom(input, output)
      decreases |input|
    {
      var at := SkipGap(input);
      if at == [] {
        break;
      }
      var n := TokenLength(at);
      if n == 0 {
        return Err(Invalid);
      }
      var word := at[..n];
      var rest := TrimStart(at[n..]);
      if rest != [] && rest[0] == '=' {
        if output == [] {
          return Err(Invalid);
        }
        var last := Last(output);
        var parameter := ReadParameter(TrimStart(rest[1..]));
        if parameter.Err? || Lower(word) in last.fields {
          return Err(Invalid);
        }
        output := output[..|output| - 1] + [last.(fields := last.fields[Lower(word) := parameter.value.0])];
        input := TrimStart(parameter.value.1);
        if input != [] && input[0] != ',' {
          return Err(Invalid);
        }
      } else {
        output := output + [Parsed(word, map[])];
        input := if IsBearer(word) then rest else SkipToken68(rest);
      }
    }
    return Ok(output);
  }

  // --------------------------------------------------- the header as a whole

  datatype Challenge = Challenge(metadata: Option<string>, scope: Option<string>)

  const HEADER_LIMIT: nat := 16384

  function Lookup(fields: Fields, key: string): Option<string> {
    if key in fields then Some(fields[key]) else None
  }

  /** All challenges of all header values, in order. Values are visible ASCII and tabs, so length counts bytes. */
  function AllChallenges(headers: seq<string>): Result<seq<Parsed>, Error> {
    if headers == [] then Ok([])
    else
      var before := AllChallenges(headers[..|headers| - 1]);
      var here := ParseFrom(Last(headers), []);
      if before.Err? || |Last(headers)| > HEADER_LIMIT || here.Err? then Err(Invalid) else Ok(before.value + here.value)
  }

  function Bearers(all: seq<Parsed>): seq<Parsed> {
    if all == [] then []
    else Bearers(all[..|all| - 1]) + if IsBearer(Last(all).scheme) then [Last(all)] else []
  }

  /** Every header must parse, and there may be one bearer challenge among all of them. */
  function Answer(headers: seq<string>): Result<Challenge, Error> {
    var all := AllChallenges(headers);
    if all.Err? || |Bearers(all.value)| > 1 then Err(Invalid)
    else if Bearers(all.value) == [] then Ok(Challenge(None, None))
    else
      var fields := Bearers(all.value)[0].fields;
      Ok(Challenge(Lookup(fields, "resource_metadata"), Lookup(fields, "scope")))
  }

  lemma {:induction false} BearersConcat(a: seq<Parsed>, b: seq<Parsed>)
    ensures Bearers(a + b) == Bearers(a) + Bearers(b)
  {
    hide IsBearer;
    if b == [] {
      assert a + b == a;
    } else {
      assert (a + b)[..|a + b| - 1] == a + b[..|b| - 1];
      BearersConcat(a, b[..|b| - 1]);
    }
  }

  lemma {:induction false} ErrorsStay(headers: seq<string>, n: nat)
    requires n <= |headers| && AllChallenges(headers[..n]).Err?
    ensures AllChallenges(headers).Err?
    decreases |headers|
  {
    if n < |headers| {
      assert headers[..|headers| - 1][..n] == headers[..n];
      ErrorsStay(headers[..|headers| - 1], n);
    } else {
      assert headers[..n] == headers;
    }
  }

  lemma {:induction false} BearersStay(headers: seq<string>, n: nat)
    requires n <= |headers| && AllChallenges(headers[..n]).Ok? && AllChallenges(headers).Ok?
    ensures |Bearers(AllChallenges(headers).value)| >= |Bearers(AllChallenges(headers[..n]).value)|
    decreases |headers|
  {
    if n < |headers| {
      assert headers[..|headers| - 1][..n] == headers[..n];
      BearersStay(headers[..|headers| - 1], n);
      BearersConcat(AllChallenges(headers[..|headers| - 1]).value, ParseFrom(Last(headers), []).value);
    } else {
      assert headers[..n] == headers;
    }
  }

  function ChallengeOf(bearer: Parsed): Challenge {
    Challenge(Lookup(bearer.fields, "resource_metadata"), Lookup(bearer.fields, "scope"))
  }

  predicate Represents(found: Option<Challenge>, bearers: seq<Parsed>) {
    |bearers| <= 1 && found == if bearers == [] then None else Some(ChallengeOf(bearers[0]))
  }

  lemma OneMoreHeader(headers: seq<string>, h: nat)
    requires h < |headers| && AllChallenges(headers[..h]).Ok?
    ensures AllChallenges(headers[..h + 1]) ==
            if |headers[h]| > HEADER_LIMIT || ParseFrom(headers[h], []).Err? then Err(Invalid)
            else Ok(AllChallenges(headers[..h]).value + ParseFrom(headers[h], []).value)
  {
    assert headers[..h + 1][..h] == headers[..h];
  }

  lemma OneMoreBearer(before: seq<Parsed>, list: seq<Parsed>, k: nat)
    requires k < |list|
    ensures Bearers(before + list[..k + 1]) ==
            Bearers(before + list[..k]) + if IsBearer(list[k].scheme) then [list[k]] else []
  {
    var more := before + list[..k + 1];
    assert more[..|more| - 1] == before + list[..k] && Last(more) == list[k];
  }

  lemma TwoBearers(headers: seq<string>, h: nat, k: nat)
    requires h < |headers| && AllChallenges(headers[..h]).Ok? && |headers[h]| <= HEADER_LIMIT
    requires ParseFrom(headers[h], []).Ok? && k <= |ParseFrom(headers[h], []).value|
    requires |Bearers(AllChallenges(headers[..h]).value + ParseFrom(headers[h], []).value[..k])| > 1
    ensures Answer(headers) == Err(Invalid)
  {
    hide ParseFrom, AllChallenges, Bearers;
    var before, list := AllChallenges(headers[..h]).value, ParseFrom(headers[h], []).value;
    OneMoreHeader(headers, h);
    assert before + list == (before + list[..k]) + list[k..];
    BearersConcat(before + list[..k], list[k..]);
    if AllChallenges(headers).Ok? {
      BearersStay(headers, h + 1);
    }
  }

  /** `parse`. */
  method Parse(headers: seq<string>) returns (result: Result<Challenge, Error>)
    ensures result == Answer(headers)
  {
    hide ParseFrom, IsBearer, AllChallenges;
    var found: Option<Challenge> := None;
    assert AllChallenges(headers[..0]) == Ok([]) by { NoChallenges(headers); }
    for h := 0 to |headers|
      invariant AllChallenges(headers[..h]).Ok?
      invariant Represents(found, Bearers(AllChallenges(headers[..h]).value))
    {
      OneMoreHeader(headers, h);
      if |headers[h]| > HEADER_LIMIT {
        ErrorsStay(headers, h + 1);
        return Err(Invalid);
      }
      var parsed := ReadChallenges(headers[h]);
      if parsed.Err? {
        ErrorsStay(headers, h + 1);
        return Err(Invalid);
      }
      var list := parsed.value;
      ghost var before := AllChallenges(headers[..h]).value;
      assert before + list[..0] == before;
      for k := 0 to |list|
        invariant Represents(found, Bearers(before + list[..k]))
      {
        OneMoreBearer(before, list, k);
        if IsBearer(list[k].scheme) {
          if found.Some? {
            TwoBearers(headers, h, k + 1);
            return Err(Invalid);
          }
          found := Some(ChallengeOf(list[k]));
        }
      }
      assert list[..|list|] == list;
    }
    assert headers[..|headers|] == headers;
    return Ok(if found.Some? then found.value else Challenge(None, None));
  }

  lemma NoChallenges(headers: seq<string>)
    ensures AllChallenges(headers[..0]) == Ok([])
  {
  }
}
