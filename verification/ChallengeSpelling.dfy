/**
 Every way to spell a list of challenges, and which spellings parsing undoes. The
 text is a list of items: schemes, each perhaps with a token68, and the parameters
 of the scheme before them (sections 11.6.1, 11.2 and 5.6 of RFC 9110).
 */
module ChallengeSpelling {
  import opened Common
  import opened Challenges

  /** A value as it stands, or as a quoted string; `pairs` tells which characters are escaped without need. */
  datatype Form = AsToken | AsString(pairs: seq<bool>)

  /** `gap` stands before the item; `before` and `after` are the blanks around the equals sign. */
  datatype Item =
    | Scheme(gap: string, name: string, space: string, token68: string)
    | Field(gap: string, key: string, before: string, after: string, value: string, form: Form)

  // ---------------------------------------------------------------- spelling

  function EscapeChar(c: char, pair: bool): string {
    if pair || c == '"' || c == '\\' then ['\\', c] else [c]
  }

  function Escape(value: string, pairs: seq<bool>): string {
    if value == [] then []
    else
      EscapeChar(value[0], pairs != [] && pairs[0]) + Escape(value[1..], if pairs == [] then [] else pairs[1..])
  }

  function ValueText(value: string, form: Form): string {
    match form
    case AsToken => value
    case AsString(pairs) => "\"" + Escape(value, pairs) + "\""
  }

  function Body(item: Item): string {
    match item
    case Scheme(_, name, space, token68) => name + if token68 == [] then [] else space + token68
    case Field(_, key, before, after, value, form) => key + (before + ("=" + (after + ValueText(value, form))))
  }

  /** The items, then `end`. */
  function Text(items: seq<Item>, end: string): string {
    if items == [] then end else items[0].gap + (Body(items[0]) + Text(items[1..], end))
  }

  predicate AllTokenChars(s: string) {
    forall i :: 0 <= i < |s| ==> IsTokenChar(s[i])
  }

  predicate IsToken(s: string) {
    s != [] && AllTokenChars(s)
  }

  predicate Blanks(s: string) {
    forall i :: 0 <= i < |s| ==> s[i] == ' ' || s[i] == '\t'
  }

  predicate Gap(s: string) {
    forall i :: 0 <= i < |s| ==> IsGap(s[i])
  }

  /** A separator: blanks, then a comma. */
  predicate Separates(s: string) {
    Gap(s) && TrimStart(s) != [] && TrimStart(s)[0] == ','
  }

  predicate IsToken68(s: string) {
    TrimEquals(s) != [] && AllToken68(TrimEquals(s))
  }

  predicate ControlFree(s: string) {
    forall i :: 0 <= i < |s| ==> !IsControl(s[i])
  }

  /** What a quoted string may hold: no controls but tabs. */
  predicate Quotable(s: string) {
    forall i :: 0 <= i < |s| ==> !IsControl(s[i]) || s[i] == '\t'
  }

  predicate ItemOk(item: Item) {
    match item
    case Scheme(gap, name, space, token68) =>
      Gap(gap) && IsToken(name) && (token68 != [] ==> IsToken68(token68) && Blanks(space) && space != [])
    case Field(gap, key, before, after, value, form) =>
      && Gap(gap) && IsToken(key) && Blanks(before) && Blanks(after)
      && if form.AsString? then Quotable(value) else IsToken(value)
  }

  /**
   Items follow each other by a separator; only the first parameter of a scheme
   may follow it by blanks alone, and not after a token68.
   */
  predicate Follows(item: Item, next: Item) {
    Separates(next.gap)
    || (item.Scheme? && next.Field? && item.token68 == [] && Blanks(next.gap) && next.gap != [])
  }

  /** What the grammar allows. */
  predicate Grammatical(items: seq<Item>) {
    && (forall i :: 0 <= i < |items| ==> ItemOk(items[i]))
    && (forall i :: 0 < i < |items| ==> Follows(items[i - 1], items[i]))
  }

  /** No blanks around the equals sign, unless the key has a character that no token68 has. */
  predicate Tight(f: Item)
    requires f.Field?
  {
    (f.before == [] && f.after == []) || !AllToken68(f.key)
  }

  /** A parameter right after a scheme that the parser may take for a token68. */
  predicate Loose(item: Item, next: Item) {
    item.Scheme? && !IsBearer(item.name) && next.Field? && !Separates(next.gap) && !Tight(next)
  }

  /** What the parser cannot read although the grammar allows it: a token68 of Bearer, a tab in a quoted string. */
  predicate Unreadable(item: Item) {
    match item
    case Scheme(_, name, _, token68) => IsBearer(name) && token68 != []
    case Field(_, _, _, _, value, form) => form.AsString? && !ControlFree(value)
  }

  predicate ReadableHead(items: seq<Item>)
    requires items != []
  {
    !Unreadable(items[0]) && (|items| > 1 ==> !Loose(items[0], items[1]))
  }

  /** No item is of the kinds that the parser takes for something else. */
  predicate Readable(items: seq<Item>) {
    items == [] || (ReadableHead(items) && Readable(items[1..]))
  }

  /** What the items mean, after `output`; nothing if a parameter has no scheme or comes twice. */
  function Meaning(items: seq<Item>, output: seq<Parsed>): Option<seq<Parsed>>
    decreases |items|
  {
    if items == [] then Some(output)
    else
      match items[0]
      case Scheme(_, name, _, _) => Meaning(items[1..], output + [Parsed(name, map[])])
      case Field(_, key, _, _, value, _) =>
        if output == [] || Lower(key) in Last(output).fields then None
        else
          var last := Last(output);
          Meaning(items[1..], output[..|output| - 1] + [last.(fields := last.fields[Lower(key) := value])])
  }

  // ----------------------------------------------------------- small cutters

  lemma {:induction false} TokenLengthOf(word: string, rest: string)
    requires AllTokenChars(word) && (rest != [] ==> !IsTokenChar(rest[0]))
    ensures TokenLength(word + rest) == |word|
  {
    if word == [] {
      assert word + rest == rest;
    } else {
      assert (word + rest)[1..] == word[1..] + rest;
      TokenLengthOf(word[1..], rest);
    }
  }

  lemma {:induction false} SkipGapOf(gap: string, rest: string)
    requires Gap(gap) && (rest != [] ==> !IsGap(rest[0]))
    ensures SkipGap(gap + rest) == rest
  {
    if gap == [] {
      assert gap + rest == rest;
    } else {
      assert (gap + rest)[1..] == gap[1..] + rest;
      SkipGapOf(gap[1..], rest);
    }
  }

  lemma {:induction false} TrimBlanks(blanks: string, rest: string)
    requires Blanks(blanks) && (rest != [] ==> !IsSpace(rest[0]))
    ensures TrimStart(blanks + rest) == rest
  {
    if blanks == [] {
      assert blanks + rest == rest;
    } else {
      assert (blanks + rest)[1..] == blanks[1..] + rest;
      TrimBlanks(blanks[1..], rest);
    }
  }

  /** Trimming inside a gap leaves a gap. */
  lemma {:induction false} TrimGap(gap: string, rest: string)
    requires Gap(gap) && rest != [] && !IsSpace(rest[0])
    ensures Gap(TrimStart(gap)) && TrimStart(gap + rest) == TrimStart(gap) + rest
  {
    if gap != [] && IsSpace(gap[0]) {
      assert (gap + rest)[1..] == gap[1..] + rest;
      TrimGap(gap[1..], rest);
    } else if gap == [] {
      assert gap + rest == rest;
    }
  }

  lemma {:induction false} GapIndexOf(word: string, rest: string)
    requires forall i :: 0 <= i < |word| ==> !IsGap(word[i])
    requires rest != [] ==> IsGap(rest[0])
    ensures GapIndex(word + rest) == |word|
  {
    if word == [] {
      assert word + rest == rest;
    } else {
      assert (word + rest)[1..] == word[1..] + rest;
      GapIndexOf(word[1..], rest);
    }
  }

  lemma TokenCharIsPlain(c: char)
    requires IsTokenChar(c)
    ensures !IsSpace(c) && !IsGap(c) && c != '=' && c != '"' && !IsControl(c)
  {
  }

  lemma EscapeAdds(value: string, pairs: seq<bool>, rest: string)
    requires value != []
    ensures Escape(value, pairs) + rest ==
            EscapeChar(value[0], pairs != [] && pairs[0])
            + (Escape(value[1..], if pairs == [] then [] else pairs[1..]) + rest)
  {
  }

  lemma QuotedChar(c: char, pair: bool, more: string, read: string)
    requires !IsControl(c)
    ensures Quoted(EscapeChar(c, pair) + more, read, false) == Quoted(more, read + [c], false)
  {
    var s := EscapeChar(c, pair) + more;
    if pair || c == '"' || c == '\\' {
      assert s[1..] == [c] + more && s[1..][1..] == more;
    } else {
      assert s[1..] == more;
    }
  }

  lemma QuotedControl(c: char, pair: bool, more: string, read: string)
    requires IsControl(c)
    ensures Quoted(EscapeChar(c, pair) + more, read, false) == Err(Invalid)
  {
    var s := EscapeChar(c, pair) + more;
    assert s[0] == '\\' ==> s[1..][0] == c;
  }

  lemma QuotedEnd(pairs: seq<bool>, read: string, rest: string)
    ensures Quoted(Escape([], pairs) + ("\"" + rest), read, false) == Ok((read, rest))
  {
    var tail := "\"" + rest;
    assert Escape([], pairs) + tail == tail;
    assert tail[1..] == rest;
  }

  /** A quoted string is read back, whatever follows it; a tab in it is an error. */
  lemma {:induction false} QuotedOfEscape(value: string, pairs: seq<bool>, read: string, rest: string)
    ensures Quoted(Escape(value, pairs) + ("\"" + rest), read, false) ==
            if ControlFree(value) then Ok((read + value, rest)) else Err(Invalid)
    decreases |value|
  {
    hide Quoted, IsControl, Escape, EscapeChar;
    var tail := "\"" + rest;
    if value == [] {
      QuotedEnd(pairs, read, rest);
      assert read + value == read;
    } else {
      var c, pair, others := value[0], pairs != [] && pairs[0], if pairs == [] then [] else pairs[1..];
      var more := Escape(value[1..], others) + tail;
      EscapeAdds(value, pairs, tail);
      ControlFreeHead(value);
      if IsControl(c) {
        QuotedControl(c, pair, more, read);
      } else {
        QuotedChar(c, pair, more, read);
        QuotedOfEscape(value[1..], others, read + [c], rest);
        assert read + [c] + value[1..] == read + value;
      }
    }
  }

  lemma ControlFreeHead(s: string)
    requires s != []
    ensures ControlFree(s) <==> !IsControl(s[0]) && ControlFree(s[1..])
  {
    hide IsControl;
    assert forall i :: 0 < i < |s| ==> s[i] == s[1..][i - 1];
  }

  /** A value is read back, in either form. */
  lemma ParameterOfValue(value: string, form: Form, rest: string)
    requires form.AsToken? ==> IsToken(value)
    requires rest != [] ==> !IsTokenChar(rest[0])
    ensures Parameter(ValueText(value, form) + rest) ==
            if form.AsString? && !ControlFree(value) then Err(Invalid) else Ok((value, rest))
  {
    hide Quoted, Escape, IsControl;
    if form.AsString? {
      var s := "\"" + Escape(value, form.pairs) + "\"" + rest;
      assert s[0] == '"' && s[1..] == Escape(value, form.pairs) + ("\"" + rest);
      QuotedOfEscape(value, form.pairs, [], rest);
      assert [] + value == value;
    } else {
      TokenLengthOf(value, rest);
      TokenCharIsPlain(value[0]);
      assert (value + rest)[0] == value[0];
      assert (value + rest)[..|value|] == value && (value + rest)[|value|..] == rest;
    }
  }

  // ------------------------------------------------------------ one item each

  function Rest(items: seq<Item>, end: string): string
    requires items != []
  {
    Body(items[0]) + Text(items[1..], end)
  }

  lemma BodyStarts(items: seq<Item>, end: string)
    requires items != [] && ItemOk(items[0])
    ensures Rest(items, end) != [] && IsTokenChar(Rest(items, end)[0])
  {
  }

  /** The end of a text, or a gap. */
  predicate GapFirst(tail: string) {
    tail != [] ==> IsGap(tail[0])
  }

  /** The end of a text, or a separator. */
  predicate SeparatorFirst(tail: string) {
    GapFirst(tail) && (TrimStart(tail) != [] ==> TrimStart(tail)[0] == ',')
  }

  /** What follows an item: nothing, or a gap. */
  lemma AfterItem(items: seq<Item>, end: string)
    requires Grammatical(items) && items != [] && Gap(end)
    ensures Grammatical(items[1..]) && GapFirst(Text(items[1..], end))
  {
    var tail := items[1..];
    assert forall i :: 0 < i < |tail| ==> Follows(tail[i - 1], tail[i]) by {
      forall i | 0 < i < |tail| ensures Follows(tail[i - 1], tail[i]) {
        assert Follows(items[i], items[i + 1]);
      }
    }
    if tail != [] {
      assert Follows(items[0], items[1]) && tail[0] == items[1];
      assert ItemOk(items[1]);
      assert tail[0].gap != [];
      assert Text(tail, end)[0] == tail[0].gap[0];
    }
  }

  lemma {:induction false} TrimmedGap(s: string)
    requires Gap(s)
    ensures Gap(TrimStart(s)) && SeparatorFirst(s)
  {
    if s != [] && IsSpace(s[0]) {
      TrimmedGap(s[1..]);
    }
  }

  /** Trimmed, the text of separated items starts with a comma, the first parameter of a scheme with its key. */
  lemma TrimmedText(items: seq<Item>, end: string)
    requires Grammatical(items) && items != []
    ensures TrimStart(Text(items, end)) == TrimStart(items[0].gap) + Rest(items, end) && Gap(TrimStart(items[0].gap))
    ensures Separates(items[0].gap) ==> TrimStart(Text(items, end))[0] == ','
    ensures Blanks(items[0].gap) ==> TrimStart(Text(items, end)) == Rest(items, end)
  {
    assert ItemOk(items[0]);
    BodyStarts(items, end);
    TokenCharIsPlain(Rest(items, end)[0]);
    TrimGap(items[0].gap, Rest(items, end));
    if Blanks(items[0].gap) {
      TrimBlanks(items[0].gap, Rest(items, end));
    }
  }

  /** After a parameter or a token68, or where no parameter follows by blanks, there is a separator. */
  lemma AfterSeparated(items: seq<Item>, end: string)
    requires Grammatical(items) && items != [] && Gap(end)
    requires items[0].Field? || items[0].token68 != [] || (|items| > 1 ==> Separates(items[1].gap))
    ensures SeparatorFirst(Text(items[1..], end))
  {
    hide Separates, ItemOk;
    var tail := items[1..];
    AfterItem(items, end);
    if tail != [] {
      assert Follows(items[0], items[1]) && tail[0] == items[1];
      TrimmedText(tail, end);
    } else {
      TrimmedGap(end);
    }
  }

  lemma CommaIsNotToken68(s: string)
    requires s == [] || s[0] == ','
    ensures SkipToken68(s) == s
  {
    assert GapIndex(s) == 0;
    assert TrimEquals([]) == [];
  }

  lemma {:induction false} TrimEqualsKeeps(s: string, i: nat)
    requires i < |s| && s[i] != '='
    ensures i < |TrimEquals(s)| && TrimEquals(s) <= s
    decreases |s|
  {
    if s[|s| - 1] == '=' {
      TrimEqualsKeeps(s[..|s| - 1], i);
    }
  }

  lemma {:induction false} GapIndexBeyond(s: string, n: nat)
    requires n <= |s| && forall i :: 0 <= i < n ==> !IsGap(s[i])
    ensures n <= GapIndex(s)
  {
    if n > 0 {
      GapIndexBeyond(s[1..], n - 1);
    }
  }

  /** A parameter without blanks around its equals sign is never taken for a token68. */
  lemma ParameterIsNotToken68(key: string, value: string)
    requires IsToken(key) && value != [] && (IsTokenChar(value[0]) || value[0] == '"')
    ensures SkipToken68(key + ("=" + value)) == key + ("=" + value)
  {
    var s := key + ("=" + value);
    var k := |key|;
    forall i | 0 <= i < k + 2 ensures !IsGap(s[i]) {
      if i < k {
        TokenCharIsPlain(key[i]);
      } else if i == k + 1 && IsTokenChar(value[0]) {
        TokenCharIsPlain(value[0]);
      }
    }
    GapIndexBeyond(s, k + 2);
    var cut := s[..GapIndex(s)];
    assert cut[k] == '=' && cut[k + 1] == value[0];
    assert value[0] != '=' by {
      if IsTokenChar(value[0]) {
        TokenCharIsPlain(value[0]);
      }
    }
    TrimEqualsKeeps(cut, k + 1);
    assert !IsToken68Char(TrimEquals(cut)[k]);
  }

  lemma KeyIsNotToken68(key: string, rest: string)
    requires IsToken(key) && !AllToken68(key)
    ensures SkipToken68(key + rest) == key + rest
  {
    var s := key + rest;
    forall i | 0 <= i < |key| ensures !IsGap(s[i]) {
      TokenCharIsPlain(key[i]);
    }
    GapIndexBeyond(s, |key|);
    var i :| 0 <= i < |key| && !IsToken68Char(key[i]);
    TokenCharIsPlain(key[i]);
    var cut := s[..GapIndex(s)];
    assert cut[i] == key[i];
    TrimEqualsKeeps(cut, i);
    assert !IsToken68Char(TrimEquals(cut)[i]);
  }

  lemma Token68Skipped(token68: string, rest: string)
    requires IsToken68(token68) && (rest != [] ==> IsGap(rest[0]))
    ensures SkipToken68(token68 + rest) == rest && token68[0] != '=' && !IsSpace(token68[0])
  {
    Token68Chars(token68);
    GapIndexOf(token68, rest);
    assert (token68 + rest)[..|token68|] == token68 && (token68 + rest)[|token68|..] == rest;
  }

  /** A token68 is token68 characters, then equals signs. */
  lemma {:induction false} Token68Chars(s: string)
    requires IsToken68(s)
    ensures IsToken68Char(s[0])
    ensures forall i :: 0 <= i < |s| ==> IsToken68Char(s[i]) || s[i] == '='
    decreases |s|
  {
    if s[|s| - 1] == '=' {
      Token68Chars(s[..|s| - 1]);
    }
  }

  /** A scheme that is followed by a token68. */
  lemma Token68Turn(items: seq<Item>, end: string, output: seq<Parsed>)
    requires Grammatical(items) && items != [] && items[0].Scheme? && items[0].token68 != [] && Gap(end)
    ensures var s, tail := items[0], Text(items[1..], end);
            Turn(Rest(items, end), output) ==
            Ok((if IsBearer(s.name) then s.token68 + tail else tail, output + [Parsed(s.name, map[])]))
  {
    hide SkipToken68, Text, IsBearer, Separates;
    var name, space, token68, tail := items[0].name, items[0].space, items[0].token68, Text(items[1..], end);
    assert ItemOk(items[0]);
    AfterItem(items, end);
    assert Rest(items, end) == name + (space + (token68 + tail));
    TokenLengthOf(name, space + (token68 + tail));
    assert Rest(items, end)[|name|..] == space + (token68 + tail);
    Token68Skipped(token68, tail);
    TrimBlanks(space, token68 + tail);
    assert Rest(items, end)[..|name|] == name;
  }

  /** A scheme by itself; what is skipped after it depends on what follows. */
  lemma SchemeTurn(items: seq<Item>, end: string, output: seq<Parsed>)
    requires Grammatical(items) && items != [] && items[0].Scheme? && items[0].token68 == [] && Gap(end)
    ensures var s, rest := items[0], TrimStart(Text(items[1..], end));
            Turn(Rest(items, end), output) ==
            Ok((if IsBearer(s.name) then rest else SkipToken68(rest), output + [Parsed(s.name, map[])]))
  {
    hide SkipToken68, Text, TrimStart, IsBearer, Separates;
    var name, tail := items[0].name, Text(items[1..], end);
    assert ItemOk(items[0]);
    AfterItem(items, end);
    assert Rest(items, end) == name + tail;
    TokenLengthOf(name, tail);
    assert Rest(items, end)[..|name|] == name && Rest(items, end)[|name|..] == tail;
    NoEqualsSign(items, end);
  }

  lemma NoEqualsSign(items: seq<Item>, end: string)
    requires Grammatical(items) && items != [] && Gap(end)
    ensures var rest := TrimStart(Text(items[1..], end)); rest != [] ==> rest[0] != '='
  {
    hide Separates, Text, IsGap;
    if items[0].Field? || items[0].token68 != [] || (|items| > 1 ==> Separates(items[1].gap)) {
      AfterSeparated(items, end);
    } else {
      FirstParameter(items, end);
      TokenCharIsPlain(Rest(items[1..], end)[0]);
    }
  }

  /** A parameter after blanks. */
  lemma FirstParameter(items: seq<Item>, end: string)
    requires Grammatical(items) && |items| > 1 && !Separates(items[1].gap) && Gap(end)
    ensures items[0].Scheme? && items[0].token68 == [] && items[1].Field? && ItemOk(items[1])
    ensures TrimStart(Text(items[1..], end)) == Rest(items[1..], end)
    ensures Rest(items[1..], end) == Body(items[1]) + Text(items[1..][1..], end)
    ensures Rest(items[1..], end) != [] && IsTokenChar(Rest(items[1..], end)[0])
  {
    hide Separates;
    AfterItem(items, end);
    assert Follows(items[0], items[1]) && items[1..][0] == items[1];
    TrimmedText(items[1..], end);
    BodyStarts(items[1..], end);
  }

  /** After a scheme without token68 nothing is skipped, unless a loose parameter follows. */
  lemma NothingSkipped(items: seq<Item>, end: string)
    requires Grammatical(items) && items != [] && items[0].Scheme? && items[0].token68 == [] && Gap(end)
    requires !IsBearer(items[0].name) && (|items| > 1 ==> !Loose(items[0], items[1]))
    ensures var rest := TrimStart(Text(items[1..], end)); SkipToken68(rest) == rest
  {
    hide SkipToken68, IsBearer, Separates, Text;
    if |items| > 1 && !Separates(items[1].gap) {
      FirstParameter(items, end);
      TightIsNotToken68(items[1], Text(items[1..][1..], end));
    } else {
      AfterSeparated(items, end);
      CommaIsNotToken68(TrimStart(Text(items[1..], end)));
    }
  }

  lemma TightIsNotToken68(f: Item, tail: string)
    requires f.Field? && ItemOk(f) && Tight(f)
    ensures SkipToken68(Body(f) + tail) == Body(f) + tail
  {
    hide SkipToken68, ValueText;
    var value := ValueText(f.value, f.form);
    if AllToken68(f.key) {
      assert Body(f) + tail == f.key + ("=" + (value + tail));
      ValueFirst(f);
      ParameterIsNotToken68(f.key, value + tail);
    } else {
      var rest := f.before + ("=" + (f.after + value));
      assert Body(f) + tail == f.key + (rest + tail);
      KeyIsNotToken68(f.key, rest + tail);
    }
  }

  lemma ValueFirst(f: Item)
    requires f.Field? && ItemOk(f)
    ensures var value := ValueText(f.value, f.form);
            value != [] && (if f.form.AsString? then value[0] == '"' else IsTokenChar(value[0]))
  {
  }

  lemma FieldTurn(items: seq<Item>, end: string, output: seq<Parsed>)
    requires Grammatical(items) && items != [] && items[0].Field? && Gap(end)
    ensures var f, tail := items[0], Text(items[1..], end);
            Turn(Rest(items, end), output) ==
            if Unreadable(f) || output == [] || Lower(f.key) in Last(output).fields then Err(Invalid)
            else
              Ok((TrimStart(tail),
                  output[..|output| - 1]
                  + [Last(output).(fields := Last(output).fields[Lower(f.key) := f.value])]))
  {
    hide Text, Lower, TrimStart, Parameter, ValueText, TokenLength, ControlFree, Quotable;
    var f, tail := items[0], Text(items[1..], end);
    var value := ValueText(f.value, f.form) + tail;
    assert ItemOk(f);
    AfterItem(items, end);
    AfterSeparated(items, end);
    var equals := "=" + (f.after + value);
    assert Rest(items, end) == f.key + (f.before + equals);
    TokenLengthOf(f.key, f.before + equals);
    assert Rest(items, end)[..|f.key|] == f.key && Rest(items, end)[|f.key|..] == f.before + equals;
    TrimBlanks(f.before, equals);
    assert equals[1..] == f.after + value;
    ValueStarts(f, tail);
    TrimBlanks(f.after, value);
    ParameterOfValue(f.value, f.form, tail);
  }

  lemma ValueStarts(f: Item, tail: string)
    requires f.Field? && ItemOk(f)
    ensures ValueText(f.value, f.form) != [] && !IsSpace((ValueText(f.value, f.form) + tail)[0])
  {
    if f.form.AsToken? {
      TokenCharIsPlain(f.value[0]);
    }
  }

  // -------------------------------------------------------------- whole texts

  lemma Enters(gap: string, body: string, output: seq<Parsed>)
    requires Gap(gap) && body != [] && IsTokenChar(body[0])
    ensures ParseFrom(gap + body, output) == Continue(Turn(body, output))
  {
    hide Turn;
    TokenCharIsPlain(body[0]);
    SkipGapOf(gap, body);
    TrimGap(gap, body);
  }

  /** The rest of the parsing after a turn. */
  function Continue(turn: Result<(string, seq<Parsed>), Error>): Result<seq<Parsed>, Error> {
    if turn.Err? then Err(Invalid) else ParseFrom(turn.value.0, turn.value.1)
  }

  /** Trimmed or not, the parser gets to the first item. */
  lemma EntersItem(items: seq<Item>, end: string, output: seq<Parsed>)
    requires Grammatical(items) && items != []
    ensures ParseFrom(Text(items, end), output) == Continue(Turn(Rest(items, end), output))
    ensures ParseFrom(TrimStart(Text(items, end)), output) == Continue(Turn(Rest(items, end), output))
  {
    hide Turn, ParseFrom, Continue;
    assert ItemOk(items[0]);
    BodyStarts(items, end);
    TrimmedText(items, end);
    Enters(items[0].gap, Rest(items, end), output);
    Enters(TrimStart(items[0].gap), Rest(items, end), output);
  }

  function Answered(meaning: Option<seq<Parsed>>): Result<seq<Parsed>, Error> {
    if meaning.Some? then Ok(meaning.value) else Err(Invalid)
  }

  lemma NothingToParse(end: string, output: seq<Parsed>)
    requires Gap(end)
    ensures ParseFrom(end, output) == Ok(output) && ParseFrom(TrimStart(end), output) == Ok(output)
  {
    TrimmedGap(end);
    SkipGapOf(end, []);
    SkipGapOf(TrimStart(end), []);
    assert end + [] == end && TrimStart(end) + [] == TrimStart(end);
  }

  /** A readable text is read as what it means, trimmed or not. */
  lemma {:induction false} ParseOfText(items: seq<Item>, end: string, output: seq<Parsed>)
    requires Grammatical(items) && Readable(items) && Gap(end)
    ensures ParseFrom(Text(items, end), output) == Answered(Meaning(items, output))
    ensures ParseFrom(TrimStart(Text(items, end)), output) == Answered(Meaning(items, output))
    decreases |items|
  {
    hide Turn, ParseFrom, Rest, TrimStart, SkipToken68, IsBearer, Loose, Lower;
    if items == [] {
      NothingToParse(end, output);
    } else {
      EntersItem(items, end, output);
      AfterItem(items, end);
      if items[0].Scheme? {
        ParseOfText(items[1..], end, output + [Parsed(items[0].name, map[])]);
        if items[0].token68 == [] {
          SchemeTurn(items, end, output);
          if !IsBearer(items[0].name) {
            NothingSkipped(items, end);
          }
        } else {
          Token68Turn(items, end, output);
        }
      } else {
        FieldTurn(items, end, output);
        if output != [] && Lower(items[0].key) !in Last(output).fields {
          var last := Last(output);
          ParseOfText(items[1..], end,
            output[..|output| - 1] + [last.(fields := last.fields[Lower(items[0].key) := items[0].value])]);
        }
      }
    }
  }

  // ---------------------------------------------------------- what is misread

  /** The key, taken for a token68, swallows what stands before the first blank. */
  lemma LooseParameterIsSkipped(f: Item, tail: string)
    requires f.Field? && ItemOk(f) && !Tight(f)
    ensures var value := ValueText(f.value, f.form) + tail;
            SkipToken68(Body(f) + tail) ==
            if f.before != [] then f.before + ("=" + (f.after + value)) else f.after + value
  {
    hide ValueText, IsToken68, SkipToken68;
    var key, value := f.key, ValueText(f.value, f.form) + tail;
    KeyIsToken68(key);
    if f.before != [] {
      Token68Skipped(key, f.before + ("=" + (f.after + value)));
      assert Body(f) + tail == key + (f.before + ("=" + (f.after + value)));
    } else {
      EqualsIsToken68(key);
      Token68Skipped(key + "=", f.after + value);
      assert Body(f) + tail == key + "=" + (f.after + value);
    }
  }

  lemma KeyIsToken68(key: string)
    requires IsToken(key) && AllToken68(key)
    ensures TrimEquals(key) == key && IsToken68(key)
  {
    TokenCharIsPlain(key[|key| - 1]);
  }

  lemma EqualsIsToken68(key: string)
    requires IsToken(key) && AllToken68(key)
    ensures IsToken68(key + "=")
  {
    KeyIsToken68(key);
    assert (key + "=")[..|key|] == key;
  }

  lemma NoTokenNoTurn(gap: string, body: string, output: seq<Parsed>)
    requires Gap(gap) && body != [] && !IsTokenChar(body[0]) && !IsGap(body[0]) && !IsSpace(body[0])
    ensures ParseFrom(gap + body, output) == Err(Invalid)
  {
    SkipGapOf(gap, body);
    TrimGap(gap, body);
  }

  /** A word before a separator is a scheme. */
  lemma WordTurn(word: string, tail: string, output: seq<Parsed>)
    requires IsToken(word) && SeparatorFirst(tail)
    ensures Turn(word + tail, output) == Ok((TrimStart(tail), output + [Parsed(word, map[])]))
  {
    hide SkipToken68, TrimStart, IsBearer;
    TokenLengthOf(word, tail);
    assert (word + tail)[..|word|] == word && (word + tail)[|word|..] == tail;
    CommaIsNotToken68(TrimStart(tail));
  }

  /** After its key was skipped, a loose parameter is an error or, if it is a token, a scheme of its own. */
  lemma LooseParameterRead(f: Item, tail: string, output: seq<Parsed>)
    requires f.Field? && ItemOk(f) && !Tight(f) && SeparatorFirst(tail)
    ensures ParseFrom(SkipToken68(Body(f) + tail), output) ==
            if f.before == [] && f.form.AsToken? then ParseFrom(TrimStart(tail), output + [Parsed(f.value, map[])])
            else Err(Invalid)
  {
    hide Turn, ParseFrom, ValueText, SkipToken68, TrimStart;
    LooseParameterIsSkipped(f, tail);
    ValueFirst(f);
    BlanksAreGap(f.before);
    BlanksAreGap(f.after);
    var value := ValueText(f.value, f.form) + tail;
    if f.before != [] {
      NoTokenNoTurn(f.before, "=" + (f.after + value), output);
    } else if f.form.AsString? {
      NoTokenNoTurn(f.after, value, output);
    } else {
      TokenText(f.value);
      Enters(f.after, value, output);
      WordTurn(f.value, tail, output);
    }
  }

  lemma TokenText(value: string)
    ensures ValueText(value, AsToken) == value
  {
  }

  lemma BlanksAreGap(s: string)
    requires Blanks(s)
    ensures Gap(s)
  {
  }

  /** How many characters of a token68 make a token: all, or those before its first slash or equals sign. */
  lemma {:induction false} TokenOfToken68(s: string, tail: string)
    requires (forall i :: 0 <= i < |s| ==> IsToken68Char(s[i]) || s[i] == '=') && GapFirst(tail)
    ensures var n := TokenLength(s);
            && TokenLength(s + tail) == n && AllTokenChars(s[..n])
            && (n < |s| ==> s[n] == '/' || s[n] == '=')
  {
    if s == [] {
      assert s + tail == tail;
    } else {
      assert (s + tail)[1..] == s[1..] + tail;
      TokenOfToken68(s[1..], tail);
      var n := TokenLength(s);
      if n > 0 {
        assert s[..n] == [s[0]] + s[1..][..n - 1];
        forall i | 0 <= i < n ensures IsTokenChar(s[..n][i]) {
          assert i > 0 ==> s[..n][i] == s[1..][..n - 1][i - 1];
        }
      }
    }
  }

  /** Only equals signs follow the first one in a token68; what starts with a slash is one again. */
  lemma {:induction false} SuffixOfToken68(s: string, n: nat)
    requires IsToken68(s) && n < |s|
    ensures s[n] == '=' ==> forall i :: n <= i < |s| ==> s[i] == '='
    ensures s[n] != '=' ==> IsToken68(s[n..])
    decreases |s|
  {
    var m := |s| - 1;
    if s[m] == '=' {
      if n < m {
        SuffixOfToken68(s[..m], n);
        assert s[n..][..m - n] == s[..m][n..];
      }
    } else {
      assert TrimEquals(s) == s;
      assert s[n..][|s| - n - 1] == s[m];
    }
  }

  /** A token68 where a scheme or parameter is expected: an error, or its first word is a scheme. */
  lemma Token68Read(token68: string, tail: string, output: seq<Parsed>)
    requires IsToken68(token68) && SeparatorFirst(tail)
    ensures var n := TokenLength(token68);
            ParseFrom(token68 + tail, output) ==
            if n == |token68| then ParseFrom(TrimStart(tail), output + [Parsed(token68, map[])])
            else if n > 0 && token68[n] == '/' && !IsBearer(token68[..n]) then
              ParseFrom(tail, output + [Parsed(token68[..n], map[])])
            else Err(Invalid)
  {
    hide Turn, ParseFrom, TrimStart, IsToken68, IsBearer, Continue;
    var n := TokenLength(token68);
    Token68Chars(token68);
    Token68Size(token68);
    TokenOfToken68(token68, tail);
    assert (token68 + tail)[0] == token68[0];
    assert [] + (token68 + tail) == token68 + tail;
    if n == 0 {
      NoTokenNoTurn([], token68 + tail, output);
    } else {
      Enters([], token68 + tail, output);
      if n == |token68| {
        assert token68[..n] == token68;
        WordTurn(token68, tail, output);
        ContinueOk(TrimStart(tail), output + [Parsed(token68, map[])]);
      } else {
        SuffixOfToken68(token68, n);
        if token68[n] == '/' {
          SlashRead(token68, n, tail, output);
        } else {
          EqualsTurn(token68, n, tail, output);
          ContinueErr();
        }
      }
    }
  }

  lemma ContinueOk(rest: string, output: seq<Parsed>)
    ensures Continue(Ok((rest, output))) == ParseFrom(rest, output)
  {
  }

  lemma ContinueErr()
    ensures Continue(Err(Invalid)) == Err(Invalid)
  {
  }

  /** The word before a slash is a scheme; what is left is skipped as its token68, or cannot be read. */
  lemma SlashRead(token68: string, n: nat, tail: string, output: seq<Parsed>)
    requires 0 < n < |token68| && token68[n] == '/' && IsToken68(token68[n..]) && GapFirst(tail)
    requires TokenLength(token68 + tail) == n
    ensures Continue(Turn(token68 + tail, output)) ==
            if IsBearer(token68[..n]) then Err(Invalid) else ParseFrom(tail, output + [Parsed(token68[..n], map[])])
  {
    hide ParseFrom, IsToken68, IsBearer, SkipToken68;
    var text, left := token68 + tail, token68[n..] + tail;
    assert text[..n] == token68[..n] && text[n..] == left;
    assert left[0] == '/';
    assert TrimStart(left) == left;
    Token68Skipped(token68[n..], tail);
    if IsBearer(token68[..n]) {
      NoTokenNoTurn([], left, output + [Parsed(token68[..n], map[])]);
      assert [] + left == left;
    }
  }

  /** The word before an equals sign is taken for a key, and there is no value. */
  lemma EqualsTurn(token68: string, n: nat, tail: string, output: seq<Parsed>)
    requires 0 < n < |token68| && (forall i :: n <= i < |token68| ==> token68[i] == '=') && SeparatorFirst(tail)
    requires TokenLength(token68 + tail) == n
    ensures Turn(token68 + tail, output) == Err(Invalid)
  {
    var text := token68 + tail;
    assert text[n..][0] == '=';
    var rest := text[n..][1..];
    assert rest == token68[n + 1..] + tail;
    if n + 1 < |token68| {
      assert rest[0] == '=';
    } else {
      assert rest == tail;
    }
    assert TrimStart(rest) == [] || TrimStart(rest)[0] in {'=', ','};
    assert TokenLength(TrimStart(rest)) == 0;
  }

  // ------------------------------------------- what is read as it is meant

  function Schemes(items: seq<Item>): nat {
    if items == [] then 0 else (if items[0].Scheme? then 1 else 0) + Schemes(items[1..])
  }

  lemma {:induction false} MeaningCounts(items: seq<Item>, output: seq<Parsed>)
    ensures Meaning(items, output).Some? ==> |Meaning(items, output).value| == |output| + Schemes(items)
    decreases |items|
  {
    hide Lower;
    if items != [] {
      if items[0].Scheme? {
        MeaningCounts(items[1..], output + [Parsed(items[0].name, map[])]);
      } else if output != [] {
        var last := Last(output);
        MeaningCounts(items[1..],
          output[..|output| - 1] + [last.(fields := last.fields[Lower(items[0].key) := items[0].value])]);
      }
    }
  }

  predicate AtLeast(answer: Result<seq<Parsed>, Error>, n: nat) {
    answer.Ok? ==> |answer.value| >= n
  }

  function Extra(items: seq<Item>): nat {
    if Readable(items) then 0 else 1
  }

  lemma Counted(items: seq<Item>)
    requires items != []
    ensures Schemes(items) == (if items[0].Scheme? then 1 else 0) + Schemes(items[1..])
    ensures Extra(items) == if ReadableHead(items) then Extra(items[1..]) else 1
    ensures Extra(items[1..]) <= 1
  {
    hide ReadableHead;
  }

  /**
   No scheme is ever overlooked, whether or not the text is readable; and where it is
   not, parsing fails or finds a scheme that nobody wrote.
   */
  lemma {:induction false} SchemesAreFound(items: seq<Item>, end: string, output: seq<Parsed>)
    requires Grammatical(items) && Gap(end)
    ensures AtLeast(ParseFrom(Text(items, end), output), |output| + Schemes(items) + Extra(items))
    ensures AtLeast(ParseFrom(TrimStart(Text(items, end)), output), |output| + Schemes(items) + Extra(items))
    decreases |items|
  {
    hide Turn, ParseFrom, Rest, TrimStart, SkipToken68, IsBearer, Loose, Lower, Unreadable;
    if items == [] {
      NothingToParse(end, output);
    } else {
      EntersItem(items, end, output);
      AfterItem(items, end);
      if items[0].Field? {
        FieldsAreFound(items, end, output);
      } else if items[0].token68 != [] {
        Token68sAreFound(items, end, output);
      } else {
        PlainSchemesAreFound(items, end, output);
      }
    }
  }

  lemma FieldsAreFound(items: seq<Item>, end: string, output: seq<Parsed>)
    requires Grammatical(items) && items != [] && Gap(end) && items[0].Field? && Grammatical(items[1..])
    ensures AtLeast(Continue(Turn(Rest(items, end), output)), |output| + Schemes(items) + Extra(items))
    decreases |items|, 0
  {
    hide Turn, ParseFrom, Rest, TrimStart, IsBearer, Lower, Unreadable, Schemes, Extra, Text, Grammatical, Gap;
    FieldTurn(items, end, output);
    Counted(items);
    if Turn(Rest(items, end), output).Ok? {
      var last := Last(output);
      SchemesAreFound(items[1..], end,
        output[..|output| - 1] + [last.(fields := last.fields[Lower(items[0].key) := items[0].value])]);
    }
  }

  lemma Token68sAreFound(items: seq<Item>, end: string, output: seq<Parsed>)
    requires Grammatical(items) && items != [] && Gap(end) && items[0].Scheme? && items[0].token68 != []
    requires Grammatical(items[1..])
    ensures AtLeast(Continue(Turn(Rest(items, end), output)), |output| + Schemes(items) + Extra(items))
    decreases |items|, 0
  {
    hide Turn, ParseFrom, Rest, TrimStart, IsBearer, TokenLength, Schemes, Extra, Text, Grammatical, Gap;
    hide SeparatorFirst, IsToken68;
    Token68Turn(items, end, output);
    Counted(items);
    var s, more := items[0], output + [Parsed(items[0].name, map[])];
    Token68IsLast(items, end);
    if IsBearer(s.name) {
      var n := TokenLength(s.token68);
      Token68Read(s.token68, Text(items[1..], end), more);
      SchemesAreFound(items[1..], end, more + [Parsed(s.token68, map[])]);
      SchemesAreFound(items[1..], end, more + [Parsed(s.token68[..n], map[])]);
    } else {
      SchemesAreFound(items[1..], end, more);
    }
  }

  lemma Token68IsLast(items: seq<Item>, end: string)
    requires Grammatical(items) && items != [] && Gap(end) && items[0].Scheme? && items[0].token68 != []
    ensures IsToken68(items[0].token68) && SeparatorFirst(Text(items[1..], end))
    ensures ReadableHead(items) <==> !IsBearer(items[0].name)
  {
    hide IsToken68, IsBearer, Text, Separates;
    assert ItemOk(items[0]);
    AfterSeparated(items, end);
    assert |items| > 1 ==> Follows(items[0], items[1]);
  }

  lemma PlainSchemesAreFound(items: seq<Item>, end: string, output: seq<Parsed>)
    requires Grammatical(items) && items != [] && Gap(end) && items[0].Scheme? && items[0].token68 == []
    requires Grammatical(items[1..])
    ensures AtLeast(Continue(Turn(Rest(items, end), output)), |output| + Schemes(items) + Extra(items))
    decreases |items|, 1
  {
    hide Turn, ParseFrom, Rest, TrimStart, IsBearer, SkipToken68, Loose, Schemes, Extra, Text, Grammatical, Gap;
    SchemeTurn(items, end, output);
    Counted(items);
    var s, more := items[0], output + [Parsed(items[0].name, map[])];
    if |items| > 1 && Loose(s, items[1]) {
      LooseFieldsAreFound(items, end, more);
    } else {
      SchemesAreFound(items[1..], end, more);
      if !IsBearer(s.name) {
        NothingSkipped(items, end);
      }
    }
  }

  lemma LooseFieldsAreFound(items: seq<Item>, end: string, output: seq<Parsed>)
    requires Grammatical(items) && |items| > 1 && Gap(end) && Grammatical(items[1..]) && Loose(items[0], items[1])
    ensures !IsBearer(items[0].name)
    ensures AtLeast(ParseFrom(SkipToken68(TrimStart(Text(items[1..], end))), output),
                    |output| + Schemes(items[1..]) + 1)
    decreases |items|, 0
  {
    hide Turn, ParseFrom, Rest, TrimStart, IsBearer, SkipToken68, Schemes, Extra, Text, Grammatical, Gap;
    hide SeparatorFirst, Separates, Tight, ItemOk;
    var f, rest := items[1], items[1..];
    FirstParameter(items, end);
    assert f == rest[0];
    AfterItem(rest, end);
    AfterSeparated(rest, end);
    LooseParameterRead(f, Text(rest[1..], end), output);
    Counted(rest);
    SchemesAreFound(rest[1..], end, output + [Parsed(f.value, map[])]);
  }

  /**
   A text that the grammar allows and that means something is read as it is meant if
   and only if it is readable: no token68 after Bearer, no tab in a quoted string,
   and every first parameter that follows another scheme by blanks is tight.
   */
  lemma ReadAsMeantIff(items: seq<Item>, end: string)
    requires Grammatical(items) && Gap(end) && Meaning(items, []).Some?
    ensures ParseFrom(Text(items, end), []) == Ok(Meaning(items, []).value) <==> Readable(items)
  {
    hide ParseFrom, Meaning, Readable, Schemes;
    if Readable(items) {
      ParseOfText(items, end, []);
    } else {
      SchemesAreFound(items, end, []);
      MeaningCounts(items, []);
    }
  }

  // --------------------------------------------------- one scheme, exactly

  /** A scheme, and one parameter after a space. */
  function OneParameter(name: string, f: Item): seq<Item>
    requires f.Field?
  {
    [Scheme([], name, [], []), f.(gap := " ")]
  }

  lemma OneParameterIsGrammatical(name: string, f: Item)
    requires f.Field? && ItemOk(f) && IsToken(name)
    ensures Grammatical(OneParameter(name, f))
    ensures Readable(OneParameter(name, f)) <==>
            (IsBearer(name) || Tight(f)) && (f.form.AsString? ==> ControlFree(f.value))
  {
    hide IsBearer, ControlFree, Quotable, AllTokenChars;
    var items := OneParameter(name, f);
    assert ItemOk(items[0]) && ItemOk(items[1]) && Follows(items[0], items[1]);
    assert items[1..] == [items[1]] && [items[1]][1..] == [];
    assert !Separates(" ") by {
      assert " "[1..] == [];
    }
    assert Readable(items) <==> ReadableHead(items) && Readable([items[1]]);
    assert Readable([items[1]]) <==> ReadableHead([items[1]]);
  }

  lemma OneParameterMeaning(name: string, f: Item)
    requires f.Field?
    ensures Meaning(OneParameter(name, f), []) == Some([Parsed(name, map[Lower(f.key) := f.value])])
  {
    var items := OneParameter(name, f);
    assert items[1..] == [items[1]] && [items[1]][1..] == [];
    var start := [Parsed(name, map[])];
    assert [] + start == start && start[..0] == [];
    var read: Fields := map[];
    assert read[Lower(f.key) := f.value] == map[Lower(f.key) := f.value];
    var done := [Parsed(name, map[Lower(f.key) := f.value])];
    assert [] + done == done;
    assert Meaning([items[1]], start) == Meaning([], done);
  }

  /** A single parameter is read as written exactly when it cannot be taken for a token68 and holds no tab. */
  lemma OneParameterReadIff(name: string, f: Item)
    requires f.Field? && ItemOk(f) && IsToken(name)
    ensures ParseFrom(Text(OneParameter(name, f), []), []) == Ok([Parsed(name, map[Lower(f.key) := f.value])]) <==>
            (IsBearer(name) || Tight(f)) && (f.form.AsString? ==> ControlFree(f.value))
  {
    hide ParseFrom, Text, Meaning, Readable, Grammatical;
    OneParameterIsGrammatical(name, f);
    OneParameterMeaning(name, f);
    ReadAsMeantIff(OneParameter(name, f), []);
  }

  /** Blanks around the equals sign make the value an error or, if it is a token, a scheme of its own. */
  lemma LooseParameterIsMisread(name: string, f: Item)
    requires f.Field? && ItemOk(f) && IsToken(name) && !IsBearer(name) && !Tight(f)
    ensures ParseFrom(Text(OneParameter(name, f), []), []) ==
            if f.before == [] && f.form.AsToken? then Ok([Parsed(name, map[]), Parsed(f.value, map[])]) else Err(Invalid)
  {
    hide Turn, ParseFrom, ValueText, Tight, IsBearer, SkipToken68;
    var items := OneParameter(name, f);
    OneParameterIsGrammatical(name, f);
    EntersItem(items, [], []);
    SchemeTurn(items, [], []);
    assert items[1..] == [items[1]] && items[1..][1..] == [];
    assert !Separates(" ") by {
      assert " "[1..] == [];
    }
    FirstParameter(items, []);
    assert [] + [Parsed(name, map[])] == [Parsed(name, map[])];
    assert Tight(items[1]) == Tight(f) by { SameTightness(items[1], f); }
    LooseParameterRead(items[1], [], [Parsed(name, map[])]);
    assert [Parsed(name, map[])] + [Parsed(f.value, map[])] == [Parsed(name, map[]), Parsed(f.value, map[])];
    NothingToParse([], [Parsed(name, map[]), Parsed(f.value, map[])]);
  }

  lemma SameTightness(f: Item, g: Item)
    requires f.Field? && g.Field? && f.before == g.before && f.after == g.after && f.key == g.key
    ensures Tight(f) == Tight(g)
  {
  }

  /** A token68 after Bearer is an error, or its first word is read as a scheme that nobody wrote. */
  lemma BearerToken68IsMisread(name: string, space: string, token68: string)
    requires IsToken(name) && IsBearer(name) && Blanks(space) && space != [] && IsToken68(token68)
    ensures var n := TokenLength(token68);
            ParseFrom(name + (space + token68), []) ==
            if n == |token68| || (n > 0 && token68[n] == '/' && !IsBearer(token68[..n])) then
              Ok([Parsed(name, map[]), Parsed(token68[..n], map[])])
            else Err(Invalid)
  {
    hide Turn, ParseFrom, IsBearer, IsToken68, TokenLength;
    var n, start := TokenLength(token68), [Parsed(name, map[])];
    OneToken68(name, space, token68);
    var items := [Scheme([], name, space, token68)];
    EntersItem(items, [], []);
    Token68Turn(items, [], []);
    assert items[1..] == [] && token68 + [] == token68 && [] + start == start;
    Token68Read(token68, [], start);
    var done := [Parsed(name, map[]), Parsed(token68[..n], map[])];
    assert start + [Parsed(token68[..n], map[])] == done;
    assert n == |token68| ==> token68[..n] == token68;
    NothingToParse([], done);
  }

  lemma OneToken68(name: string, space: string, token68: string)
    requires IsToken(name) && Blanks(space) && space != [] && IsToken68(token68)
    ensures var items := [Scheme([], name, space, token68)];
            && Grammatical(items) && Text(items, []) == name + (space + token68)
            && (Readable(items) <==> !IsBearer(name)) && Meaning(items, []) == Some([Parsed(name, map[])])
  {
    hide IsBearer, IsToken68;
    Token68Size(token68);
    var items := [Scheme([], name, space, token68)];
    assert items[1..] == [];
    assert [] + [Parsed(name, map[])] == [Parsed(name, map[])];
    assert Body(items[0]) + [] == name + (space + token68);
  }

  lemma Token68Size(token68: string)
    requires IsToken68(token68)
    ensures token68 != []
  {
  }

  /** A scheme with a token68 is read as meant exactly when it is not Bearer. */
  lemma OneToken68ReadIff(name: string, space: string, token68: string)
    requires IsToken(name) && Blanks(space) && space != [] && IsToken68(token68)
    ensures ParseFrom(name + (space + token68), []) == Ok([Parsed(name, map[])]) <==> !IsBearer(name)
  {
    hide ParseFrom, IsBearer, IsToken68, Readable, Meaning, Grammatical;
    OneToken68(name, space, token68);
    ReadAsMeantIff([Scheme([], name, space, token68)], []);
  }

  /** Such texts. */
  lemma BearerAbc()
    ensures ParseFrom("Bearer abc", []) == Ok([Parsed("Bearer", map[]), Parsed("abc", map[])])
    ensures ParseFrom("Bearer abc==", []) == Err(Invalid)
  {
    hide ParseFrom, TokenLength, IsToken68, IsBearer, IsToken;
    AbcIsToken68();
    BearerToken68IsMisread("Bearer", " ", "abc");
    BearerToken68IsMisread("Bearer", " ", "abc==");
    assert "Bearer" + (" " + "abc") == "Bearer abc" && "Bearer" + (" " + "abc==") == "Bearer abc==";
    assert "abc"[..3] == "abc";
  }

  lemma AbcIsToken68()
    ensures IsToken("Bearer") && IsBearer("Bearer")
    ensures IsToken68("abc") && TokenLength("abc") == 3
    ensures IsToken68("abc==") && TokenLength("abc==") == 3
  {
    TokenLengthOf("abc", []);
    TokenLengthOf("abc", "==");
    assert "abc" + [] == "abc" && "abc" + "==" == "abc==";
    assert "abc=="[..4][..3] == "abc";
    assert TrimEquals("abc") == "abc";
    assert TrimEquals("abc==") == TrimEquals("abc=="[..4]) == TrimEquals("abc=="[..4][..3]);
  }

  // -------------------------------------------------------- what is accepted

  /** A token scheme, lower-case token keys and control-free values. */
  predicate Clean(p: Parsed) {
    && IsToken(p.scheme)
    && forall key :: key in p.fields ==> IsToken(key) && Lower(key) == key && ControlFree(p.fields[key])
  }

  predicate AllClean(list: seq<Parsed>) {
    forall i :: 0 <= i < |list| ==> Clean(list[i])
  }

  lemma {:induction false} TokenPrefix(s: string)
    ensures AllTokenChars(s[..TokenLength(s)])
  {
    if s != [] && IsTokenChar(s[0]) {
      TokenPrefix(s[1..]);
      assert s[..TokenLength(s)] == [s[0]] + s[1..][..TokenLength(s[1..])];
    }
  }

  lemma {:induction false} QuotedIsControlFree(s: string, read: string, escaped: bool)
    requires ControlFree(read)
    ensures Quoted(s, read, escaped).Ok? ==> ControlFree(Quoted(s, read, escaped).value.0)
    decreases |s|
  {
    hide IsControl;
    if s != [] && !IsControl(s[0]) {
      if escaped || (s[0] != '\\' && s[0] != '"') {
        QuotedIsControlFree(s[1..], read + [s[0]], false);
      } else if s[0] == '\\' {
        QuotedIsControlFree(s[1..], read, true);
      }
    }
  }

  lemma ParameterIsControlFree(s: string)
    ensures Parameter(s).Ok? ==> ControlFree(Parameter(s).value.0)
  {
    if s != [] && s[0] == '"' {
      QuotedIsControlFree(s[1..], [], false);
    } else {
      TokenPrefix(s);
    }
  }

  lemma LowerOfToken(word: string)
    requires IsToken(word)
    ensures IsToken(Lower(word)) && Lower(Lower(word)) == Lower(word)
  {
    assert forall i :: 0 <= i < |word| ==> IsTokenChar(LowerChar(word[i]));
  }

  lemma FieldIsClean(p: Parsed, word: string, value: string)
    requires Clean(p) && IsToken(word) && ControlFree(value)
    ensures Clean(p.(fields := p.fields[Lower(word) := value]))
  {
    hide Lower, AllTokenChars;
    LowerOfToken(word);
  }

  lemma TurnIsClean(at: string, output: seq<Parsed>)
    requires AllClean(output)
    ensures Turn(at, output).Ok? ==> AllClean(Turn(at, output).value.1)
  {
    hide Parameter, TrimStart, SkipToken68, IsBearer, Lower, ControlFree;
    var n := TokenLength(at);
    TokenPrefix(at);
    if n > 0 {
      var word, rest := at[..n], TrimStart(at[n..]);
      if rest != [] && rest[0] == '=' && output != [] && Parameter(TrimStart(rest[1..])).Ok? {
        ParameterIsControlFree(TrimStart(rest[1..]));
        FieldIsClean(Last(output), word, Parameter(TrimStart(rest[1..])).value.0);
      }
    }
  }

  /** Whatever is accepted has token schemes, lower-case token keys and control-free values. */
  lemma {:induction false} AcceptedIsClean(input: string, output: seq<Parsed>)
    requires AllClean(output)
    ensures ParseFrom(input, output).Ok? ==> AllClean(ParseFrom(input, output).value)
    decreases |input|
  {
    hide Turn, AllClean;
    if !(Blank(input) || SkipGap(input) == []) {
      TurnIsClean(SkipGap(input), output);
      var turn := Turn(SkipGap(input), output);
      if turn.Ok? {
        AcceptedIsClean(turn.value.0, turn.value.1);
      }
    }
  }

  /** A parameter must be followed by a comma or the end. */
  lemma JunkAfterValueRefused(f: Item, junk: string, output: seq<Parsed>)
    requires f.Field? && ItemOk(f)
    requires junk != [] && !IsTokenChar(junk[0]) && TrimStart(junk) != [] && TrimStart(junk)[0] != ','
    ensures ParseFrom(f.gap + (Body(f) + junk), output) == Err(Invalid)
  {
    hide ParseFrom, Lower, Parameter, ValueText, TokenLength, TrimStart;
    var value := ValueText(f.value, f.form) + junk;
    var equals := "=" + (f.after + value);
    var text := Body(f) + junk;
    assert text == f.key + (f.before + equals);
    assert text[0] == f.key[0];
    Enters(f.gap, text, output);
    TokenLengthOf(f.key, f.before + equals);
    assert text[..|f.key|] == f.key && text[|f.key|..] == f.before + equals;
    TrimBlanks(f.before, equals);
    assert equals[1..] == f.after + value;
    ValueStarts(f, junk);
    TrimBlanks(f.after, value);
    ParameterOfValue(f.value, f.form, junk);
  }

  // ------------------------------------------------------------ one printing

  datatype Printed = Printed(scheme: string, fields: seq<(string, string)>)

  function FieldItems(fields: seq<(string, string)>, gap: string): seq<Item> {
    if fields == [] then []
    else [Field(gap, fields[0].0, [], [], fields[0].1, AsString([]))] + FieldItems(fields[1..], ", ")
  }

  function Items(list: seq<Printed>, gap: string): seq<Item> {
    if list == [] then []
    else [Scheme(gap, list[0].scheme, [], [])] + (FieldItems(list[0].fields, " ") + Items(list[1..], ", "))
  }

  /** Challenges and their parameters separated by commas, all values quoted. */
  function Print(list: seq<Printed>): string {
    Text(Items(list, []), [])
  }

  function FieldsOf(fields: seq<(string, string)>, start: Fields): Fields {
    if fields == [] then start else FieldsOf(fields[1..], start[fields[0].0 := fields[0].1])
  }

  function Plain(list: seq<Printed>): seq<Parsed> {
    if list == [] then [] else [Parsed(list[0].scheme, FieldsOf(list[0].fields, map[]))] + Plain(list[1..])
  }

  predicate Printable(c: Printed) {
    && IsToken(c.scheme)
    && (forall i :: 0 <= i < |c.fields| ==>
          IsToken(c.fields[i].0) && Lower(c.fields[i].0) == c.fields[i].0 && ControlFree(c.fields[i].1))
    && (forall i, k :: 0 <= i < k < |c.fields| ==> c.fields[i].0 != c.fields[k].0)
  }

  predicate Spelled(items: seq<Item>) {
    Grammatical(items) && Readable(items)
  }

  lemma SpelledAfter(item: Item, items: seq<Item>)
    requires ItemOk(item) && !Unreadable(item) && Spelled(items)
    requires items != [] ==> Follows(item, items[0]) && !Loose(item, items[0])
    ensures Spelled([item] + items)
  {
    hide ItemOk, Follows, Unreadable, Loose;
    var all := [item] + items;
    assert all[1..] == items;
    forall i | 0 < i < |all| ensures Follows(all[i - 1], all[i]) {
      if i > 1 {
        assert Follows(items[i - 2], items[i - 1]);
      }
    }
  }

  lemma CommaSeparates()
    ensures Separates(", ") && Gap(" ") && Gap([]) && Blanks(" ")
  {
  }

  predicate SeparateStart(items: seq<Item>) {
    items != [] ==> Separates(items[0].gap)
  }

  lemma {:induction false} FieldsAreSpelled(c: Printed, n: nat, gap: string, tail: seq<Item>)
    requires Printable(c) && n <= |c.fields| && Gap(gap) && Spelled(tail) && SeparateStart(tail)
    ensures Spelled(FieldItems(c.fields[n..], gap) + tail)
    decreases |c.fields| - n
  {
    hide Separates;
    CommaSeparates();
    if n == |c.fields| {
      assert FieldItems(c.fields[n..], gap) + tail == tail;
    } else {
      FieldsAreSpelled(c, n + 1, ", ", tail);
      assert c.fields[n..][1..] == c.fields[n + 1..];
      var first := Field(gap, c.fields[n].0, [], [], c.fields[n].1, AsString([]));
      assert FieldItems(c.fields[n..], gap) + tail == [first] + (FieldItems(c.fields[n + 1..], ", ") + tail);
      SpelledAfter(first, FieldItems(c.fields[n + 1..], ", ") + tail);
    }
  }

  lemma {:induction false} ItemsAreSpelled(list: seq<Printed>, gap: string)
    requires Gap(gap) && forall i :: 0 <= i < |list| ==> Printable(list[i])
    ensures Spelled(Items(list, gap))
  {
    hide Separates;
    CommaSeparates();
    if list != [] {
      ItemsAreSpelled(list[1..], ", ");
      var c, tail := list[0], Items(list[1..], ", ");
      assert c.fields[0..] == c.fields;
      FieldsAreSpelled(c, 0, " ", tail);
      SpelledAfter(Scheme(gap, c.scheme, [], []), FieldItems(c.fields, " ") + tail);
    }
  }

  lemma {:induction false} FieldsMean(
    c: Printed, n: nat, gap: string, tail: seq<Item>, before: seq<Parsed>, read: Fields)
    requires Printable(c) && n <= |c.fields|
    requires forall i :: n <= i < |c.fields| ==> c.fields[i].0 !in read
    ensures Meaning(FieldItems(c.fields[n..], gap) + tail, before + [Parsed(c.scheme, read)]) ==
            Meaning(tail, before + [Parsed(c.scheme, FieldsOf(c.fields[n..], read))])
    decreases |c.fields| - n
  {
    var output := before + [Parsed(c.scheme, read)];
    if n == |c.fields| {
      assert FieldItems(c.fields[n..], gap) + tail == tail;
    } else {
      var (key, value) := c.fields[n];
      var items := FieldItems(c.fields[n..], gap) + tail;
      assert c.fields[n..][1..] == c.fields[n + 1..];
      assert items[0] == Field(gap, key, [], [], value, AsString([]));
      assert items[1..] == FieldItems(c.fields[n + 1..], ", ") + tail;
      assert output[..|output| - 1] == before;
      FieldsMean(c, n + 1, ", ", tail, before, read[key := value]);
    }
  }

  lemma NothingMeans(output: seq<Parsed>)
    ensures Meaning([], output) == Some(output)
  {
  }

  lemma SchemeMeans(item: Item, items: seq<Item>, output: seq<Parsed>)
    requires item.Scheme?
    ensures Meaning([item] + items, output) == Meaning(items, output + [Parsed(item.name, map[])])
  {
    assert ([item] + items)[1..] == items;
  }

  lemma {:induction false} ItemsMean(list: seq<Printed>, gap: string, output: seq<Parsed>)
    requires forall i :: 0 <= i < |list| ==> Printable(list[i])
    ensures Meaning(Items(list, gap), output) == Some(output + Plain(list))
    decreases |list|
  {
    hide Printable, FieldItems, FieldsOf, Meaning;
    if list == [] {
      NothingMeans(output);
      assert output + [] == output;
    } else {
      var c, tail := list[0], Items(list[1..], ", ");
      SchemeMeans(Scheme(gap, c.scheme, [], []), FieldItems(c.fields, " ") + tail, output);
      assert c.fields[0..] == c.fields;
      FieldsMean(c, 0, " ", tail, output, map[]);
      var more := output + [Parsed(c.scheme, FieldsOf(c.fields, map[]))];
      ItemsMean(list[1..], ", ", more);
      assert more + Plain(list[1..]) == output + Plain(list);
    }
  }

  /** Parsing undoes printing. */
  lemma ParseOfPrint(list: seq<Printed>)
    requires forall i :: 0 <= i < |list| ==> Printable(list[i])
    ensures ParseFrom(Print(list), []) == Ok(Plain(list))
  {
    hide ParseFrom, Printable;
    ItemsAreSpelled(list, []);
    ItemsMean(list, [], []);
    ParseOfText(Items(list, []), [], []);
    assert [] + Plain(list) == Plain(list);
  }
}
