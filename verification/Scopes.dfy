/** Scope lists and their union (`scopes` and `union` in src/auth/challenge.rs). */
module Scopes {
  import opened Common

  datatype Error = Invalid

  const LIMIT: nat := 16384

  // ------------------------------------------------------------------- words

  function Split(s: string): (words: seq<string>)
    ensures words != []
  {
    if s == [] then [[]]
    else
      var rest := Split(s[1..]);
      if s[0] == ' ' then [[]] + rest else [[s[0]] + rest[0]] + rest[1..]
  }

  function Join(words: seq<string>): string {
    if words == [] then [] else if |words| == 1 then words[0] else words[0] + " " + Join(words[1..])
  }

  predicate IsScopeChar(c: char) {
    c as int == 0x21 || 0x23 <= c as int <= 0x5B || 0x5D <= c as int <= 0x7E
  }

  predicate WordOk(word: string) {
    word != [] && forall i :: 0 <= i < |word| ==> IsScopeChar(word[i])
  }

  predicate ScopesOk(s: string) {
    s != [] && forall i :: 0 <= i < |Split(s)| ==> WordOk(Split(s)[i])
  }

  // ------------------------------------------------------- the ordered set

  predicate Less(a: string, b: string) {
    b != [] && (a == [] || a[0] < b[0] || (a[0] == b[0] && Less(a[1..], b[1..])))
  }

  function Insert(word: string, sorted: seq<string>): seq<string> {
    if sorted == [] || Less(word, sorted[0]) then [word] + sorted
    else if word == sorted[0] then sorted
    else [sorted[0]] + Insert(word, sorted[1..])
  }

  function InsertAll(words: seq<string>, sorted: seq<string>): seq<string> {
    if words == [] then sorted else Insert(words[|words| - 1], InsertAll(words[..|words| - 1], sorted))
  }

  function Words(s: Option<string>): seq<string> {
    if s.None? then [] else Split(s.value)
  }

  /** The union, in the order of the set; nothing if both are missing. */
  function UnionOf(first: Option<string>, second: Option<string>): Result<Option<string>, Error> {
    var values := InsertAll(Words(second), InsertAll(Words(first), []));
    if (first.Some? && !ScopesOk(first.value)) || (second.Some? && !ScopesOk(second.value)) then Err(Invalid)
    else if values == [] then Ok(None)
    else if |Join(values)| > LIMIT then Err(Invalid)
    else Ok(Some(Join(values)))
  }

  method Extend(values: seq<string>, words: seq<string>) returns (more: seq<string>)
    ensures more == InsertAll(words, values)
  {
    more := values;
    for i := 0 to |words|
      invariant more == InsertAll(words[..i], values)
    {
      assert words[..i + 1][..i] == words[..i];
      more := Insert(words[i], more);
    }
    assert words[..|words|] == words;
  }

  method Union(first: Option<string>, second: Option<string>) returns (result: Result<Option<string>, Error>)
    ensures result == UnionOf(first, second)
  {
    hide Split, ScopesOk, InsertAll, Join;
    var values := [];
    assert InsertAll([], []) == [] by { NothingInserted([]); }
    if first.Some? {
      if !ScopesOk(first.value) {
        return Err(Invalid);
      }
      values := Extend(values, Split(first.value));
    }
    NothingInserted(values);
    if second.Some? {
      if !ScopesOk(second.value) {
        return Err(Invalid);
      }
      values := Extend(values, Split(second.value));
    }
    if values == [] {
      return Ok(None);
    }
    var text := Join(values);
    return if |text| > LIMIT then Err(Invalid) else Ok(Some(text));
  }

  lemma NothingInserted(values: seq<string>)
    ensures InsertAll([], values) == values
  {
  }

  // ------------------------------------------------------------- the order

  lemma {:induction false} LessTransitive(a: string, b: string, c: string)
    requires Less(a, b) && Less(b, c)
    ensures Less(a, c)
  {
    if a != [] && a[0] == b[0] && b[0] == c[0] {
      LessTransitive(a[1..], b[1..], c[1..]);
    }
  }

  lemma {:induction false} LessTotal(a: string, b: string)
    ensures a == b || Less(a, b) || Less(b, a)
  {
    if a != [] && b != [] && a[0] == b[0] {
      LessTotal(a[1..], b[1..]);
      assert a == [a[0]] + a[1..] && b == [b[0]] + b[1..];
    }
  }

  lemma {:induction false} LessIrreflexive(a: string)
    ensures !Less(a, a)
  {
    if a != [] {
      LessIrreflexive(a[1..]);
    }
  }

  predicate Ascending(s: seq<string>) {
    forall i, k :: 0 <= i < k < |s| ==> Less(s[i], s[k])
  }

  lemma {:induction false} InsertHolds(word: string, s: seq<string>)
    ensures forall x :: x in Insert(word, s) <==> x == word || x in s
  {
    hide Less;
    if s != [] && !Less(word, s[0]) && word != s[0] {
      InsertHolds(word, s[1..]);
      assert s == [s[0]] + s[1..];
    }
  }

  lemma {:induction false} InsertAscends(word: string, s: seq<string>)
    requires Ascending(s)
    ensures Ascending(Insert(word, s))
  {
    hide Less;
    if s == [] {
    } else if Less(word, s[0]) {
      var t := [word] + s;
      forall k | 0 < k < |t| ensures Less(word, t[k]) {
        if k > 1 {
          LessTransitive(word, s[0], s[k - 1]);
        }
      }
    } else if word != s[0] {
      LessTotal(word, s[0]);
      InsertAscends(word, s[1..]);
      InsertHolds(word, s[1..]);
      var tail := Insert(word, s[1..]);
      forall k | 0 <= k < |tail| ensures Less(s[0], tail[k]) {
        assert tail[k] in tail;
      }
    }
  }

  lemma {:induction false} InsertAllHolds(words: seq<string>, s: seq<string>)
    requires Ascending(s)
    ensures Ascending(InsertAll(words, s))
    ensures forall x :: x in InsertAll(words, s) <==> x in words || x in s
  {
    hide Insert, Ascending;
    if words != [] {
      var n := |words| - 1;
      InsertAllHolds(words[..n], s);
      InsertAscends(words[n], InsertAll(words[..n], s));
      InsertHolds(words[n], InsertAll(words[..n], s));
      assert words == words[..n] + [words[n]];
    }
  }

  lemma SameEmptiness(s: seq<string>, t: seq<string>)
    requires forall x :: x in s <==> x in t
    ensures s == [] <==> t == []
  {
    if s != [] {
      assert s[0] in s;
    }
    if t != [] {
      assert t[0] in t;
    }
  }

  /** An ascending list is told by its elements. */
  lemma {:induction false} AscendingUnique(s: seq<string>, t: seq<string>)
    requires Ascending(s) && Ascending(t) && forall x :: x in s <==> x in t
    ensures s == t
  {
    hide Less;
    SameEmptiness(s, t);
    if s != [] {
      assert s[0] in s && s[0] in t;
      assert t[0] in t && t[0] in s;
      var i :| 0 <= i < |t| && t[i] == s[0];
      var k :| 0 <= k < |s| && s[k] == t[0];
      if i > 0 && k > 0 {
        LessTransitive(t[0], s[0], t[0]);
        LessIrreflexive(t[0]);
      }
      assert s[0] == t[0];
      forall x ensures x in s[1..] <==> x in t[1..] {
        TailMembers(s, x);
        TailMembers(t, x);
      }
      AscendingUnique(s[1..], t[1..]);
      assert s == [s[0]] + s[1..] && t == [t[0]] + t[1..];
    }
  }

  lemma TailMembers(s: seq<string>, x: string)
    requires Ascending(s) && s != []
    ensures x in s[1..] <==> x in s && x != s[0]
  {
    LessIrreflexive(s[0]);
    if x in s && x != s[0] {
      var k :| 0 <= k < |s| && s[k] == x;
      assert s[1..][k - 1] == x;
    }
    if x in s[1..] {
      var k :| 0 <= k < |s[1..]| && s[1..][k] == x;
      assert s[k + 1] == x && Less(s[0], s[k + 1]);
    }
  }

  // ---------------------------------------------------- joining and splitting

  lemma {:induction false} SplitWord(word: string)
    requires ' ' !in word
    ensures Split(word) == [word]
  {
    if word != [] {
      SplitWord(word[1..]);
      assert [word[0]] + word[1..] == word;
    }
  }

  lemma {:induction false} SplitAtSpace(word: string, rest: string)
    requires ' ' !in word
    ensures Split(word + " " + rest) == [word] + Split(rest)
  {
    var s := word + " " + rest;
    if word == [] {
      assert s[1..] == rest;
    } else {
      assert s[1..] == word[1..] + " " + rest;
      SplitAtSpace(word[1..], rest);
      assert [word[0]] + word[1..] == word;
    }
  }

  lemma {:induction false} SplitOfJoin(words: seq<string>)
    requires words != [] && forall i :: 0 <= i < |words| ==> ' ' !in words[i]
    ensures Split(Join(words)) == words
  {
    if |words| == 1 {
      SplitWord(words[0]);
    } else {
      SplitOfJoin(words[1..]);
      SplitAtSpace(words[0], Join(words[1..]));
      assert words == [words[0]] + words[1..];
    }
  }

  lemma {:induction false} JoinOfSplit(s: string)
    ensures Join(Split(s)) == s
  {
    if s != [] {
      JoinOfSplit(s[1..]);
      var rest := Split(s[1..]);
      assert s == [s[0]] + s[1..];
      if s[0] != ' ' {
        var first := [[s[0]] + rest[0]] + rest[1..];
        assert first[1..] == rest[1..];
      } else {
        assert ([[]] + rest)[1..] == rest;
      }
    }
  }

  lemma WordHasNoSpace(word: string)
    requires WordOk(word)
    ensures ' ' !in word
  {
  }

  // ------------------------------------------------------------ the theorems

  function WordSet(s: Option<string>): set<string> {
    set x | x in Words(s)
  }

  ghost predicate Usable(s: Option<string>) {
    s.Some? ==> ScopesOk(s.value)
  }

  lemma UnionValues(first: Option<string>, second: Option<string>)
    ensures var values := InsertAll(Words(second), InsertAll(Words(first), []));
            Ascending(values) && forall x :: x in values <==> x in WordSet(first) + WordSet(second)
  {
    hide Split, Less, Ascending;
    assert Ascending([]) by { EmptyAscends(); }
    InsertAllHolds(Words(first), []);
    InsertAllHolds(Words(second), InsertAll(Words(first), []));
  }

  lemma EmptyAscends()
    ensures Ascending([])
  {
  }

  /** The union is a valid scope list that holds exactly the scopes of both, each once, in order. */
  lemma UnionHoldsBoth(first: Option<string>, second: Option<string>)
    requires UnionOf(first, second).Ok?
    ensures var u := UnionOf(first, second).value;
            && WordSet(u) == WordSet(first) + WordSet(second)
            && Usable(u) && Ascending(Words(u))
            && (u.None? <==> first.None? && second.None?)
  {
    hide Split, Join, Less, WordOk, Ascending, InsertAll;
    NothingInserted([]);
    UnionValues(first, second);
    var values := InsertAll(Words(second), InsertAll(Words(first), []));
    forall i | 0 <= i < |values| ensures WordOk(values[i]) && ' ' !in values[i] {
      assert values[i] in values;
      WordsAreOk(first, values[i]);
      WordsAreOk(second, values[i]);
      WordHasNoSpace(values[i]);
    }
    if values != [] {
      SplitOfJoin(values);
      JoinNotEmpty(values);
    }
    var u := UnionOf(first, second).value;
    assert Words(u) == values;
    forall x ensures x in WordSet(u) <==> x in WordSet(first) + WordSet(second) {
      assert x in WordSet(u) <==> x in values;
    }
    if first.Some? {
      assert Split(first.value)[0] in WordSet(first);
    }
    if second.Some? {
      assert Split(second.value)[0] in WordSet(second);
    }
  }

  lemma WordsAreOk(s: Option<string>, word: string)
    requires Usable(s)
    ensures word in WordSet(s) ==> WordOk(word)
  {
  }

  lemma JoinNotEmpty(words: seq<string>)
    requires words != [] && WordOk(words[0])
    ensures Join(words) != []
  {
  }

  /** The order of the arguments does not matter. */
  lemma UnionCommutes(first: Option<string>, second: Option<string>)
    ensures UnionOf(first, second) == UnionOf(second, first)
  {
    hide Split, Join, Less, ScopesOk, InsertAll, WordSet;
    UnionValues(first, second);
    UnionValues(second, first);
    AscendingUnique(InsertAll(Words(second), InsertAll(Words(first), [])),
                    InsertAll(Words(first), InsertAll(Words(second), [])));
  }

  /** Adding scopes that are there already changes nothing. */
  lemma UnionAbsorbs(first: Option<string>, second: Option<string>)
    requires UnionOf(first, second).Ok?
    ensures UnionOf(UnionOf(first, second).value, second) == UnionOf(first, second)
  {
    hide Split, Join, Less, InsertAll, WordOk;
    var u := UnionOf(first, second).value;
    UnionHoldsBoth(first, second);
    UnionValues(u, second);
    var values := InsertAll(Words(second), InsertAll(Words(u), []));
    AscendingUnique(values, Words(u));
    if u.Some? {
      JoinOfSplit(u.value);
    }
  }

  // ----------------------------------------------------- what is refused

  /** A scope-token character of section 3.3 of RFC 6749: visible, but no quote and no backslash. */
  predicate Allowed(c: char) {
    33 <= c as int < 127 && c != '"' && c != '\\'
  }

  /** Scope tokens with one space between each two, and no others. */
  predicate Spaced(s: string) {
    && s != [] && s[0] != ' ' && s[|s| - 1] != ' '
    && (forall i :: 0 <= i < |s| ==> s[i] == ' ' || Allowed(s[i]))
    && forall i :: 0 < i < |s| ==> s[i - 1] != ' ' || s[i] != ' '
  }

  lemma SpacedHead(s: string)
    requires |s| > 1 && s[0] != ' '
    ensures Spaced(s) <==> Allowed(s[0]) && Spaced(if s[1] == ' ' then s[2..] else s[1..])
  {
    hide Allowed;
    if s[1] == ' ' {
      var t := s[2..];
      assert forall i :: 2 <= i < |s| ==> s[i] == t[i - 2];
      if Spaced(t) && Allowed(s[0]) {
        assert forall i :: 0 <= i < |s| ==> i < 2 || s[i] == t[i - 2];
        forall i | 0 < i < |s| ensures s[i - 1] != ' ' || s[i] != ' ' {
          assert i > 2 ==> s[i - 1] == t[i - 3] && s[i] == t[i - 2];
        }
      }
      if Spaced(s) {
        assert s[1] == ' ' && |s| > 2;
        assert s[2] != ' ' by { assert s[2 - 1] != ' ' || s[2] != ' '; }
        forall i | 0 < i < |t| ensures t[i - 1] != ' ' || t[i] != ' ' {
          assert s[i + 2 - 1] != ' ' || s[i + 2] != ' ';
        }
      }
    } else {
      var t := s[1..];
      assert forall i :: 1 <= i < |s| ==> s[i] == t[i - 1];
      if Spaced(s) {
        forall i | 0 < i < |t| ensures t[i - 1] != ' ' || t[i] != ' ' {
          assert s[i + 1 - 1] != ' ' || s[i + 1] != ' ';
        }
      }
      if Spaced(t) && Allowed(s[0]) {
        forall i | 0 < i < |s| ensures s[i - 1] != ' ' || s[i] != ' ' {
          assert i > 1 ==> s[i - 1] == t[i - 2] && s[i] == t[i - 1];
        }
      }
    }
  }

  predicate WordsOk(words: seq<string>) {
    forall i :: 0 <= i < |words| ==> WordOk(words[i])
  }

  lemma WordsOkCons(word: string, words: seq<string>)
    ensures WordsOk([word] + words) <==> WordOk(word) && WordsOk(words)
  {
    hide WordOk;
    var all := [word] + words;
    assert forall i :: 0 <= i < |words| ==> all[i + 1] == words[i];
    assert all[0] == word;
  }

  lemma AllowedIff(c: char)
    ensures IsScopeChar(c) <==> Allowed(c)
    ensures Allowed(c) ==> c != ' '
  {
  }

  lemma WordOkCons(c: char, word: string)
    ensures WordOk([c] + word) <==> Allowed(c) && (word == [] || WordOk(word))
  {
    hide IsScopeChar;
    AllowedIff(c);
    var all := [c] + word;
    assert forall i :: 0 <= i < |word| ==> all[i + 1] == word[i];
    assert all[0] == c;
  }

  lemma {:induction false} SpacedIff(s: string)
    ensures WordsOk(Split(s)) <==> Spaced(s)
    decreases |s|
  {
    hide Allowed, WordOk, WordsOk, Spaced;
    if s == [] {
      NotSpaced(s);
      EmptySplit();
    } else if s[0] == ' ' {
      WordsOkCons([], Split(s[1..]));
      NotSpaced(s);
    } else {
      var rest := Split(s[1..]);
      var word := [s[0]] + rest[0];
      WordsOkCons(word, rest[1..]);
      WordsOkCons(rest[0], rest[1..]);
      assert rest == [rest[0]] + rest[1..];
      WordOkCons(s[0], rest[0]);
      if |s| == 1 {
        assert s[1..] == [] && rest == [[]] && rest[1..] == [];
        NoWords();
        OneCharacter(s);
      } else {
        SpacedHead(s);
        if s[1] == ' ' {
          assert s[1..][0] == ' ' && s[1..][1..] == s[2..];
          assert rest[0] == [] && rest[1..] == Split(s[2..]);
          SpacedIff(s[2..]);
        } else {
          assert s[1..][0] == s[1];
          assert rest[0] != [];
          SpacedIff(s[1..]);
        }
      }
    }
  }

  lemma NoWords()
    ensures WordsOk([]) && !WordOk([])
  {
  }

  lemma NotSpaced(s: string)
    requires s == [] || s[0] == ' '
    ensures !Spaced(s) && !WordOk([])
  {
  }

  lemma OneCharacter(s: string)
    requires |s| == 1 && s[0] != ' '
    ensures Spaced(s) <==> Allowed(s[0])
  {
  }

  lemma EmptySplit()
    ensures !WordsOk(Split([]))
  {
    assert Split([])[0] == [];
  }

  /** A scope list is accepted exactly when it is one. */
  lemma ScopesOkIff(s: string)
    ensures ScopesOk(s) <==> Spaced(s)
  {
    hide WordOk, Split, Spaced;
    SpacedIff(s);
    if s == [] {
      NotSpaced(s);
    }
  }

  /**
   The union fails if and only if one of the two is no scope list, or the scopes of
   both, each once and with single spaces, take more than 16384 characters.
   */
  lemma UnionFailsIff(first: Option<string>, second: Option<string>, all: seq<string>)
    requires Ascending(all) && forall x :: x in all <==> x in WordSet(first) + WordSet(second)
    ensures UnionOf(first, second).Err? <==>
            (first.Some? && !Spaced(first.value)) || (second.Some? && !Spaced(second.value)) || |Join(all)| > 16384
    ensures UnionOf(first, second).Ok? && (first.Some? || second.Some?) ==> UnionOf(first, second).value == Some(Join(all))
  {
    hide Split, Less, Spaced, ScopesOk, InsertAll, WordSet, Ascending, Join;
    if first.Some? {
      ScopesOkIff(first.value);
    }
    if second.Some? {
      ScopesOkIff(second.value);
    }
    UnionValues(first, second);
    var values := InsertAll(Words(second), InsertAll(Words(first), []));
    AscendingUnique(values, all);
    JoinOfNone();
    if UnionOf(first, second).Ok? {
      hide UnionOf;
      UnionHoldsBoth(first, second);
    }
  }

  lemma JoinOfNone()
    ensures Join([]) == []
  {
  }

  /** The order of the set is that of the characters, the shorter text first. */
  lemma {:induction false} LessIff(a: string, b: string)
    ensures Less(a, b) <==> (a < b) || exists k :: 0 <= k < |a| && k < |b| && a[..k] == b[..k] && a[k] < b[k]
  {
    if a != [] && b != [] && a[0] == b[0] {
      LessIff(a[1..], b[1..]);
      assert a == [a[0]] + a[1..] && b == [b[0]] + b[1..];
      assert a[1..] < b[1..] <==> a < b;
      if k :| 0 <= k < |a[1..]| && k < |b[1..]| && a[1..][..k] == b[1..][..k] && a[1..][k] < b[1..][k] {
        assert a[..k + 1] == [a[0]] + a[1..][..k] && b[..k + 1] == [b[0]] + b[1..][..k];
        assert a[k + 1] < b[k + 1];
      }
      if k :| 0 <= k < |a| && k < |b| && a[..k] == b[..k] && a[k] < b[k] {
        assert a[1..][..k - 1] == a[..k][1..] && b[1..][..k - 1] == b[..k][1..];
        assert a[1..][k - 1] < b[1..][k - 1];
      }
    } else if a != [] && b != [] && a[0] < b[0] {
      assert a[..0] == b[..0];
    } else if a != [] && b != [] {
      assert forall k :: 0 < k <= |a| && k <= |b| && a[..k] == b[..k] ==> a[..k][0] == b[..k][0];
    }
  }
}
