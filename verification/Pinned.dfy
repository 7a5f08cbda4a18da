/**
 Which resolutions count as pinned (`pinned` and `exact_npm_version` in
 src/supervisor/launch.rs): an exact version or digest, never a tag or a range.
 Texts are ASCII here; any other character makes every test below fail.
 */
module Pinned {
  import opened Common

  datatype Runtime = Npx | Uvx | Docker

  // --------------------------------------------------------- cutting the text

  /** Index of the first `c`, or the length. */
  function Find(s: string, c: char): (n: nat)
    ensures n <= |s|
    ensures n < |s| ==> s[n] == c
    ensures forall i :: 0 <= i < n ==> s[i] != c
  {
    if s == [] || s[0] == c then 0 else 1 + Find(s[1..], c)
  }

  function SplitOnce(s: string, c: char): (string, Option<string>) {
    var n := Find(s, c);
    (s[..n], if n < |s| then Some(s[n + 1..]) else None)
  }

  function Split(s: string, c: char): (parts: seq<string>)
    ensures parts != []
    decreases |s|
  {
    var n := Find(s, c);
    if n == |s| then [s] else [s[..n]] + Split(s[n + 1..], c)
  }

  function Join(parts: seq<string>, c: char): string {
    if parts == [] then [] else if |parts| == 1 then parts[0] else parts[0] + [c] + Join(parts[1..], c)
  }

  /** The text around the last `c`. */
  function RSplitOnce(s: string, c: char): (r: Option<(string, string)>)
    ensures r.Some? ==> s == r.value.0 + [c] + r.value.1 && c !in r.value.1
    ensures r.None? ==> c !in s
  {
    if s == [] then None
    else if Last(s) == c then
      assert s == s[..|s| - 1] + [c] + [];
      Some((s[..|s| - 1], []))
    else
      var r := RSplitOnce(s[..|s| - 1], c);
      assert s == s[..|s| - 1] + [Last(s)];
      if r.None? then None
      else
        assert s == r.value.0 + [c] + (r.value.1 + [Last(s)]);
        Some((r.value.0, r.value.1 + [Last(s)]))
  }

  // --------------------------------------------------------------- the tests

  predicate IsDigit(c: char) {
    '0' <= c <= '9'
  }

  predicate IsAlphanumeric(c: char) {
    IsDigit(c) || 'a' <= c <= 'z' || 'A' <= c <= 'Z'
  }

  /** A number without leading zeros. */
  predicate IsNumber(s: string) {
    s != [] && (forall i :: 0 <= i < |s| ==> IsDigit(s[i])) && (|s| == 1 || s[0] != '0')
  }

  predicate IsIdentifier(s: string) {
    s != [] && forall i :: 0 <= i < |s| ==> IsAlphanumeric(s[i]) || s[i] == '-'
  }

  predicate SuffixOk(suffix: Option<string>) {
    suffix.Some? ==> forall i :: 0 <= i < |Split(suffix.value, '.')| ==> IsIdentifier(Split(suffix.value, '.')[i])
  }

  predicate ExactNpmVersion(version: string) {
    var (release, build) := SplitOnce(version, '+');
    var (core, pre) := SplitOnce(release, '-');
    var numbers := Split(core, '.');
    && |numbers| == 3 && (forall i :: 0 <= i < |numbers| ==> IsNumber(numbers[i]))
    && SuffixOk(pre) && SuffixOk(build)
  }

  predicate IsWhitespace(c: char) {
    9 <= c as int <= 13 || c == ' '
  }

  predicate IsHex(c: char) {
    IsDigit(c) || 'a' <= c <= 'f' || 'A' <= c <= 'F'
  }

  predicate VersionChars(version: string) {
    && version != [] && IsDigit(version[0])
    && forall i :: 0 <= i < |version| ==> IsAlphanumeric(version[i]) || version[i] in {'.', '-', '+', '_', '!'}
  }

  const DIGEST_MARK := "@sha256:"

  /** The text around the last digest mark, seen as the tail after it. */
  predicate IsDigestReference(s: string) {
    |s| > 72 && s[|s| - 72..|s| - 64] == DIGEST_MARK && forall i :: |s| - 64 <= i < |s| ==> IsHex(s[i])
  }

  predicate IsPinned(runtime: Runtime, resolved: string) {
    if (resolved != [] && resolved[0] == '-') || exists i :: 0 <= i < |resolved| && IsWhitespace(resolved[i]) then false
    else
      match runtime
      case Docker => IsDigestReference(resolved)
      case Npx =>
        var cut := RSplitOnce(resolved, '@');
        cut.Some? && cut.value.0 != [] && ExactNpmVersion(cut.value.1) && VersionChars(cut.value.1)
      case Uvx =>
        var cut := SplitAtEquals(resolved);
        cut.Some? && cut.value.0 != [] && VersionChars(cut.value.1)
  }

  /** The text around the first `==`. */
  function SplitAtEquals(s: string): Option<(string, string)> {
    if |s| < 2 then None
    else if s[0] == '=' && s[1] == '=' then Some(([], s[2..]))
    else
      var r := SplitAtEquals(s[1..]);
      if r.None? then None else Some(([s[0]] + r.value.0, r.value.1))
  }

  // --------------------------------------------------------- exact versions

  /** A version by its parts. */
  datatype Version = Version(numbers: seq<string>, pre: Option<seq<string>>, build: Option<seq<string>>)

  predicate Identifiers(parts: Option<seq<string>>) {
    parts.Some? ==> parts.value != [] && forall i :: 0 <= i < |parts.value| ==> IsIdentifier(parts.value[i])
  }

  predicate Valid(v: Version) {
    && |v.numbers| == 3 && (forall i :: 0 <= i < |v.numbers| ==> IsNumber(v.numbers[i]))
    && Identifiers(v.pre) && Identifiers(v.build)
  }

  function Suffix(mark: char, parts: Option<seq<string>>): string {
    if parts.None? then [] else [mark] + Join(parts.value, '.')
  }

  /** `1.2.3-pre.1+build.5`, the suffixes being optional. */
  function Print(v: Version): string {
    Join(v.numbers, '.') + Suffix('-', v.pre) + Suffix('+', v.build)
  }

  lemma {:induction false} FindIn(a: string, b: string, c: char)
    requires c !in a && (b == [] || b[0] == c)
    ensures Find(a + b, c) == |a|
  {
    if a == [] {
      assert a + b == b;
    } else {
      assert (a + b)[1..] == a[1..] + b;
      FindIn(a[1..], b, c);
    }
  }

  lemma {:induction false} SplitOfJoin(parts: seq<string>, c: char)
    requires parts != [] && forall i :: 0 <= i < |parts| ==> c !in parts[i]
    ensures Split(Join(parts, c), c) == parts
  {
    if |parts| == 1 {
      FindIn(parts[0], [], c);
      assert parts[0] + [] == parts[0];
    } else {
      var tail := Join(parts[1..], c);
      FindIn(parts[0], [c] + tail, c);
      SplitOfJoin(parts[1..], c);
      var s := Join(parts, c);
      assert s == parts[0] + ([c] + tail);
      assert s[..|parts[0]|] == parts[0] && s[|parts[0]| + 1..] == tail;
    }
  }

  lemma JoinCons(part: string, parts: seq<string>, c: char)
    requires parts != []
    ensures Join([part] + parts, c) == part + [c] + Join(parts, c)
  {
    assert ([part] + parts)[1..] == parts;
  }

  lemma {:induction false} JoinOfSplit(s: string, c: char)
    ensures Join(Split(s, c), c) == s
    decreases |s|
  {
    hide Join;
    var n := Find(s, c);
    if n < |s| {
      JoinOfSplit(s[n + 1..], c);
      JoinCons(s[..n], Split(s[n + 1..], c), c);
      assert s == s[..n] + [c] + s[n + 1..];
    } else {
      JoinOne(s, c);
    }
  }

  lemma JoinOne(part: string, c: char)
    ensures Join([part], c) == part
  {
  }

  /** A character that no part holds, and that does not separate them, is not in the whole. */
  lemma {:induction false} NotInJoin(parts: seq<string>, c: char, x: char)
    requires x != c && forall i :: 0 <= i < |parts| ==> x !in parts[i]
    ensures x !in Join(parts, c)
  {
    if |parts| > 1 {
      NotInJoin(parts[1..], c, x);
    }
  }

  lemma NumbersArePlain(numbers: seq<string>)
    requires forall i :: 0 <= i < |numbers| ==> IsNumber(numbers[i])
    ensures forall i :: 0 <= i < |numbers| ==> '.' !in numbers[i] && '-' !in numbers[i] && '+' !in numbers[i]
  {
  }

  lemma IdentifiersArePlain(parts: seq<string>)
    requires forall i :: 0 <= i < |parts| ==> IsIdentifier(parts[i])
    ensures forall i :: 0 <= i < |parts| ==> '.' !in parts[i] && '+' !in parts[i]
  {
  }

  lemma SplitOnceOf(a: string, parts: Option<seq<string>>, c: char)
    requires c !in a
    ensures SplitOnce(a + Suffix(c, parts), c) ==
            (a, if parts.None? then None else Some(Join(parts.value, '.')))
  {
    var b := Suffix(c, parts);
    FindIn(a, b, c);
    assert (a + b)[..|a|] == a;
    if parts.Some? {
      assert (a + b)[|a| + 1..] == Join(parts.value, '.');
    }
  }

  lemma SuffixOfParts(parts: Option<seq<string>>)
    requires Identifiers(parts)
    ensures SuffixOk(if parts.None? then None else Some(Join(parts.value, '.')))
  {
    if parts.Some? {
      IdentifiersArePlain(parts.value);
      SplitOfJoin(parts.value, '.');
    }
  }

  /** Every printed version is exact. */
  lemma PrintedIsExact(v: Version)
    requires Valid(v)
    ensures ExactNpmVersion(Print(v))
  {
    hide SplitOnce, Split, Suffix, SuffixOk;
    var core := Join(v.numbers, '.');
    NumbersArePlain(v.numbers);
    NotInJoin(v.numbers, '.', '-');
    NotInJoin(v.numbers, '.', '+');
    NoPlus(core, v.pre);
    SplitOnceOf(core + Suffix('-', v.pre), v.build, '+');
    SplitOnceOf(core, v.pre, '-');
    SplitOfJoin(v.numbers, '.');
    SuffixOfParts(v.pre);
    SuffixOfParts(v.build);
  }

  lemma NoPlus(core: string, pre: Option<seq<string>>)
    requires '+' !in core && Identifiers(pre)
    ensures '+' !in core + Suffix('-', pre)
  {
    if pre.Some? {
      IdentifiersArePlain(pre.value);
      NotInJoin(pre.value, '.', '+');
    }
  }

  function PartsOf(suffix: Option<string>): Option<seq<string>> {
    if suffix.None? then None else Some(Split(suffix.value, '.'))
  }

  /** The version that an exact text spells. */
  function VersionOf(text: string): Version {
    var (release, build) := SplitOnce(text, '+');
    var (core, pre) := SplitOnce(release, '-');
    Version(Split(core, '.'), PartsOf(pre), PartsOf(build))
  }

  lemma SplitOnceJoins(s: string, c: char)
    ensures SplitOnce(s, c).0 + Suffix(c, PartsOf(SplitOnce(s, c).1)) == s
  {
    var n := Find(s, c);
    if n < |s| {
      JoinOfSplit(s[n + 1..], '.');
      assert s == s[..n] + ([c] + s[n + 1..]);
    } else {
      assert s[..n] == s;
    }
  }

  lemma PartsAreIdentifiers(suffix: Option<string>)
    ensures SuffixOk(suffix) ==> Identifiers(PartsOf(suffix))
  {
  }

  /** A text is an exact version just when it is the printing of one: three plain numbers, then well-formed suffixes. */
  lemma ExactIsPrinted(text: string)
    ensures ExactNpmVersion(text) <==> exists v :: Valid(v) && Print(v) == text
    ensures ExactNpmVersion(text) ==> Valid(VersionOf(text)) && Print(VersionOf(text)) == text
  {
    hide SplitOnce, Split, Suffix, Join;
    var (release, build) := SplitOnce(text, '+');
    var (core, pre) := SplitOnce(release, '-');
    SplitOnceJoins(text, '+');
    SplitOnceJoins(release, '-');
    JoinOfSplit(core, '.');
    PartsAreIdentifiers(pre);
    PartsAreIdentifiers(build);
    if ExactNpmVersion(text) {
      var v := VersionOf(text);
      assert Identifiers(v.pre) && Identifiers(v.build) && Valid(v);
      assert Print(v) == text;
    }
    if exists v :: Valid(v) && Print(v) == text {
      var v :| Valid(v) && Print(v) == text;
      PrintedIsExact(v);
    }
  }

  /** Different versions are spelled differently. */
  lemma PrintIsInjective(v: Version, w: Version)
    requires Valid(v) && Valid(w) && Print(v) == Print(w)
    ensures v == w
  {
    VersionOfPrint(v);
    VersionOfPrint(w);
  }

  lemma VersionOfPrint(v: Version)
    requires Valid(v)
    ensures VersionOf(Print(v)) == v
  {
    hide SplitOnce, Split, Suffix;
    var core := Join(v.numbers, '.');
    NumbersArePlain(v.numbers);
    NotInJoin(v.numbers, '.', '-');
    NotInJoin(v.numbers, '.', '+');
    NoPlus(core, v.pre);
    SplitOnceOf(core + Suffix('-', v.pre), v.build, '+');
    SplitOnceOf(core, v.pre, '-');
    SplitOfJoin(v.numbers, '.');
    PartsOfJoin(v.pre);
    PartsOfJoin(v.build);
  }

  lemma PartsOfJoin(parts: Option<seq<string>>)
    requires Identifiers(parts)
    ensures PartsOf(if parts.None? then None else Some(Join(parts.value, '.'))) == parts
  {
    if parts.Some? {
      IdentifiersArePlain(parts.value);
      SplitOfJoin(parts.value, '.');
    }
  }

  predicate IsVersionChar(c: char) {
    IsAlphanumeric(c) || c in {'.', '-', '+', '_', '!'}
  }

  predicate AllVersionChars(s: string) {
    forall i :: 0 <= i < |s| ==> IsVersionChar(s[i])
  }

  lemma {:induction false} JoinHasVersionChars(parts: seq<string>)
    requires forall i :: 0 <= i < |parts| ==> AllVersionChars(parts[i])
    ensures AllVersionChars(Join(parts, '.'))
  {
    if |parts| > 1 {
      JoinHasVersionChars(parts[1..]);
    }
  }

  lemma SuffixHasVersionChars(mark: char, parts: Option<seq<string>>)
    requires Identifiers(parts) && mark in {'-', '+'}
    ensures AllVersionChars(Suffix(mark, parts))
  {
    if parts.Some? {
      JoinHasVersionChars(parts.value);
    }
  }

  lemma PrintHasVersionChars(v: Version)
    requires Valid(v)
    ensures AllVersionChars(Print(v)) && VersionChars(Print(v)) && '@' !in Print(v)
  {
    hide Suffix;
    JoinHasVersionChars(v.numbers);
    SuffixHasVersionChars('-', v.pre);
    SuffixHasVersionChars('+', v.build);
    assert Print(v)[0] == v.numbers[0][0];
  }

  lemma {:induction false} RSplitOnceOf(a: string, b: string, c: char)
    requires c !in b
    ensures RSplitOnce(a + [c] + b, c) == Some((a, b))
  {
    var s := a + [c] + b;
    if b == [] {
      assert s[..|s| - 1] == a;
    } else {
      RSplitOnceOf(a, b[..|b| - 1], c);
      assert s[..|s| - 1] == a + [c] + b[..|b| - 1];
      assert b[..|b| - 1] + [Last(b)] == b && Last(s) == Last(b);
    }
  }

  predicate Unquestionable(resolved: string) {
    (resolved != [] ==> resolved[0] != '-') && forall i :: 0 <= i < |resolved| ==> !IsWhitespace(resolved[i])
  }

  /**
   An npm resolution is pinned exactly when it is a name, an at sign and an exact
   version, without blanks and not looking like an option.
   */
  lemma PinnedNpmIsExact(resolved: string)
    ensures IsPinned(Npx, resolved) <==>
            Unquestionable(resolved) &&
            exists name, v :: name != [] && Valid(v) && resolved == name + "@" + Print(v)
  {
    hide ExactNpmVersion, Print, VersionChars, Valid;
    if IsPinned(Npx, resolved) {
      var (name, version) := RSplitOnce(resolved, '@').value;
      ExactIsPrinted(version);
      assert resolved == name + "@" + Print(VersionOf(version));
    }
    if exists name, v :: name != [] && Valid(v) && resolved == name + "@" + Print(v) {
      var name, v :| name != [] && Valid(v) && resolved == name + "@" + Print(v);
      PrintHasVersionChars(v);
      RSplitOnceOf(name, Print(v), '@');
      PrintedIsExact(v);
    }
  }

  // ------------------------------------------------ images and Python packages

  predicate AllHex(s: string) {
    forall i :: 0 <= i < |s| ==> '0' <= s[i] <= '9' || 'a' <= s[i] <= 'f' || 'A' <= s[i] <= 'F'
  }

  /** An image is pinned exactly when it is a name and a SHA-256 digest. */
  lemma PinnedImageIsDigest(resolved: string)
    ensures IsPinned(Docker, resolved) <==>
            Unquestionable(resolved) &&
            exists name, digest :: name != [] && |digest| == 64 && AllHex(digest) && resolved == name + "@sha256:" + digest
  {
    if IsPinned(Docker, resolved) {
      var n := |resolved| - 72;
      var name, digest := resolved[..n], resolved[n + 8..];
      assert resolved[n..n + 8] == DIGEST_MARK;
      assert resolved == name + "@sha256:" + digest;
      assert name != [] && AllHex(digest);
    }
    if name, digest :| name != [] && |digest| == 64 && AllHex(digest) && resolved == name + "@sha256:" + digest {
      var n := |resolved| - 72;
      assert |name| == n && resolved[n..n + 8] == "@sha256:";
      assert forall i :: 0 <= i < 64 ==> resolved[n + 8 + i] == digest[i];
    }
  }

  /** No two equals signs stand together before index `n`. */
  predicate NoEqualsBefore(s: string, n: nat) {
    forall i :: 0 <= i < n && i + 1 < |s| ==> !(s[i] == '=' && s[i + 1] == '=')
  }

  lemma {:induction false} SplitAtEqualsIff(s: string, name: string, version: string)
    ensures SplitAtEquals(s) == Some((name, version)) <==> s == name + "==" + version && NoEqualsBefore(s, |name|)
  {
    if |s| >= 2 {
      if s[0] == '=' && s[1] == '=' {
        assert s == [] + "==" + s[2..];
        if s == name + "==" + version && NoEqualsBefore(s, |name|) {
          assert name == [];
          assert s[2..] == version;
        }
      } else {
        var tail := s[1..];
        if name == [] {
          NameIsEmpty(name, version);
        } else {
          SplitAtEqualsIff(tail, name[1..], version);
          assert s == [s[0]] + tail && name == [name[0]] + name[1..];
          assert name + "==" + version == [name[0]] + (name[1..] + "==" + version);
          EqualsInTail(s, |name|);
        }
      }
    }
  }

  lemma NameIsEmpty(name: string, version: string)
    requires name == []
    ensures (name + "==" + version)[0] == '=' && (name + "==" + version)[1] == '='
  {
  }

  lemma EqualsInTail(s: string, n: nat)
    requires |s| >= 2 && n > 0 && !(s[0] == '=' && s[1] == '=')
    ensures NoEqualsBefore(s, n) <==> NoEqualsBefore(s[1..], n - 1)
  {
    var tail := s[1..];
    if NoEqualsBefore(s, n) {
      forall i | 0 <= i < n - 1 && i + 1 < |tail| ensures !(tail[i] == '=' && tail[i + 1] == '=') {
        assert !(s[i + 1] == '=' && s[i + 1 + 1] == '=');
      }
    }
    if NoEqualsBefore(tail, n - 1) {
      forall i | 0 <= i < n && i + 1 < |s| ensures !(s[i] == '=' && s[i + 1] == '=') {
        if i > 0 {
          assert !(tail[i - 1] == '=' && tail[i - 1 + 1] == '=');
        }
      }
    }
  }

  /** A name, the first double equals sign, and a version that starts with a digit. */
  predicate NamesVersion(resolved: string, name: string, version: string) {
    && name != [] && resolved == name + "==" + version && NoEqualsBefore(resolved, |name|)
    && version != [] && '0' <= version[0] <= '9' && AllVersionChars(version)
  }

  lemma UvxIff(resolved: string)
    ensures IsPinned(Uvx, resolved) <==>
            && Unquestionable(resolved) && SplitAtEquals(resolved).Some?
            && SplitAtEquals(resolved).value.0 != [] && VersionChars(SplitAtEquals(resolved).value.1)
  {
    hide SplitAtEquals, VersionChars;
  }

  lemma VersionCharsIff(version: string)
    ensures VersionChars(version) <==> version != [] && '0' <= version[0] <= '9' && AllVersionChars(version)
  {
  }

  /** A Python package is pinned exactly when it names a version so, without blanks and not looking like an option. */
  lemma PinnedPackageIsVersion(resolved: string)
    ensures IsPinned(Uvx, resolved) <==>
            Unquestionable(resolved) && exists name, version :: NamesVersion(resolved, name, version)
  {
    hide SplitAtEquals, NoEqualsBefore, VersionChars, IsPinned, Unquestionable, AllVersionChars;
    UvxIff(resolved);
    var split := SplitAtEquals(resolved);
    if split.Some? {
      SplitAtEqualsIff(resolved, split.value.0, split.value.1);
      VersionCharsIff(split.value.1);
      assert split.value.0 != [] && VersionChars(split.value.1) ==> NamesVersion(resolved, split.value.0, split.value.1);
    }
    if name, version :| NamesVersion(resolved, name, version) {
      SplitAtEqualsIff(resolved, name, version);
      VersionCharsIff(version);
    }
  }
}
