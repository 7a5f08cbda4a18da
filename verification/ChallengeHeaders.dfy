/**
 What the headers of a response come to: which of their challenges is the Bearer
 one, and what it says, told of the challenges themselves.
 */
module ChallengeHeaders {
  import opened Common
  import opened Challenges
  import ChallengeSpelling

  /** "Bearer", in capitals or small letters. */
  predicate SaysBearer(word: string) {
    |word| == 6 && forall i :: 0 <= i < 6 ==> word[i] == "bearer"[i] || word[i] == "BEARER"[i]
  }

  lemma IsBearerIff(word: string)
    ensures IsBearer(word) <==> SaysBearer(word)
  {
    var small := "bearer";
    if IsBearer(word) {
      assert forall i :: 0 <= i < 6 ==> Lower(word)[i] == small[i];
    }
    if SaysBearer(word) {
      assert forall i :: 0 <= i < 6 ==> Lower(word)[i] == small[i];
      assert Lower(word) == small;
    }
  }

  function Flatten(lists: seq<seq<Parsed>>): seq<Parsed> {
    if lists == [] then [] else Flatten(lists[..|lists| - 1]) + lists[|lists| - 1]
  }

  /** The headers are of acceptable length, and hold these challenges. */
  predicate Hold(headers: seq<string>, lists: seq<seq<Parsed>>) {
    |lists| == |headers| && forall h :: 0 <= h < |headers| ==>
      |headers[h]| <= 16384 && ParseFrom(headers[h], []) == Ok(lists[h])
  }

  lemma {:induction false} AllOfHeld(headers: seq<string>, lists: seq<seq<Parsed>>)
    requires Hold(headers, lists)
    ensures AllChallenges(headers) == Ok(Flatten(lists))
  {
    hide ParseFrom;
    if headers != [] {
      AllOfHeld(headers[..|headers| - 1], lists[..|lists| - 1]);
    }
  }

  lemma {:induction false} NoBearers(all: seq<Parsed>)
    requires forall i :: 0 <= i < |all| ==> !SaysBearer(all[i].scheme)
    ensures Bearers(all) == []
  {
    hide IsBearer, SaysBearer;
    if all != [] {
      NoBearers(all[..|all| - 1]);
      IsBearerIff(all[|all| - 1].scheme);
    }
  }

  lemma OneBearer(x: Parsed)
    requires SaysBearer(x.scheme)
    ensures Bearers([x]) == [x]
  {
    hide IsBearer, SaysBearer;
    IsBearerIff(x.scheme);
    assert [x][..0] == [];
    assert Bearers([]) == [];
  }

  lemma BearerAt(all: seq<Parsed>, i: nat)
    requires i < |all| && SaysBearer(all[i].scheme)
    ensures Bearers(all) == Bearers(all[..i]) + ([all[i]] + Bearers(all[i + 1..]))
  {
    hide SaysBearer, Bearers;
    assert all == all[..i] + ([all[i]] + all[i + 1..]);
    BearersConcat(all[..i], [all[i]] + all[i + 1..]);
    BearersConcat([all[i]], all[i + 1..]);
    OneBearer(all[i]);
  }

  /** The field of that name, if the challenge has it. */
  predicate IsField(found: Option<string>, fields: Fields, key: string) {
    (found.Some? <==> key in fields) && (key in fields ==> found == Some(fields[key]))
  }

  /** Challenge `i` is the only one that says Bearer. */
  predicate IsTheBearer(all: seq<Parsed>, i: nat) {
    && i < |all| && SaysBearer(all[i].scheme)
    && forall k :: 0 <= k < |all| && k != i ==> !SaysBearer(all[k].scheme)
  }

  lemma TwoAreTooMany(all: seq<Parsed>, i: nat, k: nat)
    requires i < k < |all| && SaysBearer(all[i].scheme) && SaysBearer(all[k].scheme)
    ensures |Bearers(all)| > 1
  {
    hide SaysBearer, Bearers;
    BearerAt(all, i);
    assert all[i + 1..][k - i - 1] == all[k];
    BearerAt(all[i + 1..], k - i - 1);
  }

  lemma TheBearer(all: seq<Parsed>, i: nat)
    requires IsTheBearer(all, i)
    ensures Bearers(all) == [all[i]]
  {
    hide SaysBearer, Bearers;
    BearerAt(all, i);
    NoBearers(all[..i]);
    NoBearers(all[i + 1..]);
  }

  /**
   Two challenges that say Bearer, in one header or in two, are an error. One gives
   its metadata address and its scope, each as far as it is there; none gives neither.
   */
  lemma AnswerIsTheBearer(headers: seq<string>, lists: seq<seq<Parsed>>)
    requires Hold(headers, lists)
    ensures (exists i, k :: 0 <= i < k < |Flatten(lists)| &&
                            SaysBearer(Flatten(lists)[i].scheme) && SaysBearer(Flatten(lists)[k].scheme)) ==>
              Answer(headers) == Err(Invalid)
    ensures (forall i :: 0 <= i < |Flatten(lists)| ==> !SaysBearer(Flatten(lists)[i].scheme)) ==>
              Answer(headers) == Ok(Challenge(None, None))
    ensures forall i: nat :: IsTheBearer(Flatten(lists), i) ==>
              && i < |Flatten(lists)| && Answer(headers).Ok?
              && IsField(Answer(headers).value.metadata, Flatten(lists)[i].fields, "resource_metadata")
              && IsField(Answer(headers).value.scope, Flatten(lists)[i].fields, "scope")
  {
    hide ParseFrom, SaysBearer, Hold, AllChallenges, Bearers, Flatten, IsTheBearer;
    var all := Flatten(lists);
    AllOfHeld(headers, lists);
    if i, k :| 0 <= i < k < |all| && SaysBearer(all[i].scheme) && SaysBearer(all[k].scheme) {
      TwoAreTooMany(all, i, k);
    }
    if forall i :: 0 <= i < |all| ==> !SaysBearer(all[i].scheme) {
      NoBearers(all);
    }
    forall i: nat | IsTheBearer(all, i) ensures i < |all| && Bearers(all) == [all[i]] {
      TheBearer(all, i);
      IsInside(all, i);
    }
  }

  lemma IsInside(all: seq<Parsed>, i: nat)
    requires IsTheBearer(all, i)
    ensures i < |all|
  {
  }

  /** A header that is too long, or that cannot be read, makes the whole answer an error. */
  lemma OneBadHeaderRefuses(headers: seq<string>, h: nat)
    requires h < |headers| && (|headers[h]| > 16384 || ParseFrom(headers[h], []).Err?)
    ensures Answer(headers) == Err(Invalid)
  {
    hide ParseFrom;
    assert headers[..h + 1][..h] == headers[..h] && headers[..h + 1][h] == headers[h];
    ErrorsStay(headers, h + 1);
  }

  /** The same for headers that print lists of challenges. */
  lemma AnswerOfPrinted(headers: seq<string>, lists: seq<seq<ChallengeSpelling.Printed>>)
    requires |lists| == |headers|
    requires forall h :: 0 <= h < |lists| ==>
               headers[h] == ChallengeSpelling.Print(lists[h]) && |headers[h]| <= 16384 && AllPrintable(lists[h])
    ensures Hold(headers, seq(|lists|, h requires 0 <= h < |lists| => ChallengeSpelling.Plain(lists[h])))
  {
    hide ParseFrom, ChallengeSpelling.Print, ChallengeSpelling.Plain, ChallengeSpelling.Printable;
    forall h | 0 <= h < |lists| ensures ParseFrom(headers[h], []) == Ok(ChallengeSpelling.Plain(lists[h])) {
      ChallengeSpelling.ParseOfPrint(lists[h]);
    }
  }

  predicate AllPrintable(list: seq<ChallengeSpelling.Printed>) {
    forall i :: 0 <= i < |list| ==> ChallengeSpelling.Printable(list[i])
  }

  /** The fields of a printed challenge are those it was printed from. */
  lemma {:induction false} FieldsOfPrinted(fields: seq<(string, string)>, start: Fields, i: nat)
    requires i < |fields| && forall i, k :: 0 <= i < k < |fields| ==> fields[i].0 != fields[k].0
    ensures fields[i].0 in ChallengeSpelling.FieldsOf(fields, start)
    ensures ChallengeSpelling.FieldsOf(fields, start)[fields[i].0] == fields[i].1
  {
    var next := start[fields[0].0 := fields[0].1];
    if i > 0 {
      FieldsOfPrinted(fields[1..], next, i - 1);
    } else {
      OtherFieldsStay(fields[1..], next, fields[0].0);
    }
  }

  lemma {:induction false} OtherFieldsStay(fields: seq<(string, string)>, start: Fields, key: string)
    requires forall i :: 0 <= i < |fields| ==> fields[i].0 != key
    ensures var all := ChallengeSpelling.FieldsOf(fields, start);
            (key in all <==> key in start) && (key in start ==> all[key] == start[key])
  {
    if fields != [] {
      OtherFieldsStay(fields[1..], start[fields[0].0 := fields[0].1], key);
    }
  }

  /** One printed Bearer challenge with both fields, read by the program. */
  lemma PrintedBearer(scheme: string, metadata: string, scope: string)
    requires SaysBearer(scheme) && ChallengeSpelling.ControlFree(metadata) && ChallengeSpelling.ControlFree(scope)
    requires ChallengeSpelling.IsToken(scheme)
    requires |ChallengeSpelling.Print([Bearer(scheme, metadata, scope)])| <= 16384
    ensures Answer([ChallengeSpelling.Print([Bearer(scheme, metadata, scope)])]) ==
            Ok(Challenge(Some(metadata), Some(scope)))
  {
    hide ParseFrom, ChallengeSpelling.Print, SaysBearer, Answer;
    var list := [Bearer(scheme, metadata, scope)];
    var headers := [ChallengeSpelling.Print(list)];
    BearerIsPrintable(scheme, metadata, scope);
    AnswerOfPrinted(headers, [list]);
    var lists := seq(1, h requires 0 <= h < 1 => ChallengeSpelling.Plain([list][h]));
    PlainOfOne(list[0]);
    assert lists == [ChallengeSpelling.Plain(list)];
    FlattenOne(ChallengeSpelling.Plain(list));
    AnswerIsTheBearer(headers, lists);
    var c := list[0];
    FieldsOfPrinted(c.fields, map[], 0);
    FieldsOfPrinted(c.fields, map[], 1);
    assert IsTheBearer(Flatten(lists), 0);
  }

  lemma FlattenOne(list: seq<Parsed>)
    ensures Flatten([list]) == list
  {
    assert [list][..0] == [];
    assert Flatten([]) == [];
  }

  function Bearer(scheme: string, metadata: string, scope: string): ChallengeSpelling.Printed {
    ChallengeSpelling.Printed(scheme, [("resource_metadata", metadata), ("scope", scope)])
  }

  lemma PlainOfOne(c: ChallengeSpelling.Printed)
    ensures ChallengeSpelling.Plain([c]) == [Parsed(c.scheme, ChallengeSpelling.FieldsOf(c.fields, map[]))]
  {
    assert [c][1..] == [];
    assert ChallengeSpelling.Plain([]) == [];
  }

  lemma BearerIsPrintable(scheme: string, metadata: string, scope: string)
    requires ChallengeSpelling.ControlFree(metadata) && ChallengeSpelling.ControlFree(scope)
    requires ChallengeSpelling.IsToken(scheme)
    ensures ChallengeSpelling.Printable(Bearer(scheme, metadata, scope))
  {
    hide ChallengeSpelling.ControlFree, ChallengeSpelling.IsToken, Lower;
    MetadataIsKey();
    ScopeIsKey();
    assert "resource_metadata"[0] != "scope"[0];
  }

  lemma MetadataIsKey()
    ensures ChallengeSpelling.IsToken("resource_metadata") && Lower("resource_metadata") == "resource_metadata"
  {
  }

  lemma ScopeIsKey()
    ensures ChallengeSpelling.IsToken("scope") && Lower("scope") == "scope"
  {
  }

  // ----------------------------------------------- the characters of the grammar

  /** The delimiters of section 5.6.2 of RFC 9110, and the space. */
  const DELIMITERS := {'"', '(', ')', ',', '/', ':', ';', '<', '=', '>', '?', '@', '[', '\\', ']', '{', '}', ' '}

  /** Tokens, token68s, blanks, controls and small letters, told of the character set. */
  lemma Characters(c: char)
    ensures IsTokenChar(c) <==> 32 <= c as int < 127 && c !in DELIMITERS
    ensures IsToken68Char(c) <==>
            c == '/' || (IsTokenChar(c) && c !in {'!', '#', '$', '%', '&', '\'', '*', '^', '`', '|'})
    ensures IsGap(c) <==> c in {' ', '\t', ','}
    ensures IsControl(c) <==> 0 <= c as int <= 31 || 127 <= c as int <= 159
    ensures 'A' <= c <= 'Z' ==> LowerChar(c) == 'a' + (c - 'A')
    ensures !('A' <= c <= 'Z') ==> LowerChar(c) == c
  {
  }
}
