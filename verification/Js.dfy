/** JavaScript values and string helpers that several components share. */
module Js {

  datatype Option<+T> = None | Some(value: T)

  datatype Result<+T, +E> = Ok(value: T) | Err(error: E)

  /** The values of a JavaScript number, as far as floor, max and comparison can tell them apart. */
  datatype JsNumber = NaN | Infinity | NegInfinity | Finite(value: real)

  function Max(a: int, b: int): int {
    if a >= b then a else b
  }

  function Min(a: int, b: int): int {
    if a <= b then a else b
  }

  /** White space as String.prototype.trim sees it. */
  predicate IsSpace(c: char) {
    c == ' ' || '\t' <= c <= '\r' || c == '\U{00A0}' || c == '\U{1680}' || '\U{2000}' <= c <= '\U{200A}'
    || c == '\U{2028}' || c == '\U{2029}' || c == '\U{202F}' || c == '\U{205F}' || c == '\U{3000}' || c == '\U{FEFF}'
  }

  /** The characters `\w` matches. */
  predicate IsWord(c: char) {
    'a' <= c <= 'z' || 'A' <= c <= 'Z' || '0' <= c <= '9' || c == '_'
  }

  predicate HasAt(s: string, i: nat, part: string) {
    i + |part| <= |s| && s[i..i + |part|] == part
  }

  predicate Contains(s: string, part: string) {
    exists i: nat :: i <= |s| && HasAt(s, i, part)
  }

  /** No word character on the inner side of either text. */
  predicate NoWordAround(before: string, after: string) {
    (before == [] || !IsWord(before[|before| - 1])) && (after == [] || !IsWord(after[0]))
  }

  function TrimStart(s: string): string {
    if s != [] && IsSpace(s[0]) then TrimStart(s[1..]) else s
  }

  function TrimEnd(s: string): string {
    if s != [] && IsSpace(s[|s| - 1]) then TrimEnd(s[..|s| - 1]) else s
  }

  function Trim(s: string): string {
    TrimEnd(TrimStart(s))
  }

  predicate Blank(s: string) {
    Trim(s) == ""
  }

  lemma {:induction false} TrimStartStops(s: string)
    ensures TrimStart(s) != [] ==> !IsSpace(TrimStart(s)[0])
  {
    if s != [] && IsSpace(s[0]) {
      TrimStartStops(s[1..]);
    }
  }

  lemma {:induction false} TrimEndStops(s: string)
    ensures TrimEnd(s) <= s
    ensures TrimEnd(s) != [] ==> !IsSpace(TrimEnd(s)[|TrimEnd(s)| - 1])
  {
    if s != [] && IsSpace(s[|s| - 1]) {
      TrimEndStops(s[..|s| - 1]);
    }
  }

  /** Trimmed text has nothing left to trim. */
  lemma TrimIdempotent(s: string)
    ensures Trim(Trim(s)) == Trim(s)
  {
    TrimStartStops(s);
    TrimEndStops(TrimStart(s));
    var r := Trim(s);
    if r != [] {
      assert r[0] == TrimStart(s)[0];
    }
  }

  /**
   * Lower-casing, exact up to the choice of non-ASCII letters: U+0130 and U+212A are the only
   * characters outside ASCII whose lower case has an ASCII letter in it.
   */
  function ToLower(s: string): string {
    if s == [] then [] else LowerOne(s[0]) + ToLower(s[1..])
  }

  function LowerOne(c: char): string {
    if c == '\U{0130}' then "i\U{0307}" else if c == '\U{212A}' then "k" else [AsciiLower(c)]
  }

  function AsciiLower(c: char): char {
    if 'A' <= c <= 'Z' then c - 'A' + 'a' else c
  }

  /** An ordered set: the items not blank and not yet in the list go to its end. */
  function AddAll(list: seq<string>, items: seq<string>): seq<string> {
    if items == [] then list
    else
      var rest := AddAll(list, items[..|items| - 1]);
      var item := items[|items| - 1];
      if Blank(item) || item in rest then rest else rest + [item]
  }

  function Distinct(list: seq<string>): seq<string> {
    if list == [] then []
    else
      var rest := Distinct(list[..|list| - 1]);
      var item := list[|list| - 1];
      if item in rest then rest else rest + [item]
  }

  lemma {:induction false} DistinctKeepsMembers(list: seq<string>)
    ensures forall x :: x in Distinct(list) <==> x in list
  {
    if list != [] {
      DistinctKeepsMembers(list[..|list| - 1]);
      assert list == list[..|list| - 1] + [list[|list| - 1]];
    }
  }

  lemma {:induction false} AddAllMembers(list: seq<string>, items: seq<string>)
    ensures forall x :: x in AddAll(list, items) <==> x in list || (x in items && !Blank(x))
  {
    if items != [] {
      AddAllMembers(list, items[..|items| - 1]);
      assert items == items[..|items| - 1] + [items[|items| - 1]];
    }
  }

  lemma {:induction false} ToLowerJoins(a: string, b: string)
    ensures ToLower(a + b) == ToLower(a) + ToLower(b)
  {
    if a == [] {
      assert a + b == b;
    } else {
      assert (a + b)[1..] == a[1..] + b;
      ToLowerJoins(a[1..], b);
    }
  }

  lemma {:induction false} LowerLettersStay(s: string)
    requires forall i :: 0 <= i < |s| ==> LowerOne(s[i]) == [s[i]]
    ensures ToLower(s) == s
  {
    if s != [] {
      LowerLettersStay(s[1..]);
    }
  }

  lemma TrimKeeps(s: string)
    requires s != [] && !IsSpace(s[0]) && !IsSpace(s[|s| - 1])
    ensures Trim(s) == s
  {
  }

  ghost predicate Around(s: string, before: string, part: string, after: string) {
    s == before + part + after
  }

  /** A text contains a part when it is something, the part and something again. */
  lemma ContainsIff(s: string, part: string)
    ensures Contains(s, part) <==> exists before, after :: Around(s, before, part, after)
  {
    if i: nat :| i <= |s| && HasAt(s, i, part) {
      assert s == s[..i] + part + s[i + |part|..];
      assert Around(s, s[..i], part, s[i + |part|..]);
    }
    if before, after :| Around(s, before, part, after) {
      assert s[|before|..|before| + |part|] == part;
      assert HasAt(s, |before|, part);
    }
  }
}
