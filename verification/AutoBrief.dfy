/** The automatic brief: cutting a text to a UTF-8 byte budget, and the per-repository cooldown. */
module AutoBrief {
  import opened Js

  /** A UTF-16 code unit, as JavaScript strings hold them. */
  type Unit = u: int | 0 <= u < 0x1_0000 witness 0

  predicate IsHigh(u: Unit) {
    0xD800 <= u < 0xDC00
  }

  predicate IsLow(u: Unit) {
    0xDC00 <= u < 0xE000
  }

  /** Bytes of a unit that stands alone; a lone surrogate is written as the three-byte replacement character. */
  function UnitBytes(u: Unit): nat {
    if u < 0x80 then 1 else if u < 0x800 then 2 else 3
  }

  /** Bytes of the text in UTF-8: a surrogate pair takes four. */
  function ByteLength(s: seq<Unit>): nat {
    if s == [] then 0
    else if |s| >= 2 && IsHigh(s[0]) && IsLow(s[1]) then 4 + ByteLength(s[2..])
    else UnitBytes(s[0]) + ByteLength(s[1..])
  }

  /** The code points of the text: a high unit followed by a low one is one of them, any other surrogate reads as U+FFFD. */
  function CodePoints(s: seq<Unit>): seq<int> {
    if s == [] then []
    else if |s| >= 2 && 0xD800 <= s[0] <= 0xDBFF && 0xDC00 <= s[1] <= 0xDFFF then
      [0x1_0000 + (s[0] - 0xD800) * 0x400 + (s[1] - 0xDC00)] + CodePoints(s[2..])
    else [if 0xD800 <= s[0] <= 0xDFFF then 0xFFFD else s[0]] + CodePoints(s[1..])
  }

  /** The length of a code point in UTF-8, as RFC 3629 gives it. */
  function Utf8Length(c: int): nat {
    if c < 0x80 then 1 else if c < 0x800 then 2 else if c < 0x1_0000 then 3 else 4
  }

  function Utf8Total(points: seq<int>): nat {
    if points == [] then 0 else Utf8Length(points[0]) + Utf8Total(points[1..])
  }

  /** The byte length is that of the code points in UTF-8. */
  lemma {:induction false} BytesAreUtf8(s: seq<Unit>)
    ensures ByteLength(s) == Utf8Total(CodePoints(s))
  {
    if s == [] {
    } else if |s| >= 2 && 0xD800 <= s[0] <= 0xDBFF && 0xDC00 <= s[1] <= 0xDFFF {
      BytesAreUtf8(s[2..]);
      assert CodePoints(s)[1..] == CodePoints(s[2..]);
    } else {
      BytesAreUtf8(s[1..]);
      assert CodePoints(s)[1..] == CodePoints(s[1..]);
    }
  }

  /** What one more unit adds: the second half of a pair turns three bytes into four. */
  function Growth(s: seq<Unit>, u: Unit): nat {
    if s != [] && IsHigh(s[|s| - 1]) && IsLow(u) then 1 else UnitBytes(u)
  }

  lemma {:induction false} OneUnitMore(s: seq<Unit>, u: Unit)
    ensures ByteLength(s + [u]) == ByteLength(s) + Growth(s, u)
  {
    if s == [] {
      assert s + [u] == [u];
    } else if |s| >= 2 && IsHigh(s[0]) && IsLow(s[1]) {
      assert (s + [u])[2..] == s[2..] + [u];
      OneUnitMore(s[2..], u);
    } else if |s| == 1 {
      assert (s + [u])[2..] == [] && (s + [u])[1..] == [u] && s[1..] == [];
    } else {
      assert (s + [u])[1..] == s[1..] + [u];
      OneUnitMore(s[1..], u);
    }
  }

  /** Byte length grows strictly with every code unit, surrogates included. */
  lemma {:induction false} PrefixesGrow(s: seq<Unit>, i: nat, j: nat)
    requires i <= j <= |s|
    ensures ByteLength(s[..i]) + (j - i) <= ByteLength(s[..j])
  {
    if i < j {
      PrefixesGrow(s, i, j - 1);
      assert s[..j] == s[..j - 1] + [s[j - 1]];
      OneUnitMore(s[..j - 1], s[j - 1]);
    }
  }

  /** Joining texts adds their bytes, unless the join completes a pair. */
  lemma {:induction false} BytesAdd(a: seq<Unit>, b: seq<Unit>)
    requires b == [] || !IsLow(b[0])
    ensures ByteLength(a + b) == ByteLength(a) + ByteLength(b)
  {
    if a == [] {
      assert a + b == b;
    } else if |a| >= 2 && IsHigh(a[0]) && IsLow(a[1]) {
      assert (a + b)[2..] == a[2..] + b;
      BytesAdd(a[2..], b);
    } else {
      assert (a + b)[1..] == a[1..] + b;
      BytesAdd(a[1..], b);
    }
  }

  // ---------- Truncation ----------

  predicate AsciiText(s: string) {
    forall i :: 0 <= i < |s| ==> s[i] as int < 0x80
  }

  /** The code units of an ASCII text. */
  function Units(s: string): seq<Unit>
    requires AsciiText(s)
  {
    seq(|s|, i requires 0 <= i < |s| => s[i] as int)
  }

  lemma {:induction false} AsciiBytes(s: string)
    requires AsciiText(s)
    ensures ByteLength(Units(s)) == |s|
  {
    if s == [] {
      assert Units(s) == [];
    } else {
      AsciiBytes(s[1..]);
      assert Units(s)[1..] == Units(s[1..]);
    }
  }

  const ELLIPSIS: seq<Unit> := [0x2026]

  /** "\n\n[Brief truncated: use repo_context for navigation details]", in its three parts. */
  const NOTICE_START := "\n\n[Brief truncated: "
  const NOTICE_MIDDLE := "use repo_context for "
  const NOTICE_END := "navigation details]"

  lemma NoticeIsAscii()
    ensures AsciiText(NOTICE_START) && |NOTICE_START| == 20
    ensures AsciiText(NOTICE_MIDDLE) && |NOTICE_MIDDLE| == 21
    ensures AsciiText(NOTICE_END) && |NOTICE_END| == 19
  {
  }

  lemma NoticeStart()
    ensures NOTICE_START[0] as int == 10
  {
  }

  lemma AsciiJoins(a: string, b: string)
    requires AsciiText(a) && AsciiText(b)
    ensures AsciiText(a + b)
  {
  }

  function Notice(): (s: string)
    ensures AsciiText(s) && |s| == 60 && s[0] as int == 10
  {
    NoticeIsAscii();
    NoticeStart();
    hide *;
    AsciiJoins(NOTICE_START, NOTICE_MIDDLE);
    AsciiJoins(NOTICE_START + NOTICE_MIDDLE, NOTICE_END);
    NOTICE_START + NOTICE_MIDDLE + NOTICE_END
  }

  function FullSuffix(): seq<Unit> {
    Units(Notice())
  }

  /** The full notice when it leaves room for text, else an ellipsis. */
  function SuffixFor(limit: int): seq<Unit> {
    if ByteLength(FullSuffix()) >= limit then ELLIPSIS else FullSuffix()
  }

  lemma FullSuffixFacts()
    ensures ByteLength(FullSuffix()) == 60
    ensures FullSuffix() != [] && FullSuffix()[0] == 10
  {
    hide Notice, ByteLength;
    AsciiBytes(Notice());
  }

  lemma EllipsisFacts()
    ensures ByteLength(ELLIPSIS) == 3 && ELLIPSIS != [] && ELLIPSIS[0] == 0x2026
  {
  }

  lemma SuffixFacts(limit: int)
    ensures var s := SuffixFor(limit); s != [] && !IsLow(s[0])
    ensures ByteLength(SuffixFor(limit)) == if limit <= 60 then 3 else 60
  {
    hide FullSuffix, ByteLength;
    FullSuffixFacts();
    EllipsisFacts();
  }

  /** `k` is the longest prefix that fits with the suffix. */
  predicate LongestFit(content: seq<Unit>, suffix: seq<Unit>, limit: int, k: nat) {
    && k <= |content|
    && (k > 0 ==> ByteLength(content[..k]) + ByteLength(suffix) <= limit)
    && (forall j :: k < j <= |content| ==> ByteLength(content[..j]) + ByteLength(suffix) > limit)
  }

  /**
   * A text within the budget stays as it is. Otherwise the result is the longest prefix that fits, followed by
   * the suffix; the suffix alone when no prefix fits; nothing when even that does not. It never exceeds the budget.
   */
  method TruncateBrief(content: seq<Unit>, maxBytes: int) returns (text: seq<Unit>, truncated: bool)
    ensures var limit := Max(1, maxBytes);
            && ByteLength(text) <= limit
            && (truncated <==> ByteLength(content) > limit)
            && (!truncated ==> text == content)
            && (truncated ==>
                  exists k: nat :: LongestFit(content, SuffixFor(limit), limit, k)
                    && text == (if k > 0 then content[..k] + SuffixFor(limit)
                                else if ByteLength(SuffixFor(limit)) <= limit then SuffixFor(limit) else []))
  {
    hide ByteLength, FullSuffix, Growth;
    var limit := Max(1, maxBytes);
    if ByteLength(content) <= limit {
      return content, false;
    }
    var suffix := FullSuffix();
    if ByteLength(FullSuffix()) >= limit {
      suffix := ELLIPSIS;
    }
    var suffixBytes := ByteLength(suffix);
    SuffixFacts(limit);
    var kept := content;
    assert content[..|content|] == content;
    while |kept| > 0 && ByteLength(kept) + suffixBytes > limit
      invariant |kept| <= |content| && kept == content[..|kept|]
      invariant forall j :: |kept| < j <= |content| ==> ByteLength(content[..j]) + suffixBytes > limit
    {
      kept := kept[..|kept| - 1];
    }
    ghost var k := |kept|;
    assert LongestFit(content, suffix, limit, k);
    truncated := true;
    if |kept| == 0 {
      text := if suffixBytes <= limit then suffix else [];
      EmptyHasNoBytes();
    } else {
      text := kept + suffix;
      BytesAdd(kept, suffix);
    }
  }

  lemma EmptyHasNoBytes()
    ensures ByteLength([]) == 0
  {
  }

  /** There is one longest fitting prefix: every shorter one fits too. */
  lemma LongestFitIsUnique(content: seq<Unit>, suffix: seq<Unit>, limit: int, j: nat, k: nat)
    requires LongestFit(content, suffix, limit, j) && LongestFit(content, suffix, limit, k)
    ensures j == k
    ensures forall i :: 0 < i <= k ==> ByteLength(content[..i]) + ByteLength(suffix) <= limit
  {
    forall i | 0 < i <= k
      ensures ByteLength(content[..i]) + ByteLength(suffix) <= limit
    {
      PrefixesGrow(content, i, k);
    }
  }

  // ---------- Cooldown ----------

  datatype Reading = Reading(key: string, now: int)

  /** Whether a brief may be attempted: never before, or long enough ago. */
  predicate Due(last: map<string, int>, r: Reading, interval: int) {
    r.key in last ==> r.now - last[r.key] >= interval
  }

  class Cooldown {
    var last: map<string, int>

    constructor ()
      ensures last == map[]
    {
      last := map[];
    }

    /** The attempt is recorded before the work is done. */
    method Attempt(r: Reading, interval: int) returns (go: bool)
      modifies this
      ensures go == (r.key in old(last) ==> r.now - old(last)[r.key] >= interval)
      ensures last == if go then old(last)[r.key := r.now] else old(last)
    {
      if r.key in last && r.now - last[r.key] < interval {
        return false;
      }
      last := last[r.key := r.now];
      go := true;
    }
  }

  /** The map after a sequence of clock readings. */
  function LastAfter(readings: seq<Reading>, interval: int): map<string, int> {
    if readings == [] then map[]
    else
      var before, r := LastAfter(readings[..|readings| - 1], interval), readings[|readings| - 1];
      if Due(before, r, interval) then before[r.key := r.now] else before
  }

  /** The times recorded for one key. */
  function Recorded(readings: seq<Reading>, interval: int, key: string): seq<int> {
    if readings == [] then []
    else
      var front, r := readings[..|readings| - 1], readings[|readings| - 1];
      Recorded(front, interval, key) + if r.key == key && Due(LastAfter(front, interval), r, interval) then [r.now] else []
  }

  lemma {:induction false} MapHoldsLastRecorded(readings: seq<Reading>, interval: int, key: string)
    ensures var times := Recorded(readings, interval, key);
            (key in LastAfter(readings, interval) <==> times != []) && (times != [] ==> LastAfter(readings, interval)[key] == times[|times| - 1])
  {
    if readings != [] {
      MapHoldsLastRecorded(readings[..|readings| - 1], interval, key);
    }
  }

  /** Over a run, an attempt goes ahead exactly when none of its key is recorded or the last recorded one is at least the interval ago; no other key is touched. */
  lemma AttemptGoesAheadIff(front: seq<Reading>, r: Reading, interval: int)
    ensures var times := Recorded(front, interval, r.key);
            Recorded(front + [r], interval, r.key)
            == if times == [] || r.now - times[|times| - 1] >= interval then times + [r.now] else times
    ensures forall key :: key != r.key ==> Recorded(front + [r], interval, key) == Recorded(front, interval, key)
  {
    MapHoldsLastRecorded(front, interval, r.key);
    assert (front + [r])[..|front|] == front;
    hide LastAfter;
  }

  /** After each reading of a key there is an attempt on record less than the interval ago: a brief is never withheld for longer. */
  lemma BriefsAreNotWithheld(readings: seq<Reading>, interval: int, k: nat)
    requires interval > 0 && k < |readings|
    ensures var times := Recorded(readings[..k + 1], interval, readings[k].key);
            times != [] && readings[k].now - times[|times| - 1] < interval
  {
    AttemptGoesAheadIff(readings[..k], readings[k], interval);
    assert readings[..k + 1] == readings[..k] + [readings[k]];
    hide Recorded;
  }

  /** Recorded attempts of one key are at least the interval apart, whatever the clock does. */
  lemma {:induction false} AttemptsKeepApart(readings: seq<Reading>, interval: int, key: string)
    ensures var times := Recorded(readings, interval, key); forall i :: 0 < i < |times| ==> times[i] - times[i - 1] >= interval
  {
    if readings != [] {
      AttemptsKeepApart(readings[..|readings| - 1], interval, key);
      MapHoldsLastRecorded(readings[..|readings| - 1], interval, key);
    }
  }

  lemma {:induction false} GapsAddUp(times: seq<int>, interval: int, i: nat, j: nat)
    requires forall k :: 0 < k < |times| ==> times[k] - times[k - 1] >= interval
    requires i <= j < |times|
    ensures times[j] - times[i] >= (j - i) * interval
  {
    if i < j {
      GapsAddUp(times, interval, i, j - 1);
      assert (j - i) * interval == (j - 1 - i) * interval + interval;
    } else {
      assert (j - i) * interval == 0;
    }
  }

  lemma FitsIn(n: nat, interval: int, window: int)
    requires interval > 0 && n * interval <= window
    ensures n <= window / interval
  {
    var q := window / interval;
    assert window == q * interval + window % interval;
    if n >= q + 1 {
      MoreTimesIsMore(q + 1, n, interval);
    }
  }

  lemma MoreTimesIsMore(a: int, b: int, interval: int)
    requires interval > 0 && a <= b
    ensures a * interval <= b * interval
  {
  }

  /** Attempts `i` to `j` of a key that fall within a window of the given length number at most window / interval + 1. */
  lemma RateIsBounded(readings: seq<Reading>, interval: int, key: string, i: nat, j: nat, window: int)
    requires interval > 0 && i <= j < |Recorded(readings, interval, key)|
    requires var times := Recorded(readings, interval, key); times[j] - times[i] <= window
    ensures j - i + 1 <= window / interval + 1
    ensures i < j ==> Recorded(readings, interval, key)[i] < Recorded(readings, interval, key)[j]
  {
    var times := Recorded(readings, interval, key);
    AttemptsKeepApart(readings, interval, key);
    hide Recorded;
    GapsAddUp(times, interval, i, j);
    FitsIn(j - i, interval, window);
    if i < j {
      GapsAddUp(times, interval, i, j);
      assert (j - i) * interval > 0 by {
        PositiveProduct(j - i, interval);
      }
    }
  }

  lemma PositiveProduct(a: int, b: int)
    requires a > 0 && b > 0
    ensures a * b > 0
  {
  }

  function ForKey(readings: seq<Reading>, key: string): seq<Reading> {
    if readings == [] then []
    else ForKey(readings[..|readings| - 1], key) + if readings[|readings| - 1].key == key then [readings[|readings| - 1]] else []
  }

  /** Keys do not affect each other: the attempts of a key are those its own readings alone would give. */
  lemma {:induction false} KeysAreIndependent(readings: seq<Reading>, interval: int, key: string)
    ensures Recorded(readings, interval, key) == Recorded(ForKey(readings, key), interval, key)
  {
    if readings != [] {
      var front, r := readings[..|readings| - 1], readings[|readings| - 1];
      KeysAreIndependent(front, interval, key);
      if r.key == key {
        assert ForKey(readings, key)[..|ForKey(front, key)|] == ForKey(front, key);
        MapHoldsLastRecorded(front, interval, key);
        MapHoldsLastRecorded(ForKey(front, key), interval, key);
      } else {
        assert ForKey(readings, key) == ForKey(front, key);
      }
    }
  }
}
