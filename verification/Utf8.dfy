/**
 UTF-8 lengths of UTF-16 text and truncation to whole code points:
 src/context-capsule.ts:362-404, with the byte lengths of section 3 of RFC 3629.
 */
module Utf8 {

  /** A UTF-16 code unit. */
  type Unit = u: int | 0 <= u < 0x1_0000

  type Utf16 = seq<Unit>

  predicate High(u: Unit) {
    0xD800 <= u <= 0xDBFF
  }

  predicate Low(u: Unit) {
    0xDC00 <= u <= 0xDFFF
  }

  /** Bytes of a code unit on its own; a lone surrogate is encoded as U+FFFD. */
  function Width(u: Unit): nat {
    if u < 0x80 then 1 else if u < 0x800 then 2 else 3
  }

  /** Buffer.byteLength(s, "utf8"): code point by code point, four bytes for a surrogate pair. */
  function Bytes(s: Utf16): nat {
    if |s| == 0 then 0
    else if High(s[0]) && |s| > 1 && Low(s[1]) then 4 + Bytes(s[2..])
    else Width(s[0]) + Bytes(s[1..])
  }

  // ---------------------------------------------------------------------------------------
  // The encoding that the lengths are about

  type Octet = b: int | 0 <= b < 256

  /** UTF-8 of one code point. */
  function EncodePoint(c: int): (r: seq<Octet>)
    requires 0 <= c < 0x11_0000
  {
    if c < 0x80 then [c]
    else if c < 0x800 then [0xC0 + c / 64, 0x80 + c % 64]
    else if c < 0x1_0000 then [0xE0 + c / 4096, 0x80 + c / 64 % 64, 0x80 + c % 64]
    else [0xF0 + c / 262144, 0x80 + c / 4096 % 64, 0x80 + c / 64 % 64, 0x80 + c % 64]
  }

  /** The lead octets of section 4 of RFC 3629, by the number of octets. */
  predicate Leads(octet: Octet, n: nat) {
    || (n == 1 && octet <= 0x7F)
    || (n == 2 && 0xC2 <= octet <= 0xDF)
    || (n == 3 && 0xE0 <= octet <= 0xEF)
    || (n == 4 && 0xF0 <= octet <= 0xF4)
  }

  /** What the octet at a place adds: its bits beside those that mark it. */
  function Bits(octets: seq<Octet>, i: nat, mark: int): int
    requires i < |octets|
  {
    octets[i] as int - mark
  }

  function DecodePoint(octets: seq<Octet>): int {
    match |octets|
    case 1 => Bits(octets, 0, 0)
    case 2 => Bits(octets, 0, 0xC0) * 64 + Bits(octets, 1, 0x80)
    case 3 => Bits(octets, 0, 0xE0) * 4096 + Bits(octets, 1, 0x80) * 64 + Bits(octets, 2, 0x80)
    case 4 => Bits(octets, 0, 0xF0) * 262144 + Bits(octets, 1, 0x80) * 4096 + Bits(octets, 2, 0x80) * 64 + Bits(octets, 3, 0x80)
    case _ => -1
  }

  /** A code point is encoded with a lead octet that tells the length and continuation octets, and can be read back. */
  lemma PointRoundTrip(c: int)
    requires 0 <= c < 0x11_0000
    ensures var octets := EncodePoint(c);
      && 1 <= |octets| <= 4 && Leads(octets[0], |octets|) && DecodePoint(octets) == c
      && forall i :: 0 < i < |octets| ==> 0x80 <= octets[i] <= 0xBF
  {
    if c >= 0x1_0000 { FourDigits(c); } else if c >= 0x800 { ThreeDigits(c); }
  }

  lemma ThreeDigits(c: int)
    requires c >= 0
    ensures c == c / 4096 * 4096 + c / 64 % 64 * 64 + c % 64
  {
    assert c / 64 / 64 == c / 4096;
  }

  lemma FourDigits(c: int)
    requires c >= 0
    ensures c == c / 262144 * 262144 + c / 4096 % 64 * 4096 + c / 64 % 64 * 64 + c % 64
  {
    ThreeDigits(c);
    assert c / 4096 / 64 == c / 262144;
  }

  /** The code point of a surrogate pair. */
  function PairPoint(high: Unit, low: Unit): (c: int)
    requires High(high) && Low(low)
    ensures 0x1_0000 <= c < 0x11_0000
  {
    0x1_0000 + (high - 0xD800) * 1024 + (low - 0xDC00)
  }

  /** Every code point beyond the basic plane is one pair of a high and a low surrogate, which are disjoint ranges of code units. */
  lemma PairIff(c: int, high: Unit, low: Unit)
    requires 0x1_0000 <= c < 0x11_0000
    ensures High(high) && Low(low) && PairPoint(high, low) == c <==>
      high == 0xD800 + (c - 0x1_0000) / 1024 && low == 0xDC00 + (c - 0x1_0000) % 1024
    ensures !(High(low) && Low(low))
  {
  }

  /** Buffer.from(s, "utf8"): a lone surrogate becomes U+FFFD. */
  function Encode(s: Utf16): seq<Octet> {
    if |s| == 0 then []
    else if High(s[0]) && |s| > 1 && Low(s[1]) then EncodePoint(PairPoint(s[0], s[1])) + Encode(s[2..])
    else EncodePoint(if High(s[0]) || Low(s[0]) then 0xFFFD else s[0]) + Encode(s[1..])
  }

  lemma {:induction false} BytesAreEncoded(s: Utf16)
    ensures |Encode(s)| == Bytes(s)
  {
    if |s| > 0 {
      if High(s[0]) && |s| > 1 && Low(s[1]) { BytesAreEncoded(s[2..]); } else { BytesAreEncoded(s[1..]); }
    }
  }

  /** A character ends or starts here: the cut does not split a surrogate pair. */
  predicate Whole(s: Utf16, n: nat)
    requires n <= |s|
  {
    !(0 < n < |s| && High(s[n - 1]) && Low(s[n]))
  }

  /** Every surrogate is one half of a pair. */
  predicate WellFormed(s: Utf16) {
    forall i :: 0 <= i < |s| ==> PairedAt(s, i)
  }

  predicate PairedAt(s: Utf16, i: int)
    requires 0 <= i < |s|
  {
    && (High(s[i]) ==> i + 1 < |s| && Low(s[i + 1]))
    && (Low(s[i]) ==> i > 0 && High(s[i - 1]))
  }

  // ---------------------------------------------------------------------------------------
  // Adding and removing units

  /** What one more unit in front costs. */
  function Front(u: Unit, s: Utf16): nat {
    if High(u) && |s| > 0 && Low(s[0]) then 1 else Width(u)
  }

  /** What one more unit at the end costs. */
  function Back(s: Utf16, u: Unit): nat {
    if Low(u) && |s| > 0 && High(s[|s| - 1]) then 1 else Width(u)
  }

  lemma BytesFront(u: Unit, s: Utf16)
    ensures Bytes([u] + s) == Bytes(s) + Front(u, s)
  {
    var all := [u] + s;
    assert all[1..] == s;
    if High(u) && |s| > 0 && Low(s[0]) {
      assert all[2..] == s[1..];
    }
  }

  lemma {:induction false} BytesBack(s: Utf16, u: Unit)
    ensures Bytes(s + [u]) == Bytes(s) + Back(s, u)
  {
    if |s| == 0 {
      assert s + [u] == [u];
    } else {
      BytesBack(s[1..], u);
      assert s == [s[0]] + s[1..] && s + [u] == [s[0]] + (s[1..] + [u]);
      BytesFront(s[0], s[1..]);
      BytesFront(s[0], s[1..] + [u]);
    }
  }

  /** Joining texts adds their lengths, less two bytes if the join completes a pair. */
  lemma {:induction false} BytesJoin(a: Utf16, b: Utf16)
    ensures Bytes(a + b) == Bytes(a) + Bytes(b) - if |a| > 0 && |b| > 0 && High(a[|a| - 1]) && Low(b[0]) then 2 else 0
  {
    if |b| == 0 {
      assert a + b == a;
    } else {
      assert a + b == (a + [b[0]]) + b[1..] && b == [b[0]] + b[1..];
      JoinStep(a, b[0], b[1..]);
    }
  }

  lemma {:induction false} JoinStep(a: Utf16, u: Unit, b: Utf16)
    ensures Bytes((a + [u]) + b) == Bytes(a) + Bytes([u] + b) - if |a| > 0 && High(a[|a| - 1]) && Low(u) then 2 else 0
    decreases |b|
  {
    BytesBack(a, u);
    if |b| == 0 {
      assert (a + [u]) + b == a + [u] && [u] + b == [u];
      BytesFront(u, []);
    } else {
      assert (a + [u]) + b == ((a + [u]) + [b[0]]) + b[1..] && b == [b[0]] + b[1..];
      JoinStep(a + [u], b[0], b[1..]);
      BytesFront(u, b);
    }
  }

  /** The length of a prefix grows with the prefix, even where it splits a pair. */
  lemma {:induction false} PrefixMonotone(s: Utf16, m: nat, n: nat)
    requires m <= n <= |s|
    ensures Bytes(s[..m]) <= Bytes(s[..n])
  {
    if m < n {
      PrefixMonotone(s, m, n - 1);
      assert s[..n] == s[..n - 1] + [s[n - 1]];
      BytesBack(s[..n - 1], s[n - 1]);
    }
  }

  lemma {:induction false} SuffixMonotone(s: Utf16, m: nat, n: nat)
    requires m <= n <= |s|
    ensures Bytes(s[n..]) <= Bytes(s[m..])
    decreases n - m
  {
    if m < n {
      SuffixMonotone(s, m + 1, n);
      assert s[m..] == [s[m]] + s[m + 1..];
      BytesFront(s[m], s[m + 1..]);
    }
  }

  // ---------------------------------------------------------------------------------------
  // Prefixes

  predicate PrefixFits(s: Utf16, n: nat, maxBytes: int)
    requires n <= |s|
  {
    Bytes(s[..n]) <= maxBytes
  }

  /** The longest prefix that fits, in units; nothing if not even the empty one does. */
  function LongestPrefix(s: Utf16, maxBytes: int, bound: nat): (r: nat)
    requires bound <= |s|
    ensures r <= bound && (maxBytes >= 0 ==> PrefixFits(s, r, maxBytes))
    ensures forall n :: r < n <= bound ==> !PrefixFits(s, n, maxBytes)
  {
    if bound == 0 || PrefixFits(s, bound, maxBytes) then bound else LongestPrefix(s, maxBytes, bound - 1)
  }

  /** Where utf8Prefix cuts. */
  function PrefixEnd(s: Utf16, maxBytes: int): (r: nat)
    ensures r <= |s|
  {
    var low := LongestPrefix(s, maxBytes, |s|);
    if low > 0 && High(s[low - 1]) then low - 1 else low
  }

  /** utf8Prefix: a binary search, then a step back if it stopped after the first half of a pair. */
  method Prefix(value: Utf16, maxBytes: int) returns (r: Utf16)
    ensures r == value[..PrefixEnd(value, maxBytes)]
  {
    hide Bytes;
    var low, high := 0, |value|;
    assert value[..0] == [];
    while low < high
      invariant 0 <= low <= high <= |value|
      invariant low == 0 || PrefixFits(value, low, maxBytes)
      invariant forall n :: high < n <= |value| ==> !PrefixFits(value, n, maxBytes)
      decreases high - low
    {
      var mid := (low + high + 1) / 2;
      if Bytes(value[..mid]) <= maxBytes {
        low := mid;
      } else {
        forall n | mid <= n <= |value|
          ensures !PrefixFits(value, n, maxBytes)
        {
          PrefixMonotone(value, mid, n);
        }
        high := mid - 1;
      }
    }
    LongestIs(value, maxBytes, low);
    var end := low;
    if end > 0 && High(value[end - 1]) {
      end := end - 1;
    }
    return value[..end];
  }

  lemma LongestIs(s: Utf16, maxBytes: int, low: nat)
    requires low <= |s| && (low == 0 || PrefixFits(s, low, maxBytes))
    requires forall n :: low < n <= |s| ==> !PrefixFits(s, n, maxBytes)
    ensures LongestPrefix(s, maxBytes, |s|) == low
  {
    hide PrefixFits, LongestPrefix;
    var r := LongestPrefix(s, maxBytes, |s|);
    if low < r {
      NotEmptyFits(s, maxBytes, r);
    }
  }

  lemma NotEmptyFits(s: Utf16, maxBytes: int, r: nat)
    requires 0 < r <= |s| && r == LongestPrefix(s, maxBytes, |s|)
    ensures PrefixFits(s, r, maxBytes)
  {
    LongestFits(s, maxBytes, |s|);
  }

  lemma {:induction false} LongestFits(s: Utf16, maxBytes: int, bound: nat)
    requires bound <= |s| && LongestPrefix(s, maxBytes, bound) > 0
    ensures PrefixFits(s, LongestPrefix(s, maxBytes, bound), maxBytes)
  {
    if bound > 0 && !PrefixFits(s, bound, maxBytes) {
      LongestFits(s, maxBytes, bound - 1);
    }
  }

  lemma PrefixWellFormed(s: Utf16, n: nat)
    requires WellFormed(s) && n <= |s|
    ensures WellFormed(s[..n]) <==> n == 0 || !High(s[n - 1])
  {
    var t := s[..n];
    if n > 0 && High(s[n - 1]) {
      assert !PairedAt(t, n - 1);
    } else {
      forall i | 0 <= i < n
        ensures PairedAt(t, i)
      {
        assert PairedAt(s, i);
      }
    }
  }

  /** Truncation of any text fits, and never ends in the first half of a pair. */
  lemma PrefixAlwaysFits(s: Utf16, maxBytes: int)
    requires maxBytes >= 0
    ensures var end := PrefixEnd(s, maxBytes); PrefixFits(s, end, maxBytes) && Whole(s, end)
  {
    hide Bytes;
    var low := LongestPrefix(s, maxBytes, |s|);
    if low > 0 {
      PrefixMonotone(s, low - 1, low);
    }
  }

  /** For well-formed text it is the longest prefix of whole code points that fits. */
  lemma PrefixIsLongest(s: Utf16, maxBytes: int, n: nat)
    requires WellFormed(s) && maxBytes >= 0 && n <= |s|
    ensures WellFormed(s[..PrefixEnd(s, maxBytes)])
    ensures WellFormed(s[..n]) && PrefixFits(s, n, maxBytes) ==> n <= PrefixEnd(s, maxBytes)
  {
    hide PrefixFits;
    var end := PrefixEnd(s, maxBytes);
    if end > 0 { assert PairedAt(s, end - 1); }
    PrefixWellFormed(s, end);
    PrefixWellFormed(s, n);
  }

  /** A prefix that had to be cut leaves at most three bytes unused. */
  lemma PrefixWastesLittle(s: Utf16, maxBytes: int)
    requires WellFormed(s) && 0 <= maxBytes < Bytes(s)
    ensures Bytes(s[..PrefixEnd(s, maxBytes)]) >= maxBytes - 3
  {
    hide Bytes;
    var low := LongestPrefix(s, maxBytes, |s|);
    assert s[..|s|] == s;
    assert low < |s|;
    assert s[..low + 1] == s[..low] + [s[low]] && !PrefixFits(s, low + 1, maxBytes);
    BytesBack(s[..low], s[low]);
    if low > 0 && High(s[low - 1]) {
      assert PairedAt(s, low - 1);
      assert s[..low] == s[..low - 1] + [s[low - 1]];
      BytesBack(s[..low - 1], s[low - 1]);
    }
  }

  // ---------------------------------------------------------------------------------------
  // Suffixes

  predicate SuffixFits(s: Utf16, n: nat, maxBytes: int)
    requires n <= |s|
  {
    Bytes(s[|s| - n..]) <= maxBytes
  }

  function LongestSuffix(s: Utf16, maxBytes: int, bound: nat): (r: nat)
    requires bound <= |s|
    ensures r <= bound && (maxBytes >= 0 ==> SuffixFits(s, r, maxBytes))
    ensures forall n :: r < n <= bound ==> !SuffixFits(s, n, maxBytes)
  {
    if bound == 0 || SuffixFits(s, bound, maxBytes) then bound else LongestSuffix(s, maxBytes, bound - 1)
  }

  /** Where utf8Suffix starts. */
  function SuffixStart(s: Utf16, maxBytes: int): (r: nat)
    ensures r <= |s|
  {
    var start := |s| - LongestSuffix(s, maxBytes, |s|);
    if start < |s| && Low(s[start]) then start + 1 else start
  }

  /** utf8Suffix: the mirror image. */
  method Suffix(value: Utf16, maxBytes: int) returns (r: Utf16)
    ensures r == value[SuffixStart(value, maxBytes)..]
  {
    hide Bytes;
    var low, high := 0, |value|;
    while low < high
      invariant 0 <= low <= high <= |value|
      invariant low == 0 || SuffixFits(value, low, maxBytes)
      invariant forall n :: high < n <= |value| ==> !SuffixFits(value, n, maxBytes)
      decreases high - low
    {
      var length := (low + high + 1) / 2;
      if Bytes(value[|value| - length..]) <= maxBytes {
        low := length;
      } else {
        forall n | length <= n <= |value|
          ensures !SuffixFits(value, n, maxBytes)
        {
          SuffixMonotone(value, |value| - n, |value| - length);
        }
        high := length - 1;
      }
    }
    LongestSuffixIs(value, maxBytes, low);
    var start := |value| - low;
    if start < |value| && Low(value[start]) {
      start := start + 1;
    }
    return value[start..];
  }

  lemma LongestSuffixIs(s: Utf16, maxBytes: int, low: nat)
    requires low <= |s| && (low == 0 || SuffixFits(s, low, maxBytes))
    requires forall n :: low < n <= |s| ==> !SuffixFits(s, n, maxBytes)
    ensures LongestSuffix(s, maxBytes, |s|) == low
  {
    hide SuffixFits, LongestSuffix;
    var r := LongestSuffix(s, maxBytes, |s|);
    if low < r {
      LongestSuffixFits(s, maxBytes, |s|);
    }
  }

  lemma {:induction false} LongestSuffixFits(s: Utf16, maxBytes: int, bound: nat)
    requires bound <= |s| && LongestSuffix(s, maxBytes, bound) > 0
    ensures SuffixFits(s, LongestSuffix(s, maxBytes, bound), maxBytes)
  {
    if bound > 0 && !SuffixFits(s, bound, maxBytes) {
      LongestSuffixFits(s, maxBytes, bound - 1);
    }
  }

  lemma SuffixAlwaysFits(s: Utf16, maxBytes: int)
    requires maxBytes >= 0
    ensures var start := SuffixStart(s, maxBytes); Bytes(s[start..]) <= maxBytes && Whole(s, start)
  {
    hide Bytes;
    var start := |s| - LongestSuffix(s, maxBytes, |s|);
    assert SuffixFits(s, LongestSuffix(s, maxBytes, |s|), maxBytes);
    if start < |s| {
      SuffixMonotone(s, start, start + 1);
    }
  }

  lemma SuffixWellFormed(s: Utf16, m: nat)
    requires WellFormed(s) && m <= |s|
    ensures WellFormed(s[m..]) <==> m == |s| || !Low(s[m])
  {
    var t := s[m..];
    if m < |s| && Low(s[m]) {
      assert !PairedAt(t, 0);
    } else {
      forall i | 0 <= i < |t|
        ensures PairedAt(t, i)
      {
        assert PairedAt(s, m + i);
      }
    }
  }

  /** For well-formed text it is the longest suffix of whole code points that fits. */
  lemma SuffixIsLongest(s: Utf16, maxBytes: int, m: nat)
    requires WellFormed(s) && maxBytes >= 0 && m <= |s|
    ensures WellFormed(s[SuffixStart(s, maxBytes)..])
    ensures WellFormed(s[m..]) && Bytes(s[m..]) <= maxBytes ==> SuffixStart(s, maxBytes) <= m
  {
    hide Bytes;
    var start := SuffixStart(s, maxBytes);
    if start < |s| { assert PairedAt(s, start); }
    SuffixWellFormed(s, start);
    SuffixWellFormed(s, m);
    assert SuffixFits(s, |s| - m, maxBytes) <==> Bytes(s[m..]) <= maxBytes;
  }

  /** A suffix that had to be cut leaves at most three bytes unused. */
  lemma SuffixWastesLittle(s: Utf16, maxBytes: int)
    requires WellFormed(s) && 0 <= maxBytes < Bytes(s)
    ensures Bytes(s[SuffixStart(s, maxBytes)..]) >= maxBytes - 3
  {
    hide Bytes;
    var low := LongestSuffix(s, maxBytes, |s|);
    var start := |s| - low;
    assert s[0..] == s;
    assert low < |s|;
    assert s[start - 1..] == [s[start - 1]] + s[start..] && !SuffixFits(s, low + 1, maxBytes);
    BytesFront(s[start - 1], s[start..]);
    if start < |s| && Low(s[start]) {
      assert PairedAt(s, start);
      assert s[start..] == [s[start]] + s[start + 1..];
      BytesFront(s[start], s[start + 1..]);
    }
  }

  // ---------------------------------------------------------------------------------------
  // Head and tail

  const WORDS_1: Utf16 := [32, 91, 116, 114, 117, 110, 99, 97, 116, 101, 100]             // " [truncated"
  const WORDS_2: Utf16 := [32, 98, 121, 32, 77, 101, 109, 104, 117, 98]                   // " by Memhub"
  const WORDS_3: Utf16 := [32, 99, 111, 110, 116, 101, 120, 116]                          // " context"
  const WORDS_4: Utf16 := [32, 98, 117, 100, 103, 101, 116, 93, 32]                       // " budget] "

  /** "\n… [truncated by Memhub context budget] …\n" */
  const MARKER: Utf16 := [10, 0x2026] + WORDS_1 + WORDS_2 + WORDS_3 + WORDS_4 + [0x2026, 10]

  const MARKER_BYTES := 46

  lemma MarkerText()
    ensures MARKER == Units("\n\U{2026}") + Units(" [truncated") + Units(" by Memhub") + Units(" context") + Units(" budget] ") + Units("\U{2026}\n")
  {
    assert Units("\n\U{2026}") == [10, 0x2026] && Units("\U{2026}\n") == [0x2026, 10];
    FirstWords();
    LastWords();
    hide Units;
  }

  lemma FirstWords()
    ensures Units(" [truncated") == WORDS_1 && Units(" by Memhub") == WORDS_2
  {}

  lemma LastWords()
    ensures Units(" context") == WORDS_3 && Units(" budget] ") == WORDS_4
  {}

  /** The code units of a text of the basic plane. */
  function Units(s: string): Utf16 {
    seq(|s|, i requires 0 <= i < |s| => if s[i] as int < 0x1_0000 then s[i] as int else 0xFFFD)
  }

  lemma MarkerBytes()
    ensures Bytes(MARKER) == MARKER_BYTES
  {
    BytesOfPlain(MARKER);
    PlainSum();
  }

  function WidthSum(s: Utf16): nat {
    if |s| == 0 then 0 else Width(s[0]) + WidthSum(s[1..])
  }

  lemma {:induction false} BytesOfPlain(s: Utf16)
    requires forall i :: 0 <= i < |s| ==> !High(s[i])
    ensures Bytes(s) == WidthSum(s)
  {
    if |s| > 0 { BytesOfPlain(s[1..]); }
  }

  lemma {:induction false} WidthSumJoin(a: Utf16, b: Utf16)
    ensures WidthSum(a + b) == WidthSum(a) + WidthSum(b)
  {
    if |a| == 0 {
      assert a + b == b;
    } else {
      assert (a + b)[1..] == a[1..] + b;
      WidthSumJoin(a[1..], b);
    }
  }

  lemma {:induction false} WidthSumAscii(s: Utf16)
    requires forall i :: 0 <= i < |s| ==> s[i] < 0x80
    ensures WidthSum(s) == |s|
  {
    if |s| > 0 { WidthSumAscii(s[1..]); }
  }

  lemma PlainSum()
    ensures WidthSum(MARKER) == MARKER_BYTES
  {
    hide WidthSum;
    WordSums();
    EndSums();
    WidthSumJoin([10, 0x2026], WORDS_1);
    WidthSumJoin([10, 0x2026] + WORDS_1, WORDS_2);
    WidthSumJoin([10, 0x2026] + WORDS_1 + WORDS_2, WORDS_3);
    WidthSumJoin([10, 0x2026] + WORDS_1 + WORDS_2 + WORDS_3, WORDS_4);
    WidthSumJoin([10, 0x2026] + WORDS_1 + WORDS_2 + WORDS_3 + WORDS_4, [0x2026, 10]);
  }

  lemma WordSums()
    ensures WidthSum(WORDS_1) == 11 && WidthSum(WORDS_2) == 10 && WidthSum(WORDS_3) == 8 && WidthSum(WORDS_4) == 9
  {
    hide WidthSum;
    WidthSumAscii(WORDS_1);
    WidthSumAscii(WORDS_2);
    WidthSumAscii(WORDS_3);
    WidthSumAscii(WORDS_4);
  }

  lemma EndSums()
    ensures WidthSum([10, 0x2026]) == 4 && WidthSum([0x2026, 10]) == 4
  {
    assert [10, 0x2026][1..] == [0x2026] && [0x2026, 10][1..] == [10];
    assert [0x2026][1..] == [] && [10][1..] == [];
  }

  function HeadTail(value: Utf16, headBytes: int, tailBytes: int): Utf16 {
    value[..PrefixEnd(value, headBytes)] + MARKER + value[SuffixStart(value, tailBytes)..]
  }

  function Truncated(value: Utf16, maxBytes: int): Utf16 {
    if maxBytes <= MARKER_BYTES + 2 then value[..PrefixEnd(value, maxBytes)]
    else HeadTail(value, HeadBytes(maxBytes - MARKER_BYTES), maxBytes - MARKER_BYTES - HeadBytes(maxBytes - MARKER_BYTES))
  }

  /** Seven tenths, rounded down. */
  function HeadBytes(payload: int): int {
    payload * 7 / 10
  }

  /** However the payload is split between head and tail, the result fits. */
  lemma HeadTailFits(value: Utf16, headBytes: int, tailBytes: int)
    requires headBytes >= 0 && tailBytes >= 0
    ensures Bytes(HeadTail(value, headBytes, tailBytes)) <= headBytes + MARKER_BYTES + tailBytes
  {
    hide Bytes;
    PrefixAlwaysFits(value, headBytes);
    SuffixAlwaysFits(value, tailBytes);
    MarkerBytes();
    var head, tail := value[..PrefixEnd(value, headBytes)], value[SuffixStart(value, tailBytes)..];
    BytesJoin(head, MARKER);
    BytesJoin(head + MARKER, tail);
  }

  /** If the text is longer than the payload, head and tail do not overlap. */
  lemma HeadTailDisjoint(value: Utf16, headBytes: int, tailBytes: int)
    requires headBytes >= 0 && tailBytes >= 0 && Bytes(value) > headBytes + tailBytes
    ensures PrefixEnd(value, headBytes) <= SuffixStart(value, tailBytes)
  {
    hide Bytes;
    var end, start := PrefixEnd(value, headBytes), SuffixStart(value, tailBytes);
    PrefixAlwaysFits(value, headBytes);
    SuffixAlwaysFits(value, tailBytes);
    if start < end {
      SuffixMonotone(value, start, end);
      assert value == value[..end] + value[end..];
      BytesJoin(value[..end], value[end..]);
    }
  }

  /** The text's beginning and end without overlap, the marker between them. */
  ghost predicate ShowsEnds(value: Utf16, r: Utf16) {
    exists end: nat, start: nat :: end <= start <= |value| && r == value[..end] + MARKER + value[start..]
  }

  /**
   What a truncation is good for: it fits its limit; of a text that exceeds the limit it shows
   beginning and end and repeats nothing; and if that text is well-formed at most six bytes of the
   limit stay unused.
   */
  ghost predicate Represents(r: Utf16, value: Utf16, maxBytes: int) {
    && (maxBytes >= 0 ==> Bytes(r) <= maxBytes)
    && (maxBytes > 48 && Bytes(value) > maxBytes ==> ShowsEnds(value, r))
    && (WellFormed(value) && Bytes(value) > maxBytes >= 0 ==> Bytes(r) >= maxBytes - 6)
  }

  lemma TruncatedFits(value: Utf16, maxBytes: int)
    ensures Represents(Truncated(value, maxBytes), value, maxBytes)
  {
    hide Bytes, PrefixEnd, SuffixStart, WellFormed;
    if maxBytes <= MARKER_BYTES + 2 {
      if maxBytes >= 0 { PrefixAlwaysFits(value, maxBytes); }
      if WellFormed(value) && Bytes(value) > maxBytes >= 0 { PrefixWastesLittle(value, maxBytes); }
    } else {
      var payload := maxBytes - MARKER_BYTES;
      HeadTailFits(value, HeadBytes(payload), payload - HeadBytes(payload));
      if Bytes(value) > maxBytes {
        HeadTailDisjoint(value, HeadBytes(payload), payload - HeadBytes(payload));
        if WellFormed(value) { HeadTailWastesLittle(value, HeadBytes(payload), payload - HeadBytes(payload)); }
      }
    }
  }

  lemma HeadTailWastesLittle(value: Utf16, headBytes: int, tailBytes: int)
    requires WellFormed(value) && headBytes >= 0 && tailBytes >= 0 && headBytes + tailBytes < Bytes(value)
    ensures Bytes(HeadTail(value, headBytes, tailBytes)) >= headBytes + MARKER_BYTES + tailBytes - 6
  {
    hide Bytes, WellFormed;
    PrefixWastesLittle(value, headBytes);
    SuffixWastesLittle(value, tailBytes);
    MarkerBytes();
    var head, tail := value[..PrefixEnd(value, headBytes)], value[SuffixStart(value, tailBytes)..];
    BytesJoin(head, MARKER);
    BytesJoin(head + MARKER, tail);
  }

  /** truncateUtf8HeadTail */
  method TruncateHeadTail(value: Utf16, maxBytes: int) returns (r: Utf16)
    ensures r == Truncated(value, maxBytes) && Represents(r, value, maxBytes)
    ensures maxBytes <= 48 ==> r == value[..PrefixEnd(value, maxBytes)]
    ensures maxBytes > 48 ==>
      var head := (maxBytes - 46) * 7 / 10;
      r == value[..PrefixEnd(value, head)] + MARKER + value[SuffixStart(value, maxBytes - 46 - head)..]
  {
    hide PrefixEnd, SuffixStart, Bytes, Represents;
    TruncatedFits(value, maxBytes);
    if maxBytes <= MARKER_BYTES + 2 {
      r := Prefix(value, maxBytes);
      return;
    }
    var payloadBytes := maxBytes - MARKER_BYTES;
    var headBytes := HeadBytes(payloadBytes);
    var tailBytes := payloadBytes - headBytes;
    var head := Prefix(value, headBytes);
    var tail := Suffix(value, tailBytes);
    return head + MARKER + tail;
  }
}
