/**
 Text of IPv6 addresses: the canonical form written from eight groups, and the groups
 read from the kernel's words.
 */
module Ipv6 {
  import opened Common

  // ----- Hexadecimal --------------------------------------------------------------

  function Digit(n: nat): char
    requires n < 16
  {
    "0123456789abcdef"[n]
  }

  predicate IsHex(c: char) {
    '0' <= c <= '9' || 'a' <= c <= 'f' || 'A' <= c <= 'F'
  }

  function DigitValue(c: char): (v: nat)
    requires IsHex(c)
    ensures v < 16
  {
    if c <= '9' then (c as int) - ('0' as int)
    else if c <= 'F' then (c as int) - ('A' as int) + 10
    else (c as int) - ('a' as int) + 10
  }

  function Hex(n: nat): string {
    if n < 16 then [Digit(n)] else Hex(n / 16) + [Digit(n % 16)]
  }

  predicate AllHex(s: string) {
    forall i :: 0 <= i < |s| ==> IsHex(s[i])
  }

  function HexValue(s: string): nat
    requires AllHex(s)
  {
    if s == "" then 0 else HexValue(s[..|s| - 1]) * 16 + DigitValue(s[|s| - 1])
  }

  lemma DigitRoundTrip(n: nat)
    requires n < 16
    ensures IsHex(Digit(n)) && DigitValue(Digit(n)) == n && Digit(n) != ':' && (Digit(n) == '0' <==> n == 0)
  {
  }

  // A number reads back; a group has at most four digits and no leading zero.
  lemma {:induction false} HexRoundTrip(n: nat)
    ensures AllHex(Hex(n)) && HexValue(Hex(n)) == n && Hex(n) != ""
    ensures n < 0x1_0000 ==> |Hex(n)| <= 4
    ensures n < 0x1000 ==> |Hex(n)| <= 3
    ensures n < 0x100 ==> |Hex(n)| <= 2
    ensures |Hex(n)| > 1 ==> Hex(n)[0] != '0'
    ensures n > 0 ==> Hex(n)[0] != '0'
  {
    if n < 16 {
      DigitRoundTrip(n);
      assert Hex(n)[..0] == "";
    } else {
      HexRoundTrip(n / 16);
      DigitRoundTrip(n % 16);
      assert Hex(n)[..|Hex(n)| - 1] == Hex(n / 16);
    }
  }

  // ----- Reading the text form (section 2.2 of RFC 4291) ------------------------------

  function Groups(s: string): seq<string> {
    if s == "" then [] else Split(s, ':')
  }

  // Where the first double colon is, or the end.
  function DoubleColon(s: string): (i: nat)
    ensures i <= |s|
    ensures i < |s| ==> i + 2 <= |s|
  {
    if |s| < 2 then |s|
    else if s[..2] == "::" then 0
    else 1 + DoubleColon(s[1..])
  }

  predicate IsGroup(s: string) {
    1 <= |s| <= 4 && AllHex(s)
  }

  predicate AllGroups(gs: seq<string>) {
    forall i :: 0 <= i < |gs| ==> IsGroup(gs[i])
  }

  function Values(gs: seq<string>): seq<nat>
    requires AllGroups(gs)
  {
    if gs == [] then [] else [HexValue(gs[0])] + Values(gs[1..])
  }

  function Zeros(n: nat): seq<nat> {
    if n == 0 then [] else [0] + Zeros(n - 1)
  }

  // The eight groups a text stands for: a double colon stands for one or more groups of
  // zeros.
  function Expand(text: string): Option<seq<nat>> {
    var d := DoubleColon(text);
    var head := Groups(text[..d]);
    var tail := if d < |text| then Groups(text[d + 2..]) else [];
    if !AllGroups(head) || !AllGroups(tail) then None
    else if d == |text| then (if |head| == 8 then Some(Values(head)) else None)
    else if |head| + |tail| < 8 then Some(Values(head) + Zeros(8 - |head| - |tail|) + Values(tail))
    else None
  }

  // ----- Writing the text form ------------------------------------------------------------

  function JoinColon(parts: seq<string>): string {
    JoinBy(parts, ':')
  }

  function HexAll(groups: seq<nat>): seq<string> {
    if groups == [] then [] else [Hex(groups[0])] + HexAll(groups[1..])
  }

  ghost predicate ZeroRun(groups: seq<nat>, start: nat, len: nat) {
    start + len <= |groups| && forall i :: start <= i < start + len ==> groups[i] == 0
  }

  // The longest run of zero groups, the first of them if several are as long.
  ghost predicate FirstLongest(groups: seq<nat>, start: nat, len: nat) {
    && ZeroRun(groups, start, len)
    && forall s: nat, l: nat :: ZeroRun(groups, s, l) ==> l <= len && (l == len && l > 0 ==> start <= s)
  }

  // Every run within the first `n` groups is no longer than the best, nor as long and
  // before it.
  ghost predicate BestOf(groups: seq<nat>, n: nat, start: int, len: int) {
    forall s: nat, l: nat :: s + l <= n && ZeroRun(groups, s, l) ==> l <= len && (l == len && l > 0 ==> start <= s)
  }

  // A run ending at `n` is within the one being counted.
  lemma RunEndingAt(groups: seq<nat>, n: nat, len: nat, s: nat, l: nat)
    requires n <= |groups| && len <= n && (len < n ==> groups[n - len - 1] != 0)
    requires s + l == n && ZeroRun(groups, s, l)
    ensures l <= len
  {
    assert l > len ==> s <= n - len - 1 < s + l;
  }

  lemma BestGrows(groups: seq<nat>, n: nat, start: int, len: nat, run: nat)
    requires n < |groups| && BestOf(groups, n, start, len) && (len > 0 ==> start + len <= n)
    requires run <= n + 1 && (run <= n ==> groups[n - run] != 0)
    ensures if run > len then BestOf(groups, n + 1, n + 1 - run, run) else BestOf(groups, n + 1, start, len)
  {
    forall s: nat, l: nat | s + l == n + 1 && ZeroRun(groups, s, l)
      ensures l <= run
    {
      RunEndingAt(groups, n + 1, run, s, l);
    }
  }

  // One pass over the groups, counting the run it is in.
  method BestRun(groups: seq<nat>) returns (start: nat, len: nat)
    ensures FirstLongest(groups, start, len)
  {
    var bestStart, bestLen := -1, 0;
    var runStart, runLen := -1, 0;
    for i := 0 to |groups|
      invariant 0 <= runLen <= i && 0 <= bestLen
      invariant runStart == if runLen == 0 then -1 else i - runLen
      invariant ZeroRun(groups, i - runLen, runLen)
      invariant runLen < i ==> groups[i - runLen - 1] != 0
      invariant bestLen > 0 ==> bestStart >= 0 && bestStart + bestLen <= i && ZeroRun(groups, bestStart, bestLen)
      invariant BestOf(groups, i, bestStart, bestLen)
    {
      BestGrows(groups, i, bestStart, bestLen, if groups[i] == 0 then runLen + 1 else 0);
      hide BestOf;
      if groups[i] == 0 {
        if runStart < 0 { runStart := i; }
        runLen := runLen + 1;
        if runLen > bestLen { bestLen, bestStart := runLen, runStart; }
      } else {
        runStart, runLen := -1, 0;
      }
    }
    start, len := if bestLen == 0 then 0 else bestStart, bestLen;
  }

  // The text with the run [start, start + len) as a double colon, if it is one to compress.
  function Text(groups: seq<nat>, start: nat, len: nat): string
    requires start + len <= |groups|
  {
    if len < 2 then JoinColon(HexAll(groups))
    else JoinColon(HexAll(groups[..start])) + "::" + JoinColon(HexAll(groups[start + len..]))
  }

  // Writes the first longest run of two or more zero groups as a double colon, and the
  // text names the same eight groups.
  method CompressIpv6(groups: seq<nat>) returns (text: string, ghost start: nat, ghost len: nat)
    ensures FirstLongest(groups, start, len)
    ensures text == Text(groups, start, len)
    ensures |groups| == 8 && Is16Bit(groups) ==> Expand(text) == Some(groups)
  {
    var bestStart, bestLen := BestRun(groups);
    start, len := bestStart, bestLen;
    if |groups| == 8 && Is16Bit(groups) { TextReadsBack(groups, start, len); }
    hide FirstLongest, Expand, JoinColon, HexAll, Is16Bit;
    var hex := HexAll(groups);
    if bestLen < 2 { return JoinColon(hex), start, len; }
    HexAllSlice(groups, bestStart, bestStart + bestLen);
    var head := JoinColon(hex[..bestStart]);
    var tail := JoinColon(hex[bestStart + bestLen..]);
    text := head + "::" + tail;
  }

  lemma {:induction false} HexAllAt(groups: seq<nat>)
    ensures |HexAll(groups)| == |groups| && forall i :: 0 <= i < |groups| ==> HexAll(groups)[i] == Hex(groups[i])
  {
    if groups != [] {
      HexAllAt(groups[1..]);
    }
  }

  lemma HexAllSlice(groups: seq<nat>, a: nat, b: nat)
    requires a <= b <= |groups|
    ensures |HexAll(groups)| == |groups|
    ensures HexAll(groups)[..a] == HexAll(groups[..a]) && HexAll(groups)[b..] == HexAll(groups[b..])
  {
    HexAllAt(groups);
    HexAllAt(groups[..a]);
    HexAllAt(groups[b..]);
  }

  // ----- What is written reads back -------------------------------------------------------

  ghost predicate Words(parts: seq<string>) {
    forall i :: 0 <= i < |parts| ==> parts[i] != "" && Lacks(parts[i], ':')
  }

  ghost predicate NoDoubleColon(s: string) {
    forall i :: 0 <= i < |s| - 1 ==> !(s[i] == ':' && s[i + 1] == ':')
  }

  // Joined words hold no double colon and end in none.
  lemma {:induction false} JoinIsPlain(parts: seq<string>)
    requires Words(parts)
    ensures var s := JoinColon(parts);
      NoDoubleColon(s) && (s == "" <==> parts == []) && (s != "" ==> s[0] != ':' && s[|s| - 1] != ':')
  {
    if |parts| > 1 {
      JoinIsPlain(parts[1..]);
      var w, rest := parts[0], JoinColon(parts[1..]);
      var s := w + ":" + rest;
      assert s == JoinBy(parts, ':') && s[..|w|] == w && s[|w|] == ':' && s[|w| + 1..] == rest;
      forall i | 0 <= i < |s| - 1
        ensures !(s[i] == ':' && s[i + 1] == ':')
      {
        if i > |w| {
          assert s[i] == rest[i - |w| - 1] && s[i + 1] == rest[i - |w|];
        }
      }
    }
  }

  lemma {:induction false} NoDoubleColonFound(s: string)
    requires NoDoubleColon(s)
    ensures DoubleColon(s) == |s|
  {
    if |s| >= 2 {
      assert s[0] == s[..2][0] && s[1] == s[..2][1];
      NoDoubleColonFound(s[1..]);
    }
  }

  lemma {:induction false} DoubleColonFound(head: string, tail: string)
    requires NoDoubleColon(head) && (head != "" ==> head[|head| - 1] != ':')
    ensures DoubleColon(head + "::" + tail) == |head|
  {
    var s := head + "::" + tail;
    if head == "" {
      assert s[..2] == "::";
    } else {
      assert s[0] == head[0] && s[..2][0] == s[0] && s[..2][1] == s[1];
      assert s[1..] == head[1..] + "::" + tail;
      assert |head| > 1 ==> s[1] == head[1];
      DoubleColonFound(head[1..], tail);
    }
  }

  ghost predicate Is16Bit(groups: seq<nat>) {
    forall i :: 0 <= i < |groups| ==> groups[i] < 0x1_0000
  }

  lemma {:induction false} HexWords(groups: seq<nat>)
    requires Is16Bit(groups)
    ensures Words(HexAll(groups)) && AllGroups(HexAll(groups)) && Values(HexAll(groups)) == groups
  {
    if groups != [] {
      HexRoundTrip(groups[0]);
      HexWords(groups[1..]);
      assert HexAll(groups)[1..] == HexAll(groups[1..]);
      forall i | 0 <= i < |Hex(groups[0])|
        ensures Hex(groups[0])[i] != ':'
      {
        assert IsHex(Hex(groups[0])[i]);
      }
    }
  }

  lemma GroupsOfJoined(groups: seq<nat>)
    requires Is16Bit(groups)
    ensures Groups(JoinColon(HexAll(groups))) == HexAll(groups)
  {
    HexWords(groups);
    JoinIsPlain(HexAll(groups));
    HexAllAt(groups);
    if groups != [] {
      SplitJoin(HexAll(groups), ':');
    }
  }

  lemma {:induction false} ZerosAre(groups: seq<nat>)
    requires forall i :: 0 <= i < |groups| ==> groups[i] == 0
    ensures Zeros(|groups|) == groups
  {
    if groups != [] {
      ZerosAre(groups[1..]);
    }
  }

  lemma WholeReadsBack(groups: seq<nat>)
    requires |groups| == 8 && Is16Bit(groups)
    ensures Expand(JoinColon(HexAll(groups))) == Some(groups)
  {
    var s := JoinColon(HexAll(groups));
    HexWords(groups);
    HexAllAt(groups);
    JoinIsPlain(HexAll(groups));
    NoDoubleColonFound(s);
    GroupsOfJoined(groups);
    assert s[..|s|] == s;
  }

  // A text with a double colon is its parts around the zeros.
  lemma ExpandAround(head: string, tail: string, a: seq<string>, b: seq<string>)
    requires NoDoubleColon(head) && (head != "" ==> head[|head| - 1] != ':')
    requires Groups(head) == a && Groups(tail) == b && AllGroups(a) && AllGroups(b) && |a| + |b| < 8
    ensures Expand(head + "::" + tail) == Some(Values(a) + Zeros(8 - |a| - |b|) + Values(b))
  {
    hide Groups, AllGroups, DoubleColon, Values, Zeros, NoDoubleColon;
    DoubleColonFound(head, tail);
    CutAround(head, tail);
  }

  lemma CutAround(head: string, tail: string)
    ensures var s := head + "::" + tail;
      |head| < |s| && s[..|head|] == head && s[|head| + 2..] == tail
  {
  }

  lemma AroundZeros(groups: seq<nat>, start: nat, len: nat)
    requires ZeroRun(groups, start, len) && Is16Bit(groups)
    ensures groups[..start] + Zeros(len) + groups[start + len..] == groups
    ensures Is16Bit(groups[..start]) && Is16Bit(groups[start + len..])
  {
    ZerosAre(groups[start..start + len]);
    hide Zeros, ZeroRun;
    assert groups[..start] + groups[start..start + len] + groups[start + len..] == groups;
  }

  lemma PartsReadBack(a: seq<nat>, b: seq<nat>, len: nat)
    requires |a| + len + |b| == 8 && len >= 1 && Is16Bit(a) && Is16Bit(b)
    ensures Expand(JoinColon(HexAll(a)) + "::" + JoinColon(HexAll(b))) == Some(a + Zeros(len) + b)
  {
    hide *;
    HexWords(a);
    HexWords(b);
    HexLength(a);
    HexLength(b);
    JoinIsPlain(HexAll(a));
    GroupsOfJoined(a);
    GroupsOfJoined(b);
    ExpandAround(JoinColon(HexAll(a)), JoinColon(HexAll(b)), HexAll(a), HexAll(b));
  }

  lemma HexLength(groups: seq<nat>)
    ensures |HexAll(groups)| == |groups|
  {
    HexAllAt(groups);
  }

  lemma CompressedReadsBack(groups: seq<nat>, start: nat, len: nat)
    requires |groups| == 8 && Is16Bit(groups) && ZeroRun(groups, start, len) && len >= 1
    ensures Expand(JoinColon(HexAll(groups[..start])) + "::" + JoinColon(HexAll(groups[start + len..]))) == Some(groups)
  {
    AroundZeros(groups, start, len);
    hide Expand, JoinColon, HexAll, Is16Bit, Zeros;
    PartsReadBack(groups[..start], groups[start + len..], len);
  }

  lemma TextReadsBack(groups: seq<nat>, start: nat, len: nat)
    requires |groups| == 8 && Is16Bit(groups) && ZeroRun(groups, start, len)
    ensures Expand(Text(groups, start, len)) == Some(groups)
  {
    hide Expand, JoinColon, HexAll, Is16Bit, ZeroRun;
    if len < 2 {
      WholeReadsBack(groups);
    } else {
      CompressedReadsBack(groups, start, len);
    }
  }

  // ----- The kernel's words ---------------------------------------------------------------

  ghost predicate Bytes(bytes: seq<nat>) {
    |bytes| == 16 && forall i :: 0 <= i < 16 ==> bytes[i] < 256
  }

  // The kernel prints an address as four words in the host's byte order, upper case:
  // each word's four bytes come out last first.
  ghost function KernelDigit(bytes: seq<nat>, i: nat): char
    requires Bytes(bytes) && i < 32
  {
    DigitOf(bytes[(i / 8) * 4 + 3 - (i % 8) / 2], i % 2 == 1)
  }

  ghost function KernelText(bytes: seq<nat>): string
    requires Bytes(bytes)
  {
    seq(32, (i: int) requires 0 <= i < 32 && Bytes(bytes) => KernelDigit(bytes, i))
  }

  // The two digits of byte `k` of the address.
  function ByteAt(hex: string, k: nat): string
    requires |hex| == 32 && k < 16
  {
    var at := (k / 4) * 8 + (3 - k % 4) * 2;
    hex[at..at + 2]
  }

  lemma TwoDigits(s: string)
    requires |s| == 2 && AllHex(s)
    ensures HexValue(s) == DigitValue(s[0]) * 16 + DigitValue(s[1])
  {
    var front := s[..1];
    assert front == [s[0]] && front[..0] == "";
    assert HexValue(front) == HexValue("") * 16 + DigitValue(s[0]);
  }

  function GroupAt(hex: string, i: nat): (g: nat)
    requires |hex| == 32 && AllHex(hex) && i < 8
    ensures g < 0x1_0000
  {
    var hi, lo := ByteAt(hex, 2 * i), ByteAt(hex, 2 * i + 1);
    TwoDigits(hi);
    TwoDigits(lo);
    HexValue(hi) * 256 + HexValue(lo)
  }

  // The word's bytes, last first.
  method WordBytes(hex: string, w: nat) returns (bytes: seq<string>)
    requires |hex| == 32 && w < 4
    ensures |bytes| == 4 && forall k :: 0 <= k < 4 ==> bytes[k] == ByteAt(hex, 4 * w + k)
  {
    var word := hex[w * 8..w * 8 + 8];
    bytes := [];
    var b := 3;
    while b >= 0
      invariant -1 <= b <= 3 && |bytes| == 3 - b
      invariant forall k :: 0 <= k < |bytes| ==> bytes[k] == ByteAt(hex, 4 * w + k)
    {
      WordByte(hex, w, 3 - b);
      bytes := bytes + [word[b * 2..b * 2 + 2]];
      b := b - 1;
    }
  }

  lemma WordByte(hex: string, w: nat, k: nat)
    requires |hex| == 32 && w < 4 && k < 4
    ensures hex[w * 8..w * 8 + 8][(3 - k) * 2..(3 - k) * 2 + 2] == ByteAt(hex, 4 * w + k)
  {
    assert (4 * w + k) / 4 == w && (4 * w + k) % 4 == k;
  }

  function GroupsOf(hex: string): (g: seq<nat>)
    requires |hex| == 32 && AllHex(hex)
    ensures |g| == 8 && Is16Bit(g)
  {
    seq(8, (i: int) requires 0 <= i < 8 => GroupAt(hex, i))
  }

  // Reads the kernel's text: reverses each word's bytes, groups them, compresses.
  method ParseHexIpv6(hex: string) returns (text: string)
    requires |hex| == 32 && AllHex(hex)
    ensures Expand(text) == Some(GroupsOf(hex))
  {
    hide Expand, AllHex, HexValue;
    var bytes: seq<string> := [];
    for w := 0 to 4
      invariant |bytes| == 4 * w
      invariant forall k :: 0 <= k < 4 * w ==> bytes[k] == ByteAt(hex, k)
    {
      var word := WordBytes(hex, w);
      forall k | 4 * w <= k < 4 * w + 4
        ensures (bytes + word)[k] == ByteAt(hex, k)
      {
        assert (bytes + word)[k] == word[k - 4 * w];
      }
      bytes := bytes + word;
    }
    var groups: seq<nat> := [];
    for i := 0 to 8
      invariant |groups| == i && forall k :: 0 <= k < i ==> groups[k] == GroupAt(hex, k)
    {
      DigitsOfByte(hex, 2 * i);
      DigitsOfByte(hex, 2 * i + 1);
      groups := groups + [HexValue(bytes[2 * i]) * 256 + HexValue(bytes[2 * i + 1])];
    }
    assert groups == GroupsOf(hex);
    ghost var start, len;
    text, start, len := CompressIpv6(groups);
  }

  lemma DigitsOfByte(hex: string, k: nat)
    requires |hex| == 32 && AllHex(hex) && k < 16
    ensures AllHex(ByteAt(hex, k))
  {
  }

  function DigitOf(b: nat, low: bool): char
    requires b < 256
  {
    "0123456789ABCDEF"[if low then b % 16 else b / 16]
  }

  lemma ByteIndex(k: nat, low: nat)
    requires k < 16 && low < 2
    ensures var i := (k / 4) * 8 + (3 - k % 4) * 2 + low;
      i < 32 && (i / 8) * 4 + 3 - (i % 8) / 2 == k && i % 2 == low
  {
    var i := (k / 4) * 8 + (3 - k % 4) * 2 + low;
    assert i / 8 == k / 4 && i % 8 == (3 - k % 4) * 2 + low;
  }

  lemma KernelAt(bytes: seq<nat>, i: nat)
    requires Bytes(bytes) && i < 32
    ensures |KernelText(bytes)| == 32 && KernelText(bytes)[i] == KernelDigit(bytes, i)
  {
  }

  lemma KernelDigits(bytes: seq<nat>, k: nat, low: nat)
    requires Bytes(bytes) && k < 16 && low < 2
    ensures var i := (k / 4) * 8 + (3 - k % 4) * 2 + low;
      |KernelText(bytes)| == 32 && i < 32 && KernelText(bytes)[i] == DigitOf(bytes[k], low == 1)
  {
    ByteIndex(k, low);
    KernelAt(bytes, (k / 4) * 8 + (3 - k % 4) * 2 + low);
    hide KernelText, DigitOf;
  }

  // The digits the kernel prints for a byte are where they are read from.
  lemma KernelByte(bytes: seq<nat>, k: nat)
    requires Bytes(bytes) && k < 16
    ensures AllHex(ByteAt(KernelText(bytes), k)) && HexValue(ByteAt(KernelText(bytes), k)) == bytes[k]
  {
    hide KernelText, DigitOf, HexValue;
    KernelDigits(bytes, k, 0);
    KernelDigits(bytes, k, 1);
    UpperDigits(bytes[k]);
    TwoDigits(ByteAt(KernelText(bytes), k));
  }

  lemma UpperDigits(b: nat)
    requires b < 256
    ensures var hi, lo := DigitOf(b, false), DigitOf(b, true);
      IsHex(hi) && IsHex(lo) && DigitValue(hi) == b / 16 && DigitValue(lo) == b % 16
  {
    UpperDigit(b / 16);
    UpperDigit(b % 16);
  }

  lemma UpperDigit(n: nat)
    requires n < 16
    ensures IsHex("0123456789ABCDEF"[n]) && DigitValue("0123456789ABCDEF"[n]) == n
  {
  }

  // What is read from the kernel's text of an address is the address, two bytes a group.
  lemma KernelTextReadsBack(bytes: seq<nat>)
    requires Bytes(bytes)
    ensures |KernelText(bytes)| == 32 && AllHex(KernelText(bytes))
    ensures forall i :: 0 <= i < 8 ==> GroupAt(KernelText(bytes), i) == bytes[2 * i] * 256 + bytes[2 * i + 1]
  {
    var hex := KernelText(bytes);
    forall i | 0 <= i < 32
      ensures IsHex(hex[i])
    {
      UpperDigits(bytes[(i / 8) * 4 + 3 - (i % 8) / 2]);
      assert hex[i] == KernelDigit(bytes, i);
    }
    hide KernelText, HexValue;
    forall i | 0 <= i < 8
      ensures GroupAt(hex, i) == bytes[2 * i] * 256 + bytes[2 * i + 1]
    {
      KernelByte(bytes, 2 * i);
      KernelByte(bytes, 2 * i + 1);
    }
  }
}
