// NUL-terminated strings in character arrays, as the firmware handles them.
module CStrings {
  import opened Wrappers

  const NUL: char := '\0'

  function Take(s: string, n: nat): string { if |s| <= n then s else s[..n] }

  // The first position of `c`, or the length when there is none.
  function IndexOf(s: string, c: char): (i: nat)
    ensures i <= |s| && c !in s[..i] && (i < |s| ==> s[i] == c)
  {
    if s == "" || s[0] == c then 0 else 1 + IndexOf(s[1..], c)
  }

  lemma IndexOfIs(s: string, c: char, i: nat)
    requires i <= |s| && c !in s[..i] && (i < |s| ==> s[i] == c)
    ensures IndexOf(s, c) == i
  {
    if 0 < i {
      assert s[..i][0] == s[0];
      assert s[..i][1..] == s[1..][..i - 1];
      IndexOfIs(s[1..], c, i - 1);
    }
  }

  // What a reader of a NUL-terminated string sees.
  function Text(s: string): string { s[..IndexOf(s, NUL)] }

  function Before(s: string, c: char): string { s[..IndexOf(s, c)] }

  predicate Terminated(s: string) { IndexOf(s, NUL) < |s| }

  function Pad(s: string, n: nat): string
    requires |s| <= n
  {
    s + seq(n - |s|, _ => NUL)
  }

  lemma TextOf(s: string, tail: string)
    requires NUL !in s && tail != "" && tail[0] == NUL
    ensures Text(s + tail) == s && Terminated(s + tail)
  {
    assert (s + tail)[..|s|] == s;
    IndexOfIs(s + tail, NUL, |s|);
  }

  predicate Occurs(s: string, pattern: string, i: nat) {
    i + |pattern| <= |s| && s[i..i + |pattern|] == pattern
  }

  // The first occurrence of a pattern.
  function Search(s: string, pattern: string, from: nat := 0): (r: Option<nat>)
    ensures r.Some? ==> from <= r.value && Occurs(s, pattern, r.value)
    ensures r.Some? ==> forall i :: from <= i < r.value ==> !Occurs(s, pattern, i)
    ensures r.None? ==> forall i :: from <= i ==> !Occurs(s, pattern, i)
    decreases |s| - from
  {
    if Occurs(s, pattern, from) then Some(from)
    else if from >= |s| then None
    else Search(s, pattern, from + 1)
  }

  lemma SearchIs(s: string, pattern: string, i: nat)
    requires Occurs(s, pattern, i) && forall k :: 0 <= k < i ==> !Occurs(s, pattern, k)
    ensures Search(s, pattern) == Some(i)
  {
    var r := Search(s, pattern);
    assert r.Some? && i < r.value ==> !Occurs(s, pattern, i);
  }

  function LowerChar(c: char): char {
    if 'A' <= c <= 'Z' then c - 'A' + 'a' else c
  }

  function Lower(s: string): (r: string)
    ensures |r| == |s| && forall i :: 0 <= i < |s| ==> r[i] == LowerChar(s[i])
  {
    seq(|s|, i requires 0 <= i < |s| => LowerChar(s[i]))
  }

  // strcasecmp(s, t) == 0
  predicate SameIgnoringCase(s: string, t: string) { Lower(s) == Lower(t) }

  // Upper- and lower-case letters mixed at will.
  predicate Spells(s: string, upper: string, lower: string) {
    |s| == |upper| == |lower| && forall i :: 0 <= i < |s| ==> s[i] == upper[i] || s[i] == lower[i]
  }

  // One word in both cases.
  predicate IsWord(upper: string, lower: string) {
    && |upper| == |lower|
    && forall i :: 0 <= i < |upper| ==>
         || ('A' <= upper[i] <= 'Z' && 'a' <= lower[i] <= 'z' && lower[i] - 'a' == upper[i] - 'A')
         || (upper[i] == lower[i] == '_')
  }

  // The case-blind comparison takes exactly the spellings of a word.
  lemma SameIffSpells(s: string, upper: string, lower: string)
    requires IsWord(upper, lower)
    ensures Lower(upper) == lower == Lower(lower)
    ensures SameIgnoringCase(s, lower) <==> Spells(s, upper, lower)
    ensures Lower(s) == lower <==> Spells(s, upper, lower)
  {
    forall i | 0 <= i < |upper| ensures LowerChar(upper[i]) == lower[i] == LowerChar(lower[i]) { }
    if SameIgnoringCase(s, lower) {
      forall i | 0 <= i < |s| ensures s[i] == upper[i] || s[i] == lower[i] {
        assert Lower(s)[i] == Lower(lower)[i];
      }
    }
    assert Lower(upper) == lower;
  }

  // The first `n` characters are what a C reader sees of the text.
  predicate ReadsTo(s: string, n: nat) {
    n <= |s| && '\0' !in s[..n] && (n < |s| ==> s[n] == '\0')
  }

  lemma AsReadIs(s: string, n: nat)
    requires ReadsTo(s, n)
    ensures AsRead(s) == s[..n]
  {
    assert (s + [NUL])[..n] == s[..n];
    IndexOfIs(s + [NUL], NUL, n);
  }

  lemma AsReadReads(s: string) returns (n: nat)
    ensures ReadsTo(s, n) && AsRead(s) == s[..n]
  {
    n := |AsRead(s)|;
    assert (s + [NUL])[|s|] == NUL;
    assert n <= |s| && (s + [NUL])[..n] == s[..n];
  }

  // ---- White space ----

  predicate IsSpace(c: char) { c == ' ' || '\t' <= c <= '\r' }

  function SkipSpace(s: string): (r: string)
    ensures |r| <= |s| && (r != "" ==> !IsSpace(r[0]))
  {
    if s == "" || !IsSpace(s[0]) then s else SkipSpace(s[1..])
  }

  // ---- Numbers ----

  predicate IsDigit(c: char) { '0' <= c <= '9' }

  function DigitValue(c: char): (d: nat)
    requires IsDigit(c)
    ensures d <= 9
  {
    (c - '0') as int
  }

  // The value of the leading digits, read onto `acc`.
  function LeadingDigits(s: string, acc: nat := 0): nat {
    if s == "" || !IsDigit(s[0]) then acc else LeadingDigits(s[1..], acc * 10 + DigitValue(s[0]))
  }

  const I32_MIN: int := -0x8000_0000
  const I32_MAX: int := 0x7fff_ffff

  function Clamp(n: int): int {
    if n < I32_MIN then I32_MIN else if n > I32_MAX then I32_MAX else n
  }

  // atoi: white space, an optional sign, then digits up to anything else; the result of
  // an over-long number saturates.
  function Atoi(s: string): int {
    var s := SkipSpace(s);
    if s != "" && s[0] == '-' then Clamp(0 - LeadingDigits(s[1..]))
    else if s != "" && s[0] == '+' then Clamp(LeadingDigits(s[1..]))
    else Clamp(LeadingDigits(s))
  }

  predicate AllDigits(s: string) { forall i :: 0 <= i < |s| ==> IsDigit(s[i]) }

  // The value of a string of digits, most significant first.
  function DecimalValue(s: string): nat
    requires AllDigits(s)
  {
    if s == "" then 0 else DecimalValue(s[..|s| - 1]) * 10 + DigitValue(s[|s| - 1])
  }

  // The strict parser of the back end: an optional sign, at least one digit, nothing
  // else, and a value in range.
  function ParseI32(s: string): Option<int> {
    var digits := if s != "" && (s[0] == '-' || s[0] == '+') then s[1..] else s;
    if digits == "" || !AllDigits(digits) then None
    else
      var n: int := if s[0] == '-' then 0 - DecimalValue(digits) else DecimalValue(digits);
      if I32_MIN <= n <= I32_MAX then Some(n) else None
  }

  lemma {:induction false} LeadingDigitsValue(done: string, s: string)
    requires AllDigits(done) && AllDigits(s)
    ensures AllDigits(done + s) && LeadingDigits(s, DecimalValue(done)) == DecimalValue(done + s)
    decreases |s|
  {
    if s == "" {
      assert done + s == done;
    } else {
      assert (done + [s[0]])[..|done|] == done;
      assert done + [s[0]] + s[1..] == done + s;
      LeadingDigitsValue(done + [s[0]], s[1..]);
    }
  }

  lemma NumbersArePlain(s: string)
    requires ParseI32(s).Some?
    ensures NUL !in s
  {
    if s[0] == '-' || s[0] == '+' {
      assert forall i :: 0 < i < |s| ==> s[1..][i - 1] == s[i];
    }
  }

  // The device reads every number the back end accepts as the same number.
  lemma AtoiAgrees(s: string)
    ensures ParseI32(s).Some? ==> Atoi(s) == ParseI32(s).value
  {
    var digits := if s != "" && (s[0] == '-' || s[0] == '+') then s[1..] else s;
    if digits != "" && AllDigits(digits) {
      assert IsDigit(digits[0]) && SkipSpace(s) == s;
      LeadingDigitsValue("", digits);
      assert "" + digits == digits && DecimalValue("") == 0;
      assert LeadingDigits(digits, 0) == DecimalValue(digits);
    }
  }

  // ---- Numbers as they are written ----

  function Digit(n: nat): char
    requires n < 10
  {
    "0123456789"[n]
  }

  function Decimal(n: nat): string { if n < 10 then [Digit(n)] else Decimal(n / 10) + [Digit(n % 10)] }

  function Printed(n: int): string { if n < 0 then "-" + Decimal(-n) else Decimal(n) }

  lemma DigitIs(n: nat)
    requires n < 10
    ensures IsDigit(Digit(n)) && DigitValue(Digit(n)) == n
  {
  }

  lemma {:induction false} DecimalIs(n: nat)
    ensures Decimal(n) != "" && AllDigits(Decimal(n)) && DecimalValue(Decimal(n)) == n
    decreases n
  {
    DigitIs(n % 10);
    if n < 10 {
      assert Decimal(n)[..0] == "";
    } else {
      DecimalIs(n / 10);
      var most := Decimal(n / 10);
      assert Decimal(n)[..|most|] == most;
      assert n / 10 * 10 + n % 10 == n;
    }
  }

  lemma ParseDigits(digits: string)
    requires digits != "" && AllDigits(digits)
    ensures ParseI32(digits) == if DecimalValue(digits) <= I32_MAX then Some(DecimalValue(digits)) else None
    ensures ParseI32("-" + digits) == if I32_MIN <= 0 - DecimalValue(digits) then Some(0 - DecimalValue(digits)) else None
  {
    assert IsDigit(digits[0]);
    assert ("-" + digits)[1..] == digits;
  }

  // The strict parser reads a number written out in decimal if it has 32 bits.
  lemma PrintedParses(n: int)
    ensures ParseI32(Printed(n)) == if -0x8000_0000 <= n <= 0x7fff_ffff then Some(n) else None
  {
    DecimalIs(if n < 0 then -n else n);
    ParseDigits(Decimal(if n < 0 then -n else n));
  }

  lemma {:induction false} SkipsSpace(space: string, s: string)
    requires (forall i :: 0 <= i < |space| ==> space[i] == ' ' || 9 <= space[i] as int <= 13) && (s != "" ==> !IsSpace(s[0]))
    ensures SkipSpace(space + s) == s
  {
    if space == "" {
      assert space + s == s;
    } else {
      assert (space + s)[1..] == space[1..] + s;
      SkipsSpace(space[1..], s);
    }
  }

  lemma AtoiDigits(digits: string, tail: string)
    requires digits != "" && AllDigits(digits) && (tail == "" || !IsDigit(tail[0]))
    ensures Atoi(digits + tail) == Clamp(DecimalValue(digits))
    ensures Atoi("-" + digits + tail) == Clamp(0 - DecimalValue(digits))
  {
    assert IsDigit(digits[0]);
    DigitsThenTail(digits, tail);
    assert ("-" + digits + tail)[1..] == digits + tail;
  }

  // atoi also reads past leading white space, stops at the first other character, and
  // saturates.
  lemma PrintedAtoi(space: string, n: int, tail: string)
    requires forall i :: 0 <= i < |space| ==> space[i] == ' ' || 9 <= space[i] as int <= 13
    requires tail == "" || !('0' <= tail[0] <= '9')
    ensures Atoi(space + (Printed(n) + tail))
         == if n < -0x8000_0000 then -0x8000_0000 else if n > 0x7fff_ffff then 0x7fff_ffff else n
  {
    var digits := Decimal(if n < 0 then -n else n);
    DecimalIs(if n < 0 then -n else n);
    AtoiDigits(digits, tail);
    assert IsDigit(digits[0]) && (n >= 0 ==> Printed(n)[0] == digits[0]);
    AtoiSpaced(space, Printed(n) + tail);
  }

  lemma AtoiSpaced(space: string, s: string)
    requires forall i :: 0 <= i < |space| ==> space[i] == ' ' || 9 <= space[i] as int <= 13
    requires s != "" && !IsSpace(s[0])
    ensures Atoi(space + s) == Atoi(s)
  {
    SkipsSpace(space, s);
  }

  lemma DigitsThenTail(digits: string, tail: string)
    requires AllDigits(digits) && (tail == "" || !IsDigit(tail[0]))
    ensures LeadingDigits(digits + tail) == DecimalValue(digits)
  {
    LeadingDigitsStop(digits, tail, 0);
    LeadingDigitsValue("", digits);
    assert "" + digits == digits && DecimalValue("") == 0;
  }

  lemma {:induction false} LeadingDigitsStop(digits: string, tail: string, acc: nat)
    requires AllDigits(digits) && (tail == "" || !IsDigit(tail[0]))
    ensures LeadingDigits(digits + tail, acc) == LeadingDigits(digits, acc)
    decreases |digits|
  {
    if digits == "" {
      assert digits + tail == tail;
    } else {
      assert (digits + tail)[1..] == digits[1..] + tail;
      LeadingDigitsStop(digits[1..], tail, acc * 10 + DigitValue(digits[0]));
    }
  }

  // The strict parser takes nothing but digits after an optional sign.
  lemma OnlyNumbers(s: string)
    requires ParseI32(s).Some?
    ensures s != "" && (s[0] == '-' || s[0] == '+' || '0' <= s[0] <= '9') && forall i :: 0 < i < |s| ==> '0' <= s[i] <= '9'
  {
    var digits := if s[0] == '-' || s[0] == '+' then s[1..] else s;
    assert forall i :: 0 < i < |s| ==> s[i] == if digits == s then digits[i] else digits[i - 1];
  }

  // What a reader sees of text copied into a buffer with its terminator.
  function AsRead(s: string): string { Text(s + [NUL]) }

  lemma AsReadPlain(s: string)
    requires NUL !in s
    ensures AsRead(s) == s
  {
    IndexOfIs(s + [NUL], NUL, |s|);
  }

  // ---- The library calls ----

  // A pointer to constant text is the text it points at. strchr(s, c): an offset from s.
  method StrChr(s: string, c: char) returns (r: Option<nat>)
    requires Terminated(s) && c != NUL
    ensures r == if IndexOf(Text(s), c) < |Text(s)| then Some(IndexOf(Text(s), c)) else None
  {
    ghost var text := Text(s);
    var i := 0;
    while s[i] != NUL && s[i] != c
      invariant i <= |text| && c !in text[..i]
      decreases |s| - i
    {
      i := i + 1;
    }
    if s[i] == c {
      IndexOfIs(text, c, i);
      r := Some(i);
    } else {
      IndexOfIs(text, c, i);
      r := None;
    }
  }

  // strstr(s, pattern)
  method StrStr(s: string, pattern: string) returns (r: Option<nat>)
    requires Terminated(s)
    ensures r == Search(Text(s), pattern)
  {
    var n := 0;
    while s[n] != NUL
      invariant n <= IndexOf(s, NUL)
      decreases |s| - n
    {
      n := n + 1;
    }
    IndexOfIs(s, NUL, n);
    var text := s[..n];
    var i := 0;
    while i + |pattern| <= n
      invariant forall k :: 0 <= k < i ==> !Occurs(text, pattern, k)
    {
      if text[i..i + |pattern|] == pattern {
        SearchIs(text, pattern, i);
        return Some(i);
      }
      i := i + 1;
    }
    r := None;
  }

  // strncpy(dst, src, n): copies at most n characters and fills the rest with NUL.
  method StrNCpy(dst: array<char>, src: string, n: nat)
    requires n <= dst.Length && Terminated(src)
    modifies dst
    ensures dst[..n] == Pad(Take(Text(src), n), n)
    ensures dst[n..] == old(dst[n..])
  {
    ghost var text := Text(src);
    var i := 0;
    while i < n && src[i] != NUL
      invariant i <= n && i <= |text|
      invariant dst[..i] == text[..i] && dst[n..] == old(dst[n..])
    {
      dst[i] := src[i];
      i := i + 1;
    }
    ghost var len := i;
    assert i < n ==> i == |text|;
    while i < n
      invariant len <= i <= n
      invariant dst[..i] == Pad(text[..len], i) && dst[n..] == old(dst[n..])
    {
      dst[i] := NUL;
      i := i + 1;
    }
  }
}
