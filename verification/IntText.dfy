/** The integer printer and parser of include/common/string_oprs.h. The printer fills a character buffer in
    place, the parser walks over one. An integer type is given by its range; arithmetic on it wraps around
    as two's complement does. */
module IntText {
  import opened Wrappers

  const NUL := '\0'

  /** The type with the values from -half to half - 1, or its unsigned companion. */
  datatype IntType = IntType(half: int, signed: bool) {
    ghost predicate Valid() { half > 0 }

    predicate Fits(v: int) { if signed then -half <= v < half else 0 <= v < 2 * half }

    /** static_cast to the type. */
    function Cast(v: int): (r: int)
      requires half > 0
      ensures Fits(r)
    {
      if signed then (v + half) % (2 * half) - half else v % (2 * half)
    }
  }

  // ---------------------------------------------------------------- modular arithmetic

  lemma {:induction false} AtLeast(m: int, k: int)
    requires m > 0 && k >= 1
    ensures m * k >= m
  {
    if k > 1 { AtLeast(m, k - 1); assert m * k == m * (k - 1) + m; }
  }

  lemma SameRemainder(m: int, q: int, r: int, p: int, s: int)
    requires 0 <= r < m && 0 <= s < m && m * q + r == m * p + s
    ensures r == s
  {
    assert m * (p - q) == r - s;
    assert m * (q - p) == s - r;
    if p > q { AtLeast(m, p - q); }
    if p < q { AtLeast(m, q - p); }
  }

  lemma DivisionUnique(v: int, m: int, q: int, r: int)
    requires m > 0 && v == m * q + r && 0 <= r < m
    ensures v % m == r
  {
    var p := v / m;
    SameRemainder(m, q, r, p, v % m);
  }

  lemma ModShift(v: int, m: int, k: int)
    requires m > 0
    ensures (v + m * k) % m == v % m
  {
    DivisionUnique(v + m * k, m, v / m + k, v % m);
  }

  /** A cast may be put off to the end of a computation. */
  lemma CastLate(t: IntType, x: int, base: int, d: int)
    requires t.Valid()
    ensures t.Cast(t.Cast(t.Cast(x) * base) + d) == t.Cast(x * base + d)
  {
    CastTimes(t, x, base);
    CastPlus(t, x * base, d);
  }

  /** A cast takes off a multiple of the size of the type. */
  lemma CastShift(t: IntType, x: int) returns (k: int)
    requires t.Valid()
    ensures t.Cast(x) == x + 2 * t.half * k
  {
    k := -(if t.signed then (x + t.half) / (2 * t.half) else x / (2 * t.half));
  }

  lemma ShiftCast(t: IntType, x: int, k: int)
    requires t.Valid()
    ensures t.Cast(x + 2 * t.half * k) == t.Cast(x)
  {
    ModShift(if t.signed then x + t.half else x, 2 * t.half, k);
  }

  lemma CastTimes(t: IntType, x: int, base: int)
    requires t.Valid()
    ensures t.Cast(t.Cast(x) * base) == t.Cast(x * base)
  {
    var k := CastShift(t, x);
    Distribute(x, 2 * t.half, k, t.Cast(x), base);
    ShiftCast(t, x * base, k * base);
  }

  lemma Distribute(x: int, m: int, k: int, y: int, base: int)
    requires y == x + m * k
    ensures y * base == x * base + m * (k * base)
  {}

  lemma CastPlus(t: IntType, x: int, d: int)
    requires t.Valid()
    ensures t.Cast(t.Cast(x) + d) == t.Cast(x + d)
  {
    var k := CastShift(t, x);
    ShiftCast(t, x + d, k);
  }

  lemma CastFits(t: IntType, v: int)
    requires t.Valid() && t.Fits(v)
    ensures t.Cast(v) == v
  {
    if t.signed { DivisionUnique(v + t.half, 2 * t.half, 0, v + t.half); }
    else { DivisionUnique(v, 2 * t.half, 0, v); }
  }

  // ---------------------------------------------------------------- decimal digits

  function DigitChar(d: int): char
    requires 0 <= d < 10
  {
    '0' + d as char
  }

  /** The decimal digits of a positive number; none for zero. */
  function Digits(n: nat): (s: seq<char>)
    ensures n > 0 ==> s != []
  {
    if n == 0 then [] else Digits(n / 10) + [DigitChar(n % 10)]
  }

  function Decimal(n: nat): seq<char> { if n == 0 then ['0'] else Digits(n) }

  /** The text of an integer. */
  function Text(v: int): seq<char> { if v < 0 then ['-'] + Decimal(-v) else Decimal(v) }

  function Power(k: nat): nat { if k == 0 then 1 else 10 * Power(k - 1) }

  /** A number below ten to the k needs at most k digits, and the other way round. */
  lemma {:induction false} DigitCount(n: nat, k: nat)
    ensures |Digits(n)| <= k <==> n < Power(k)
    ensures Power(k) > 0
  {
    if k > 0 { DigitCount(n / 10, k - 1); } else if n == 0 {} else { assert Digits(n) != []; }
  }

  /** Only digits, the first one not a zero. */
  lemma {:induction false} DigitsShape(n: nat, i: nat)
    requires i < |Digits(n)|
    ensures '0' <= Digits(n)[i] <= '9' && (i == 0 ==> Digits(n)[i] != '0')
  {
    if i < |Digits(n)| - 1 { DigitsShape(n / 10, i); }
    else if i == 0 { assert Digits(n / 10) == []; }
  }

  // ---------------------------------------------------------------- reversing in place

  function Reversed(s: seq<char>): (r: seq<char>)
    ensures |r| == |s| && forall i :: 0 <= i < |s| ==> r[i] == s[|s| - 1 - i]
  {
    seq(|s|, i requires 0 <= i < |s| => s[|s| - 1 - i])
  }

  /** The characters from `begin` to `end`, or to the terminator when no end is given. */
  method Reverse(a: array<char>, begin: nat, end: Option<nat>)
    requires end.Some? ==> end.value <= a.Length
    requires end.None? ==> begin < a.Length && NUL in a[begin..]
    modifies a
    ensures end.None? ==> exists z :: begin <= z < a.Length && old(a[z]) == NUL && NUL !in old(a[begin..z]) &&
                            a[..] == old(a[..begin]) + Reversed(old(a[begin..z])) + old(a[z..])
    ensures end.Some? && begin <= end.value ==>
              a[..] == old(a[..begin]) + Reversed(old(a[begin..end.value])) + old(a[end.value..])
    ensures end.Some? && begin > end.value ==> a[..] == old(a[..])
  {
    var z: nat;
    if end.Some? { z := end.value; } else { z := Terminator(a, begin); }
    if begin >= z {
      if begin == z { assert a[..] == a[..begin] + [] + a[begin..]; }
      return;
    }
    SwapInwards(a, begin, z);
  }

  method Terminator(a: array<char>, begin: nat) returns (z: nat)
    requires begin < a.Length && NUL in a[begin..]
    ensures begin <= z < a.Length && a[z] == NUL && NUL !in a[begin..z]
  {
    z := begin;
    while a[z] != NUL
      invariant begin <= z < a.Length && NUL !in a[begin..z] && NUL in a[z..]
      decreases a.Length - z
    {
      z := z + 1;
    }
  }

  method SwapInwards(a: array<char>, begin: nat, end: nat)
    requires begin < end <= a.Length
    modifies a
    ensures a[..] == old(a[..begin]) + Reversed(old(a[begin..end])) + old(a[end..])
  {
    var lo: int, hi: int := begin, end - 1;
    while lo < hi
      invariant begin <= lo <= hi + 1 <= end && lo - begin == end - 1 - hi
      invariant forall i :: 0 <= i < a.Length && !(begin <= i < lo) && !(hi < i < end) ==> a[i] == old(a[i])
      invariant forall i :: begin <= i < lo ==> a[i] == old(a[begin + end - 1 - i])
      invariant forall i :: hi < i < end ==> a[i] == old(a[begin + end - 1 - i])
    {
      a[lo], a[hi] := a[hi], a[lo];
      lo := lo + 1;
      hi := hi - 1;
    }
    ghost var r := old(a[..begin]) + Reversed(old(a[begin..end])) + old(a[end..]);
    forall i | 0 <= i < a.Length ensures a[i] == r[i] {
      if begin <= i < end { assert r[i] == old(a[begin..end])[end - 1 - i]; }
    }
  }

  // ---------------------------------------------------------------- printing

  /** Print a number at `at` into at most `size` characters: how many were written, or 0 exactly when the
      digits do not fit. */
  method Int2StrUnsigned(a: array<char>, at: nat, size: nat, n: nat) returns (ret: nat)
    requires at + size <= a.Length
    modifies a
    ensures ret == if |Decimal(n)| <= size then |Decimal(n)| else 0
    ensures ret > 0 ==> a[at..at + ret] == Decimal(n)
    ensures forall i :: 0 <= i < a.Length && !(at <= i < at + (if ret > 0 then ret else size)) ==> a[i] == old(a[i])
  {
    if size == 0 { return 0; }
    if n == 0 {
      a[at] := '0';
      return 1;
    }
    var rest;
    ret, rest := WriteBackwards(a, at, size, n);
    if rest > 0 && ret >= size { return 0; }
    Reverse(a, at, Some(at + ret));
    assert a[at..at + ret] == Digits(n);
  }

  /** The digits from the last one on, as long as there is room. */
  method WriteBackwards(a: array<char>, at: nat, size: nat, n: nat) returns (ret: nat, rest: nat)
    requires at + size <= a.Length
    modifies a
    ensures ret <= size && (rest > 0 ==> ret == size)
    ensures Digits(n) == Digits(rest) + Reversed(a[at..at + ret])
    ensures forall i :: 0 <= i < a.Length && !(at <= i < at + ret) ==> a[i] == old(a[i])
  {
    ret, rest := 0, n;
    while ret < size && rest > 0
      invariant ret <= size
      invariant Digits(n) == Digits(rest) + Reversed(a[at..at + ret])
      invariant forall i :: 0 <= i < a.Length && !(at <= i < at + ret) ==> a[i] == old(a[i])
    {
      ghost var before := a[at..at + ret];
      var c := DigitChar(rest % 10);
      a[at + ret] := c;
      ReversedSnoc(before, c);
      assert a[at..at + ret + 1] == before + [c];
      assert (Digits(rest / 10) + [c]) + Reversed(before) == Digits(rest / 10) + ([c] + Reversed(before));
      rest := rest / 10;
      ret := ret + 1;
    }
  }

  lemma ReversedSnoc(s: seq<char>, c: char)
    ensures Reversed(s + [c]) == [c] + Reversed(s)
  {
    var l, r := Reversed(s + [c]), [c] + Reversed(s);
    forall i | 0 <= i < |l| ensures l[i] == r[i] {}
  }

  method Int2StrSigned(t: IntType, a: array<char>, size: nat, v: int) returns (ret: nat)
    requires t.Valid() && t.signed && t.Fits(v) && size <= a.Length
    modifies a
    ensures ret == if |Text(v)| <= size then |Text(v)| else 0
    ensures ret > 0 ==> a[..ret] == Text(v)
    ensures forall i :: (if ret > 0 then ret else size) <= i < a.Length ==> a[i] == old(a[i])
  {
    if size == 0 { return 0; }
    if v < 0 {
      a[0] := '-';
      var unsigned := IntType(t.half, false).Cast(t.Cast(-v));
      NegateCast(t, v);
      ret := Int2StrUnsigned(a, 1, size - 1, unsigned);
      if ret == 0 { return 0; }
      ret := ret + 1;
      assert a[..ret] == ['-'] + a[1..ret];
    } else {
      ret := Int2StrUnsigned(a, 0, size, v);
    }
  }

  /** The magnitude of a negative value, also of the least one, which the negation leaves as it is. */
  lemma NegateCast(t: IntType, v: int)
    requires t.Valid() && t.signed && t.Fits(v) && v < 0
    ensures IntType(t.half, false).Cast(t.Cast(-v)) == -v
  {
    var u := IntType(t.half, false);
    CastFits(u, -v);
    if v == -t.half {
      ShiftCast(t, v, 1);
      ShiftCast(u, v, 1);
      CastFits(t, v);
    } else {
      CastFits(t, -v);
    }
  }

  /** Print an integer and, if there is room, a terminator: the length of its text, or 0 with an empty
      string when the text does not fit. */
  method Int2Str(t: IntType, a: array<char>, size: nat, v: int) returns (ret: nat)
    requires t.Valid() && t.Fits(v) && size <= a.Length
    modifies a
    ensures ret == if |Text(v)| <= size then |Text(v)| else 0
    ensures ret > 0 ==> a[..ret] == Text(v)
    ensures ret < size ==> a[ret] == NUL
    ensures forall i :: size <= i < a.Length ==> a[i] == old(a[i])
  {
    if t.signed {
      ret := Int2StrSigned(t, a, size, v);
    } else {
      ret := Int2StrUnsigned(a, 0, size, v);
    }
    if ret < size { a[ret] := NUL; }
  }

  // ---------------------------------------------------------------- parsing

  function ToLower(c: char): char { if 'A' <= c <= 'Z' then c - 'A' + 'a' else c }

  predicate IsSpace(c: char) { c == ' ' || c == '\t' || c == '\r' || c == '\n' }

  predicate IsMinus(c: char) { c == '-' }

  predicate IsDec(c: char) { '0' <= c <= '9' }

  predicate IsOct(c: char) { '0' <= c < '8' }

  predicate IsHex(c: char) { IsDec(c) || 'a' <= ToLower(c) <= 'f' }

  /** The worth of a digit. */
  function Worth(c: char): int {
    if IsDec(c) then c as int - '0' as int else ToLower(c) as int - 'a' as int + 10
  }

  function Value(base: int, s: seq<char>): int {
    if s == [] then 0 else Value(base, s[..|s| - 1]) * base + Worth(s[|s| - 1])
  }

  /** The first place from `i` on where the class ends. */
  function Scan(s: seq<char>, i: nat, p: char -> bool): (j: nat)
    requires i <= |s|
    ensures i <= j <= |s| && (j < |s| ==> !p(s[j]))
    ensures forall k :: i <= k < j ==> p(s[k])
    decreases |s| - i
  {
    if i < |s| && p(s[i]) then Scan(s, i + 1, p) else i
  }

  /** Where a digit string starts after `at` and in which base it is written. */
  function Radix(s: seq<char>, at: nat): (int, nat)
    requires at <= |s|
    ensures Radix(s, at).1 <= |s|
  {
    if at + 1 < |s| && s[at] == '0' && ToLower(s[at + 1]) == 'x' then (16, at + 2)
    else if at < |s| && s[at] == '\\' then (8, at + 1)
    else (10, at)
  }

  function DigitClass(base: int): char -> bool {
    if base == 16 then IsHex else if base == 8 then IsOct else IsDec
  }

  /** The minus signs and the spaces behind them end here. */
  function PrefixEnd(s: seq<char>): nat
    ensures PrefixEnd(s) <= |s|
  {
    Scan(s, Scan(s, 0, IsMinus), IsSpace)
  }

  /** And the digits behind those here. */
  function DigitsEnd(s: seq<char>, at: nat): nat
    requires at <= |s|
    ensures at <= Radix(s, at).1 <= DigitsEnd(s, at) <= |s|
  {
    Scan(s, Radix(s, at).1, DigitClass(Radix(s, at).0))
  }

  /** What a text stands for, and where the reading of it ends: minus signs, each turning the sign, then
      spaces, then the digits. */
  function Parsed(t: IntType, s: seq<char>): (int, nat)
    requires t.half > 0
  {
    var at := PrefixEnd(s);
    var (base, from) := Radix(s, at);
    var end := DigitsEnd(s, at);
    var value := Value(base, s[from..end]);
    (t.Cast(if Scan(s, 0, IsMinus) % 2 == 1 then -value else value), end)
  }

  /** The part of a buffer the parser may look at: up to the terminator, and up to the size if one is given. */
  function Extent(s: seq<char>, size: nat, i: nat): (n: nat)
    requires i <= |s| && (size == 0 || i <= size)
    ensures i <= n <= |s| && (size == 0 || n <= size) && forall k :: i <= k < n ==> s[k] != NUL
    ensures n < |s| && (size == 0 || n < size) ==> s[n] == NUL
    decreases |s| - i
  {
    if i == |s| || (size != 0 && i == size) || s[i] == NUL then i else Extent(s, size, i + 1)
  }

  function Visible(s: seq<char>, size: nat): seq<char> { s[..Extent(s, size, 0)] }

  /** A loop that ends at `i` looks at the character there only if the size allows, and then it must be in
      the buffer. */
  predicate Within(s: seq<char>, size: nat, i: nat) { (size == 0 || i < size) ==> i < |s| }

  /** The parser looks at no character outside the buffer: it looks, whatever the size, at the one behind
      the signs and spaces, and, if the size allows, at the one behind the digits. */
  predicate Readable(s: seq<char>, size: nat) {
    var text := Visible(s, size);
    PrefixEnd(text) < |s| && Within(s, size, DigitsEnd(text, PrefixEnd(text)))
  }

  /** A terminated buffer is readable with any size, and so is one longer than the size. */
  lemma TerminatedReadable(s: seq<char>, size: nat)
    requires NUL in s || 0 < size < |s|
    ensures Readable(s, size)
  {}

  /** `k` minus signs and then nothing but spaces. */
  predicate SignsThenSpaces(s: seq<char>, k: nat) {
    k <= |s| && (forall i :: 0 <= i < k ==> IsMinus(s[i])) && (forall i :: k <= i < |s| ==> IsSpace(s[i]))
  }

  /** A text that fills its buffer, given its size, is readable unless it consists of minus signs and
      spaces behind them only, as the empty one does. */
  lemma FullReadable(s: seq<char>)
    requires NUL !in s
    ensures Readable(s, |s|) <==> !exists k: nat :: SignsThenSpaces(s, k)
  {
    ExtentIs(s, |s|, 0, |s|);
    assert Visible(s, |s|) == s;
    if PrefixEnd(s) == |s| { assert SignsThenSpaces(s, Scan(s, 0, IsMinus)); }
    if k: nat :| SignsThenSpaces(s, k) {
      ScanIs(s, 0, IsMinus, k);
      ScanAll(s, k, IsSpace);
    }
  }

  /** Within the extent the guards of the parser's loops see exactly the text. */
  lemma InText(s: seq<char>, size: nat, i: nat)
    requires i <= Extent(s, size, 0) && Within(s, size, i)
    ensures var text := Visible(s, size);
            && (i < |text| <==> (size == 0 || i < size) && s[i] != NUL) && (i < |text| ==> i < |s| && text[i] == s[i])
  {
  }

  /** The hexadecimal digits from `from` on. */
  method ReadHex(t: IntType, s: seq<char>, size: nat, from: nat) returns (out: int, cur: nat)
    requires t.Valid() && from <= Extent(s, size, 0)
    requires Within(s, size, Scan(Visible(s, size), from, IsHex))
    ensures var text := Visible(s, size);
            cur == Scan(text, from, IsHex) && out == t.Cast(Value(16, text[from..cur]))
  {
    ghost var text := Visible(s, size);
    out, cur := 0, from;
    CastFits(t, 0);
    while (size == 0 || cur < size) && s[cur] != NUL && IsHex(s[cur])
      invariant from <= cur <= |text| && Scan(text, cur, IsHex) == Scan(text, from, IsHex)
      invariant out == t.Cast(Value(16, text[from..cur]))
      decreases |s| - cur
    {
      InText(s, size, cur);
      OneDigit(t, 16, text, from, cur);
      out := t.Cast(out * 16);
      out := t.Cast(out + Worth(s[cur]));
      cur := cur + 1;
    }
    InText(s, size, cur);
  }

  /** The octal digits from `from` on. */
  method ReadOct(t: IntType, s: seq<char>, size: nat, from: nat) returns (out: int, cur: nat)
    requires t.Valid() && from <= Extent(s, size, 0)
    requires Within(s, size, Scan(Visible(s, size), from, IsOct))
    ensures var text := Visible(s, size);
            cur == Scan(text, from, IsOct) && out == t.Cast(Value(8, text[from..cur]))
  {
    ghost var text := Visible(s, size);
    out, cur := 0, from;
    CastFits(t, 0);
    while (size == 0 || cur < size) && IsOct(s[cur])
      invariant from <= cur <= |text| && Scan(text, cur, IsOct) == Scan(text, from, IsOct)
      invariant out == t.Cast(Value(8, text[from..cur]))
      decreases |s| - cur
    {
      InText(s, size, cur);
      OneDigit(t, 8, text, from, cur);
      out := t.Cast(out * 8);
      out := t.Cast(out + Worth(s[cur]));
      cur := cur + 1;
    }
    InText(s, size, cur);
  }

  /** The decimal digits from `from` on. */
  method ReadDec(t: IntType, s: seq<char>, size: nat, from: nat) returns (out: int, cur: nat)
    requires t.Valid() && from <= Extent(s, size, 0)
    requires Within(s, size, Scan(Visible(s, size), from, IsDec))
    ensures var text := Visible(s, size);
            cur == Scan(text, from, IsDec) && out == t.Cast(Value(10, text[from..cur]))
  {
    ghost var text := Visible(s, size);
    out, cur := 0, from;
    CastFits(t, 0);
    while (size == 0 || cur < size) && IsDec(s[cur])
      invariant from <= cur <= |text| && Scan(text, cur, IsDec) == Scan(text, from, IsDec)
      invariant out == t.Cast(Value(10, text[from..cur]))
      decreases |s| - cur
    {
      InText(s, size, cur);
      OneDigit(t, 10, text, from, cur);
      out := t.Cast(out * 10);
      out := t.Cast(out + Worth(s[cur]));
      cur := cur + 1;
    }
    InText(s, size, cur);
  }

  /** The minus signs, each of which turns the sign. */
  method SkipSigns(s: seq<char>, size: nat) returns (negative: bool, cur: nat)
    requires Within(s, size, Scan(Visible(s, size), 0, IsMinus))
    ensures cur == Scan(Visible(s, size), 0, IsMinus) && negative == (cur % 2 == 1)
  {
    ghost var text := Visible(s, size);
    negative, cur := false, 0;
    while (size == 0 || cur < size) && s[cur] != NUL && s[cur] == '-'
      invariant cur <= |text| && Scan(text, cur, IsMinus) == Scan(text, 0, IsMinus)
      invariant negative == (cur % 2 == 1)
      decreases |s| - cur
    {
      InText(s, size, cur);
      negative := !negative;
      cur := cur + 1;
    }
    InText(s, size, cur);
  }

  method SkipSpaces(s: seq<char>, size: nat, from: nat) returns (cur: nat)
    requires from <= Extent(s, size, 0) && Within(s, size, Scan(Visible(s, size), from, IsSpace))
    ensures cur == Scan(Visible(s, size), from, IsSpace)
  {
    ghost var text := Visible(s, size);
    cur := from;
    while (size == 0 || cur < size) && s[cur] != NUL && IsSpace(s[cur])
      invariant from <= cur <= |text| && Scan(text, cur, IsSpace) == Scan(text, from, IsSpace)
      decreases |s| - cur
    {
      InText(s, size, cur);
      cur := cur + 1;
    }
    InText(s, size, cur);
  }

  /** The digits behind the prefix that tells their base. */
  method ReadDigits(t: IntType, s: seq<char>, size: nat, at: nat) returns (out: int, cur: nat)
    requires t.Valid() && at <= Extent(s, size, 0) && at < |s| && s[at] != NUL
    requires Within(s, size, DigitsEnd(Visible(s, size), at))
    ensures var text := Visible(s, size); var (base, from) := Radix(text, at);
            cur == DigitsEnd(text, at) && out == t.Cast(Value(base, text[from..cur]))
  {
    InText(s, size, at);
    if at < Extent(s, size, 0) && Within(s, size, at + 1) { InText(s, size, at + 1); }
    if (size == 0 || at + 1 < size) && s[at] == '0' && ToLower(s[at + 1]) == 'x' {
      out, cur := ReadHex(t, s, size, at + 2);
    } else if (size == 0 || at < size) && s[at] == '\\' {
      out, cur := ReadOct(t, s, size, at + 1);
    } else {
      out, cur := ReadDec(t, s, size, at);
    }
  }

  /** Parse an integer from a buffer: the value and how far the reading went. `None` is the null pointer. */
  method Str2Int(t: IntType, str: Option<seq<char>>, size: nat) returns (out: int, cur: nat)
    requires t.Valid()
    requires str.Some? ==> Readable(str.value, size)
    ensures str.None? ==> out == 0 && cur == 0
    ensures str.Some? ==> (out, cur) == Parsed(t, Visible(str.value, size))
  {
    hide Scan, Value, Extent, DigitsEnd;
    out, cur := 0, 0;
    if str.None? { return; }
    var s := str.value;
    ghost var text := Visible(s, size);
    InText(s, size, 0);
    if s[0] == NUL {
      NothingToRead(t, text);
      return;
    }
    var negative;
    negative, cur := SkipSigns(s, size);
    cur := SkipSpaces(s, size, cur);
    InText(s, size, cur);
    if s[cur] == NUL {
      NothingToRead(t, text);
      return;
    }
    ghost var (base, from) := Radix(text, cur);
    out, cur := ReadDigits(t, s, size, cur);
    if negative {
      CastTimes(t, Value(base, text[from..cur]), -1);
      out := t.Cast(-out);
    }
  }

  /** A text that ends before any digits stands for zero. */
  lemma NothingToRead(t: IntType, s: seq<char>)
    requires t.Valid() && PrefixEnd(s) == |s|
    ensures Parsed(t, s) == (0, |s|)
  {
    CastFits(t, 0);
  }

  /** One turn of a digit loop, with a cast after the shift and one after the addition. */
  lemma OneDigit(t: IntType, base: int, s: seq<char>, from: nat, cur: nat)
    requires t.Valid() && from <= cur < |s|
    ensures var out := t.Cast(Value(base, s[from..cur]));
            t.Cast(t.Cast(out * base) + Worth(s[cur])) == t.Cast(Value(base, s[from..cur + 1]))
  {
    assert s[from..cur + 1][..cur - from] == s[from..cur];
    CastLate(t, Value(base, s[from..cur]), base, Worth(s[cur]));
  }

  // ---------------------------------------------------------------- the round trip

  lemma {:induction false} DigitsValue(n: nat)
    ensures Value(10, Digits(n)) == n
  {
    if n > 0 {
      DigitsValue(n / 10);
      assert Digits(n)[..|Digits(n)| - 1] == Digits(n / 10);
    }
  }

  lemma {:induction false} ScanIs(s: seq<char>, i: nat, p: char -> bool, j: nat)
    requires i <= j <= |s| && (forall k :: i <= k < j ==> p(s[k])) && (j < |s| ==> !p(s[j]))
    ensures Scan(s, i, p) == j
    decreases j - i
  {
    if i < j { ScanIs(s, i + 1, p, j); }
  }

  lemma {:induction false} ScanAll(s: seq<char>, i: nat, p: char -> bool)
    requires i <= |s| && forall k :: i <= k < |s| ==> p(s[k])
    ensures Scan(s, i, p) == |s|
    decreases |s| - i
  {
    if i < |s| { ScanAll(s, i + 1, p); }
  }

  /** Reading the text of a value gives the value, and the reading ends at the end of the text. */
  lemma RoundTrip(t: IntType, v: int)
    requires t.Valid() && t.Fits(v)
    ensures Parsed(t, Text(v)) == (v, |Text(v)|)
  {
    var s, n, at := Text(v), if v < 0 then -v else v, if v < 0 then 1 else 0;
    forall k | at <= k < |s| ensures IsDec(s[k]) && (k == at && n > 0 ==> s[k] != '0') {
      assert s[k] == Decimal(n)[k - at];
      if n > 0 { DigitsShape(n, k - at); }
    }
    assert s[at..] == Decimal(n);
    assert Scan(s, 0, IsMinus) == at;
    assert Scan(s, at, IsSpace) == at;
    assert Radix(s, at) == (10, at);
    ScanAll(s, at, IsDec);
    assert Scan(s, at, DigitClass(10)) == |s| && s[at..|s|] == Decimal(n);
    DigitsValue(n);
    assert Value(10, Decimal(n)) == n;
    CastFits(t, v);
  }

  /** So a printed buffer is read back: with a terminator and no size or any greater one, or with the length
      of the text as size, even if the text fills the buffer. */
  lemma PrintedIsRead(t: IntType, v: int, buffer: seq<char>, size: nat)
    requires t.Valid() && t.Fits(v)
    requires |Text(v)| <= |buffer| && buffer[..|Text(v)|] == Text(v)
    requires size == |Text(v)| || (|Text(v)| < |buffer| && buffer[|Text(v)|] == NUL && (size == 0 || size > |Text(v)|))
    ensures Readable(buffer, size) && Parsed(t, Visible(buffer, size)) == (v, |Text(v)|)
  {
    NoTerminator(v);
    assert buffer[0..|Text(v)|] == Text(v);
    ExtentIs(buffer, size, 0, |Text(v)|);
    assert Visible(buffer, size) == Text(v);
    RoundTrip(t, v);
    TextPrefix(v);
  }

  /** An empty view in front of a printed buffer is not read as empty: its size 0 stands for no size. */
  lemma EmptyViewReadsOn(t: IntType, v: int, behind: seq<char>)
    requires t.Valid() && t.Fits(v)
    ensures var view := ""; var buffer := view + Text(v) + [NUL] + behind;
            Readable(buffer, |view|) && Parsed(t, Visible(buffer, |view|)) == (v, |Text(v)|)
  {
    var buffer := "" + Text(v) + [NUL] + behind;
    assert buffer[..|Text(v)|] == Text(v);
    PrintedIsRead(t, v, buffer, 0);
  }

  /** The text of a value is more than signs and spaces. */
  lemma TextPrefix(v: int)
    ensures PrefixEnd(Text(v)) < |Text(v)|
  {
    var n, at := if v < 0 then -v else v, if v < 0 then 1 else 0;
    assert Text(v)[at] == Decimal(n)[0];
    if n > 0 { DigitsShape(n, 0); }
    assert Scan(Text(v), 0, IsMinus) == at;
  }

  lemma {:induction false} ExtentIs(s: seq<char>, size: nat, i: nat, n: nat)
    requires i <= n <= |s| && (size == 0 || n <= size) && forall k :: i <= k < n ==> s[k] != NUL
    requires n < |s| && (size == 0 || n < size) ==> s[n] == NUL
    ensures Extent(s, size, i) == n
    decreases n - i
  {
    if i < n { ExtentIs(s, size, i + 1, n); }
  }

  lemma NoTerminator(v: int)
    ensures NUL !in Text(v)
  {
    var n, at := if v < 0 then -v else v, if v < 0 then 1 else 0;
    forall k | 0 <= k < |Text(v)| ensures Text(v)[k] != NUL {
      if at <= k {
        assert Text(v)[k] == Decimal(n)[k - at];
        if n > 0 { DigitsShape(n, k - at); }
      }
    }
  }

  /** Different values have different texts. */
  lemma TextInjective(v: int, w: int)
    requires Text(v) == Text(w)
    ensures v == w
  {
    var bound := (if v < 0 then -v else v) + (if w < 0 then -w else w) + 1;
    RoundTrip(IntType(bound, true), v);
    RoundTrip(IntType(bound, true), w);
  }

  /** Reading the digits of a number never passes the number: no prefix is worth more than the whole, so
      for a value other than the least of a signed type nothing wraps on the way. */
  lemma {:induction false} PrefixBelow(n: nat, k: nat)
    requires k <= |Digits(n)|
    ensures 0 <= Value(10, Digits(n)[..k]) <= n
  {
    if k == |Digits(n)| {
      DigitsValue(n);
      assert Digits(n)[..k] == Digits(n);
    } else {
      assert Digits(n)[..k] == Digits(n / 10)[..k];
      PrefixBelow(n / 10, k);
    }
  }

  // ---------------------------------------------------------------- every text the parser takes

  /** A hexadecimal digit, as a capital letter or a small one. */
  function HexChar(d: nat, capital: bool): char
    requires d < 16
  {
    if d < 10 then '0' + d as char else if capital then 'A' + (d - 10) as char else 'a' + (d - 10) as char
  }

  /** The number with these digits. */
  function Numeral(base: int, ds: seq<nat>): int {
    if ds == [] then 0 else Numeral(base, ds[..|ds| - 1]) * base + ds[|ds| - 1]
  }

  ghost predicate Below(base: nat, ds: seq<nat>) { forall i :: 0 <= i < |ds| ==> ds[i] < base }

  /** Digits written out, each letter in either case. */
  function Spelled(ds: seq<nat>, capital: nat -> bool): (s: seq<char>)
    requires Below(16, ds)
    ensures |s| == |ds| && forall i :: 0 <= i < |ds| ==> s[i] == HexChar(ds[i], capital(i))
  {
    seq(|ds|, i requires 0 <= i < |ds| => HexChar(ds[i], capital(i)))
  }

  /** What announces the base: 0x or 0X for hexadecimal digits, a backslash for octal ones. */
  function Announced(base: nat, x: char): seq<char> {
    if base == 16 then ['0', x] else if base == 8 then ['\\'] else []
  }

  /** What follows does not go on with digits of the base. */
  predicate Stops(base: nat, tail: seq<char>) {
    tail == [] ||
    var c := tail[0];
    if base == 16 then !('0' <= c <= '9') && !('a' <= c <= 'f') && !('A' <= c <= 'F')
    else if base == 8 then !('0' <= c <= '7')
    else !('0' <= c <= '9')
  }

  lemma HexCharClass(base: nat, d: nat, capital: bool)
    requires base in {8, 10, 16} && d < base
    ensures var c := HexChar(d, capital);
            && DigitClass(base)(c) && Worth(c) == d && !IsMinus(c) && !IsSpace(c) && c != '\\' && ToLower(c) != 'x'
  {}

  lemma StopsClass(base: nat, tail: seq<char>)
    requires base in {8, 10, 16} && Stops(base, tail) && tail != []
    ensures !DigitClass(base)(tail[0])
  {}

  lemma SpelledFront(ds: seq<nat>, capital: nat -> bool)
    requires Below(16, ds) && ds != []
    ensures Below(16, ds[..|ds| - 1])
    ensures Spelled(ds, capital)[..|ds| - 1] == Spelled(ds[..|ds| - 1], capital)
  {}

  lemma {:induction false} SpelledValue(base: nat, ds: seq<nat>, capital: nat -> bool)
    requires base in {8, 10, 16} && Below(base, ds)
    ensures Value(base, Spelled(ds, capital)) == Numeral(base, ds)
  {
    if ds != [] {
      var n := |ds| - 1;
      SpelledValue(base, ds[..n], capital);
      HexCharClass(base, ds[n], capital(n));
      SpelledFront(ds, capital);
    }
  }

  /** Where the pieces of a text stand. */
  lemma Pieces(front: seq<char>, mark: seq<char>, digits: seq<char>, tail: seq<char>, s: seq<char>)
    requires s == front + mark + digits + tail
    ensures var at := |front| + |mark|; var end := at + |digits|;
            && |s| == end + |tail| && s[at..end] == digits
            && s[|front|..at] == mark && s[end..] == tail
  {}

  /** Digits behind their announcement are read to their end. */
  lemma DigitsRead(base: nat, x: char, ds: seq<nat>, capital: nat -> bool, front: seq<char>, tail: seq<char>,
                   s: seq<char>)
    requires base in {8, 10, 16} && Below(base, ds) && x in {'x', 'X'} && Stops(base, tail)
    requires base == 10 ==> ds != [] && !(ds == [0] && tail != [] && tail[0] in {'x', 'X'})
    requires s == front + Announced(base, x) + Spelled(ds, capital) + tail
    ensures var at := |front| + |Announced(base, x)|;
            && |s| == at + |ds| + |tail| && Radix(s, |front|) == (base, at) && DigitsEnd(s, |front|) == at + |ds|
            && s[at..at + |ds|] == Spelled(ds, capital)
  {
    hide Announced, Spelled, Stops, DigitClass, Scan, Radix, HexChar;
    var at := |front| + |Announced(base, x)|;
    Pieces(front, Announced(base, x), Spelled(ds, capital), tail, s);
    BaseRead(base, x, ds, capital, tail, s, |front|, at);
    DigitsScan(base, ds, capital, tail, s, at);
  }

  lemma BaseRead(base: nat, x: char, ds: seq<nat>, capital: nat -> bool, tail: seq<char>, s: seq<char>, n: nat, at: nat)
    requires base in {8, 10, 16} && Below(base, ds) && x in {'x', 'X'} && at == n + |Announced(base, x)|
    requires base == 10 ==> ds != [] && !(ds == [0] && tail != [] && tail[0] in {'x', 'X'})
    requires |s| == at + |ds| + |tail| && s[n..at] == Announced(base, x)
    requires s[at..at + |ds|] == Spelled(ds, capital) && s[at + |ds|..] == tail
    ensures Radix(s, n) == (base, at)
  {
    if base == 16 {
      assert s[n..at][0] == '0' && s[n..at][1] == x;
    } else if base == 8 {
      assert s[n..at][0] == '\\';
    } else {
      HexCharClass(10, ds[0], capital(0));
      assert s[n] == s[at..at + |ds|][0] == HexChar(ds[0], capital(0));
      if |ds| > 1 {
        HexCharClass(10, ds[1], capital(1));
        assert s[n + 1] == s[at..at + |ds|][1] == HexChar(ds[1], capital(1));
      } else if tail != [] {
        assert s[n + 1] == s[at + |ds|..][0];
      }
    }
  }

  lemma DigitsScan(base: nat, ds: seq<nat>, capital: nat -> bool, tail: seq<char>, s: seq<char>, at: nat)
    requires base in {8, 10, 16} && Below(base, ds) && Stops(base, tail) && |s| == at + |ds| + |tail|
    requires s[at..at + |ds|] == Spelled(ds, capital) && s[at + |ds|..] == tail
    ensures Scan(s, at, DigitClass(base)) == at + |ds|
  {
    hide DigitClass, Stops;
    forall i | at <= i < at + |ds| ensures DigitClass(base)(s[i]) {
      assert s[i] == s[at..at + |ds|][i - at];
      HexCharClass(base, ds[i - at], capital(i - at));
    }
    if tail != [] {
      assert s[at + |ds|] == s[at + |ds|..][0];
      StopsClass(base, tail);
    }
    ScanIs(s, at, DigitClass(base), at + |ds|);
  }

  function Minuses(n: nat): (s: seq<char>)
    ensures |s| == n && forall i :: 0 <= i < n ==> s[i] == '-'
  {
    seq(n, _ => '-')
  }

  /** Minus signs and then spaces are read to their end. */
  lemma FrontRead(minus: nat, spaces: seq<char>, rest: seq<char>)
    requires forall i :: 0 <= i < |spaces| ==> spaces[i] in {' ', '\t', '\r', '\n'}
    requires rest != [] && rest[0] != '-' && !IsSpace(rest[0])
    ensures var s := Minuses(minus) + spaces + rest;
            Scan(s, 0, IsMinus) == minus && PrefixEnd(s) == minus + |spaces|
  {
    var s, n := Minuses(minus) + spaces + rest, minus + |spaces|;
    assert forall i :: 0 <= i < minus ==> s[i] == '-';
    forall i | minus <= i < n ensures IsSpace(s[i]) && s[i] != '-' { assert s[i] == spaces[i - minus]; }
    assert s[n] == rest[0];
    ScanIs(s, 0, IsMinus, minus);
    ScanIs(s, minus, IsSpace, n);
  }

  /** Where the parts of such a text end. */
  lemma TextParts(minus: nat, spaces: seq<char>, base: nat, x: char, ds: seq<nat>, capital: nat -> bool,
                  tail: seq<char>, s: seq<char>)
    requires base in {8, 10, 16} && Below(base, ds) && x in {'x', 'X'} && Stops(base, tail)
    requires forall i :: 0 <= i < |spaces| ==> spaces[i] in {' ', '\t', '\r', '\n'}
    requires base == 10 ==> ds != [] && !(ds == [0] && tail != [] && tail[0] in {'x', 'X'})
    requires s == Minuses(minus) + spaces + Announced(base, x) + Spelled(ds, capital) + tail
    ensures var n := minus + |spaces|; var at := n + |Announced(base, x)|;
            && Scan(s, 0, IsMinus) == minus && PrefixEnd(s) == n <= |s| && Radix(s, n) == (base, at)
            && DigitsEnd(s, n) == at + |ds| && Value(base, s[at..at + |ds|]) == Numeral(base, ds)
  {
    hide Scan, Radix, DigitsEnd, DigitClass, PrefixEnd, Stops, Announced, Minuses, Spelled, HexChar, Value, Numeral;
    SpelledValue(base, ds, capital);
    var front, digits := Minuses(minus) + spaces, Spelled(ds, capital);
    RestStarts(base, x, ds, capital, tail);
    DigitsRead(base, x, ds, capital, front, tail, s);
    FrontRead(minus, spaces, Announced(base, x) + digits + tail);
    Regroup(front, Announced(base, x), digits, tail);
  }

  /** Every text of minus signs, then spaces, then decimal digits, or hexadecimal or octal ones announced as such,
      stands for the number the digits spell, negated once for each minus sign and wrapped around to the type; the
      reading ends behind the digits. */
  lemma EveryText(t: IntType, minus: nat, spaces: seq<char>, base: nat, x: char, ds: seq<nat>, capital: nat -> bool,
                  tail: seq<char>, s: seq<char>)
    requires t.Valid() && base in {8, 10, 16} && Below(base, ds) && x in {'x', 'X'} && Stops(base, tail)
    requires forall i :: 0 <= i < |spaces| ==> spaces[i] in {' ', '\t', '\r', '\n'}
    requires base == 10 ==> ds != [] && !(ds == [0] && tail != [] && tail[0] in {'x', 'X'})
    requires s == Minuses(minus) + spaces + Announced(base, x) + Spelled(ds, capital) + tail
    ensures Parsed(t, s)
         == (t.Cast(if minus % 2 == 1 then -Numeral(base, ds) else Numeral(base, ds)),
             minus + |spaces| + |Announced(base, x)| + |ds|)
  {
    hide *;
    var at := minus + |spaces| + |Announced(base, x)|;
    TextParts(minus, spaces, base, x, ds, capital, tail, s);
    ParsedIs(t, s, minus, minus + |spaces|, base, at, at + |ds|);
  }

  lemma RestStarts(base: nat, x: char, ds: seq<nat>, capital: nat -> bool, tail: seq<char>)
    requires base in {8, 10, 16} && Below(base, ds) && (base == 10 ==> ds != [])
    ensures var rest := Announced(base, x) + Spelled(ds, capital) + tail;
            rest != [] && rest[0] != '-' && !IsSpace(rest[0])
  {
    if base == 10 { HexCharClass(base, ds[0], capital(0)); }
  }

  lemma ParsedIs(t: IntType, s: seq<char>, minus: nat, at: nat, base: int, from: nat, end: nat)
    requires t.Valid() && Scan(s, 0, IsMinus) == minus && PrefixEnd(s) == at && at <= |s|
    requires Radix(s, at) == (base, from) && DigitsEnd(s, at) == end
    ensures from <= end <= |s|
    ensures Parsed(t, s)
         == (t.Cast(if minus % 2 == 1 then -Value(base, s[from..end]) else Value(base, s[from..end])), end)
  {}

  lemma Regroup(a: seq<char>, b: seq<char>, c: seq<char>, d: seq<char>)
    ensures a + (b + c + d) == a + b + c + d
  {}
}
