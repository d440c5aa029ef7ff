/** The characters, numbers and comparisons the parsers take from the C library, in the C locale. A
    character above 127 is negative as a C char: it is in none of the classes. */
module Ascii {
  import opened Wrappers

  predicate IsDigit(c: char) {
    '0' <= c <= '9'
  }

  predicate IsAlpha(c: char) {
    'a' <= c <= 'z' || 'A' <= c <= 'Z'
  }

  predicate IsAlnum(c: char) {
    IsDigit(c) || IsAlpha(c)
  }

  predicate IsChar(c: char) {
    c as int <= 127
  }

  predicate IsControl(c: char) {
    c as int <= 31 || c as int == 127
  }

  predicate IsSpecial(c: char) {
    c in "()<>@,;:\\\"/[]?={} \t"
  }

  /** A character of a method or of a header name. */
  predicate IsToken(c: char) {
    IsChar(c) && !IsControl(c) && !IsSpecial(c)
  }

  predicate IsBlank(c: char) {
    c == ' ' || c == '\t'
  }

  predicate IsSpace(c: char) {
    c == ' ' || 9 <= c as int <= 13
  }

  function ToLower(c: char): char {
    if 'A' <= c <= 'Z' then c - 'A' + 'a' else c
  }

  /** strcasecmp(s, t) == 0. */
  predicate EqualNoCase(s: string, t: string) {
    |s| == |t| && forall i :: 0 <= i < |s| ==> ToLower(s[i]) == ToLower(t[i])
  }

  /** The order of std::string. */
  predicate Less(s: string, t: string) {
    if t == "" then false
    else if s == "" then true
    else s[0] < t[0] || (s[0] == t[0] && Less(s[1..], t[1..]))
  }

  lemma {:induction false} LessTotal(s: string, t: string)
    ensures Less(s, t) || s == t || Less(t, s)
  {
    if s != "" && t != "" {
      LessTotal(s[1..], t[1..]);
      assert s == [s[0]] + s[1..] && t == [t[0]] + t[1..];
    }
  }

  lemma {:induction false} LessIsStrict(s: string, t: string)
    requires Less(s, t)
    ensures !Less(t, s) && s != t
  {
    if s != "" && s[0] == t[0] {
      LessIsStrict(s[1..], t[1..]);
    }
  }

  lemma {:induction false} LessTransitive(s: string, t: string, u: string)
    requires Less(s, t) && Less(t, u)
    ensures Less(s, u)
  {
    if s != "" && s[0] == t[0] == u[0] {
      LessTransitive(s[1..], t[1..], u[1..]);
    }
  }

  // ----- numbers -----

  newtype Base = b: int | b == 10 || b == 16 witness 10

  predicate IsDigitOf(b: Base, c: char) {
    IsDigit(c) || (b == 16 && ('a' <= c <= 'f' || 'A' <= c <= 'F'))
  }

  function DigitValue(c: char): nat
    requires IsDigitOf(16, c)
  {
    if IsDigit(c) then c as int - '0' as int
    else if c <= 'F' then c as int - 'A' as int + 10
    else c as int - 'a' as int + 10
  }

  function Shifted(b: Base, n: nat): nat {
    if b == 10 then n * 10 else n * 16
  }

  /** The number in the longest prefix of digits, continuing from `acc`. */
  function Number(b: Base, s: string, acc: nat): nat {
    if s == "" || !IsDigitOf(b, s[0]) then acc
    else Number(b, s[1..], Shifted(b, acc) + DigitValue(s[0]))
  }

  function SkipSpace(s: string): string {
    if s != "" && IsSpace(s[0]) then SkipSpace(s[1..]) else s
  }

  /** atoi, without overflow. */
  function Atoi(s: string): int {
    var t := SkipSpace(s);
    if t != "" && t[0] == '-' then (var n: int := Number(10, t[1..], 0); -n)
    else if t != "" && t[0] == '+' then Number(10, t[1..], 0)
    else Number(10, t, 0)
  }

  /** std::stoi, without overflow; None stands for its exception. */
  function Stoi(s: string): Option<int> {
    var t := SkipSpace(s);
    var u := if t != "" && (t[0] == '-' || t[0] == '+') then t[1..] else t;
    if u != "" && IsDigit(u[0]) then Some(Atoi(s)) else None
  }

  /** strtol(s, NULL, 16), without overflow, for text that starts with neither a space nor a sign. */
  function Strtol16(s: string): nat {
    if |s| > 2 && s[0] == '0' && (s[1] == 'x' || s[1] == 'X') && IsDigitOf(16, s[2]) then Number(16, s[2..], 0)
    else Number(16, s, 0)
  }

  const SIZE_MODULUS: nat := 0x1_0000_0000_0000_0000

  /** Conversion of an int to size_t. */
  function ToSize(n: int): (r: nat)
    ensures 0 <= n < SIZE_MODULUS ==> r == n
  {
    n % SIZE_MODULUS
  }

  /** Decrementing a size_t. */
  function Decremented(n: nat): nat {
    if n == 0 then SIZE_MODULUS - 1 else n - 1
  }

  // ----- the text of a number -----

  predicate AllDigits(b: Base, s: string) {
    forall i :: 0 <= i < |s| ==> IsDigitOf(b, s[i])
  }

  function DigitChar(n: nat): (c: char)
    requires n < 16
    ensures IsDigitOf(16, c) && DigitValue(c) == n && (n < 10 ==> IsDigit(c))
  {
    if n < 10 then '0' + n as char else 'a' + (n - 10) as char
  }

  /** The number as an output stream prints it. */
  function Text(b: Base, n: nat): (s: string)
    ensures s != "" && AllDigits(b, s)
    decreases n
  {
    if n < b as int then [DigitChar(n)] else Text(b, n / b as int) + [DigitChar(n % b as int)]
  }

  lemma {:induction false} NumberOfMore(b: Base, s: string, c: char, acc: nat)
    requires AllDigits(b, s) && IsDigitOf(b, c)
    ensures Number(b, s + [c], acc) == Shifted(b, Number(b, s, acc)) + DigitValue(c)
    decreases |s|
  {
    if s == "" {
      assert (s + [c])[1..] == "";
    } else {
      assert (s + [c])[1..] == s[1..] + [c];
      NumberOfMore(b, s[1..], c, Shifted(b, acc) + DigitValue(s[0]));
    }
  }

  lemma {:induction false} NumberOfText(b: Base, n: nat)
    ensures Number(b, Text(b, n), 0) == n
    decreases n
  {
    if n < b as int {
      assert Text(b, n)[1..] == "";
    } else {
      NumberOfText(b, n / b as int);
      NumberOfMore(b, Text(b, n / b as int), DigitChar(n % b as int), 0);
    }
  }

  lemma NumberOfOne(c: char, acc: nat)
    ensures Number(10, [c], acc) == if IsDigit(c) then acc * 10 + DigitValue(c) else acc
  {
    assert [c][1..] == "";
  }

  lemma NumberOfTwo(b: char, c: char, acc: nat)
    ensures Number(10, [b, c], acc)
            == if IsDigit(b) then Number(10, [c], acc * 10 + DigitValue(b)) else acc
  {
    assert [b, c][1..] == [c];
  }

  /** Of three characters, only "200" is read as 200: a space or a sign leaves too few digits. */
  lemma StoiIsOk(a: char, b: char, c: char)
    ensures Stoi([a, b, c]) == Some(200) <==> a == '2' && b == '0' && c == '0'
  {
    var s := [a, b, c];
    assert s[1..] == [b, c] && [b, c][1..] == [c] && [c][1..] == "";
    NumberOfTwo(b, c, 0);
    NumberOfOne(c, 0);
    assert Number(10, "", 0) == 0;
    if IsDigit(b) {
      NumberOfOne(c, DigitValue(b));
    }
    if IsDigit(a) {
      var n := DigitValue(a);
      assert Number(10, s, 0) == Number(10, [b, c], n);
      NumberOfTwo(b, c, n);
      if IsDigit(b) {
        NumberOfOne(c, n * 10 + DigitValue(b));
      }
    }
    hide Number;
    StoiAfterSpace(a, b, c);
  }

  /** Leading spaces and a sign use up characters. */
  lemma StoiAfterSpace(a: char, b: char, c: char)
    ensures !IsDigit(a) && Stoi([a, b, c]).Some? ==> Stoi([a, b, c]).value < 100
  {
    var s := [a, b, c];
    assert s[1..] == [b, c] && [b, c][1..] == [c] && [c][1..] == "";
    NumberOfTwo(b, c, 0);
    NumberOfOne(c, 0);
    assert Number(10, "", 0) == 0;
    if IsDigit(b) {
      NumberOfOne(c, DigitValue(b));
    }
    assert SkipSpace("") == "" && SkipSpace([c]) == if IsSpace(c) then "" else [c];
    assert SkipSpace([b, c]) == if IsSpace(b) then SkipSpace([c]) else [b, c];
    assert SkipSpace(s) == if IsSpace(a) then SkipSpace([b, c]) else s;
    hide Number, SkipSpace;
  }

  /** atoi and strtol read back what a stream printed. */
  lemma ReadBack(n: nat)
    ensures Atoi(Text(10, n)) == n && Strtol16(Text(16, n)) == n
  {
    NumberOfText(10, n);
    NumberOfText(16, n);
    assert IsDigitOf(10, Text(10, n)[0]);
    assert |Text(16, n)| > 1 ==> IsDigitOf(16, Text(16, n)[1]);
  }

  // ----- the classes, character by character -----

  const UPPER := "ABCDEFGHIJKLMNOPQRSTUVWXYZ"
  const LOWER := "abcdefghijklmnopqrstuvwxyz"
  const DIGITS := "0123456789"

  lemma UpperAt(c: char)
    ensures c in UPPER <==> 'A' <= c <= 'Z'
  {
    if 'A' <= c <= 'Z' {
      assert UPPER[c as int - 'A' as int] == c;
    }
  }

  lemma LowerAt(c: char)
    ensures c in LOWER <==> 'a' <= c <= 'z'
  {
    if 'a' <= c <= 'z' {
      assert LOWER[c as int - 'a' as int] == c;
    }
  }

  lemma DigitAt(c: char)
    ensures c in DIGITS <==> '0' <= c <= '9'
  {
    if '0' <= c <= '9' {
      assert DIGITS[c as int - '0' as int] == c;
    }
  }

  /** Letters and digits. */
  lemma AlnumAlphabet(c: char)
    ensures IsAlnum(c) <==> c in "ABCDEFGHIJKLMNOPQRSTUVWXYZ" || c in "abcdefghijklmnopqrstuvwxyz" || c in "0123456789"
    ensures IsDigit(c) <==> c in "0123456789"
    ensures IsAlpha(c) <==> c in "ABCDEFGHIJKLMNOPQRSTUVWXYZ" || c in "abcdefghijklmnopqrstuvwxyz"
    ensures IsDigitOf(16, c) <==> c in "0123456789" || c in "abcdef" || c in "ABCDEF"
  {
    UpperAt(c);
    LowerAt(c);
    DigitAt(c);
  }

  /** The characters of a token (section 5.6.2 of RFC 9110). */
  lemma TokenAlphabet(c: char)
    ensures IsToken(c) <==> IsAlnum(c) || c in "!#$%&'*+-.^_`|~"
  {
  }

  /** Blanks, the other spaces, and the control characters. */
  lemma SpaceAlphabet(c: char)
    ensures IsBlank(c) <==> c in " \t"
    ensures IsSpace(c) <==> c in " \t\n\r" || c as int == 11 || c as int == 12
    ensures IsControl(c) <==> c as int < 128 && !(' ' <= c <= '~')
  {
  }

  /** Upper case is what has a lower case. */
  lemma LowerCase(c: char, n: nat)
    requires n < 26
    ensures ToLower("ABCDEFGHIJKLMNOPQRSTUVWXYZ"[n]) == "abcdefghijklmnopqrstuvwxyz"[n]
    ensures c !in "ABCDEFGHIJKLMNOPQRSTUVWXYZ" ==> ToLower(c) == c
  {
    UpperAt(c);
  }

  /** strcasecmp finds no difference between an upper-case letter and its lower case, and every other one. */
  lemma NoCaseIff(s: string, t: string)
    ensures EqualNoCase(s, t) <==> |s| == |t| && forall i :: 0 <= i < |s| ==> SameLetter(s[i], t[i])
  {
    if |s| == |t| {
      forall i | 0 <= i < |s|
        ensures ToLower(s[i]) == ToLower(t[i]) <==> SameLetter(s[i], t[i])
      {
        SameLetterIff(s[i], t[i]);
      }
    }
  }

  predicate SameLetter(c: char, d: char) {
    || c == d
    || ('A' <= c <= 'Z' && d as int == c as int + 32) || ('A' <= d <= 'Z' && c as int == d as int + 32)
  }

  lemma SameLetterIff(c: char, d: char)
    ensures ToLower(c) == ToLower(d) <==> SameLetter(c, d)
  {
  }

  /** The order is decided by the first difference; what goes on is greater than what ends. */
  lemma {:induction false} LessDecided(p: string, c: char, x: string, d: char, y: string)
    requires c < d
    ensures Less(p + [c] + x, p + [d] + y) && Less(p, p + [c] + x)
    decreases |p|
  {
    var s, t := p + [c] + x, p + [d] + y;
    if p != "" {
      LessDecided(p[1..], c, x, d, y);
      assert s[1..] == p[1..] + [c] + x && t[1..] == p[1..] + [d] + y;
    }
  }

  lemma DigitValues(n: nat)
    requires n < 16
    ensures IsDigitOf(16, "0123456789abcdef"[n]) && DigitValue("0123456789abcdef"[n]) == n
    ensures IsDigitOf(16, "0123456789ABCDEF"[n]) && DigitValue("0123456789ABCDEF"[n]) == n
  {
  }

  // ----- signs and prefixes -----

  lemma {:induction false} SkipSpaces(spaces: string, s: string)
    requires (forall i :: 0 <= i < |spaces| ==> IsSpace(spaces[i])) && s != "" && !IsSpace(s[0])
    ensures SkipSpace(spaces + s) == s
    decreases |spaces|
  {
    if spaces == "" {
      assert spaces + s == s;
    } else {
      assert (spaces + s)[1..] == spaces[1..] + s;
      SkipSpaces(spaces[1..], s);
    }
  }

  /** atoi reads a number after spaces and a sign. */
  lemma SignedRead(spaces: string, n: nat)
    requires forall i :: 0 <= i < |spaces| ==> IsSpace(spaces[i])
    ensures Atoi(spaces + Text(10, n)) == n && Atoi(spaces + ("+" + Text(10, n))) == n
    ensures Atoi(spaces + ("-" + Text(10, n))) == -(n as int)
  {
    var s := Text(10, n);
    NumberOfText(10, n);
    assert IsDigitOf(10, s[0]);
    assert ("+" + s)[1..] == s && ("-" + s)[1..] == s;
    SkipSpaces(spaces, s);
    SkipSpaces(spaces, "+" + s);
    SkipSpaces(spaces, "-" + s);
  }

  /** Reading stops at the first character that is no digit. */
  lemma {:induction false} StopsAt(b: Base, s: string, c: char, rest: string, acc: nat)
    requires AllDigits(b, s) && !IsDigitOf(b, c)
    ensures Number(b, s + [c] + rest, acc) == Number(b, s, acc)
    decreases |s|
  {
    var t := s + [c] + rest;
    if s != "" {
      assert t[1..] == s[1..] + [c] + rest;
      StopsAt(b, s[1..], c, rest, Shifted(b, acc) + DigitValue(s[0]));
    }
  }

  /** Numbers are written from the left, with small letters. */
  lemma Spelling()
    ensures Text(10, 1024) == "1024" && Text(16, 0xab) == "ab" && Number(16, "AB", 0) == 0xab
  {
    assert Text(10, 1) == "1" && Text(10, 10) == "10" && Text(10, 102) == "102" && Text(16, 0xa) == "a";
    assert "AB"[1..] == "B" && "B"[1..] == "" && Number(16, "B", 10) == 0xab;
  }

  /** strtol takes a prefix for what it is. */
  lemma PrefixRead(n: nat)
    ensures Strtol16("0x" + Text(16, n)) == n && Strtol16("0X" + Text(16, n)) == n
  {
    var s := Text(16, n);
    NumberOfText(16, n);
    assert IsDigitOf(16, s[0]);
    assert ("0x" + s)[2..] == s && ("0X" + s)[2..] == s;
  }

  /** A size below zero is the largest size. */
  lemma SizesWrap()
    ensures ToSize(-1) == 18446744073709551615 && Decremented(0) == 18446744073709551615
  {
  }
}
