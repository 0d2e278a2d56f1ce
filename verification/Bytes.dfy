/** Bytes, decimal numerals and the library scanners (printf "%d", strtol, strtok, parseInt)
    that every hand-written message format of the system is built from. */
module Bytes {

  datatype Option<+T> = None | Some(value: T)

  /** The two languages that the system is written in. */
  datatype Lang = Cpp | Java

  newtype byte = x: int | 0 <= x < 256
  type Bytes = seq<byte>

  const NUL: byte := 0
  const SPACE: byte := 32
  const COMMA: byte := 44
  const INT_LIMIT: int := 0x8000_0000    // a C or Java int holds -INT_LIMIT .. INT_LIMIT - 1
  const NINE_DIGITS: int := 1_000_000_000 // the first number with ten digits

  predicate IsDigit(b: byte) { 48 <= b <= 57 }

  function Abs(n: int): nat { if n < 0 then -n else n }

  /** What "%d" prints for a non-negative number. */
  function Digits(n: nat): (s: Bytes)
    ensures |s| >= 1
    ensures forall i :: 0 <= i < |s| ==> IsDigit(s[i])
  {
    if n < 10 then [48 + n as byte] else Digits(n / 10) + [48 + (n % 10) as byte]
  }

  function Pow10(k: nat): (p: nat)
    ensures p > 0
  {
    if k == 0 then 1 else 10 * Pow10(k - 1)
  }

  /** The length of a numeral is the least k with n < 10^k: the test that the divisor loops make. */
  lemma {:induction false} DigitsLength(n: nat, k: nat)
    requires k >= 1
    ensures n < Pow10(k) <==> |Digits(n)| <= k
  {
    if n < 10 {
      assert Pow10(k) == 10 * Pow10(k - 1);
    } else if k == 1 {
      assert Pow10(1) == 10 * Pow10(0);
    } else {
      DigitsLength(n / 10, k - 1);
    }
  }

  /** Nine digits are as many as the divisor loop can pass without leaving 32 bits. */
  lemma NineDigits(n: nat)
    ensures n < NINE_DIGITS <==> |Digits(n)| <= 9
    ensures Pow10(|Digits(n)|) < INT_LIMIT <==> n < NINE_DIGITS
  {
    DigitsLength(n, 9);
    Pow10Values();
    if |Digits(n)| <= 9 { Pow10Monotone(|Digits(n)|, 9); } else { Pow10Monotone(10, |Digits(n)|); }
  }

  lemma Pow10Values()
    ensures Pow10(9) == NINE_DIGITS && Pow10(10) == 10 * NINE_DIGITS
  {
    assert Pow10(3) == 1000 by { assert Pow10(2) == 100; }
    assert Pow10(6) == 1_000_000 by { assert Pow10(5) == 100_000 by { assert Pow10(4) == 10_000; } }
    assert Pow10(8) == 100_000_000 by { assert Pow10(7) == 10_000_000; }
  }

  lemma {:induction false} Pow10Monotone(j: nat, k: nat)
    requires j <= k
    ensures Pow10(j) <= Pow10(k)
  {
    if j < k { Pow10Monotone(j, k - 1); }
  }

  function ReadDigits(s: Bytes, acc: nat): nat {
    if s != [] && IsDigit(s[0]) then ReadDigits(s[1..], 10 * acc + (s[0] - 48) as nat) else acc
  }

  lemma {:induction false} ReadDigitsOfNumeral(n: nat, rest: Bytes)
    ensures ReadDigits(Digits(n) + rest, 0) == ReadDigits(rest, n)
  {
    if n < 10 {
      assert (Digits(n) + rest)[1..] == rest;
    } else {
      var last := [48 + (n % 10) as byte];
      assert Digits(n) + rest == Digits(n / 10) + (last + rest);
      ReadDigitsOfNumeral(n / 10, last + rest);
      assert (last + rest)[1..] == rest;
    }
  }

  /** The number that decimal digits stand for, the last one counting once. */
  function Value(s: Bytes): nat
    requires AllDigits(s)
  {
    if s == [] then 0 else 10 * Value(s[..|s| - 1]) + (s[|s| - 1] - 48) as nat
  }

  lemma {:induction false} DigitsValue(n: nat)
    ensures Value(Digits(n)) == n && (n > 0 ==> Digits(n)[0] != 48)
  {
    if n >= 10 {
      DigitsValue(n / 10);
      assert Digits(n)[..|Digits(n)| - 1] == Digits(n / 10);
    }
  }

  /** A numeral as it is printed, and read. */
  lemma Hundred20()
    ensures Digits(120) == [49, 50, 48] && Value([49, 50, 48]) == 120
  {
    DigitsValue(120);
    assert Digits(12) == [49, 50] by { assert Digits(1) == [49]; }
  }

  lemma {:induction false} ReadDigitsValue(s: Bytes, done: Bytes)
    requires AllDigits(s) && AllDigits(done)
    ensures AllDigits(done + s) && ReadDigits(s, Value(done)) == Value(done + s)
    decreases |s|
  {
    if s == [] {
      assert done + s == done;
    } else {
      var more := done + [s[0]];
      assert more[..|done|] == done;
      assert more + s[1..] == done + s;
      ReadDigitsValue(s[1..], more);
    }
  }

  lemma {:induction false} ReadDigitsStops(s: Bytes, rest: Bytes, acc: nat)
    requires AllDigits(s) && (rest == [] || !IsDigit(rest[0]))
    ensures ReadDigits(s + rest, acc) == ReadDigits(s, acc)
    decreases |s|
  {
    if s == [] {
      assert s + rest == rest;
    } else {
      assert (s + rest)[1..] == s[1..] + rest;
      ReadDigitsStops(s[1..], rest, 10 * acc + (s[0] - 48) as nat);
    }
  }

  predicate IsBlank(b: byte) { b == SPACE || 9 <= b <= 13 }

  function SkipBlanks(s: Bytes): Bytes {
    if s != [] && IsBlank(s[0]) then SkipBlanks(s[1..]) else s
  }

  /** strtol and atoi in base ten: blanks, a sign, then as many digits as there are. */
  function Strtol(s: Bytes): int {
    var t := SkipBlanks(s);
    if t != [] && t[0] == 45 then -(ReadDigits(t[1..], 0) as int)
    else if t != [] && t[0] == 43 then ReadDigits(t[1..], 0)
    else ReadDigits(t, 0)
  }

  predicate AllDigits(s: Bytes) { forall i :: 0 <= i < |s| ==> IsDigit(s[i]) }

  /** Java's Integer.parseInt up to its range check; None is a NumberFormatException. */
  function ParseInt(s: Bytes): Option<int> {
    var t := if s != [] && (s[0] == 45 || s[0] == 43) then s[1..] else s;
    if t == [] || !AllDigits(t) then None
    else Some(if s[0] == 45 then -(ReadDigits(t, 0) as int) else ReadDigits(t, 0))
  }

  lemma {:induction false} BlanksSkipped(blanks: Bytes, rest: Bytes)
    requires (forall i :: 0 <= i < |blanks| ==> IsBlank(blanks[i])) && (rest == [] || !IsBlank(rest[0]))
    ensures SkipBlanks(blanks + rest) == rest
    decreases |blanks|
  {
    if blanks == [] {
      assert blanks + rest == rest;
    } else {
      assert (blanks + rest)[1..] == blanks[1..] + rest;
      BlanksSkipped(blanks[1..], rest);
    }
  }

  lemma ReadsValue(text: Bytes, rest: Bytes)
    requires AllDigits(text) && (rest == [] || !IsDigit(rest[0]))
    ensures ReadDigits(text + rest, 0) == Value(text)
  {
    ReadDigitsStops(text, rest, 0);
    ReadDigitsValue(text, []);
    assert [] + text == text;
  }

  /** strtol of any text: blanks up to b, perhaps a sign, digits from f up to d, perhaps none, and anything else. */
  lemma StrtolReads(s: Bytes, b: nat, f: nat, d: nat)
    requires b <= f <= d <= |s| && forall i :: 0 <= i < b ==> s[i] == 32 || 9 <= s[i] <= 13
    requires if f == b then b < |s| ==> !IsBlank(s[b]) && s[b] != 43 && s[b] != 45
             else f == b + 1 && (s[b] == 43 || s[b] == 45)
    requires AllDigits(s[f..d]) && (d < |s| ==> !(48 <= s[d] <= 57))
    ensures Strtol(s) == if f > b && s[b] == 45 then -(Value(s[f..d]) as int) else Value(s[f..d])
  {
    var text, digits, rest := s[b..], s[f..d], s[d..];
    assert s == s[..b] + text && s[f..] == digits + rest;
    BlanksSkipped(s[..b], text);
    ReadsValue(digits, rest);
    assert text != [] ==> text[0] == s[b] && text[1..] == s[b + 1..];
    hide ReadDigits, Value, SkipBlanks, AllDigits;
  }

  /** parseInt of a text without a sign. */
  lemma ParseUnsigned(s: Bytes)
    requires s == [] || (s[0] != 43 && s[0] != 45)
    ensures ParseInt(s) == if s != [] && AllDigits(s) then Some(Value(s)) else None
  {
    if AllDigits(s) { ReadsValue(s, []); }
    assert s + [] == s;
    hide ReadDigits, Value, AllDigits;
  }

  /** parseInt of a text with a sign: at least one digit must follow, and nothing else. */
  lemma ParseSigned(s: Bytes)
    requires s != [] && (s[0] == 43 || s[0] == 45)
    ensures ParseInt(s) == if |s| == 1 || !AllDigits(s[1..]) then None
                           else Some(if s[0] == 45 then -(Value(s[1..]) as int) else Value(s[1..]))
  {
    if AllDigits(s[1..]) { ReadsValue(s[1..], []); }
    assert s[1..] + [] == s[1..];
    hide ReadDigits, Value, AllDigits;
  }

  lemma StrtolOfNumeral(n: nat, rest: Bytes)
    requires rest == [] || !IsDigit(rest[0])
    ensures Strtol(Digits(n) + rest) == n
  {
    ReadDigitsOfNumeral(n, rest);
    assert IsDigit((Digits(n) + rest)[0]);
  }

  lemma ParseIntOfNumeral(n: nat)
    ensures ParseInt(Digits(n)) == Some(n)
  {
    ReadDigitsOfNumeral(n, []);
    assert Digits(n) + [] == Digits(n);
    assert IsDigit(Digits(n)[0]);
  }

  /** A numeral with anything but digits glued to its end is not a number to Java. */
  lemma ParseIntRejects(n: nat, junk: Bytes)
    requires !AllDigits(junk)
    ensures ParseInt(Digits(n) + junk) == None
  {
    var i :| 0 <= i < |junk| && !IsDigit(junk[i]);
    var s := Digits(n) + junk;
    assert IsDigit(s[0]);
    assert !IsDigit(s[|Digits(n)| + i]);
  }

  // ---- strtok ----

  /** A token found by strtok: buf[start..end], and where the next call resumes. */
  datatype Token = Token(start: nat, end: nat, next: nat)

  function SkipDelims(buf: Bytes, i: nat, delims: set<byte>): nat
    decreases |buf| - i
  {
    if i < |buf| && buf[i] in delims then SkipDelims(buf, i + 1, delims) else i
  }

  function ScanToken(buf: Bytes, i: nat, delims: set<byte>): (e: nat)
    ensures i <= e
    decreases |buf| - i
  {
    if i < |buf| && buf[i] !in delims && buf[i] != NUL then ScanToken(buf, i + 1, delims) else i
  }

  /** One strtok call resuming at `from`. None: it returns a null pointer, or its scan leaves the buffer. */
  function Strtok(buf: Bytes, from: nat, delims: set<byte>): (t: Option<Token>)
    ensures t.Some? ==> t.value.start < t.value.end < |buf|
  {
    var s := SkipDelims(buf, from, delims);
    if s >= |buf| || buf[s] == NUL || buf[s] in delims then None
    else
      var e := ScanToken(buf, s + 1, delims);
      if e >= |buf| then None else Some(Token(s, e, if buf[e] == NUL then e else e + 1))
  }

  /** What the C library says of strtok: delimiters are skipped, the token runs to the next one or to the NUL, and
      the search goes on behind that one, or at the NUL. */
  ghost predicate IsNextToken(buf: Bytes, from: nat, t: Token, delims: set<byte>) {
    && from <= t.start < t.end < |buf|
    && (forall k :: from <= k < t.start ==> buf[k] in delims)
    && (forall k :: t.start <= k < t.end ==> buf[k] !in delims && buf[k] != NUL)
    && (buf[t.end] in delims || buf[t.end] == NUL)
    && t.next == if buf[t.end] == NUL then t.end else t.end + 1
  }

  lemma {:induction false} SkipTo(buf: Bytes, i: nat, s: nat, delims: set<byte>)
    requires i <= s < |buf| && buf[s] !in delims && forall k :: i <= k < s ==> buf[k] in delims
    ensures SkipDelims(buf, i, delims) == s
    decreases s - i
  {
    if i < s { SkipTo(buf, i + 1, s, delims); }
  }

  lemma {:induction false} Skipped(buf: Bytes, i: nat, delims: set<byte>)
    ensures var s := SkipDelims(buf, i, delims);
            i <= s && (forall k :: i <= k < s ==> k < |buf| && buf[k] in delims) && (s < |buf| ==> buf[s] !in delims)
    decreases |buf| - i
  {
    if i < |buf| && buf[i] in delims { Skipped(buf, i + 1, delims); }
  }

  lemma {:induction false} Scanned(buf: Bytes, i: nat, delims: set<byte>)
    requires i <= |buf|
    ensures var e := ScanToken(buf, i, delims);
            && i <= e <= |buf| && (forall k :: i <= k < e ==> buf[k] !in delims && buf[k] != NUL)
            && (e < |buf| ==> buf[e] in delims || buf[e] == NUL)
    decreases |buf| - i
  {
    if i < |buf| && buf[i] !in delims && buf[i] != NUL {
      Scanned(buf, i + 1, delims);
      assert ScanToken(buf, i, delims) == ScanToken(buf, i + 1, delims);
    }
  }

  /** Strtok finds the token that there is. */
  lemma StrtokIff(buf: Bytes, from: nat, t: Token, delims: set<byte>)
    ensures Strtok(buf, from, delims) == Some(t) <==> IsNextToken(buf, from, t, delims)
  {
    if Strtok(buf, from, delims) == Some(t) {
      Skipped(buf, from, delims);
      Scanned(buf, t.start + 1, delims);
    }
    if IsNextToken(buf, from, t, delims) {
      SkipTo(buf, from, t.start, delims);
      ScanTo(buf, t.start + 1, t.end, delims);
    }
  }

  /** A word followed by a delimiter or a NUL is the next token, whatever else the buffer holds. */
  lemma StrtokFindsWord(buf: Bytes, from: nat, word: Bytes, delims: set<byte>)
    requires word != [] && from + |word| < |buf| && buf[from..from + |word|] == word
    requires forall i :: 0 <= i < |word| ==> word[i] !in delims && word[i] != NUL
    requires buf[from + |word|] in delims || buf[from + |word|] == NUL
    ensures var e := from + |word|;
            Strtok(buf, from, delims) == Some(Token(from, e, if buf[e] == NUL then e else e + 1))
  {
    var e := from + |word|;
    forall k | from <= k < e ensures buf[k] !in delims && buf[k] != NUL {
      assert buf[k] == buf[from..e][k - from];
    }
    ScanTo(buf, from + 1, e, delims);
  }

  lemma {:induction false} ScanTo(buf: Bytes, i: nat, e: nat, delims: set<byte>)
    requires i <= e < |buf|
    requires forall k :: i <= k < e ==> buf[k] !in delims && buf[k] != NUL
    requires buf[e] in delims || buf[e] == NUL
    ensures ScanToken(buf, i, delims) == e
    decreases e - i
  {
    if i < e { ScanTo(buf, i + 1, e, delims); }
  }

  // ---- buffers ----

  function Zeros(n: nat): (z: Bytes)
    ensures |z| == n && forall i :: 0 <= i < n ==> z[i] == NUL
  {
    seq(n, _ => NUL)
  }

  /** memcpy or sprintf into a buffer: `data` replaces the bytes of `buf` from `at` on. */
  function Overwrite(buf: Bytes, at: nat, data: Bytes): (r: Bytes)
    requires at + |data| <= |buf|
    ensures |r| == |buf|
    ensures forall i :: 0 <= i < |buf| ==> r[i] == if at <= i < at + |data| then data[i - at] else buf[i]
  {
    buf[..at] + data + buf[at + |data|..]
  }
}
