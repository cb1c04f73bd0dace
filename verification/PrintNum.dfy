/** The number formatter of lib/print.c: digits are written lowest first, padded, and reversed in
    place. */
module PrintNum {

  // ----- what a number looks like -----

  predicate Base(b: int) { 2 <= b <= 36 }

  function DigitChar(d: nat, upcase: bool): char
    requires d < 36
  {
    if d <= 9 then '0' + d as char else if upcase then 'A' + (d - 10) as char else 'a' + (d - 10) as char
  }

  function CharDigit(c: char): nat {
    if '0' <= c <= '9' then (c - '0') as nat
    else if 'A' <= c <= 'Z' then (c - 'A') as nat + 10
    else if 'a' <= c <= 'z' then (c - 'a') as nat + 10
    else 99
  }

  /** `u / b` and `u % b` by repeated subtraction. */
  function Quot(u: nat, b: nat): (q: nat)
    requires b >= 2
    ensures q <= u && (u > 0 ==> q < u) && (q == 0 <==> u < b)
  {
    if u < b then 0 else 1 + Quot(u - b, b)
  }

  function Rem(u: nat, b: nat): (r: nat)
    requires b >= 2
    ensures r < b
  {
    if u < b then u else Rem(u - b, b)
  }

  lemma {:induction false} QuotRem(u: nat, b: nat)
    requires b >= 2
    ensures u == Quot(u, b) * b + Rem(u, b)
  {
    if u >= b {
      QuotRem(u - b, b);
      assert (Quot(u - b, b) + 1) * b == Quot(u - b, b) * b + b;
    }
  }

  lemma {:induction false} AtLeastOnce(k: nat, b: nat)
    requires k >= 1
    ensures k * b >= b
  {
    if k > 1 {
      AtLeastOnce(k - 1, b);
      assert k * b == (k - 1) * b + b;
    }
  }

  lemma DivUnique(q: nat, r: nat, k: nat, r': nat, b: nat)
    requires r < b && r' < b && q * b + r == (q + k) * b + r'
    ensures k == 0 && r == r'
  {
    assert (q + k) * b == q * b + k * b;
    if k >= 1 { AtLeastOnce(k, b); }
  }

  lemma SameDivision(q: nat, r: nat, q': nat, r': nat, b: nat)
    requires r < b && r' < b && q * b + r == q' * b + r'
    ensures q == q' && r == r'
  {
    if q <= q' { DivUnique(q, r, q' - q, r', b); } else { DivUnique(q', r', q - q', r, b); }
  }

  lemma MachineDivision(u: nat, b: nat)
    requires b >= 2
    ensures u == (u / b) * b + u % b && 0 <= u % b < b && u / b >= 0
  {
  }

  /** The machine's operators are these functions. */
  lemma DivIsQuot(u: nat, b: nat)
    requires b >= 2
    ensures u / b == Quot(u, b) && u % b == Rem(u, b)
  {
    QuotRem(u, b);
    MachineDivision(u, b);
    SameDivision(u / b, u % b, Quot(u, b), Rem(u, b), b);
  }

  /** The digits of `u`, lowest first. */
  function Low(u: nat, base: int, upcase: bool): (s: string)
    requires Base(base)
    ensures |s| > 0
    decreases u
  {
    [DigitChar(Rem(u, base), upcase)] + if u < base then "" else Low(Quot(u, base), base, upcase)
  }

  function Reverse(s: string): (r: string)
    ensures |r| == |s|
  {
    seq(|s|, i requires 0 <= i < |s| => s[|s| - 1 - i])
  }

  function Fill(c: char, n: int): string { seq(if n < 0 then 0 else n, i => c) }

  function Sign(neg: bool): string { if neg then "-" else "" }

  /** Digits, a sign, and padding to the width: zeros go between sign and digits, spaces before the
      sign, or after the digits when left adjusted. */
  function Layout(digits: string, neg: bool, width: int, ladjust: bool, padc: char): string {
    var pad := width - |digits| - |Sign(neg)|;
    if ladjust then Sign(neg) + digits + Fill(' ', pad)
    else if neg && padc == '0' then Sign(neg) + Fill('0', pad) + digits
    else Fill(padc, pad) + Sign(neg) + digits
  }

  /** The text to print, digits highest first. */
  function Format(u: nat, base: int, neg: bool, width: int, ladjust: bool, padc: char, upcase: bool): string
    requires Base(base)
  {
    Layout(Reverse(Low(u, base, upcase)), neg, width, ladjust, padc)
  }

  lemma FormatLength(u: nat, base: int, neg: bool, width: int, ladjust: bool, padc: char, upcase: bool)
    requires Base(base)
    ensures var n := |Low(u, base, upcase)| + if neg then 1 else 0;
            |Format(u, base, neg, width, ladjust, padc, upcase)| == if width < n then n else width
  {
  }

  // ----- reading it back -----

  predicate IsDigit(c: char, base: int) { CharDigit(c) < base }

  /** Horner's rule, highest digit first. */
  function Value(s: string, base: int): nat
    requires Base(base)
  {
    if s == "" then 0 else Value(s[..|s| - 1], base) * base + CharDigit(s[|s| - 1])
  }

  lemma {:induction false} LowDigits(u: nat, base: int, upcase: bool)
    requires Base(base)
    ensures forall i | 0 <= i < |Low(u, base, upcase)| :: IsDigit(Low(u, base, upcase)[i], base)
    decreases u
  {
    DigitBack(Rem(u, base), upcase);
    if u >= base { LowDigits(Quot(u, base), base, upcase); }
  }

  lemma DigitBack(d: nat, upcase: bool)
    requires d < 36
    ensures CharDigit(DigitChar(d, upcase)) == d
  {
  }

  lemma ReverseCons(c: char, s: string)
    ensures Reverse([c] + s) == Reverse(s) + [c]
  {
  }

  /** The digits read back as the number. */
  lemma {:induction false} DigitsValue(u: nat, base: int, upcase: bool)
    requires Base(base)
    ensures Value(Reverse(Low(u, base, upcase)), base) == u
    decreases u
  {
    var c := DigitChar(Rem(u, base), upcase);
    var rest := if u < base then "" else Low(Quot(u, base), base, upcase);
    DigitBack(Rem(u, base), upcase);
    ReverseCons(c, rest);
    var r := Reverse(Low(u, base, upcase));
    assert r[..|r| - 1] == Reverse(rest) && r[|r| - 1] == c;
    if u >= base {
      DigitsValue(Quot(u, base), base, upcase);
    }
    QuotRem(u, base);
  }

  /** There is no leading zero, except for zero itself. */
  lemma {:induction false} NoLeadingZero(u: nat, base: int, upcase: bool)
    requires Base(base)
    ensures u != 0 ==> Reverse(Low(u, base, upcase))[0] != '0'
    decreases u
  {
    var c := DigitChar(Rem(u, base), upcase);
    DigitBack(Rem(u, base), upcase);
    if u < base {
      assert Low(u, base, upcase) == [c];
    } else {
      NoLeadingZero(Quot(u, base), base, upcase);
      ReverseCons(c, Low(Quot(u, base), base, upcase));
    }
  }

  function SkipSpaces(s: string): string { if s != "" && s[0] == ' ' then SkipSpaces(s[1..]) else s }

  /** The longest prefix of digits. */
  function TakeDigits(s: string, base: int): string {
    if s != "" && IsDigit(s[0], base) then [s[0]] + TakeDigits(s[1..], base) else ""
  }

  /** A reader: spaces, an optional sign, digits. */
  function Scan(s: string, base: int): (bool, string) {
    var t := SkipSpaces(s);
    if t != "" && t[0] == '-' then (true, TakeDigits(t[1..], base)) else (false, TakeDigits(t, base))
  }

  function Parse(s: string, base: int): (bool, nat)
    requires Base(base)
  {
    var (neg, digits) := Scan(s, base);
    (neg, Value(digits, base))
  }

  lemma {:induction false} SkipFill(n: int, s: string)
    requires s != "" ==> s[0] != ' '
    ensures SkipSpaces(Fill(' ', n) + s) == s
    decreases n
  {
    if n > 0 {
      var t := Fill(' ', n) + s;
      assert t[1..] == Fill(' ', n - 1) + s;
      SkipFill(n - 1, s);
    } else {
      assert Fill(' ', n) + s == s;
    }
  }

  lemma {:induction false} TakeAll(d: string, rest: string, base: int)
    requires forall i | 0 <= i < |d| :: IsDigit(d[i], base)
    requires rest != "" ==> !IsDigit(rest[0], base)
    ensures TakeDigits(d + rest, base) == d
  {
    if d == "" {
      assert d + rest == rest;
    } else {
      assert (d + rest)[1..] == d[1..] + rest;
      TakeAll(d[1..], rest, base);
    }
  }

  lemma {:induction false} LeadingZeros(n: int, d: string, base: int)
    requires Base(base)
    ensures Value(Fill('0', n) + d, base) == Value(d, base)
    decreases |d|, n
  {
    var s := Fill('0', n) + d;
    if d != "" {
      assert s[..|s| - 1] == Fill('0', n) + d[..|d| - 1];
      LeadingZeros(n, d[..|d| - 1], base);
    } else if n > 0 {
      assert s[..|s| - 1] == Fill('0', n - 1) + d;
      LeadingZeros(n - 1, d, base);
    } else {
      assert s == d;
    }
  }

  predicate AllDigits(d: string, base: int) { forall i | 0 <= i < |d| :: IsDigit(d[i], base) }

  /** The reader finds the digits between padding and trailing spaces. */
  lemma ScanFinds(neg: bool, d: string, pad: int, rest: int, base: int)
    requires Base(base) && d != "" && AllDigits(d, base)
    ensures Scan(Fill(' ', pad) + (Sign(neg) + (d + Fill(' ', rest))), base) == (neg, d)
  {
    var t := Sign(neg) + (d + Fill(' ', rest));
    assert IsDigit(d[0], base);
    assert t[0] != ' ';
    SkipFill(pad, t);
    TakeAll(d, Fill(' ', rest), base);
    if neg {
      assert t[0] == '-' && t[1..] == d + Fill(' ', rest);
    } else {
      assert t == d + Fill(' ', rest);
    }
  }

  /** Every formatted number is padding, sign, digits with leading zeros, and trailing spaces. */
  lemma LayoutShape(d: string, neg: bool, width: int, ladjust: bool, padc: char)
    returns (zeros: int, pad: int, rest: int)
    requires padc == ' ' || padc == '0'
    ensures Layout(d, neg, width, ladjust, padc) ==
            Fill(' ', pad) + (Sign(neg) + ((Fill('0', zeros) + d) + Fill(' ', rest)))
  {
    var n := width - |d| - |Sign(neg)|;
    var s := Layout(d, neg, width, ladjust, padc);
    assert Fill(' ', 0) == "" == Fill('0', 0);
    if ladjust {
      zeros, pad, rest := 0, 0, n;
      assert s == "" + (Sign(neg) + (("" + d) + Fill(' ', n)));
    } else if padc == '0' {
      zeros, pad, rest := n, 0, 0;
      assert s == "" + (Sign(neg) + ((Fill('0', n) + d) + ""));
    } else {
      zeros, pad, rest := 0, n, 0;
      assert s == Fill(' ', n) + (Sign(neg) + (("" + d) + ""));
    }
  }

  /** Whatever is printed reads back as the same sign and number, for every value, base, width and
      alignment, and the two padding characters that format strings can ask for. */
  lemma FormatReadsBack(u: nat, base: int, neg: bool, width: int, ladjust: bool, padc: char, upcase: bool)
    requires Base(base) && (padc == ' ' || padc == '0')
    ensures Parse(Format(u, base, neg, width, ladjust, padc, upcase), base) == (neg, u)
  {
    var d := Reverse(Low(u, base, upcase));
    var zeros, pad, rest := LayoutShape(d, neg, width, ladjust, padc);
    LowDigits(u, base, upcase);
    ScanFinds(neg, Fill('0', zeros) + d, pad, rest, base);
    LeadingZeros(zeros, d, base);
    DigitsValue(u, base, upcase);
  }

  /** A letter of the other case. */
  predicate WrongCase(c: char, upcase: bool) { if upcase then 'a' <= c <= 'z' else 'A' <= c <= 'Z' }

  lemma {:induction false} LowCase(u: nat, base: int, upcase: bool)
    requires Base(base)
    ensures forall i | 0 <= i < |Low(u, base, upcase)| :: !WrongCase(Low(u, base, upcase)[i], upcase)
    decreases u
  {
    if u >= base { LowCase(Quot(u, base), base, upcase); }
  }

  /** Letters among the digits are all upper-case or all lower-case, as asked. */
  lemma FormatCase(u: nat, base: int, neg: bool, width: int, ladjust: bool, padc: char, upcase: bool, i: nat)
    requires Base(base) && (padc == ' ' || padc == '0')
    requires i < |Format(u, base, neg, width, ladjust, padc, upcase)|
    ensures !WrongCase(Format(u, base, neg, width, ladjust, padc, upcase)[i], upcase)
  {
    var d := Reverse(Low(u, base, upcase));
    LowCase(u, base, upcase);
    assert forall j | 0 <= j < |d| :: !WrongCase(d[j], upcase);
    var zeros, pad, rest := LayoutShape(d, neg, width, ladjust, padc);
    var s := Fill(' ', pad) + (Sign(neg) + ((Fill('0', zeros) + d) + Fill(' ', rest)));
    assert s == Format(u, base, neg, width, ladjust, padc, upcase);
    assert forall j | 0 <= j < |s| :: !WrongCase(s[j], upcase);
  }

  /** Left adjusted, the text begins with the sign or, if there is none, a digit, and what follows the number is
      spaces; otherwise it ends with the lowest digit. A sign that is followed by padding zeros stands first. */
  lemma FormatAligned(u: nat, base: int, neg: bool, width: int, ladjust: bool, padc: char, upcase: bool)
    requires Base(base)
    ensures var s := Format(u, base, neg, width, ladjust, padc, upcase);
            var n := |Low(u, base, upcase)| + if neg then 1 else 0;
            && 0 < n <= |s|
            && (ladjust ==> (if neg then s[0] == '-' else IsDigit(s[0], base))
                            && forall i | n <= i < |s| :: s[i] == ' ')
            && (!ladjust ==> CharDigit(s[|s| - 1]) == Rem(u, base))
            && (!ladjust && neg && padc == '0' ==> s[0] == '-')
            && (!ladjust && !(neg && padc == '0') ==> forall i | 0 <= i < |s| - n :: s[i] == padc)
  {
    LowDigits(u, base, upcase);
    DigitBack(Rem(u, base), upcase);
    FormatLength(u, base, neg, width, ladjust, padc, upcase);
  }

  // ----- print_num -----

  /** A number below 2^32 has at most 32 digits. */
  lemma {:induction false} LowLength(u: nat, base: int, upcase: bool, k: nat)
    requires Base(base) && u < Pow2(k) && k > 0
    ensures |Low(u, base, upcase)| <= k
    decreases k
  {
    assert k == 1 ==> Pow2(k) == 2 * Pow2(0);
    if u >= base {
      QuotRem(u, base);
      HalfOrLess(Quot(u, base), base, u);
      LowLength(Quot(u, base), base, upcase, k - 1);
    }
  }

  function Pow2(k: nat): nat { if k == 0 then 1 else 2 * Pow2(k - 1) }

  lemma HalfOrLess(q: nat, b: nat, u: nat)
    requires b >= 2 && q * b <= u
    ensures 2 * q <= u
  {
    assert q * b == q * 2 + q * (b - 2);
  }

  method Divide(u: nat, base: int) returns (q: nat, r: nat)
    requires Base(base)
    ensures q == Quot(u, base) && r == Rem(u, base)
  {
    DivIsQuot(u, base);
    q, r := u / base, u % base;
  }

  method Character(tmp: nat, upcase: bool) returns (c: char)
    requires tmp < 36
    ensures c == DigitChar(tmp, upcase)
  {
    if tmp <= 9 {
      c := '0' + tmp as char;
    } else if upcase {
      c := 'A' + (tmp - 10) as char;
    } else {
      c := 'a' + (tmp - 10) as char;
    }
  }

  /** The digits that remain after one step. */
  function Higher(u: nat, base: int, upcase: bool): string
    requires Base(base)
  {
    if u < base then "" else Low(Quot(u, base), base, upcase)
  }

  lemma OneDigit(done: string, u: nat, base: int, upcase: bool)
    requires Base(base)
    ensures done + Low(u, base, upcase) == done + [DigitChar(Rem(u, base), upcase)] + Higher(u, base, upcase)
  {
  }

  /** Digits lowest first; `k` is where the next character goes. */
  method PutDigits(buf: array<char>, u0: nat, base: int, upcase: bool) returns (k: nat)
    requires Base(base) && |Low(u0, base, upcase)| <= buf.Length
    modifies buf
    ensures k == |Low(u0, base, upcase)| && buf[..k] == Low(u0, base, upcase)
  {
    var u: nat := u0;
    k := 0;
    ghost var goal := Low(u0, base, upcase);
    while true
      invariant 0 <= k < buf.Length && buf[..k] + Low(u, base, upcase) == goal
      decreases u
    {
      OneDigit(buf[..k], u, base, upcase);
      ghost var before := buf[..k];
      var q, tmp := Divide(u, base);
      var c := Character(tmp, upcase);
      buf[k] := c;
      k := k + 1;
      assert buf[..k] == before + [c];
      if q == 0 {
        assert buf[..k] + "" == buf[..k];
        break;
      }
      u := q;
    }
  }

  /** The in-place reversal of the first `n` characters. */
  method ReversePrefix(buf: array<char>, n: nat)
    requires n <= buf.Length
    modifies buf
    ensures buf[..n] == Reverse(old(buf[..n])) && buf[n..] == old(buf[n..])
  {
    var begin, end := 0, n - 1;
    while end > begin
      invariant 0 <= begin && end == n - 1 - begin && begin <= end + 2
      invariant forall i | 0 <= i < begin :: buf[i] == old(buf[n - 1 - i]) && buf[n - 1 - i] == old(buf[i])
      invariant forall i | begin <= i <= end :: buf[i] == old(buf[i])
      invariant forall i | n <= i < buf.Length :: buf[i] == old(buf[i])
    {
      buf[begin], buf[end] := buf[end], buf[begin];
      begin, end := begin + 1, end - 1;
    }
  }

  /** The text before the reversal. */
  function Padded(low: string, neg: bool, width: int, ladjust: bool, padc: char): string {
    var pad := width - |low| - |Sign(neg)|;
    if neg && !ladjust && padc == '0' then low + Fill('0', pad) + "-"
    else low + Sign(neg) + Fill(if ladjust then ' ' else padc, pad)
  }

  /** Sign and padding after the digits, in the order of the code: the sign is written, and moved
      behind the zeros if there are any. */
  method PutPadding(buf: array<char>, k: nat, neg: bool, width: int, ladjust: bool, padc0: char)
    returns (actual: nat, length: nat)
    requires k + 1 <= buf.Length && width <= buf.Length
    modifies buf
    ensures actual == k + |Sign(neg)| && length == (if width < actual then actual else width) && length <= buf.Length
    ensures buf[..length] == Padded(old(buf[..k]), neg, width, ladjust, padc0)
  {
    ghost var low := buf[..k];
    var padc := padc0;
    actual := k;
    if neg {
      buf[k] := '-';
      actual := k + 1;
    }
    length := if width < actual then actual else width;
    if ladjust { padc := ' '; }
    if neg && !ladjust && padc == '0' {
      assert buf[..k] == low;
      FillRange(buf, actual - 1, length - 1, padc);
      ghost var t := buf[..length - 1];
      buf[length - 1] := '-';
      assert buf[..length] == t + "-";
    } else {
      assert buf[..actual] == low + Sign(neg);
      FillRange(buf, actual, length, padc);
    }
  }

  method FillRange(buf: array<char>, lo: nat, hi: nat, c: char)
    requires lo <= hi <= buf.Length
    modifies buf
    ensures buf[..hi] == old(buf[..lo]) + Fill(c, hi - lo)
  {
    var i := lo;
    while i < hi
      invariant lo <= i <= hi
      invariant forall j | 0 <= j < lo :: buf[j] == old(buf[j])
      invariant forall j | lo <= j < i :: buf[j] == c
    {
      buf[i] := c;
      i := i + 1;
    }
  }

  lemma ReverseAppend(a: string, b: string)
    ensures Reverse(a + b) == Reverse(b) + Reverse(a)
  {
  }

  lemma ReverseFill(c: char, n: int)
    ensures Reverse(Fill(c, n)) == Fill(c, n)
  {
  }

  lemma ReverseSign(neg: bool)
    ensures Reverse(Sign(neg)) == Sign(neg)
  {
  }

  /** Reversing the padded text, or only its number part when left adjusted, gives the layout. */
  lemma ReversedIsLayout(low: string, neg: bool, width: int, ladjust: bool, padc: char)
    ensures var s := Padded(low, neg, width, ladjust, padc);
            var n := if ladjust then |low| + |Sign(neg)| else |s|;
            n <= |s| && Reverse(s[..n]) + s[n..] == Layout(Reverse(low), neg, width, ladjust, padc)
  {
    var s := Padded(low, neg, width, ladjust, padc);
    var pad := width - |low| - |Sign(neg)|;
    ReverseSign(neg);
    if ladjust {
      var n := |low| + |Sign(neg)|;
      assert s[..n] == low + Sign(neg) && s[n..] == Fill(' ', pad);
      ReverseAppend(low, Sign(neg));
    } else {
      assert s[..|s|] == s && s[|s|..] == "";
      ReverseFill(padc, pad);
      if neg && padc == '0' {
        ReverseThree(low, Fill('0', pad), "-");
      } else {
        ReverseThree(low, Sign(neg), Fill(padc, pad));
      }
    }
  }

  lemma ReverseThree(a: string, b: string, c: string)
    ensures Reverse(a + b + c) == Reverse(c) + Reverse(b) + Reverse(a)
  {
    ReverseAppend(a + b, c);
    ReverseAppend(a, b);
    assert Reverse(c) + (Reverse(b) + Reverse(a)) == Reverse(c) + Reverse(b) + Reverse(a);
  }

  method ReversedPart(buf: array<char>, n: nat, length: nat) returns (out: string)
    requires n <= length <= buf.Length
    modifies buf
    ensures var s := old(buf[..length]); out == Reverse(s[..n]) + s[n..]
  {
    ghost var s := buf[..length];
    assert buf[..n] == s[..n] && buf[n..][..length - n] == s[n..];
    ReversePrefix(buf, n);
    out := buf[..length];
    assert out == buf[..n] + buf[n..][..length - n];
  }

  /** `print_num`: what is written out is the specified text, for every value of a 32-bit unsigned
      long, every base, width and flag. */
  method Print(u: nat, base: int, neg: bool, width: int, ladjust: bool, padc: char, upcase: bool) returns (out: string)
    requires Base(base) && u < Pow2(32) && width >= 0
    ensures out == Format(u, base, neg, width, ladjust, padc, upcase)
  {
    LowLength(u, base, upcase, 32);
    var buf := new char[width + 70];
    var k := PutDigits(buf, u, base, upcase);
    var actual, length := PutPadding(buf, k, neg, width, ladjust, padc);
    ghost var s := buf[..length];
    var n := if ladjust then actual else length;
    ReversedIsLayout(Low(u, base, upcase), neg, width, ladjust, padc);
    out := ReversedPart(buf, n, length);
  }
}
