/** formatNum (perfstatsd/io_usage.cpp): a number printed with a comma before each full group of three. */
module CommaFormat {
  import opened Integers

  function Digit(d: int): char
    requires 0 <= d < 10
  {
    "0123456789"[d]
  }

  function Dec(x: nat): (s: string)
    ensures |s| > 0
    ensures forall i :: 0 <= i < |s| ==> s[i] != ','
  {
    if x < 10 then [Digit(x)] else Dec(x / 10) + [Digit(x % 10)]
  }

  /** The reader's side: the value of a string of digits. */
  function Value(s: string): int {
    if s == [] then 0 else 10 * Value(s[..|s| - 1]) + DigitValue(s[|s| - 1])
  }

  function DigitValue(ch: char): int {
    if '0' <= ch <= '9' then ch as int - '0' as int else 0
  }

  function WithoutCommas(s: string): string {
    if s == [] then []
    else WithoutCommas(s[..|s| - 1]) + if s[|s| - 1] == ',' then [] else [s[|s| - 1]]
  }

  lemma {:induction false} DecRoundTrip(x: nat)
    ensures Value(Dec(x)) == x
  {
    if x >= 10 {
      DecRoundTrip(x / 10);
      assert Dec(x)[..|Dec(x)| - 1] == Dec(x / 10);
    }
  }

  /** The digits of a 64-bit number: at most twenty. */
  lemma DecLength(x: nat)
    requires x < U64
    ensures |Dec(x)| <= 20
  {
    assert Pow10(10) == 10_000_000_000;
    assert Pow10(15) == 1_000_000_000_000_000;
    assert Pow10(20) == 100_000_000_000_000_000_000;
    DecAtMost(x, 20);
  }

  function Pow10(n: nat): nat {
    if n == 0 then 1 else 10 * Pow10(n - 1)
  }

  lemma {:induction false} DecAtMost(x: nat, n: nat)
    requires 0 < n && x < Pow10(n)
    ensures |Dec(x)| <= n
  {
    assert Pow10(1) == 10;
    if x >= 10 {
      DecAtMost(x / 10, n - 1);
    }
  }

  /** How far from the right end digit i, counted from the right, is printed: i digits and a comma per three. */
  function At(i: nat): nat {
    i + i / 3
  }

  lemma AtNext(i: nat)
    ensures At(0) == 0 && At(i + 1) == At(i) + if i % 3 == 2 then 2 else 1
  {
  }

  lemma AtMonotone(i: nat, k: nat)
    requires i <= k
    ensures At(i) <= At(k)
  {
  }

  /** The printed length. */
  function Width(len: nat): nat
    requires len > 0
  {
    At(len - 1) + 1
  }

  /** What stands at distance q from the right end. */
  function Mark(digits: string, q: nat): char
    requires |digits| > 0 && q < Width(|digits|)
  {
    if q % 4 == 3 then ',' else digits[|digits| - 1 - (q - q / 4)]
  }

  /** s prints the digits with commas: every fourth place from the right, and nowhere else, holds a comma. */
  ghost predicate Groups(digits: string, s: string) {
    && |digits| > 0 && |s| == Width(|digits|)
    && forall q {:trigger Mark(digits, q)} :: 0 <= q < |s| ==> s[|s| - 1 - q] == Mark(digits, q)
  }

  lemma MarkDigit(digits: string, i: nat)
    requires i < |digits|
    ensures At(i) < Width(|digits|) && Mark(digits, At(i)) == digits[|digits| - 1 - i]
  {
    var q := At(i);
    assert q / 4 == i / 3 && q % 4 == i % 3;
  }

  lemma MarkComma(digits: string, i: nat)
    requires i + 1 < |digits| && i % 3 == 2
    ensures At(i) + 1 < Width(|digits|) && Mark(digits, At(i) + 1) == ','
  {
    assert At(i) % 4 == i % 3;
  }

  /** How much of the print is left of the digits from digit k (from the right) on. */
  function Left(digits: string, k: nat): int
    requires 0 < |digits|
  {
    if k < |digits| then Width(|digits|) - At(k) else 0
  }

  lemma {:induction false} StripPrefix(digits: string, s: string, k: nat)
    requires Groups(digits, s) && (forall i :: 0 <= i < |digits| ==> digits[i] != ',') && k <= |digits|
    ensures 0 <= Left(digits, k) <= |s| && WithoutCommas(s[..Left(digits, k)]) == digits[..|digits| - k]
    decreases |digits| - k
  {
    hide Mark, At;
    if k < |digits| {
      var n, n', m := Left(digits, k), Left(digits, k + 1), |digits| - k;
      StripPrefix(digits, s, k + 1);
      AtNext(k);
      AtMonotone(k, |digits| - 1);
      MarkDigit(digits, k);
      assert s[n - 1] == Mark(digits, At(k)) == digits[m - 1];
      assert s[..n][..n - 1] == s[..n - 1];
      if m > 1 && k % 3 == 2 {
        MarkComma(digits, k);
        assert s[n - 2] == Mark(digits, At(k) + 1) == ',';
        assert s[..n - 1][..n - 2] == s[..n'];
      } else {
        assert n' == n - 1;
      }
      assert digits[..m] == digits[..m - 1] + [digits[m - 1]];
    }
  }

  /** Counted from the right every fourth place is a comma, and no other one. */
  lemma CommasEveryFourth(digits: string, s: string, q: nat)
    requires Groups(digits, s) && (forall i :: 0 <= i < |digits| ==> digits[i] != ',') && q < |s|
    ensures |s| == |digits| + (|digits| - 1) / 3
    ensures s[|s| - 1 - q] == ',' <==> q % 4 == 3
  {
    assert s[|s| - 1 - q] == Mark(digits, q);
  }

  /** Removing the commas gives back the digits. */
  lemma GroupsStrip(digits: string, s: string)
    requires Groups(digits, s) && forall i :: 0 <= i < |digits| ==> digits[i] != ','
    ensures WithoutCommas(s) == digits
  {
    StripPrefix(digits, s, 0);
    assert s[..|s|] == s && digits[..|digits|] == digits;
  }

  /** Libc's part: prints as much of x as fits in the first `size` places and returns the length of all of it. */
  method Snprintf(str: array<char>, size: nat, x: nat) returns (len: nat)
    requires size <= str.Length
    modifies str
    ensures len == |Dec(x)|
    ensures len < size ==> str[..len] == Dec(x) && str[len] == '\0'
    ensures forall i :: size <= i < str.Length ==> str[i] == old(str[i])
  {
    var digits := Dec(x);
    len := |digits|;
    if size > 0 {
      var n := if len < size then len else size - 1;
      forall i | 0 <= i < n {
        str[i] := digits[i];
      }
      str[n] := '\0';
    }
  }

  /** The two guards, on the number of digits and the size of the buffer. */
  predicate GuardsPass(len: nat, size: nat)
    requires len > 0
  {
    len + 1 <= size && Width(len) <= size
  }

  /** The digits and a terminator fit, and so do the digits and a comma for each full group of three after the first. */
  lemma GuardsSpelled(len: nat, size: nat)
    requires len > 0
    ensures GuardsPass(len, size) <==> len < size && len + (len - 1) / 3 <= size
  {
    WidthIs(len);
  }

  /** Where the terminator goes. */
  function TerminatorIndex(len: nat): nat
    requires len > 0
  {
    Width(len)
  }

  /** The guards let x through although its terminator lies outside the buffer. */
  predicate Overruns(x: nat, size: nat) {
    GuardsPass(|Dec(x)|, size) && TerminatorIndex(|Dec(x)|) >= size
  }

  lemma {:induction false} DecAtLeast(x: nat, n: nat)
    requires x >= Pow10(n)
    ensures |Dec(x)| > n
  {
    if n > 0 {
      PowPositive(n - 1);
      DecAtLeast(x / 10, n - 1);
    }
  }

  lemma {:induction false} PowPositive(n: nat)
    ensures Pow10(n) >= 1
  {
    if n > 0 {
      PowPositive(n - 1);
    }
  }

  /** The terminator goes past the end exactly if the number has a comma and its print is as wide as the
      buffer; the first guard keeps numbers without a comma inside. */
  lemma OverrunLaw(x: nat, size: nat)
    ensures Overruns(x, size) <==> x >= 1000 && Width(|Dec(x)|) == size
  {
    assert Pow10(3) == 1000;
    WidthIs(|Dec(x)|);
    if x >= 1000 {
      DecAtLeast(x, 3);
    } else {
      DecAtMost(x, 3);
    }
  }

  /** Seven digits and two commas in a buffer of nine. */
  lemma SevenDigitsOverrunNine()
    ensures Overruns(1234567, 9) && !Overruns(7, 1)
  {
    assert Dec(12) == "12" && Dec(1234) == "1234";
    assert Dec(123456) == "123456" && Dec(1234567) == "1234567";
  }

  /** The callers' buffer of 32 is never overrun, and takes every 64-bit number. */
  lemma ThirtyTwoIsEnough(x: nat)
    requires x < U64
    ensures !Overruns(x, 32) && GuardsPass(|Dec(x)|, 32)
  {
    DecLength(x);
    WidthIs(|Dec(x)|);
  }

  /** str is the buffer of the given size and the place after it, which is written exactly on an overrun. */
  method FormatNum(x: nat, str: array<char>, size: nat) returns (ok: bool)
    requires str.Length == size + 1
    modifies str
    ensures ok <==> GuardsPass(|Dec(x)|, size)
    ensures ok ==> Groups(Dec(x), str[..Width(|Dec(x)|)]) && str[Width(|Dec(x)|)] == '\0'
    ensures str[size] == if Overruns(x, size) then '\0' else old(str[size])
  {
    hide Dec, Digit, Mark, At, Tail, Groups;
    var len := Snprintf(str, size, x);
    WidthIs(len);
    if len + 1 > size {
      return false;
    }
    var extr := (len - 1) / 3;
    var endpos := len + extr;
    if endpos > size {
      return false;
    }
    ghost var digits := Dec(x);
    AtNext(0);
    str[endpos] := '\0';
    TailStarts(digits, str[..], endpos);
    var rest: nat := x;
    var j := endpos - 1;
    for i := 0 to len
      invariant j == endpos - 1 - (if i < len then At(i) else endpos)
      invariant i < len ==> Dec(rest) == digits[..len - i]
      invariant Tail(digits, str[..], endpos, endpos - 1 - j)
      invariant endpos < size ==> str[size] == old(str[size])
    {
      if i + 1 < len {
        AtMonotone(i + 1, len - 1);
      }
      AtNext(i);
      LastDigit(rest);
      var d := rest % 10;
      rest := rest / 10;
      MarkDigit(digits, i);
      TailGrows(digits, str[..], endpos, At(i));
      ghost var was := str[..];
      str[j] := Digit(d);
      assert str[..] == was[j := Digit(d)];
      j := j - 1;
      if i % 3 == 2 {
        if j >= 0 {
          MarkComma(digits, i);
          TailGrows(digits, str[..], endpos, At(i) + 1);
          was := str[..];
          str[j] := ',';
          assert str[..] == was[j := ','];
          j := j - 1;
        }
      }
    }
    TailIsAll(digits, str[..], endpos);
    assert str[endpos] == str[..][endpos];
    assert str[..][..endpos] == str[..endpos];
    return true;
  }

  /** The last w places of the print, and the terminator, are written. */
  ghost predicate Tail(digits: string, s: string, endpos: nat, w: nat) {
    && |digits| > 0 && w <= endpos == Width(|digits|) && endpos < |s| && s[endpos] == '\0'
    && forall q {:trigger Mark(digits, q)} :: 0 <= q < w ==> s[endpos - 1 - q] == Mark(digits, q)
  }

  lemma TailStarts(digits: string, s: string, endpos: nat)
    requires |digits| > 0 && endpos == Width(|digits|) && endpos < |s| && s[endpos] == '\0'
    ensures Tail(digits, s, endpos, 0)
  {
  }

  lemma TailGrows(digits: string, s: string, endpos: nat, w: nat)
    requires Tail(digits, s, endpos, w) && w < endpos
    ensures Tail(digits, s[endpos - 1 - w := Mark(digits, w)], endpos, w + 1)
  {
    hide Mark;
  }

  lemma TailIsAll(digits: string, s: string, endpos: nat)
    requires Tail(digits, s, endpos, endpos)
    ensures Groups(digits, s[..endpos]) && s[endpos] == '\0'
  {
    hide Mark;
  }

  lemma WidthIs(len: nat)
    requires len > 0
    ensures Width(len) == len + (len - 1) / 3
  {
  }

  lemma LastDigit(x: nat)
    ensures Dec(x)[|Dec(x)| - 1] == Digit(x % 10)
    ensures |Dec(x)| > 1 ==> Dec(x / 10) == Dec(x)[..|Dec(x)| - 1]
  {
  }

  /** In a buffer of 32 every 64-bit number is printed, and reading the print back gives the number. */
  lemma FormatRoundTrip(x: nat, str: string)
    requires x < U64
    ensures Width(|Dec(x)|) <= 26
    ensures Groups(Dec(x), str) ==> Value(WithoutCommas(str)) == x
  {
    DecLength(x);
    if Groups(Dec(x), str) {
      GroupsStrip(Dec(x), str);
      DecRoundTrip(x);
    }
  }
}
