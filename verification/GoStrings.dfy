/**
 The part of Go's `strings` and `strconv` packages that the modelled code relies on.
 A Go string is modelled as the sequence of its code points.
 */
module GoStrings {

  datatype Option<+T> = None | Some(value: T)

  // The code points with the Unicode White_Space property.
  predicate IsSpace(c: char) {
    var n := c as int;
    || 0x09 <= n <= 0x0D
    || n == 0x20 || n == 0x85 || n == 0xA0 || n == 0x1680
    || 0x2000 <= n <= 0x200A
    || n == 0x2028 || n == 0x2029 || n == 0x202F || n == 0x205F || n == 0x3000
  }

  function TrimLeft(s: string): string {
    if s != "" && IsSpace(s[0]) then TrimLeft(s[1..]) else s
  }

  function TrimRight(s: string): string {
    if s != "" && IsSpace(s[|s| - 1]) then TrimRight(s[..|s| - 1]) else s
  }

  function TrimSpace(s: string): string {
    TrimRight(TrimLeft(s))
  }

  predicate Trimmed(s: string) {
    s == "" || (!IsSpace(s[0]) && !IsSpace(s[|s| - 1]))
  }

  lemma {:induction false} TrimLeftShape(s: string)
    ensures |TrimLeft(s)| <= |s| && TrimLeft(s) == s[|s| - |TrimLeft(s)|..]
    ensures TrimLeft(s) == "" || !IsSpace(TrimLeft(s)[0])
  {
    if s != "" && IsSpace(s[0]) {
      TrimLeftShape(s[1..]);
    }
  }

  lemma {:induction false} TrimRightShape(s: string)
    ensures TrimRight(s) <= s
    ensures TrimRight(s) == "" || !IsSpace(TrimRight(s)[|TrimRight(s)| - 1])
  {
    if s != "" && IsSpace(s[|s| - 1]) {
      TrimRightShape(s[..|s| - 1]);
    }
  }

  lemma TrimSpaceTrims(s: string)
    ensures Trimmed(TrimSpace(s))
  {
    TrimLeftShape(s);
    TrimRightShape(TrimLeft(s));
  }

  lemma TrimSpaceFixed(s: string)
    ensures TrimSpace(s) == s <==> Trimmed(s)
  {
    TrimSpaceTrims(s);
  }

  predicate HasPrefix(s: string, p: string) {
    p <= s
  }

  predicate HasSuffix(s: string, p: string) {
    |p| <= |s| && s[|s| - |p|..] == p
  }

  function TrimPrefix(s: string, p: string): string {
    if HasPrefix(s, p) then s[|p|..] else s
  }

  function TrimSuffix(s: string, p: string): string {
    if HasSuffix(s, p) then s[..|s| - |p|] else s
  }

  predicate Contains(s: string, p: string) {
    exists i :: 0 <= i <= |s| - |p| && s[i..][..|p|] == p
  }

  // The first index of c in s, or -1.
  function Index(s: string, c: char): int {
    if s == "" then -1
    else if s[0] == c then 0
    else
      var i := Index(s[1..], c);
      if i < 0 then -1 else i + 1
  }

  lemma {:induction false} IndexAfterPrefix(s: string, c: char, t: string)
    requires c !in s
    ensures Index(s + [c] + t, c) == |s|
  {
    if s == "" {
      assert ("" + [c] + t)[0] == c;
    } else {
      var whole := s + [c] + t;
      assert whole[0] == s[0] && s[0] in s;
      assert whole[1..] == s[1..] + [c] + t;
      IndexAfterPrefix(s[1..], c, t);
    }
  }

  lemma {:induction false} IndexIsFirst(s: string, c: char)
    ensures -1 <= Index(s, c) < |s|
    ensures Index(s, c) == -1 <==> c !in s
    ensures Index(s, c) >= 0 ==> s[Index(s, c)] == c && c !in s[..Index(s, c)]
  {
    if s != "" && s[0] != c {
      IndexIsFirst(s[1..], c);
      assert s == [s[0]] + s[1..];
      var i := Index(s[1..], c);
      if i >= 0 {
        assert s[..i + 1] == [s[0]] + s[1..][..i];
      }
    }
  }

  // The last index of c in s, or -1.
  function LastIndex(s: string, c: char): (i: int)
    ensures -1 <= i < |s|
  {
    if s == "" then -1
    else if s[|s| - 1] == c then |s| - 1
    else LastIndex(s[..|s| - 1], c)
  }

  lemma {:induction false} LastIndexBeforeSuffix(s: string, c: char, t: string)
    requires c !in t
    ensures LastIndex(s + [c] + t, c) == |s|
  {
    var whole := s + [c] + t;
    if t == "" {
      assert whole[|whole| - 1] == c;
    } else {
      assert whole[|whole| - 1] == t[|t| - 1] && t[|t| - 1] in t;
      assert whole[..|whole| - 1] == s + [c] + t[..|t| - 1];
      LastIndexBeforeSuffix(s, c, t[..|t| - 1]);
    }
  }

  // Lower-casing, as far as a comparison with an ASCII string can see it: besides A-Z
  // only U+0130 and U+212A lower to an ASCII letter.
  function LowerChar(c: char): char {
    if 'A' <= c <= 'Z' then (c as int + 32) as char
    else if c as int == 0x130 then 'i'
    else if c as int == 0x212A then 'k'
    else c
  }

  function ToLower(s: string): (r: string)
    ensures |r| == |s|
    ensures forall i :: 0 <= i < |s| ==> r[i] == LowerChar(s[i])
  {
    seq(|s|, i requires 0 <= i < |s| => LowerChar(s[i]))
  }

  function Digit(n: nat): char
    requires n < 10
  {
    "0123456789"[n]
  }

  predicate IsDigit(c: char) {
    '0' <= c <= '9'
  }

  // The decimal text of n, as printed by %d.
  function Itoa(n: nat): string {
    if n < 10 then [Digit(n)] else Itoa(n / 10) + [Digit(n % 10)]
  }

  lemma {:induction false} ItoaDigits(n: nat)
    ensures Itoa(n) != ""
    ensures forall c :: c in Itoa(n) ==> IsDigit(c)
  {
    if n >= 10 {
      ItoaDigits(n / 10);
    }
  }

  lemma {:induction false} ItoaInjective(m: nat, n: nat)
    requires Itoa(m) == Itoa(n)
    ensures m == n
    decreases m + n
  {
    hide *;
    ItoaLast(m);
    ItoaLast(n);
    DigitInjective(m % 10, n % 10);
    if m >= 10 || n >= 10 {
      ItoaDigits(m / 10);
      ItoaDigits(n / 10);
      ItoaInjective(m / 10, n / 10);
    }
    assert m == 10 * (m / 10) + m % 10 && n == 10 * (n / 10) + n % 10;
  }

  lemma DigitInjective(a: nat, b: nat)
    requires a < 10 && b < 10 && Digit(a) == Digit(b)
    ensures a == b
  {
  }

  lemma ItoaLast(n: nat)
    ensures Itoa(n) != "" && Itoa(n)[|Itoa(n)| - 1] == Digit(n % 10)
    ensures Itoa(n)[..|Itoa(n)| - 1] == if n < 10 then "" else Itoa(n / 10)
  {
  }

  // Two strings cut at the last occurrence of c are equal only piece by piece.
  lemma CutAtLast(a: string, b: string, c: char, x: string, y: string)
    requires a + [c] + x == b + [c] + y
    requires c !in x && c !in y
    ensures a == b && x == y
  {
    LastIndexBeforeSuffix(a, c, x);
    LastIndexBeforeSuffix(b, c, y);
    var whole := a + [c] + x;
    assert whole[..|a|] == a && whole[|a| + 1..] == x;
    assert whole[..|b|] == b && whole[|b| + 1..] == y;
  }
}
