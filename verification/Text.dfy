/** The little text handling that the models share. */
module Text {

  predicate IsWhiteSpace(c: char) {
    || '\t' <= c <= '\r' || c == ' ' || c == '\U{85}' || c == '\U{A0}' || c == '\U{1680}'
    || '\U{2000}' <= c <= '\U{200A}' || c == '\U{2028}' || c == '\U{2029}' || c == '\U{202F}'
    || c == '\U{205F}' || c == '\U{3000}'
  }

  /** White space by code points: the 25 characters that count as such. */
  lemma WhiteSpaceExact(c: char)
    ensures IsWhiteSpace(c) <==>
      c as int in {9, 10, 11, 12, 13, 32, 133, 160, 5760,
                   8192, 8193, 8194, 8195, 8196, 8197, 8198, 8199, 8200, 8201, 8202,
                   8232, 8233, 8239, 8287, 12288}
  {
  }

  predicate IsBlank(s: string) {
    forall c | c in s :: IsWhiteSpace(c)
  }

  function TrimEnd(s: string): (t: string)
    ensures t <= s && (t == [] || !IsWhiteSpace(t[|t| - 1]))
  {
    if s == [] || !IsWhiteSpace(s[|s| - 1]) then s else TrimEnd(s[..|s| - 1])
  }

  function TrimStart(s: string): (t: string)
    ensures |t| <= |s| && t == s[|s| - |t|..] && (t == [] || !IsWhiteSpace(t[0]))
  {
    if s == [] || !IsWhiteSpace(s[0]) then s else TrimStart(s[1..])
  }

  function Trim(s: string): (t: string)
    ensures t == [] || (!IsWhiteSpace(t[0]) && !IsWhiteSpace(t[|t| - 1]))
  {
    TrimEnd(TrimStart(s))
  }

  function Digit(d: nat): char
    requires d < 10
  {
    "0123456789"[d]
  }

  function Decimal(n: nat): string {
    if n < 10 then [Digit(n)] else Decimal(n / 10) + [Digit(n % 10)]
  }

  predicate IsDigit(c: char) {
    '0' <= c <= '9'
  }

  /** The number that a text of digits stands for. */
  function ValueOf(s: string): nat
    requires forall c | c in s :: IsDigit(c)
  {
    if s == [] then 0
    else
      assert IsDigit(s[|s| - 1]);
      10 * ValueOf(s[..|s| - 1]) + (s[|s| - 1] as int - '0' as int)
  }

  lemma DigitReads(d: nat)
    requires d < 10
    ensures IsDigit(Digit(d)) && Digit(d) as int - '0' as int == d
  {
  }

  /** A number is written with digits only, without a leading zero, and reads back as itself. */
  lemma {:induction false} DecimalReads(n: nat)
    ensures Decimal(n) != [] && forall c | c in Decimal(n) :: IsDigit(c)
    ensures ValueOf(Decimal(n)) == n
    ensures n > 0 ==> Decimal(n)[0] != '0'
    ensures n == 0 ==> Decimal(n) == "0"
  {
    DigitReads(n % 10);
    if n >= 10 {
      DecimalReads(n / 10);
      assert Decimal(n)[..|Decimal(n)| - 1] == Decimal(n / 10);
    } else {
      assert Decimal(n)[..0] == [];
    }
  }

  lemma DecimalInjective(m: nat, n: nat)
    ensures Decimal(m) == Decimal(n) <==> m == n
  {
    DecimalReads(m);
    DecimalReads(n);
  }

  /** Trimming takes white space from both ends, as much as there is, and nothing else. */
  lemma TrimExact(s: string) returns (i: nat, j: nat)
    ensures i <= j <= |s| && Trim(s) == s[i..j]
    ensures forall k | 0 <= k < i || j <= k < |s| :: IsWhiteSpace(s[k])
  {
    i := TrimStartAt(s);
    var n := TrimEndAt(TrimStart(s));
    j := i + n;
    EndsCut(s, TrimStart(s), Trim(s), i, n);
  }

  lemma EndsCut(s: string, rest: string, core: string, i: nat, n: nat)
    requires i <= |s| && rest == s[i..] && n <= |rest| && core == rest[..n]
    requires forall k | n <= k < |rest| :: IsWhiteSpace(rest[k])
    ensures core == s[i..i + n]
    ensures forall k | i + n <= k < |s| :: IsWhiteSpace(s[k])
  {
    forall k | i + n <= k < |s|
      ensures IsWhiteSpace(s[k])
    {
      assert rest[k - i] == s[k];
    }
  }

  lemma TrimStartAt(s: string) returns (i: nat)
    ensures i <= |s| && TrimStart(s) == s[i..] && forall k | 0 <= k < i :: IsWhiteSpace(s[k])
  {
    i := |s| - |TrimStart(s)|;
    forall k | 0 <= k < i
      ensures IsWhiteSpace(s[k])
    {
      TrimStartTakes(s, k);
    }
  }

  lemma TrimEndAt(s: string) returns (j: nat)
    ensures j <= |s| && TrimEnd(s) == s[..j] && forall k | j <= k < |s| :: IsWhiteSpace(s[k])
  {
    j := |TrimEnd(s)|;
    forall k | j <= k < |s|
      ensures IsWhiteSpace(s[k])
    {
      TrimEndTakes(s, k);
    }
  }

  lemma {:induction false} TrimStartTakes(s: string, i: nat)
    requires i < |s| - |TrimStart(s)|
    ensures IsWhiteSpace(s[i])
    decreases |s|
  {
    if i > 0 {
      TrimStartTakes(s[1..], i - 1);
    }
  }

  lemma {:induction false} TrimEndTakes(s: string, i: nat)
    requires |TrimEnd(s)| <= i < |s|
    ensures IsWhiteSpace(s[i])
    decreases |s|
  {
    if i < |s| - 1 {
      TrimEndTakes(s[..|s| - 1], i);
    }
  }
}
