/** ASCII case mapping and decimal printing, shared by several components. */
module Text {

  predicate IsUpper(c: char) { 'A' <= c <= 'Z' }

  predicate IsLower(c: char) { 'a' <= c <= 'z' }

  predicate IsDigit(c: char) { '0' <= c <= '9' }

  function ToLower(c: char): (l: char)
    ensures !IsUpper(l)
    ensures IsUpper(c) ==> IsLower(l)
    ensures !IsUpper(c) ==> l == c
  {
    if IsUpper(c) then c - 'A' + 'a' else c
  }

  function ToUpper(c: char): (u: char)
    ensures !IsLower(u)
    ensures IsLower(c) ==> IsUpper(u)
    ensures !IsLower(c) ==> u == c
  {
    if IsLower(c) then c - 'a' + 'A' else c
  }

  lemma CaseInverse(c: char)
    ensures IsUpper(c) ==> ToUpper(ToLower(c)) == c
    ensures IsLower(c) ==> ToLower(ToUpper(c)) == c
  {
  }

  /** `str.lower()` on ASCII text. */
  function Lower(s: string): string {
    if s == "" then "" else [ToLower(s[0])] + Lower(s[1..])
  }

  lemma LowerStep(s: string)
    requires s != ""
    ensures Lower(s) == [ToLower(s[0])] + Lower(s[1..])
  {
  }

  lemma {:induction false} LowerAppend(s: string, t: string)
    ensures Lower(s + t) == Lower(s) + Lower(t)
  {
    if s == "" {
      assert s + t == t;
    } else {
      hide ToLower;
      LowerAppend(s[1..], t);
      assert (s + t)[0] == s[0] && (s + t)[1..] == s[1..] + t;
      LowerStep(s);
      LowerStep(s + t);
      assert [ToLower(s[0])] + (Lower(s[1..]) + Lower(t)) == [ToLower(s[0])] + Lower(s[1..]) + Lower(t);
    }
  }

  lemma {:induction false} LowerTwice(s: string)
    ensures Lower(Lower(s)) == Lower(s)
  {
    if s != "" {
      LowerTwice(s[1..]);
      assert Lower(s)[1..] == Lower(s[1..]);
    }
  }

  /** `str(n)` for a non-negative integer. */
  function Decimal(n: nat): (s: string)
    ensures |s| > 0 && forall c :: c in s ==> IsDigit(c)
  {
    if n < 10 then ['0' + n as char] else Decimal(n / 10) + ['0' + (n % 10) as char]
  }

  /** Reading a decimal numeral back. */
  function Value(s: string): int {
    if s == "" then 0 else 10 * Value(s[..|s| - 1]) + (s[|s| - 1] as int - '0' as int)
  }

  lemma {:induction false} ValueOfDecimal(n: nat)
    ensures Value(Decimal(n)) == n
  {
    if n >= 10 {
      ValueOfDecimal(n / 10);
      assert Decimal(n)[..|Decimal(n)| - 1] == Decimal(n / 10);
    } else {
      assert Decimal(n)[..0] == "";
    }
  }

  lemma DecimalInjective(m: nat, n: nat)
    requires Decimal(m) == Decimal(n)
    ensures m == n
  {
    ValueOfDecimal(m);
    ValueOfDecimal(n);
  }
}
