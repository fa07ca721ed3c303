/** Strings as the service code uses them: substring tests (`pat in s`),
    lower-casing before phrase matches, and decimal digits for `str(int)`
    and date formatting. */
module Text {

  /** `pat` occurs in `s` at index `i`. */
  ghost predicate OccursAt(s: string, pat: string, i: int)
  {
    0 <= i && i + |pat| <= |s| && s[i..i + |pat|] == pat
  }

  /** Python's `pat in s` on two strings: some suffix of `s` starts with `pat`. */
  predicate HasSubstring(s: string, pat: string)
    decreases |s|
  {
    pat <= s || (|s| > 0 && HasSubstring(s[1..], pat))
  }

  /** The search above finds an occurrence exactly when one exists. */
  lemma {:induction false} HasSubstringIffOccurs(s: string, pat: string)
    ensures HasSubstring(s, pat) <==> exists i :: OccursAt(s, pat, i)
    decreases |s|
  {
    if pat <= s {
      assert s[0..|pat|] == pat;
      assert OccursAt(s, pat, 0);
    } else if |s| > 0 {
      HasSubstringIffOccurs(s[1..], pat);
      if HasSubstring(s[1..], pat) {
        var i :| OccursAt(s[1..], pat, i);
        assert s[i + 1..i + 1 + |pat|] == s[1..][i..i + |pat|];
        assert OccursAt(s, pat, i + 1);
      } else {
        forall i | OccursAt(s, pat, i) && i > 0 ensures false {
          assert s[1..][i - 1..i - 1 + |pat|] == s[i..i + |pat|];
          assert OccursAt(s[1..], pat, i - 1);
        }
      }
    }
  }

  /** ASCII upper-case letters fold to lower case; every other character is kept. */
  function LowerChar(c: char): char
  {
    if 'A' <= c <= 'Z' then (c as int - 'A' as int + 'a' as int) as char else c
  }

  /** `s.lower()` restricted to the ASCII fold (see README). */
  function Lower(s: string): (r: string)
    ensures |r| == |s|
    ensures forall i :: 0 <= i < |s| ==> !('A' <= r[i] <= 'Z')
    ensures forall i :: 0 <= i < |s| ==> (r[i] == s[i] <==> !('A' <= s[i] <= 'Z'))
    ensures forall i :: 0 <= i < |s| && 'A' <= s[i] <= 'Z' ==> r[i] as int - s[i] as int == 'a' as int - 'A' as int
  {
    seq(|s|, i requires 0 <= i < |s| => LowerChar(s[i]))
  }

  /** Lower-casing twice is lower-casing once. */
  lemma LowerIdempotent(s: string)
    ensures Lower(Lower(s)) == Lower(s)
  {
    var once := Lower(s);
    assert forall i :: 0 <= i < |once| ==> Lower(once)[i] == once[i];
  }

  predicate IsDigit(c: char)
  {
    '0' <= c <= '9'
  }

  predicate AllDigits(s: string)
  {
    forall i :: 0 <= i < |s| ==> IsDigit(s[i])
  }

  function DigitChar(d: nat): (c: char)
    requires d < 10
    ensures IsDigit(c)
  {
    ('0' as int + d) as char
  }

  /** The number a string of decimal digits denotes (most significant first). */
  function DigitsValue(s: string): nat
    requires AllDigits(s)
  {
    if s == [] then 0
    else DigitsValue(s[..|s| - 1]) * 10 + (s[|s| - 1] as int - '0' as int)
  }

  function Pow10(k: nat): (r: nat)
    ensures r >= 1
  {
    if k == 0 then 1 else 10 * Pow10(k - 1)
  }

  /** The shortest decimal numeral of `n`, as `str(n)` writes it. */
  function Digits(n: nat): (r: string)
    ensures 1 <= |r| && AllDigits(r)
    ensures DigitsValue(r) == n
    ensures n >= 10 ==> r[0] != '0'
    ensures r[0] == '0' ==> r == "0"
    decreases n
  {
    if n < 10 then [DigitChar(n)]
    else
      var prefix := Digits(n / 10);
      var r := prefix + [DigitChar(n % 10)];
      assert r[..|r| - 1] == prefix;
      r
  }

  /** A number below 10^w needs at most w digits. */
  lemma {:induction false} DigitsFit(n: nat, w: nat)
    requires 1 <= w && n < Pow10(w)
    ensures |Digits(n)| <= w
    decreases w
  {
    if n >= 10 {
      assert w > 1;
      DigitsFit(n / 10, w - 1);
    }
  }

  /** Leading zeros do not change the value of a numeral. */
  lemma {:induction false} ZerosValue(k: nat, s: string)
    requires AllDigits(s)
    ensures AllDigits(seq(k, _ => '0') + s)
    ensures DigitsValue(seq(k, _ => '0') + s) == DigitsValue(s)
    decreases |s|
  {
    var z := seq(k, _ => '0');
    if s == [] {
      assert z + s == z;
      ZerosOnly(k);
    } else {
      var t := z + s;
      assert t[..|t| - 1] == z + s[..|s| - 1];
      ZerosValue(k, s[..|s| - 1]);
    }
  }

  lemma {:induction false} ZerosOnly(k: nat)
    ensures AllDigits(seq(k, _ => '0'))
    ensures DigitsValue(seq(k, _ => '0')) == 0
  {
    if k > 0 {
      assert seq(k, _ => '0')[..k - 1] == seq(k - 1, _ => '0');
      ZerosOnly(k - 1);
    }
  }

  /** `n` written with at least `w` digits, padded with leading zeros
      (printf's `%0wd` for a non-negative number). */
  function ZeroPad(n: nat, w: nat): (r: string)
    ensures AllDigits(r) && DigitsValue(r) == n
    ensures |r| == if |Digits(n)| >= w then |Digits(n)| else w
  {
    var d := Digits(n);
    var r := if |d| >= w then d else seq(w - |d|, _ => '0') + d;
    ZerosValue(if |d| >= w then 0 else w - |d|, d);
    assert |d| >= w ==> seq(0, _ => '0') + d == d;
    r
  }

  /** `str(i)` for a Python int. */
  function IntToString(i: int): (r: string)
    ensures i >= 0 ==> AllDigits(r) && DigitsValue(r) == i
    ensures i >= 0 ==> 1 <= |r| && (r[0] == '0' ==> r == "0")
    ensures i < 0 ==> |r| >= 2 && r[0] == '-' && AllDigits(r[1..]) && DigitsValue(r[1..]) == -i
    ensures i < 0 ==> r[1] != '0'
  {
    if i >= 0 then Digits(i)
    else
      var r := "-" + Digits(-i);
      assert r[1..] == Digits(-i);
      r
  }
}
