/**
 * String helpers that stand for the Python string operations the add-on uses:
 * the substring test `sub in s`, the first match of the regular expression
 * `"([^"]*)"`, `os.path.join`, `str(int)` and the `%03d` field of a file
 * name pattern.
 */
module Text {
  import opened Wrappers

  /** Python's `sub in s` on strings: `sub` occurs somewhere in `s`. */
  predicate Contains(s: string, sub: string) {
    exists i | 0 <= i <= |s| - |sub| :: OccursAt(s, sub, i)
  }

  /** `sub` occurs in `s` starting at index `i`. */
  predicate OccursAt(s: string, sub: string, i: nat) {
    i + |sub| <= |s| && s[i..i + |sub|] == sub
  }

  /** The index of the first occurrence of `c` in `s`, if any. */
  function IndexOf(s: string, c: char): (r: Option<nat>)
    ensures r.Some? ==> r.value < |s| && s[r.value] == c && c !in s[..r.value]
    ensures r.None? <==> c !in s
  {
    if |s| == 0 then None
    else if s[0] == c then Some(0)
    else match IndexOf(s[1..], c)
      case None => None
      case Some(k) => assert s[..k + 1] == [s[0]] + s[1..][..k]; Some(k + 1)
  }

  /**
   * The first match of the pattern `"([^"]*)"`, i.e. `re.findall(...)[0]`:
   * the text between the first and the second double quote. There is no match
   * (findall gives an empty list) when `s` holds fewer than two quotes.
   */
  function FirstQuoted(s: string): (r: Option<string>)
    ensures r.Some? ==> |r.value| + 2 <= |s|
  {
    match IndexOf(s, '"')
    case None => None
    case Some(i) =>
      match IndexOf(s[i + 1..], '"')
      case None => None
      case Some(k) => Some(s[i + 1..i + 1 + k])
  }

  /** FirstQuoted finds a match exactly when `s` holds two quotes. */
  lemma FirstQuotedFound(s: string)
    ensures FirstQuoted(s).Some? <==> exists i, j :: 0 <= i < j < |s| && s[i] == '"' && s[j] == '"'
  {
    match IndexOf(s, '"')
    case None =>
    case Some(i) =>
      var rest := s[i + 1..];
      match IndexOf(rest, '"')
      case None =>
        forall b | i < b < |s| ensures s[b] != '"' {
          assert rest[b - i - 1] == s[b];
        }
        forall a | 0 <= a < i ensures s[a] != '"' {
          assert s[..i][a] == s[a];
        }
      case Some(k) =>
        assert rest[k] == s[i + 1 + k];
        assert 0 <= i < i + 1 + k < |s| && s[i] == '"' && s[i + 1 + k] == '"';
  }

  /** The match is the quote-free text right after the first quote, up to the next one. */
  lemma FirstQuotedText(s: string)
    requires FirstQuoted(s).Some?
    ensures var q := FirstQuoted(s).value;
            exists i :: 0 <= i && i + |q| + 1 < |s|
              && s[i] == '"' && '"' !in s[..i]
              && s[i + 1..i + 1 + |q|] == q
              && '"' !in q
              && s[i + 1 + |q|] == '"'
  {
    var i := IndexOf(s, '"').value;
    var rest := s[i + 1..];
    var k := IndexOf(rest, '"').value;
    var q := s[i + 1..i + 1 + k];
    assert FirstQuoted(s) == Some(q);
    assert rest[k] == s[i + 1 + k];
    assert rest[..k] == q;
  }

  /** `os.path.join(dir, name)` for a directory that does not end in a separator. */
  function Join(dir: string, name: string): string {
    dir + "/" + name
  }

  function DigitChar(d: nat): (c: char)
    requires d < 10
    ensures '0' <= c <= '9'
  {
    "0123456789"[d]
  }

  function DigitValue(c: char): (d: nat)
    requires '0' <= c <= '9'
    ensures d < 10 && DigitChar(d) == c
  {
    (c as int - '0' as int) as nat
  }

  predicate IsDigits(s: string) {
    forall i | 0 <= i < |s| :: '0' <= s[i] <= '9'
  }

  /** `str(n)` for a non-negative integer: its decimal digits, no leading zero. */
  function NatToString(n: nat): (r: string)
    ensures |r| > 0 && IsDigits(r)
    ensures r[0] == '0' ==> n == 0
    ensures (n < 10 <==> |r| == 1) && (n < 100 <==> |r| <= 2) && (n < 1000 <==> |r| <= 3)
  {
    if n < 10 then [DigitChar(n)] else NatToString(n / 10) + [DigitChar(n % 10)]
  }

  /** `str(n)` for any integer. */
  function IntToString(n: int): (r: string)
    ensures |r| > 0
    ensures n < 0 <==> r[0] == '-'
  {
    if n < 0 then "-" + NatToString(-n) else NatToString(n)
  }

  /** Reads a string of decimal digits back as a number. */
  function ParseNat(s: string): (n: nat)
    requires IsDigits(s)
  {
    if |s| == 0 then 0 else 10 * ParseNat(s[..|s| - 1]) + DigitValue(s[|s| - 1])
  }

  /** Reads the result of `str(n)` back. */
  function ParseInt(s: string): int
    requires |s| > 0
    requires s[0] == '-' ==> IsDigits(s[1..])
    requires s[0] != '-' ==> IsDigits(s)
  {
    if s[0] == '-' then -(ParseNat(s[1..]) as int) else ParseNat(s)
  }

  lemma {:induction false} NatToStringRoundTrip(n: nat)
    ensures ParseNat(NatToString(n)) == n
  {
    if n >= 10 {
      var s := NatToString(n);
      assert s[..|s| - 1] == NatToString(n / 10);
      NatToStringRoundTrip(n / 10);
    }
  }

  /** `str` loses nothing: the decimal text of `n` reads back as `n`. */
  lemma {:induction false} IntToStringRoundTrip(n: int)
    ensures var s := IntToString(n); (s[0] == '-' ==> IsDigits(s[1..])) && (s[0] != '-' ==> IsDigits(s))
    ensures ParseInt(IntToString(n)) == n
  {
    var s := IntToString(n);
    if n < 0 {
      var d := NatToString(-n);
      assert s == "-" + d;
      assert s[1..] == d;
      NatToStringRoundTrip(-n);
    } else {
      assert s == NatToString(n);
      assert s[0] != '-';
      NatToStringRoundTrip(n);
    }
  }

  /** Different numbers are printed differently. */
  lemma {:induction false} IntToStringInjective(m: int, n: int)
    ensures IntToString(m) == IntToString(n) ==> m == n
  {
    IntToStringRoundTrip(m);
    IntToStringRoundTrip(n);
  }

  /** The `%03d` field: decimal digits padded with zeros to at least three characters. */
  function Pad3(n: nat): (r: string)
    ensures |r| >= 3 && IsDigits(r)
    ensures n < 1000 ==> |r| == 3
  {
    var d := NatToString(n);
    if n < 10 then "00" + d
    else if n < 100 then "0" + d
    else d
  }

  /** A leading zero does not change the value of a digit string. */
  lemma {:induction false} LeadingZero(s: string)
    requires IsDigits(s)
    ensures IsDigits("0" + s) && ParseNat("0" + s) == ParseNat(s)
    decreases |s|
  {
    var z := "0" + s;
    assert IsDigits(z) by {
      forall i | 0 <= i < |z| ensures '0' <= z[i] <= '9' {
        if i > 0 { assert z[i] == s[i - 1]; }
      }
    }
    if |s| > 0 {
      var init := s[..|s| - 1];
      assert z[..|z| - 1] == "0" + init;
      assert z[|z| - 1] == s[|s| - 1];
      LeadingZero(init);
    } else {
      assert z[..|z| - 1] == [];
    }
  }

  /** The padded field reads back as the number it was made from. */
  lemma Pad3RoundTrip(n: nat)
    ensures ParseNat(Pad3(n)) == n
  {
    var d := NatToString(n);
    NatToStringRoundTrip(n);
    if n < 10 {
      LeadingZero(d);
      LeadingZero("0" + d);
      assert "00" + d == "0" + ("0" + d);
    } else if n < 100 {
      LeadingZero(d);
    }
  }
}
