/** The postal-code (CEP) checks of the two services.

    Strings stand for Go strings: each char is one byte, so `|s|` is Go's `len(s)`.
    Go's RE2 `\d` matches only the ASCII digits, and every ASCII digit is a single
    byte, so checking byte by byte agrees with the regexp engine's rune view. */
module ZipCode {

  predicate IsDigit(c: char)
  {
    '0' <= c <= '9'
  }

  predicate AllDigits(s: string)
  {
    forall i | 0 <= i < |s| :: IsDigit(s[i])
  }

  /** Whether the pattern tail `\d{n}$` matches the whole of `s`: n digits, then the
      end of the text. Without the `m` flag Go's `$` holds only at the very end of
      the text, never before a final newline. */
  predicate DigitsThenEnd(s: string, n: nat)
    decreases n
  {
    if n == 0 then |s| == 0
    else |s| > 0 && IsDigit(s[0]) && DigitsThenEnd(s[1..], n - 1)
  }

  /** A match of `^\d{8}$` starting at offset i: `^` holds only at offset 0. */
  predicate MatchesAt(s: string, i: nat)
    requires i <= |s|
  {
    i == 0 && DigitsThenEnd(s[i..], 8)
  }

  /** isValidZipCode: regexp.MatchString looks for a match at any offset. */
  predicate IsValidZipCode(s: string)
  {
    exists i: nat | i <= |s| :: MatchesAt(s, i)
  }

  /** The resolution service's only check on the code it is given. */
  predicate HasZipCodeLength(s: string)
  {
    |s| == 8
  }

  lemma {:induction false} DigitsThenEndExactly(s: string, n: nat)
    ensures DigitsThenEnd(s, n) <==> |s| == n && AllDigits(s)
    decreases n
  {
    if n > 0 && |s| > 0 {
      DigitsThenEndExactly(s[1..], n - 1);
      if IsDigit(s[0]) && AllDigits(s[1..]) {
        forall i | 0 < i < |s|
          ensures IsDigit(s[i])
        {
          assert s[i] == s[1..][i - 1];
        }
      }
      if AllDigits(s) {
        forall i | 0 <= i < |s| - 1
          ensures IsDigit(s[1..][i])
        {
          assert s[1..][i] == s[i + 1];
        }
      }
    }
  }

  /** The validator accepts exactly the strings of eight ASCII digits. */
  lemma IsValidZipCodeExactly(s: string)
    ensures IsValidZipCode(s) <==> |s| == 8 && AllDigits(s)
  {
    DigitsThenEndExactly(s, 8);
    assert s[0..] == s;
    if |s| == 8 && AllDigits(s) {
      assert MatchesAt(s, 0);
    }
  }

  /** `$` is not multi-line: a code followed by a newline is refused. */
  lemma TrailingNewlineRejected(s: string)
    ensures !IsValidZipCode(s + "\n")
  {
    IsValidZipCodeExactly(s + "\n");
    assert (s + "\n")[|s|] == '\n';
  }

  /** Separators are not stripped: any code holding a non-digit, such as the
      hyphenated `01310-900`, is refused. */
  lemma NonDigitRejected(s: string, i: nat)
    requires i < |s| && !IsDigit(s[i])
    ensures !IsValidZipCode(s)
  {
    IsValidZipCodeExactly(s);
  }

  /** Every code the entry service accepts passes the resolution service's check ... */
  lemma ValidCodeHasZipCodeLength(s: string)
    ensures IsValidZipCode(s) ==> HasZipCodeLength(s)
  {
    IsValidZipCodeExactly(s);
  }

  /** ... but not conversely: any eight bytes pass the length check. */
  lemma LengthCheckAdmitsNonDigits()
    ensures HasZipCodeLength("abcdefgh") && !IsValidZipCode("abcdefgh")
  {
    IsValidZipCodeExactly("abcdefgh");
    assert !IsDigit("abcdefgh"[0]);
  }
}
