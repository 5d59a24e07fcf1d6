/** Pairing codes as they are shown and typed (internal/protocol/types.go). The
    source works on bytes: here a string has one character per byte. */
module PairCode {

  predicate IsDigit(c: char) { '0' <= c <= '9' }

  predicate AllDigits(s: string) { forall i | 0 <= i < |s| :: IsDigit(s[i]) }

  /** The digits of `s`, in order. */
  function Digits(s: string): string {
    if s == "" then ""
    else if IsDigit(s[|s| - 1]) then Digits(s[..|s| - 1]) + [s[|s| - 1]]
    else Digits(s[..|s| - 1])
  }

  method NormalizePairCode(s: string) returns (out: string)
    ensures out == Digits(s)
  {
    out := "";
    for i := 0 to |s|
      invariant out == Digits(s[..i])
    {
      assert s[..i + 1][..i] == s[..i];
      if '0' <= s[i] <= '9' {
        out := out + [s[i]];
      }
    }
    assert s[..|s|] == s;
  }

  function FormatPairCode(code: string): string {
    if |code| != 6 then code else code[..3] + " " + code[3..]
  }

  lemma {:induction false} DigitsAppend(a: string, b: string)
    ensures Digits(a + b) == Digits(a) + Digits(b)
  {
    if b == "" {
      assert a + b == a;
    } else {
      DigitsAppend(a, b[..|b| - 1]);
      assert (a + b)[..|a + b| - 1] == a + b[..|b| - 1];
    }
  }

  lemma {:induction false} DigitsOfDigits(s: string)
    ensures AllDigits(Digits(s)) && (AllDigits(s) <==> Digits(s) == s)
    ensures |Digits(s)| <= |s|
  {
    if s != "" {
      DigitsOfDigits(s[..|s| - 1]);
    }
  }

  /** Typing a code as it is displayed approves the session that the code itself
      would: display and spaces are undone, and a code of digits comes back. */
  lemma DisplayedCodeIsTheCode(code: string)
    ensures Digits(FormatPairCode(code)) == Digits(code)
    ensures Digits(FormatPairCode(code)) == code <==> AllDigits(code)
    ensures |code| == 6 ==> |FormatPairCode(code)| == 7 && FormatPairCode(code)[3] == ' '
  {
    if |code| == 6 {
      DigitsAppend(code[..3], " ");
      DigitsAppend(code[..3] + " ", code[3..]);
      DigitsAppend(code[..3], code[3..]);
      assert code[..3] + code[3..] == code;
      assert Digits(" ") == "" by { assert " "[..0] == ""; }
    }
    DigitsOfDigits(code);
  }
}
