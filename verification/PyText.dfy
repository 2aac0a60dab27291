// Python strings: sequences of code points, among which lone surrogates.
module PyText {

  type CodePoint = n: int | 0 <= n < 0x110000

  type PyString = seq<CodePoint>

  predicate IsSurrogate(c: CodePoint) {
    0xD800 <= c < 0xE000
  }

  // Only such strings can be written as UTF-8.
  predicate WellFormed(s: PyString) {
    forall i | 0 <= i < |s| :: !IsSurrogate(s[i])
  }

  function Codes(s: string): PyString {
    seq(|s|, i requires 0 <= i < |s| => s[i] as int)
  }

  function Chars(s: PyString): string
    requires WellFormed(s)
  {
    seq(|s|, i requires 0 <= i < |s| => s[i] as char)
  }

  lemma TextIsWellFormed(s: string)
    ensures WellFormed(Codes(s)) && Chars(Codes(s)) == s
  {
  }

  lemma CharsAreInjective(s: PyString, t: PyString)
    requires WellFormed(s) && WellFormed(t) && Chars(s) == Chars(t)
    ensures s == t
  {
    assert |Chars(s)| == |s| && |Chars(t)| == |t|;
    forall i | 0 <= i < |s| ensures s[i] == t[i] {
      assert Chars(s)[i] == Chars(t)[i];
    }
  }

  // The code points that UTF-8 cannot express.
  lemma SurrogatesAre(s: PyString)
    ensures WellFormed(s) <==> forall i | 0 <= i < |s| :: !(55296 <= s[i] <= 57343)
  {
  }
}
