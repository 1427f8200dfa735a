/**
  Kotlin's `String.equals(other, ignoreCase = true)`: equal lengths, and at every
  position the two characters are equal or have the same upper-case form.
  Upper-casing is modelled for the ASCII letters only.
 */
module Text {

  function UpperAscii(c: char): char
  {
    if 'a' <= c <= 'z' then (c as int - 32) as char else c
  }

  predicate CharEqualsIgnoreCase(c: char, d: char)
  {
    c == d || UpperAscii(c) == UpperAscii(d)
  }

  /** `s.equals(t, ignoreCase = true)`. The exact word is always accepted, and only a guess of its length can be. */
  predicate EqualsIgnoreCase(s: string, t: string)
    ensures s == t ==> EqualsIgnoreCase(s, t)
    ensures EqualsIgnoreCase(s, t) ==> |s| == |t|
  {
    |s| == |t| && forall i :: 0 <= i < |s| ==> CharEqualsIgnoreCase(s[i], t[i])
  }

  /** The string with every ASCII letter in upper case. */
  function Uppercase(s: string): string
  {
    if s == [] then [] else [UpperAscii(s[0])] + Uppercase(s[1..])
  }

  /** Reference definition: two strings match ignoring case exactly when their upper-case forms are equal. */
  lemma {:induction false} EqualsIgnoreCaseIffSameUppercase(s: string, t: string)
    ensures EqualsIgnoreCase(s, t) <==> Uppercase(s) == Uppercase(t)
  {
    UppercaseLength(s);
    UppercaseLength(t);
    if s != [] && t != [] {
      EqualsIgnoreCaseIffSameUppercase(s[1..], t[1..]);
      if EqualsIgnoreCase(s, t) {
        assert EqualsIgnoreCase(s[1..], t[1..]) by {
          forall i | 0 <= i < |s[1..]|
            ensures CharEqualsIgnoreCase(s[1..][i], t[1..][i])
          {
            assert s[1..][i] == s[i + 1] && t[1..][i] == t[i + 1];
          }
        }
        assert CharEqualsIgnoreCase(s[0], t[0]);
      }
      if Uppercase(s) == Uppercase(t) {
        assert Uppercase(s)[0] == UpperAscii(s[0]) && Uppercase(t)[0] == UpperAscii(t[0]);
        assert Uppercase(s[1..]) == Uppercase(s)[1..] && Uppercase(t[1..]) == Uppercase(t)[1..];
        forall i | 0 <= i < |s|
          ensures CharEqualsIgnoreCase(s[i], t[i])
        {
          if i > 0 {
            assert s[1..][i - 1] == s[i] && t[1..][i - 1] == t[i];
          }
        }
      }
    }
  }

  lemma {:induction false} UppercaseLength(s: string)
    ensures |Uppercase(s)| == |s|
  {
    if s != [] {
      UppercaseLength(s[1..]);
    }
  }

  lemma {:induction false} UppercaseIdempotent(s: string)
    ensures Uppercase(Uppercase(s)) == Uppercase(s)
  {
    if s != [] {
      UppercaseIdempotent(s[1..]);
      assert Uppercase(s)[1..] == Uppercase(s[1..]);
    }
  }

  /** The guess may be typed in any case: the all-capitals form of a word matches it. */
  lemma UppercaseMatches(w: string)
    ensures EqualsIgnoreCase(Uppercase(w), w)
  {
    UppercaseIdempotent(w);
    EqualsIgnoreCaseIffSameUppercase(Uppercase(w), w);
  }

  /** The comparison is an equivalence: reflexive, symmetric and transitive. */
  lemma EqualsIgnoreCaseEquivalence(s: string, t: string, u: string)
    ensures EqualsIgnoreCase(s, s)
    ensures EqualsIgnoreCase(s, t) ==> EqualsIgnoreCase(t, s)
    ensures EqualsIgnoreCase(s, t) && EqualsIgnoreCase(t, u) ==> EqualsIgnoreCase(s, u)
  {
    EqualsIgnoreCaseIffSameUppercase(s, t);
    EqualsIgnoreCaseIffSameUppercase(t, u);
    EqualsIgnoreCaseIffSameUppercase(s, u);
  }

  /** Case does not matter, but the letters and the length do. */
  lemma CaseInsensitiveExamples()
    ensures EqualsIgnoreCase("CAT", "cat")
    ensures !EqualsIgnoreCase("xyz", "cat")
    ensures !EqualsIgnoreCase("ca", "cat")
  {
    assert !CharEqualsIgnoreCase("xyz"[0], "cat"[0]);
  }
}
