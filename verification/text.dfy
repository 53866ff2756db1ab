/** ASCII case mapping, as used to normalise the HTTP method name. */
module Text {

  predicate IsLower(c: char) {
    'a' <= c <= 'z'
  }

  /** The upper-case counterpart of an ASCII lower-case letter; every other
      character maps to itself. */
  function UpcaseChar(c: char): (u: char)
    ensures !IsLower(u)
    ensures IsLower(c) ==> u as int == c as int - 32
    ensures !IsLower(c) ==> u == c
  {
    if IsLower(c) then (c as int - 32) as char else c
  }

  /** A string holds no lower-case letter. */
  predicate IsUpper(s: string) {
    forall i :: 0 <= i < |s| ==> !IsLower(s[i])
  }

  /** Two characters are the same letter up to ASCII case, or simply equal. */
  predicate SameLetter(a: char, b: char) {
    a == b || (IsLower(a) && b as int == a as int - 32) || (IsLower(b) && a as int == b as int - 32)
  }

  /** Reference notion of case-insensitive equality, independent of `Upcase`. */
  predicate EqualIgnoringCase(s: string, t: string) {
    |s| == |t| && forall i :: 0 <= i < |s| ==> SameLetter(s[i], t[i])
  }

  /** Ruby's `String#upcase`, restricted to ASCII letters. */
  function Upcase(s: string): (u: string)
    ensures |u| == |s|
    ensures IsUpper(u)
    ensures forall i :: 0 <= i < |s| ==> SameLetter(s[i], u[i])
  {
    seq(|s|, i requires 0 <= i < |s| => UpcaseChar(s[i]))
  }

  lemma SameLetterUpcase(a: char, b: char)
    ensures SameLetter(a, b) <==> UpcaseChar(a) == UpcaseChar(b)
  {
  }

  /** Upper-casing identifies exactly the strings that differ only in case. */
  lemma UpcaseCaseInsensitive(s: string, t: string)
    ensures EqualIgnoringCase(s, t) <==> Upcase(s) == Upcase(t)
  {
    if EqualIgnoringCase(s, t) {
      forall i | 0 <= i < |s|
        ensures Upcase(s)[i] == Upcase(t)[i]
      {
        SameLetterUpcase(s[i], t[i]);
      }
    }
    if Upcase(s) == Upcase(t) {
      forall i | 0 <= i < |s|
        ensures SameLetter(s[i], t[i])
      {
        assert Upcase(s)[i] == Upcase(t)[i];
        SameLetterUpcase(s[i], t[i]);
      }
    }
  }

  /** Upper-casing an upper-case string changes nothing, so normalising twice is
      the same as normalising once. */
  lemma UpcaseIdempotent(s: string)
    ensures IsUpper(s) ==> Upcase(s) == s
    ensures Upcase(Upcase(s)) == Upcase(s)
  {
  }
}
