/** ASCII case handling for Python's `str.capitalize` and `str.islower`.
    Only the 26 ASCII letters are treated as cased; every other character is
    left alone by the case maps and counts as uncased. */
module Text {

  predicate IsUpper(c: char) { 'A' <= c <= 'Z' }

  predicate IsLower(c: char) { 'a' <= c <= 'z' }

  predicate IsLetter(c: char) { IsUpper(c) || IsLower(c) }

  function ToUpper(c: char): (u: char)
    ensures IsLetter(u) <==> IsLetter(c)
    ensures !IsLower(u)
    ensures !IsLetter(c) ==> u == c
  {
    if IsLower(c) then (c as int - 32) as char else c
  }

  function ToLower(c: char): (l: char)
    ensures IsLetter(l) <==> IsLetter(c)
    ensures !IsUpper(l)
    ensures !IsLetter(c) ==> l == c
  {
    if IsUpper(c) then (c as int + 32) as char else c
  }

  lemma CaseMapsAgree(c: char)
    ensures ToLower(ToUpper(c)) == ToLower(c)
    ensures ToLower(ToLower(c)) == ToLower(c)
  {
  }

  /** Two characters that agree up to case and are both not lower-case (or both
      not upper-case) are equal. */
  lemma CharCanonical(c: char, d: char)
    requires ToLower(c) == ToLower(d)
    requires (!IsLower(c) && !IsLower(d)) || (!IsUpper(c) && !IsUpper(d))
    ensures c == d
  {
  }

  /** Equal letter by letter once case is ignored. */
  ghost predicate SameIgnoringCase(s: string, t: string) {
    |s| == |t| && forall i :: 0 <= i < |s| ==> ToLower(s[i]) == ToLower(t[i])
  }

  /** The shape `str.capitalize` produces: no lower-case first character, no
      upper-case character after it. */
  ghost predicate IsCapitalized(s: string) {
    (|s| > 0 ==> !IsLower(s[0])) && forall i :: 1 <= i < |s| ==> !IsUpper(s[i])
  }

  ghost predicate HasCasedChar(s: string) {
    exists i :: 0 <= i < |s| && IsLetter(s[i])
  }

  /** Python's `str.islower`: at least one cased character and none upper-case. */
  ghost predicate IsLowercase(s: string) {
    HasCasedChar(s) && forall i :: 0 <= i < |s| ==> !IsUpper(s[i])
  }

  function LowerAll(s: string): (r: string)
    ensures |r| == |s|
    ensures forall i :: 0 <= i < |s| ==> r[i] == ToLower(s[i])
  {
    seq(|s|, i requires 0 <= i < |s| => ToLower(s[i]))
  }

  /** Python's `str.capitalize`: first character upper-cased, the rest lower-cased. */
  function Capitalize(s: string): (r: string)
    ensures IsCapitalized(r)
    ensures SameIgnoringCase(r, s)
  {
    if |s| == 0 then "" else [ToUpper(s[0])] + LowerAll(s[1..])
  }

  /** `Capitalize(s)` is the only capitalized string that equals `s` up to case. */
  lemma CapitalizeCanonical(s: string, t: string)
    requires IsCapitalized(t) && SameIgnoringCase(t, s)
    ensures t == Capitalize(s)
  {
    var c := Capitalize(s);
    forall i | 0 <= i < |t| ensures t[i] == c[i] {
      CharCanonical(t[i], c[i]);
    }
  }

  lemma CapitalizeIdempotent(s: string)
    ensures Capitalize(Capitalize(s)) == Capitalize(s)
  {
    var c := Capitalize(s);
    CapitalizeCanonical(c, c);
  }

  /** Two names capitalize alike exactly when they differ only in case. */
  lemma CapitalizeEqualIff(s: string, t: string)
    ensures Capitalize(s) == Capitalize(t) <==> SameIgnoringCase(s, t)
  {
    if SameIgnoringCase(s, t) {
      CapitalizeCanonical(s, Capitalize(t));
    }
  }

  /** A capitalized result still counts as lower-case for `str.islower` exactly
      when it has a cased character but does not start with one. */
  lemma CapitalizedIsLowercaseIff(s: string)
    ensures IsLowercase(Capitalize(s)) <==> HasCasedChar(s) && !IsLetter(s[0])
  {
    var c := Capitalize(s);
    if HasCasedChar(s) {
      var k :| 0 <= k < |s| && IsLetter(s[k]);
      assert IsLetter(c[k]);
      if IsLetter(s[0]) {
        assert IsUpper(c[0]);
      }
    }
    if HasCasedChar(c) {
      var k :| 0 <= k < |c| && IsLetter(c[k]);
      assert IsLetter(s[k]);
    }
  }
}
