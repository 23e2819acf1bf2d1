/**
 * The string helper of the web client (WebServer/src/utils/utils.js): `capitalizar` upper-cases
 * the first character of a string and lower-cases the rest.
 */
module Utils {
  import opened Text
  import opened Js

  /** `capitalizar(str)`: '' for a non-string or an empty string. */
  function Capitalize(v: Val): (r: string)
    ensures !v.Str? || v.s == [] ==> r == []
    ensures v.Str? ==> |r| == |v.s|
    ensures v.Str? && v.s != [] ==> r[0] == UpperChar(v.s[0])
    ensures v.Str? ==> forall i :: 1 <= i < |v.s| ==> r[i] == LowerChar(v.s[i])
  {
    if !v.Str? || v.s == [] then [] else [UpperChar(v.s[0])] + Lower(v.s[1..])
  }

  /** A string that starts with no lower-case letter and has no upper-case letter after that. */
  predicate Capitalized(s: string) {
    (s != [] ==> !('a' <= s[0] <= 'z')) && forall i :: 1 <= i < |s| ==> !('A' <= s[i] <= 'Z')
  }

  /** Every result is capitalized. */
  lemma CapitalizeCapitalizes(v: Val)
    ensures Capitalized(Capitalize(v))
  {
  }

  /** A string is left as it is exactly when it is already capitalized. */
  lemma CapitalizeFixesExactlyCapitalized(s: string)
    ensures Capitalize(Str(s)) == s <==> Capitalized(s)
  {
    var r := Capitalize(Str(s));
    if Capitalized(s) {
      assert forall i :: 0 <= i < |s| ==> r[i] == s[i];
    }
  }

  /** Capitalizing twice is capitalizing once. */
  lemma CapitalizeIdempotent(v: Val)
    ensures Capitalize(Str(Capitalize(v))) == Capitalize(v)
  {
    CapitalizeCapitalizes(v);
    CapitalizeFixesExactlyCapitalized(Capitalize(v));
  }
}
