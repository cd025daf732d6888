/**
 * The alias sanitiser of the property set: every property path has an
 * alternate, attribute-style name made of lower-case letters, digits and `_`.
 */
module PropertyNames {

  predicate IsDigit(c: char) { '0' <= c <= '9' }
  predicate IsUpper(c: char) { 'A' <= c <= 'Z' }
  predicate IsLower(c: char) { 'a' <= c <= 'z' }

  /** The characters `\w` matches, restricted to ASCII. */
  predicate IsWordChar(c: char) {
    IsDigit(c) || IsUpper(c) || IsLower(c) || c == '_'
  }

  /** The characters an alias may contain. */
  predicate IsAliasChar(c: char) {
    IsLower(c) || IsDigit(c) || c == '_'
  }

  function ToLower(c: char): (r: char)
    ensures IsUpper(c) ==> IsLower(r)
    ensures !IsUpper(c) ==> r == c
  {
    if IsUpper(c) then (c as int + 32) as char else c
  }

  /** One character after the substitution of `\W` by `_` and lower-casing. */
  function CleanChar(c: char): (r: char)
    ensures IsAliasChar(r)
    ensures IsAliasChar(c) ==> r == c
  {
    if IsWordChar(c) then ToLower(c) else '_'
  }

  /**
   * `cleanPropertyName`: every non-word character becomes `_`, a `_` is put in
   * front of a leading digit, and the result is lower-cased.
   */
  function CleanPropertyName(s: string): string
  {
    var body := seq(|s|, i requires 0 <= i < |s| => CleanChar(s[i]));
    if |s| > 0 && IsDigit(s[0]) then "_" + body else body
  }

  /**
   * An alias is a valid identifier in lower case: alias characters only, no
   * leading digit, one character longer than the name exactly when the name
   * starts with a digit, and each character the sanitised one at its place.
   */
  lemma CleanPropertyNameShape(s: string)
    ensures var r := CleanPropertyName(s);
            && (forall i :: 0 <= i < |r| ==> IsAliasChar(r[i]))
            && (|r| > 0 ==> !IsDigit(r[0]))
            && (|r| == |s| + 1 <==> |s| > 0 && IsDigit(s[0]))
            && (|r| == |s| || |r| == |s| + 1)
            && (forall i :: 0 <= i < |s| ==> r[i + |r| - |s|] == CleanChar(s[i]))
  {
  }

  /** An alias is its own alias: sanitising twice is sanitising once. */
  lemma CleanPropertyNameIdempotent(s: string)
    ensures CleanPropertyName(CleanPropertyName(s)) == CleanPropertyName(s)
  {
    var r := CleanPropertyName(s);
    var rr := CleanPropertyName(r);
    CleanPropertyNameShape(s);
    CleanPropertyNameShape(r);
    assert |rr| == |r|;
    forall i | 0 <= i < |r| ensures rr[i] == r[i] {
      assert CleanChar(r[i]) == r[i];
    }
  }

  /** A name made only of alias characters that does not start with a digit is left as it is. */
  lemma CleanPropertyNameFixesAliases(s: string)
    requires forall i :: 0 <= i < |s| ==> IsAliasChar(s[i])
    requires |s| > 0 ==> !IsDigit(s[0])
    ensures CleanPropertyName(s) == s
  {
    var r := CleanPropertyName(s);
    forall i | 0 <= i < |s| ensures r[i] == s[i] {
      assert CleanChar(s[i]) == s[i];
    }
  }
}
