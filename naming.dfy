/**
 * The naming transforms of the generator, over ASCII text: the template
 * functions `capitalize`/`uncapitalize`, `returnString`, and the case and
 * trimming helpers the generator calls from Go's `strings` package.
 */
module Naming {
  import opened Wrappers

  predicate IsUpper(c: char) { 'A' <= c <= 'Z' }

  predicate IsLower(c: char) { 'a' <= c <= 'z' }

  function LowerChar(c: char): (r: char)
    ensures !IsUpper(r)
  {
    if IsUpper(c) then (c as int + 32) as char else c
  }

  function UpperChar(c: char): (r: char)
    ensures !IsLower(r)
  {
    if IsLower(c) then (c as int - 32) as char else c
  }

  /** Changing the case of a letter does not change it case-insensitively. */
  lemma CaseRoundTrip(c: char)
    ensures LowerChar(UpperChar(c)) == LowerChar(c)
    ensures UpperChar(LowerChar(c)) == UpperChar(c)
  {
  }

  /** `strings.ToLower`, restricted to ASCII. */
  function Lower(s: string): (r: string)
    ensures |r| == |s|
    ensures forall i :: 0 <= i < |s| ==> r[i] == LowerChar(s[i])
  {
    seq(|s|, i requires 0 <= i < |s| => LowerChar(s[i]))
  }

  /**
   * `capitalise`: "ID" for any spelling of "id", otherwise the first character
   * upper-cased and the rest untouched. Go indexes `str[0]`, so the empty
   * string is refused.
   */
  function Capitalise(s: string): (r: string)
    requires |s| > 0
    ensures Lower(r) == Lower(s)
    ensures Lower(s) == "id" ==> r == "ID"
    ensures Lower(s) != "id" ==> |r| == |s| && r[1..] == s[1..] && !IsLower(r[0])
  {
    if Lower(s) == "id" then "ID"
    else
      CaseRoundTrip(s[0]);
      [UpperChar(s[0])] + s[1..]
  }

  /** `unCapitalise`: the first character lower-cased and the rest untouched. */
  function UnCapitalise(s: string): (r: string)
    requires |s| > 0
    ensures Lower(r) == Lower(s)
    ensures |r| == |s| && r[1..] == s[1..] && !IsUpper(r[0])
  {
    [LowerChar(s[0])] + s[1..]
  }

  /** The first character of a capitalised name is never a lower-case letter, so capitalising twice changes nothing. */
  lemma CapitaliseIdempotent(s: string)
    requires |s| > 0
    ensures Capitalise(Capitalise(s)) == Capitalise(s)
  {
    var c := Capitalise(s);
    if Lower(s) == "id" {
      assert Lower(c) == "id";
    } else {
      assert Lower(c) != "id";
      assert [UpperChar(c[0])] + c[1..] == [c[0]] + c[1..] == c;
    }
  }

  /**
   * Un-capitalising first does not change what `Capitalise` produces; the other
   * order restores `UnCapitalise(s)` except for "id", which comes back as "iD".
   */
  lemma CaseTransformsCommute(s: string)
    requires |s| > 0
    ensures Capitalise(UnCapitalise(s)) == Capitalise(s)
    ensures Lower(s) != "id" ==> UnCapitalise(Capitalise(s)) == UnCapitalise(s)
    ensures Lower(s) == "id" ==> UnCapitalise(Capitalise(s)) == "iD"
  {
    var u := UnCapitalise(s);
    if Lower(s) != "id" {
      CaseRoundTrip(s[0]);
      assert Lower(u) != "id";
      assert Capitalise(u) == [UpperChar(LowerChar(s[0]))] + s[1..];
      assert UnCapitalise(Capitalise(s)) == [LowerChar(UpperChar(s[0]))] + s[1..];
    }
  }

  /** `returnString`: the pointed-to string, or "" for a nil pointer. */
  function ReturnString(p: Option<string>): (r: string)
    ensures p.Some? ==> r == p.value
    ensures p.None? ==> r == ""
  {
    match p
    case Some(s) => s
    case None => ""
  }

  /** The cut set of `strings.Trim(s, " \t")`. */
  predicate IsBlank(c: char) { c == ' ' || c == '\t' }

  /** The number of blanks `strings.Trim(s, " \t")` cuts from the front of `s`. */
  function LeadingBlanks(s: string): (n: nat)
    ensures n <= |s|
    ensures forall i :: 0 <= i < n ==> IsBlank(s[i])
    ensures n == |s| || !IsBlank(s[n])
  {
    if |s| > 0 && IsBlank(s[0]) then 1 + LeadingBlanks(s[1..]) else 0
  }

  /** The number of blanks cut from the back of `s`. */
  function TrailingBlanks(s: string): (n: nat)
    ensures n <= |s|
    ensures forall i :: |s| - n <= i < |s| ==> IsBlank(s[i])
    ensures n == |s| || !IsBlank(s[|s| - n - 1])
  {
    if |s| > 0 && IsBlank(s[|s| - 1]) then 1 + TrailingBlanks(s[..|s| - 1]) else 0
  }

  /**
   * `strings.Trim(s, " \t")`: the longest slice of `s` that neither starts nor
   * ends with a space or a tab; everything cut off around it is blank.
   */
  function Trim(s: string): (r: string)
    ensures LeadingBlanks(s) + |r| <= |s|
    ensures r == s[LeadingBlanks(s)..LeadingBlanks(s) + |r|]
    ensures forall i :: LeadingBlanks(s) + |r| <= i < |s| ==> IsBlank(s[i])
    ensures r == [] || (!IsBlank(r[0]) && !IsBlank(r[|r| - 1]))
  {
    var k := LeadingBlanks(s);
    if k == |s| then [] else s[k..|s| - TrailingBlanks(s)]
  }
}
