/**
  String operations the store relies on: the `trim` setter Mongoose applies to
  product and color names, and the case-insensitive comparisons that the
  controllers express as `RegExp(..., 'i')` queries.
 */
module Text {

  /** ASCII case folding, as the `i` flag of a regular expression applies it to ASCII letters. */
  function Lower(c: char): char {
    if 'A' <= c <= 'Z' then (c as int + 32) as char else c
  }

  function LowerStr(s: string): (r: string)
    ensures |r| == |s|
    ensures forall i :: 0 <= i < |s| ==> r[i] == Lower(s[i])
  {
    seq(|s|, i requires 0 <= i < |s| => Lower(s[i]))
  }

  /** `new RegExp('^' + b + '$', 'i')` matches `a`. */
  predicate SameIgnoringCase(a: string, b: string) {
    LowerStr(a) == LowerStr(b)
  }

  /** `new RegExp('^' + prefix, 'i')` matches `s`. */
  predicate StartsWithIgnoringCase(s: string, prefix: string) {
    LowerStr(prefix) <= LowerStr(s)
  }

  /** An anchored whole-string match is the special case of a prefix match of equal length. */
  lemma SameIgnoringCaseIsPrefix(a: string, b: string)
    ensures SameIgnoringCase(a, b) <==> StartsWithIgnoringCase(a, b) && |a| == |b|
  {
  }

  /**
    The characters `String.prototype.trim` removes: tab, line feed, vertical
    tab, form feed, carriage return, space, no-break space, the Unicode space
    separators, the line and paragraph separators and the byte order mark.
   */
  predicate IsSpace(c: char) {
    || c == ' ' || '\t' <= c <= '\r'
    || c == '\U{A0}' || c == '\U{1680}' || '\U{2000}' <= c <= '\U{200A}'
    || c == '\U{2028}' || c == '\U{2029}' || c == '\U{202F}' || c == '\U{205F}'
    || c == '\U{3000}' || c == '\U{FEFF}'
  }

  /** The position of the first character at or after `k` that is not white space, or `|s|`. */
  function SkipSpaces(s: string, k: nat): (n: nat)
    requires k <= |s|
    ensures k <= n <= |s|
    ensures forall i :: k <= i < n ==> IsSpace(s[i])
    ensures n < |s| ==> !IsSpace(s[n])
    decreases |s| - k
  {
    if k < |s| && IsSpace(s[k]) then SkipSpaces(s, k + 1) else k
  }

  /** Going down from `k`, the end of the last character at or after `lo` that is not white space, or `lo`. */
  function SkipSpacesBack(s: string, lo: nat, k: nat): (n: nat)
    requires lo <= k <= |s|
    ensures lo <= n <= k
    ensures forall i :: n <= i < k ==> IsSpace(s[i])
    ensures n > lo ==> !IsSpace(s[n - 1])
  {
    if k > lo && IsSpace(s[k - 1]) then SkipSpacesBack(s, lo, k - 1) else k
  }

  /**
    The value a `trim: true` schema path stores: `s` without its leading and
    trailing white space.
   */
  function Trim(s: string): (r: string)
    ensures |r| <= |s|
    ensures r == [] || (!IsSpace(r[0]) && !IsSpace(r[|r| - 1]))
  {
    var lead := SkipSpaces(s, 0);
    s[lead..SkipSpacesBack(s, lead, |s|)]
  }

  /** Trimming keeps exactly what lies between leading and trailing runs of white space. */
  lemma TrimSlice(s: string)
    ensures exists lead, stop ::
      && 0 <= lead <= stop <= |s| && Trim(s) == s[lead..stop]
      && (forall i :: 0 <= i < lead ==> IsSpace(s[i]))
      && (forall i :: stop <= i < |s| ==> IsSpace(s[i]))
  {
    var lead := SkipSpaces(s, 0);
    var stop := SkipSpacesBack(s, lead, |s|);
    assert forall i :: stop <= i < |s| ==> IsSpace(s[i]);
    assert Trim(s) == s[lead..stop];
  }

  /** Trimming what is already trimmed changes nothing. */
  lemma TrimIdempotent(s: string)
    ensures Trim(Trim(s)) == Trim(s)
  {
    var t := Trim(s);
    assert SkipSpaces(t, 0) == 0;
    assert SkipSpacesBack(t, 0, |t|) == |t|;
  }

  /** A string made only of white space trims to the empty string, which `required` then refuses. */
  lemma TrimBlank(s: string)
    requires forall i :: 0 <= i < |s| ==> IsSpace(s[i])
    ensures Trim(s) == []
  {
    assert SkipSpaces(s, 0) == |s|;
  }
}
