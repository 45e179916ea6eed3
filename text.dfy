/**
 Text helpers shared by the release script model: optional values, Python's
 truthiness of an optional string, Python's notion of whitespace and `str.strip()`.
 */
module Text {

  datatype Option<T> = None | Some(value: T)

  /** Python truthiness of a value that is `None` or a `str`: only a non-empty string is true. */
  predicate Truthy(s: Option<string>)
  {
    s.Some? && s.value != ""
  }

  /** The characters for which Python's `str.isspace()` holds; `\s` in a `str` regular
      expression and `str.strip()` use the same set. */
  predicate IsSpace(c: char)
  {
    c == ' ' || '\t' <= c <= '\r' || '\U{1C}' <= c <= '\U{1F}'
    || c == '\U{85}' || c == '\U{A0}' || c == '\U{1680}' || '\U{2000}' <= c <= '\U{200A}'
    || c == '\U{2028}' || c == '\U{2029}' || c == '\U{202F}' || c == '\U{205F}' || c == '\U{3000}'
  }

  predicate AllSpaces(s: string)
  {
    forall i :: 0 <= i < |s| ==> IsSpace(s[i])
  }

  /** The first position at or after `j` that holds no whitespace, or the end: the forward
      scan of `str.strip()`, and `\s*` taken greedily. */
  function SkipSpaces(s: string, j: nat): (k: nat)
    requires j <= |s|
    ensures j <= k <= |s| && AllSpaces(s[j..k])
    ensures k == |s| || !IsSpace(s[k])
    decreases |s| - j
  {
    if j < |s| && IsSpace(s[j]) then
      var k := SkipSpaces(s, j + 1);
      assert s[j..k] == [s[j]] + s[j + 1..k];
      k
    else j
  }

  /** The backward scan of `str.strip()`: going down from `k` but not below `lo`, the
      position just after the last character that is not whitespace. */
  function BackSpaces(s: string, lo: nat, k: nat): (j: nat)
    requires lo <= k <= |s|
    ensures lo <= j <= k && AllSpaces(s[j..k])
    ensures j == lo || !IsSpace(s[j - 1])
    decreases k
  {
    if lo < k && IsSpace(s[k - 1]) then
      var j := BackSpaces(s, lo, k - 1);
      assert s[j..k] == s[j..k - 1] + [s[k - 1]];
      j
    else k
  }

  /** `s.strip()`: the forward scan from the start, then the backward scan from the end
      down to where the forward scan stopped. The result is empty exactly when `s` is all
      whitespace, and otherwise begins and ends with a character that is not whitespace. */
  function Strip(s: string): (r: string)
    ensures |r| <= |s|
    ensures r == [] <==> AllSpaces(s)
    ensures r == [] || (!IsSpace(r[0]) && !IsSpace(r[|r| - 1]))
  {
    var a := SkipSpaces(s, 0);
    var b := BackSpaces(s, a, |s|);
    assert s[0..|s|] == s;
    assert a < |s| ==> s[a..|s|][0] == s[a];
    s[a..b]
  }

  lemma {:induction false} SkipSpacesTo(s: string, j: nat, k: nat)
    requires j <= k <= |s| && AllSpaces(s[j..k])
    requires k == |s| || !IsSpace(s[k])
    ensures SkipSpaces(s, j) == k
    decreases k - j
  {
    if j < k {
      assert IsSpace(s[j..k][0]);
      assert s[j + 1..k] == s[j..k][1..];
      SkipSpacesTo(s, j + 1, k);
    }
  }

  lemma {:induction false} BackSpacesTo(s: string, lo: nat, j: nat, k: nat)
    requires lo <= j <= k <= |s| && AllSpaces(s[j..k])
    requires j == lo || !IsSpace(s[j - 1])
    ensures BackSpaces(s, lo, k) == j
    decreases k - j
  {
    if j < k {
      assert IsSpace(s[j..k][k - 1 - j]);
      assert s[j..k - 1] == s[j..k][..k - 1 - j];
      BackSpacesTo(s, lo, j, k - 1);
    }
  }

  /** `str.strip()` defined by what it keeps: if `s[a..b]` is surrounded by whitespace only
      and neither begins nor ends with whitespace, then it is what `Strip` returns. */
  lemma StripKeeps(s: string, a: nat, b: nat)
    requires a <= b <= |s|
    requires AllSpaces(s[..a]) && AllSpaces(s[b..])
    requires a == b || (!IsSpace(s[a]) && !IsSpace(s[b - 1]))
    ensures Strip(s) == s[a..b]
  {
    if a == b {
      forall i | 0 <= i < |s| ensures IsSpace(s[i]) {
        if i < a { assert s[i] == s[..a][i]; } else { assert s[i] == s[b..][i - b]; }
      }
    } else {
      assert s[0..a] == s[..a] && s[b..|s|] == s[b..];
      SkipSpacesTo(s, 0, a);
      BackSpacesTo(s, a, b, |s|);
    }
  }

  /** Stripping twice is stripping once. */
  lemma StripIdempotent(s: string)
    ensures Strip(Strip(s)) == Strip(s)
  {
    var r := Strip(s);
    assert r[..0] == [] && r[|r|..] == [];
    StripKeeps(r, 0, |r|);
    assert r[0..|r|] == r;
  }

  /** Stripping only removes characters: whatever is in the result is in the input. */
  lemma StripSubset(s: string)
    ensures forall c :: c in Strip(s) ==> c in s
  {
    var a := SkipSpaces(s, 0);
    var b := BackSpaces(s, a, |s|);
    assert Strip(s) == s[a..b];
    assert forall c :: c in s[a..b] ==> c in s;
  }
}
