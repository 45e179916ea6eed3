/**
 The part of Python's `urllib.request.Request` constructor that release_push.py runs before
 its `try` block (release_push.py line 75): the constructor unwraps the URL, splits off the
 fragment after the last `#`, and raises `ValueError("unknown url type: ...")` when what is
 left does not begin with a scheme, that is, when `([^/:]+):` does not match at its start.
 */
module UrlRequest {
  import opened Text

  /** urllib's `unwrap`: strip, drop one pair of enclosing angle brackets, drop a `URL:` prefix. */
  function Unwrap(url: string): string
  {
    DropUrlPrefix(DropBrackets(Strip(url)))
  }

  function DropBrackets(s: string): string
  {
    if |s| >= 2 && s[0] == '<' && s[|s| - 1] == '>' then Strip(s[1..|s| - 1]) else s
  }

  function DropUrlPrefix(t: string): string
  {
    if |t| >= 4 && t[..4] == "URL:" then Strip(t[4..]) else t
  }

  datatype Split = Split(path: string, fragment: Option<string>)

  /** urllib's `_splittag`, i.e. `url.rpartition('#')`: the text before the last `#` and the
      text after it, or the whole URL and no fragment when there is no `#`. */
  function SplitTag(url: string): (r: Split)
    ensures r.fragment.None? ==> r.path == url && '#' !in url
    ensures r.fragment.Some? ==> url == r.path + "#" + r.fragment.value && '#' !in r.fragment.value
    decreases |url|
  {
    if url == [] then Split(url, None)
    else
      var init, last := url[..|url| - 1], url[|url| - 1];
      assert url == init + [last];
      if last == '#' then Split(init, Some(""))
      else
        var r := SplitTag(init);
        if r.fragment.Some? then Split(r.path, Some(r.fragment.value + [last]))
        else Split(url, None)
  }

  /** The first position at or after `j` holding `/` or `:`, or the end. */
  function SeparatorFrom(s: string, j: nat): (k: nat)
    requires j <= |s|
    ensures j <= k <= |s|
    ensures forall i :: j <= i < k ==> s[i] != '/' && s[i] != ':'
    ensures k == |s| || s[k] == '/' || s[k] == ':'
    decreases |s| - j
  {
    if j < |s| && s[j] != '/' && s[j] != ':' then SeparatorFrom(s, j + 1) else j
  }

  /** `_splittype` finds a scheme: a non-empty run of characters other than `/` and `:`
      at the start, followed by `:`. */
  predicate HasUrlType(s: string)
  {
    var k := SeparatorFrom(s, 0);
    0 < k < |s| && s[k] == ':'
  }

  /** The constructor does not raise: the unwrapped, fragment-free URL has a scheme. */
  predicate Accepts(url: string)
  {
    HasUrlType(SplitTag(Unwrap(url)).path)
  }

  /** The text of the `ValueError` raised for a URL the constructor does not accept. */
  function UnknownUrlType(url: string): string
  {
    var sp := SplitTag(Unwrap(url));
    var full := if sp.fragment.Some? && sp.fragment.value != "" then sp.path + "#" + sp.fragment.value else sp.path;
    "unknown url type: '" + full + "'"
  }

  /** `HasUrlType` is the regular expression `([^/:]+):` matched at the start. */
  lemma HasUrlTypeIff(s: string)
    ensures HasUrlType(s) <==>
      exists k :: 0 < k < |s| && s[k] == ':' && forall i :: 0 <= i < k ==> s[i] != '/' && s[i] != ':'
  {
    if HasUrlType(s) {
      var k := SeparatorFrom(s, 0);
      assert 0 < k < |s| && s[k] == ':' && forall i :: 0 <= i < k ==> s[i] != '/' && s[i] != ':';
    }
  }

  lemma StripNoColon(s: string)
    requires ':' !in s
    ensures ':' !in Strip(s)
  {
    StripSubset(s);
  }

  lemma UnwrapNoColon(url: string)
    requires ':' !in url
    ensures ':' !in Unwrap(url)
  {
    StripNoColon(url);
    var s := Strip(url);
    if |s| >= 2 && s[0] == '<' && s[|s| - 1] == '>' {
      assert forall c :: c in s[1..|s| - 1] ==> c in s;
      StripNoColon(s[1..|s| - 1]);
    }
    DropUrlPrefixNoColon(DropBrackets(s));
  }

  lemma DropUrlPrefixNoColon(t: string)
    requires ':' !in t
    ensures DropUrlPrefix(t) == t
  {
    if |t| >= 4 {
      assert t[3] in t;
      assert t[..4][3] != ':';
    }
  }

  /** `unwrap` strips again what the auto_push.ps1 scan has already stripped, so that strip
      changes neither the URL the request ends up with nor whether it is accepted. */
  lemma UnwrapStripped(s: string)
    ensures Unwrap(Strip(s)) == Unwrap(s)
    ensures Accepts(Strip(s)) <==> Accepts(s)
  {
    StripIdempotent(s);
  }

  /** A URL without a colon never has a scheme, so the constructor raises for it. */
  lemma NoColonRejected(url: string)
    requires ':' !in url
    ensures !Accepts(url)
  {
    UnwrapNoColon(url);
    var t := Unwrap(url);
    var sp := SplitTag(t);
    assert forall c :: c in sp.path ==> c in t;
  }
}
