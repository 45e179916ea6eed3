/**
 The webhook locator of release_push.py: `find_webhook_from_auto_push`, which scans the text
 of `auto_push.ps1` for `$DiscordWebhook\s*=\s*'([^']+)'` and, only when that pattern occurs
 nowhere, for `$webhook\s*=\s*'([^']+)'`; and the `or`-chain in `main` that prefers the
 `--webhook` argument, then `DISCORD_WEBHOOK`, then the scan.

 The two patterns cannot backtrack usefully (`\s*` is followed by a non-space, `[^']+` by a
 quote), so each is matched by a left-to-right scanner, `MatchAt`; `AssignmentAt` states the
 same pattern declaratively, and `MatchAtIff` proves the two agree.
 */
module Locator {
  import opened Text

  const DiscordWebhookName := "$DiscordWebhook"
  const WebhookName := "$webhook"

  predicate NoQuote(s: string)
  {
    forall i :: 0 <= i < |s| ==> s[i] != '\''
  }

  /** The first position at or after `j` that holds a quote (`[^']*` taken greedily). */
  function QuoteEnd(text: string, j: nat): (k: nat)
    requires j <= |text|
    ensures j <= k <= |text| && NoQuote(text[j..k])
    ensures k == |text| || text[k] == '\''
    decreases |text| - j
  {
    if j < |text| && text[j] != '\'' then
      var k := QuoteEnd(text, j + 1);
      assert text[j..k] == [text[j]] + text[j + 1..k];
      k
    else j
  }

  /** The capture of `<name>\s*=\s*'([^']+)'` when the pattern matches starting at `i`. */
  function MatchAt(text: string, name: string, i: nat): Option<string>
    requires i <= |text|
  {
    var n := i + |name|;
    if n <= |text| && text[i..n] == name then
      var eq := SkipSpaces(text, n);
      if eq < |text| && text[eq] == '=' then
        var q := SkipSpaces(text, eq + 1);
        if q < |text| && text[q] == '\'' then
          var e := QuoteEnd(text, q + 1);
          if q + 1 < e < |text| then Some(text[q + 1..e]) else None
        else None
      else None
    else None
  }

  /** The pattern, read declaratively: at `i` stand `name`, whitespace, `=`, whitespace,
      a quote, the non-empty quote-free `cap`, and a closing quote. */
  ghost predicate AssignmentAt(text: string, name: string, i: int, cap: string)
  {
    0 <= i && i + |name| <= |text| && text[i..i + |name|] == name &&
    cap != [] && NoQuote(cap) &&
    exists eq, q :: Delimiters(text, name, i, cap, eq, q)
  }

  /** After `name` at `i`: whitespace up to the `=` at `eq`, whitespace up to the opening
      quote at `q`, then `cap` and the closing quote. */
  ghost predicate Delimiters(text: string, name: string, i: nat, cap: string, eq: int, q: int)
  {
    var n := i + |name|;
    n <= eq < q && q + |cap| + 1 < |text| &&
    AllSpaces(text[n..eq]) && text[eq] == '=' &&
    AllSpaces(text[eq + 1..q]) && text[q] == '\'' &&
    text[q + 1..q + 1 + |cap|] == cap && text[q + 1 + |cap|] == '\''
  }

  ghost predicate NoAssignmentIn(text: string, name: string, lo: int, hi: int)
  {
    forall p, cap :: lo <= p < hi ==> !AssignmentAt(text, name, p, cap)
  }

  lemma {:induction false} QuoteEndTo(text: string, j: nat, k: nat)
    requires j <= k < |text| && NoQuote(text[j..k]) && text[k] == '\''
    ensures QuoteEnd(text, j) == k
    decreases k - j
  {
    if j < k {
      assert text[j..k][0] != '\'';
      assert text[j + 1..k] == text[j..k][1..];
      QuoteEndTo(text, j + 1, k);
    }
  }

  lemma MatchAtSound(text: string, name: string, i: nat)
    requires i <= |text| && MatchAt(text, name, i).Some?
    ensures AssignmentAt(text, name, i, MatchAt(text, name, i).value)
  {
    var cap := MatchAt(text, name, i).value;
    var eq := SkipSpaces(text, i + |name|);
    var q := SkipSpaces(text, eq + 1);
    assert QuoteEnd(text, q + 1) == q + 1 + |cap|;
    assert text[q + 1..q + 1 + |cap|] == cap;
    assert Delimiters(text, name, i, cap, eq, q);
  }

  lemma MatchAtComplete(text: string, name: string, i: nat, cap: string)
    requires i <= |text| && AssignmentAt(text, name, i, cap)
    ensures MatchAt(text, name, i) == Some(cap)
  {
    var eq, q :| Delimiters(text, name, i, cap, eq, q);
    DelimitersFound(text, name, i, cap, eq, q);
    MatchAtFrom(text, name, i, eq, q, q + 1 + |cap|);
  }

  lemma DelimitersFound(text: string, name: string, i: nat, cap: string, eq: int, q: int)
    requires Delimiters(text, name, i, cap, eq, q) && NoQuote(cap)
    ensures eq >= 0 && q >= 0
    ensures SkipSpaces(text, i + |name|) == eq && SkipSpaces(text, eq + 1) == q
    ensures QuoteEnd(text, q + 1) == q + 1 + |cap|
  {
    assert !IsSpace('=') && !IsSpace('\'');
    SkipSpacesTo(text, i + |name|, eq);
    SkipSpacesTo(text, eq + 1, q);
    QuoteEndTo(text, q + 1, q + 1 + |cap|);
  }

  lemma MatchAtFrom(text: string, name: string, i: nat, eq: nat, q: nat, e: nat)
    requires i + |name| <= |text| && text[i..i + |name|] == name
    requires SkipSpaces(text, i + |name|) == eq && eq < |text| && text[eq] == '='
    requires SkipSpaces(text, eq + 1) == q && q < |text| && text[q] == '\''
    requires QuoteEnd(text, q + 1) == e && q + 1 < e < |text|
    ensures MatchAt(text, name, i) == Some(text[q + 1..e])
  {
  }

  /** The scanner matches at `i` with capture `cap` exactly when the pattern does. */
  lemma MatchAtIff(text: string, name: string, i: nat, cap: string)
    requires i <= |text|
    ensures MatchAt(text, name, i) == Some(cap) <==> AssignmentAt(text, name, i, cap)
  {
    if MatchAt(text, name, i) == Some(cap) {
      MatchAtSound(text, name, i);
    }
    if AssignmentAt(text, name, i, cap) {
      MatchAtComplete(text, name, i, cap);
    }
  }

  /** `re.search`: the capture of the leftmost match at or after `i`. */
  function Search(text: string, name: string, i: nat): Option<string>
    requires i <= |text|
    decreases |text| - i
  {
    var here := MatchAt(text, name, i);
    if here.Some? || i == |text| then here else Search(text, name, i + 1)
  }

  /** `p` is the leftmost position at or after `i` where the pattern occurs, capturing `cap`. */
  ghost predicate Leftmost(text: string, name: string, i: int, p: int, cap: string)
  {
    i <= p <= |text| && NoAssignmentIn(text, name, i, p) && AssignmentAt(text, name, p, cap)
  }

  /** `Search` finds the leftmost occurrence of the pattern. */
  lemma {:induction false} SearchFindsLeftmost(text: string, name: string, i: nat, p: int, cap: string)
    requires Leftmost(text, name, i, p, cap)
    ensures Search(text, name, i) == Some(cap)
    decreases p - i
  {
    if p == i {
      MatchAtComplete(text, name, i, cap);
    } else {
      if MatchAt(text, name, i).Some? {
        MatchAtSound(text, name, i);
        assert false;
      }
      SearchFindsLeftmost(text, name, i + 1, p, cap);
    }
  }

  /** `Search` finds nothing only when the pattern occurs nowhere at or after `i`. */
  lemma {:induction false} SearchNone(text: string, name: string, i: nat)
    requires i <= |text| && Search(text, name, i).None?
    ensures NoAssignmentIn(text, name, i, |text| + 1)
    decreases |text| - i
  {
    forall cap ensures !AssignmentAt(text, name, i, cap) {
      MatchAtIff(text, name, i, cap);
    }
    if i < |text| {
      SearchNone(text, name, i + 1);
    }
  }

  /** What `Search` finds is the capture of an occurrence with none to its left. */
  lemma {:induction false} SearchSome(text: string, name: string, i: nat)
    requires i <= |text| && Search(text, name, i).Some?
    ensures exists p :: Leftmost(text, name, i, p, Search(text, name, i).value)
    decreases |text| - i
  {
    var here := MatchAt(text, name, i);
    if here.Some? {
      MatchAtSound(text, name, i);
      assert Leftmost(text, name, i, i, here.value);
    } else {
      forall cap ensures !AssignmentAt(text, name, i, cap) {
        MatchAtIff(text, name, i, cap);
      }
      SearchSome(text, name, i + 1);
      var p :| Leftmost(text, name, i + 1, p, Search(text, name, i + 1).value);
      assert Leftmost(text, name, i, p, Search(text, name, i).value);
    }
  }

  /** `find_webhook_from_auto_push`, given the text of `auto_push.ps1` (`None` when the file
      does not exist): the stripped capture of the leftmost `$DiscordWebhook` assignment,
      else of the leftmost `$webhook` assignment, else `None`. */
  function FindWebhookFromAutoPush(script: Option<string>): (w: Option<string>)
    ensures script.None? ==> w.None?
  {
    match script
    case None => None
    case Some(text) =>
      var d := Search(text, DiscordWebhookName, 0);
      if d.Some? then Some(Strip(d.value))
      else
        var h := Search(text, WebhookName, 0);
        if h.Some? then Some(Strip(h.value)) else None
  }

  /** The scan's guarantees: the leftmost `$DiscordWebhook` assignment wins wherever any
      `$webhook` assignment stands; `$webhook` is consulted only when no `$DiscordWebhook`
      assignment exists; the result is the capture stripped, and there is a result exactly
      when one of the two patterns occurs. */
  lemma FindWebhookFromAutoPushSpec(text: string)
    ensures forall p, cap :: Leftmost(text, DiscordWebhookName, 0, p, cap)
              ==> FindWebhookFromAutoPush(Some(text)) == Some(Strip(cap))
    ensures NoAssignmentIn(text, DiscordWebhookName, 0, |text| + 1) ==>
              forall p, cap :: Leftmost(text, WebhookName, 0, p, cap)
                ==> FindWebhookFromAutoPush(Some(text)) == Some(Strip(cap))
    ensures FindWebhookFromAutoPush(Some(text)).None? <==>
              NoAssignmentIn(text, DiscordWebhookName, 0, |text| + 1) &&
              NoAssignmentIn(text, WebhookName, 0, |text| + 1)
  {
    forall p, cap | Leftmost(text, DiscordWebhookName, 0, p, cap) {
      SearchFindsLeftmost(text, DiscordWebhookName, 0, p, cap);
    }
    forall p, cap | Leftmost(text, WebhookName, 0, p, cap) {
      SearchFindsLeftmost(text, WebhookName, 0, p, cap);
    }
    ScanFindsNothing(text, DiscordWebhookName);
    ScanFindsNothing(text, WebhookName);
  }

  /** A scan finds nothing exactly when its pattern occurs nowhere in the text. */
  lemma ScanFindsNothing(text: string, name: string)
    ensures Search(text, name, 0).None? <==> NoAssignmentIn(text, name, 0, |text| + 1)
  {
    if Search(text, name, 0).None? {
      SearchNone(text, name, 0);
    } else {
      SearchSome(text, name, 0);
      var p :| Leftmost(text, name, 0, p, Search(text, name, 0).value);
    }
  }

  /** Python's `a or b`: `a` when it is truthy, otherwise `b`, whatever `b` is. */
  function Or(a: Option<string>, b: Option<string>): Option<string>
  {
    if Truthy(a) then a else b
  }

  /** `args.webhook or os.environ.get('DISCORD_WEBHOOK') or find_webhook_from_auto_push(repo)`:
      the first truthy source wins; a `None` or empty explicit or environment value falls
      through to the next source; the scan's answer is taken as it is, even when it is empty. */
  function ResolveWebhook(explicit: Option<string>, env: Option<string>, script: Option<string>): (w: Option<string>)
    ensures Truthy(explicit) ==> w == explicit
    ensures !Truthy(explicit) && Truthy(env) ==> w == env
    ensures !Truthy(explicit) && !Truthy(env) ==> w == FindWebhookFromAutoPush(script)
    ensures Truthy(w) <==> Truthy(explicit) || Truthy(env) || Truthy(FindWebhookFromAutoPush(script))
  {
    Or(Or(explicit, env), FindWebhookFromAutoPush(script))
  }
}
