# release_push.py, modelled in Dafny

`release_push.py` stages the working tree and commits it when `git status --porcelain`
shows changes. It then pushes the branch, with one optional force-push when the push
fails. Last, it posts the `git log` changelog as a Discord embed to a webhook. The webhook
is taken from `--webhook`, else `DISCORD_WEBHOOK`, else an assignment found in `auto_push.ps1`.

The model has one module per concern:

- `Text` (text.dfy): Python's whitespace set (`str.isspace`, and `\s` in a `str` pattern) and `str.strip()`. Strip uses CPython's two index scans and is proved equal to a declarative definition.
- `Runner` (runner.dfy): `run`. The child process's exit code and output are an input.
- `Locator` (locator.dfy): `find_webhook_from_auto_push`, with its two regular expressions matched by a scanner. The scanner is proved equal to a declarative reading of the pattern, and `re.search` is proved to return the leftmost match. Also the `or`-chain of line 135.
- `UrlRequest` (urlrequest.dfy): the part of `urllib.request.Request(...)` that can raise: `unwrap`, `_splittag` and the `_splittype` scheme check.
- `Publisher` (publisher.dfy): `post_webhook`, both as written and with the error containment its callers rely on.
- `Orchestrator` (orchestrator.dfy): `main`, as a method that records the commands it issues.

The outside world enters `main` as parameters:

- the parsed options;
- the `DISCORD_WEBHOOK` value;
- the text of `auto_push.ps1` (`None` when the file is absent);
- the two clock readings (line 107 and line 69);
- a shell, a function from command to exit code and output;
- an HTTP exchange, a function from request to response or exception text.

`Orchestrator.TraceOrder` proves that no command is issued twice. A shell given as a function of the
command therefore loses no behaviour.

## Model

| member | source | states |
|---|---|---|
| Text.SkipSpaces | release_push.py:44 | the greedy `\s*` scan: everything it skips is whitespace, and it stops at the end or at a non-whitespace character |
| Text.BackSpaces | release_push.py:59 | the backward scan of `strip()`: it never goes below its floor, everything it passes is whitespace, and it stops at the floor or after a non-whitespace character |
| Text.Strip | release_push.py:59 | `strip()` is empty exactly when the text is all whitespace; otherwise it begins and ends with non-whitespace and is no longer than the input |
| Text.StripKeeps | release_push.py:59 | `strip()` returns `s[a..b]` whenever the text outside `a..b` is whitespace and `s[a..b]` does not begin or end with whitespace (independent characterisation) |
| Text.StripIdempotent | release_push.py:46 | stripping a stripped capture changes nothing |
| Text.StripSubset | release_push.py:59 | every character of the stripped text occurs in the input |
| Runner.Run | release_push.py:30-36 | raises exactly when `check` is set and the exit code is nonzero, carrying the command and the code; otherwise returns the exit code, with the output exactly when it was captured |
| Locator.MatchAt | release_push.py:44-47 | the pattern `<name>\s*=\s*'([^']+)'` tried at one position (no contract of its own; `MatchAtIff` states what it computes) |
| Locator.Search | release_push.py:44-47 | `re.search`: the first position where `MatchAt` succeeds (no contract of its own; the three `Search*` lemmas state what it computes) |
| Locator.QuoteEnd | release_push.py:44 | the `[^']*` scan: it passes no quote and stops at a quote or at the end |
| Locator.MatchAtIff | release_push.py:44 | the scanner captures `cap` at position `i` exactly when `<name>\s*=\s*'cap'` with non-empty quote-free `cap` stands at `i` |
| Locator.SearchFindsLeftmost | release_push.py:44 | `re.search` returns the capture of the leftmost occurrence |
| Locator.SearchNone | release_push.py:44-50 | the search finds nothing only when the pattern occurs nowhere |
| Locator.SearchSome | release_push.py:44-46 | whatever the search returns is the capture of an occurrence with no occurrence to its left |
| Locator.ScanFindsNothing | release_push.py:44-50 | a scan comes back empty exactly when its pattern occurs nowhere in the text |
| Locator.FindWebhookFromAutoPush | release_push.py:39-42 | no `auto_push.ps1`, no webhook |
| Locator.FindWebhookFromAutoPushSpec | release_push.py:43-50 | the leftmost `$DiscordWebhook` assignment wins, stripped; `$webhook` is used, stripped, only when no `$DiscordWebhook` assignment exists; the result is `None` exactly when neither occurs |
| Locator.ResolveWebhook | release_push.py:135 | a truthy `--webhook` wins, then a truthy `DISCORD_WEBHOOK`, then the scan's answer as it is; the result is truthy exactly when one of the three is |
| UrlRequest.SplitTag | release_push.py:75 | `rpartition('#')`: without a `#` the URL is kept whole; otherwise the URL is path + `#` + fragment and the fragment holds no `#` |
| UrlRequest.SeparatorFrom | release_push.py:75 | the `[^/:]*` scan: it passes no `/` or `:` and stops at one of them or at the end |
| UrlRequest.HasUrlTypeIff | release_push.py:75 | the scheme check holds exactly when `([^/:]+):` matches at the start |
| UrlRequest.UnwrapStripped | release_push.py:46 | `unwrap` strips again what the scan stripped, so the scan's strip changes neither the unwrapped URL nor whether the `Request` constructor accepts it |
| UrlRequest.NoColonRejected | release_push.py:75 | a URL without a `:` is never accepted by the `Request` constructor |
| Publisher.Description | release_push.py:58-61 | the stripped changelog, unchanged when it has at most 3900 characters; otherwise its first 3900 characters followed by `"\n..."`; never more than 3904 characters |
| Publisher.PostWebhook | release_push.py:53-84 | a falsy webhook returns `(False, 'no-webhook')` and sends nothing. A request is sent exactly when the webhook is truthy and accepted. It goes to the webhook with a JSON content type, as `Release Bot`, with one embed (title, truncated description, timestamp + `Z`). The result is `(True, body)` exactly when the exchange answered, else `(False, <exception text>)`. A rejected URL returns `(False, 'unknown url type: ...')` |
| Publisher.PostWebhookAsWritten | release_push.py:53-84 | `post_webhook` as written, where the `Request` constructor runs outside the `try` (no contract of its own; `PostWebhookAsWrittenDiffers` and `SchemelessWebhookRaises` state what it does) |
| Publisher.PostWebhookAsWrittenDiffers | release_push.py:74-84 | as written, `post_webhook` raises exactly for a truthy webhook that the `Request` constructor rejects; otherwise it agrees with `PostWebhook` |
| Publisher.SchemelessWebhookRaises | release_push.py:75 | any non-empty webhook without a `:` makes `post_webhook` as written raise |
| Orchestrator.DefaultOptions | release_push.py:88-94 | the parsed options when none is given: branch `main`, no message, no force, 20 commits, no webhook (no contract of its own; `DefaultsRelease` states what the defaults mean) |
| Orchestrator.CommitMessage | release_push.py:107 | `--message` when it is non-empty, else `Auto-release: <time>` (no contract of its own; `TraceOrder` states where it is used) |
| Orchestrator.TraceOrder | release_push.py:98-130 | staging and status first; a commit exactly when the status output is not all whitespace, with the commit message; then the push; a force-push exactly when the push failed and `--force` was given; no other command, none twice, and `git log -n <commits>` last |
| Orchestrator.DefaultsRelease | release_push.py:10-11 | with the default options the push goes to `main`, no force-push is issued and the log asks for 20 commits |
| Orchestrator.ReleasePush | release_push.py:87-141 | the commands issued are exactly `Trace`, whose order `TraceOrder` proves. The post goes to the webhook resolved from `--webhook`, `DISCORD_WEBHOOK` and the scan of `auto_push.ps1`. It carries the log, or `(no commits found)` when the log is blank, titled `Auto push to <branch>`. With neither of the first two set, a request is sent exactly when the scan's answer is truthy and accepted, and then to that answer |

## Left out

- Spawning the shell, its working directory and the quoting of command lines. The shell is a parameter, and commands are a datatype whose constructors name the command lines.
- The HTTP transport: the 15-second timeout, `getcode()` and UTF-8 decoding of the body. The exchange is a parameter returning a status and body, or the exception's text.
- JSON serialisation and UTF-8 encoding of the payload. The payload is the record `json.dumps` would serialise.
- Clocks, `os.getcwd()`, `os.environ` and reading `auto_push.ps1`. Each is a parameter; the file read's `errors='ignore'` decoding is part of that parameter.
- `argparse` parsing, and the usage errors it reports. `Options` holds the parsed values.
- Every `print`. The final `ok`/`resp` report in `main` is returned as `posted` instead of printed.
- The default title `'Release pushed'` of `post_webhook`. The only caller always passes a title.
- `Runner.Run`: the text of the `RuntimeError` message is not formatted. The error carries its parts: the command, the code and the output.
- `UrlRequest.UnknownUrlType`: Python's `%r` quoting of the URL inside the message is simplified to plain single quotes.
- The `ValueError` that `urlparse` can raise inside the `Request` constructor for a malformed IPv6 host in brackets. Only the scheme check is modelled.
- The exit codes of `git status`, `git log` and the force-push are read but never acted on, and the model ignores them too. Commit failures are caught by `main`, and the model continues likewise.
- `features/mplayer/optimization.h`: a C++ header wrapping Windows process calls, not part of the release script.
- Orchestrator.ReleasePush: posts through the corrected `Publisher.PostWebhook` (see Findings), so it does not raise for a webhook without a scheme as the script does; that behaviour is `Publisher.PostWebhookAsWritten`.

## Findings

The publisher is described as never raising past its own boundary, and its `except Exception` says the same; the code at line 75 does not keep that promise.

| source | as written | input that shows it | evidently intended | confidence | as-written member | corrected member |
|---|---|---|---|---|---|---|
| release_push.py:75 | `Request(webhook, ...)` is built before the `try` at line 76, so the `ValueError("unknown url type")` that urllib raises for a URL without a scheme escapes `post_webhook` and aborts `main` | webhook `abc`, for instance from `DISCORD_WEBHOOK=abc` or `$webhook = 'example.com/hook'` in `auto_push.ps1` | `post_webhook` never raises and returns `(False, <error text>)` for any failure, as the `except Exception` and its callers expect | not executed | Publisher.PostWebhookAsWritten (shown by Publisher.SchemelessWebhookRaises) | Publisher.PostWebhook |
