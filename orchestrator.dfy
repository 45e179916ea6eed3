/**
 The release orchestrator of release_push.py (`main`): stage, commit when the status shows
 changes, push with an optional single force-push retry, gather the changelog, locate the
 webhook and post.

 Everything `main` reads from the outside world is a parameter: the parsed options, the
 `DISCORD_WEBHOOK` environment value, the text of `auto_push.ps1` (`None` when it does not
 exist), the two clock readings (for the commit message and for the embed timestamp), the
 shell, which tells what each command line does, and the HTTP exchange. Each command is
 issued at most once per run (`TraceOrder` proves it), so giving the shell as a function
 of the command loses nothing.
 */
module Orchestrator {
  import opened Text
  import opened Runner
  import opened Locator
  import opened Publisher

  const DefaultBranch := "main"
  const DefaultCommits := 20
  const AutoReleasePrefix := "Auto-release: "
  const TitlePrefix := "Auto push to "
  const NoCommitsFound := "(no commits found)"

  /** The command-line options: `--branch`, `--message`, `--force`, `--commits`, `--webhook`. */
  datatype Options = Options(branch: string, message: Option<string>, force: bool, commits: int, webhook: Option<string>)

  /** The options `argparse` yields when none is given on the command line. */
  function DefaultOptions(): Options
  {
    Options(DefaultBranch, None, false, DefaultCommits, None)
  }

  /** `args.message or f'Auto-release: {now}'`. */
  function CommitMessage(args: Options, now: string): string
  {
    if Truthy(args.message) then args.message.value else AutoReleasePrefix + now
  }

  /** The commands `main` issues, in order, when the shell answers as `shell` says: staging,
      status, the commit when the status output is not blank, the push, the force-push when
      the push failed and `--force` was given, and the log. */
  function Trace(args: Options, commitClock: string, shell: Command -> ShellResult): seq<Command>
  {
    [StageAll, Status] +
    (if Strip(shell(Status).output) != "" then [Commit(CommitMessage(args, commitClock))] else []) +
    [Push(args.branch)] +
    (if shell(Push(args.branch)).code != 0 && args.force then [ForcePush(args.branch)] else []) +
    [Log(args.commits)]
  }

  /** What the order of `main`'s commands means: staging and status come first; a commit
      exactly when the status output holds something besides whitespace, with `--message`
      when that is non-empty; then the push; a force-push exactly when the push failed and
      `--force` was given; nothing else, no command twice, and one `git log` at the end. */
  lemma {:induction false} TraceOrder(args: Options, commitClock: string, shell: Command -> ShellResult)
    ensures var t := Trace(args, commitClock, shell);
      |t| >= 4 && t[0] == StageAll && t[1] == Status &&
      (t[2].Commit? <==> !AllSpaces(shell(Status).output)) &&
      (t[2].Commit? ==> t[2].message == CommitMessage(args, commitClock)) &&
      t[if t[2].Commit? then 3 else 2] == Push(args.branch) &&
      (ForcePush(args.branch) in t <==> shell(Push(args.branch)).code != 0 && args.force) &&
      |t| == 4 + (if t[2].Commit? then 1 else 0) + (if ForcePush(args.branch) in t then 1 else 0) &&
      t[|t| - 1] == Log(args.commits)
    ensures var t := Trace(args, commitClock, shell);
      forall i, j :: 0 <= i < j < |t| ==> t[i] != t[j]
  {
    var t := Trace(args, commitClock, shell);
    IssueOrder(t, CommitMessage(args, commitClock), args.branch, args.commits,
               Strip(shell(Status).output) != "", shell(Push(args.branch)).code != 0 && args.force);
  }

  /** The shape of a trace, for each combination of commit and force-push. */
  lemma {:induction false} IssueOrder(issued: seq<Command>, message: string, branch: string, count: int,
                                      committed: bool, forced: bool)
    requires issued == [StageAll, Status] + (if committed then [Commit(message)] else []) +
                       [Push(branch)] + (if forced then [ForcePush(branch)] else []) + [Log(count)]
    ensures |issued| == 4 + (if committed then 1 else 0) + (if forced then 1 else 0)
    ensures issued[0] == StageAll && issued[1] == Status
    ensures issued[2].Commit? <==> committed
    ensures committed ==> issued[2] == Commit(message)
    ensures issued[if committed then 3 else 2] == Push(branch)
    ensures ForcePush(branch) in issued <==> forced
    ensures issued[|issued| - 1] == Log(count)
    ensures forall i, j :: 0 <= i < j < |issued| ==> issued[i] != issued[j]
  {
    if committed && forced {
      assert issued == [StageAll, Status, Commit(message), Push(branch), ForcePush(branch), Log(count)];
    } else if committed {
      assert issued == [StageAll, Status, Commit(message), Push(branch), Log(count)];
    } else if forced {
      assert issued == [StageAll, Status, Push(branch), ForcePush(branch), Log(count)];
    } else {
      assert issued == [StageAll, Status, Push(branch), Log(count)];
    }
  }

  /** With every option at its default, `main` pushes `main`, never force-pushes and asks
      the log for the last 20 commits, as the script's usage text says. */
  lemma DefaultsRelease(commitClock: string, shell: Command -> ShellResult)
    ensures var t := Trace(DefaultOptions(), commitClock, shell);
      Push("main") in t && ForcePush("main") !in t && t[|t| - 1] == Log(20)
  {
    TraceOrder(DefaultOptions(), commitClock, shell);
    var t := Trace(DefaultOptions(), commitClock, shell);
    assert t[if t[2].Commit? then 3 else 2] == Push("main");
  }

  /** `main`: returns the commands it issued, in order, and what `post_webhook` returned. */
  method ReleasePush(args: Options, envWebhook: Option<string>, autoPushScript: Option<string>,
                     commitClock: string, postClock: string,
                     shell: Command -> ShellResult, http: Request -> HttpOutcome)
    returns (issued: seq<Command>, posted: Posted)
    // the commands, in the order `TraceOrder` describes
    ensures issued == Trace(args, commitClock, shell)
    // the post: the resolved webhook, the log (or the placeholder when it is blank),
    // titled after the branch
    ensures posted == PostWebhook(
              ResolveWebhook(args.webhook, envWebhook, autoPushScript),
              if AllSpaces(shell(Log(args.commits)).output) then NoCommitsFound else shell(Log(args.commits)).output,
              TitlePrefix + args.branch, postClock, http)
    // with neither `--webhook` nor `DISCORD_WEBHOOK`, the post goes where the scan of
    // `auto_push.ps1` points
    ensures !Truthy(args.webhook) && !Truthy(envWebhook) ==>
              posted.sent.Some? == (Truthy(FindWebhookFromAutoPush(autoPushScript)) &&
                                    UrlRequest.Accepts(FindWebhookFromAutoPush(autoPushScript).value)) &&
              (posted.sent.Some? ==> posted.sent.value.url == FindWebhookFromAutoPush(autoPushScript).value)
  {
    ghost var commitPart: seq<Command>, forcePart: seq<Command> := [], [];
    issued := [StageAll];
    var staged := Run(StageAll, false, false, shell(StageAll));

    issued := issued + [Status];
    var status := Run(Status, false, true, shell(Status));
    var statusOut := status.out.value;
    assert statusOut == shell(Status).output;
    if Strip(statusOut) != "" {
      var msg := CommitMessage(args, commitClock);
      issued := issued + [Commit(msg)];
      commitPart := [Commit(msg)];
      var commitOutcome := Run(Commit(msg), true, false, shell(Commit(msg)));
      // a Raised outcome is the RuntimeError that `main` catches: the run goes on
    }
    assert issued == [StageAll, Status] + commitPart;

    issued := issued + [Push(args.branch)];
    var pushed := Run(Push(args.branch), false, true, shell(Push(args.branch)));
    assert pushed.code == shell(Push(args.branch)).code;
    if pushed.code != 0 && args.force {
      issued := issued + [ForcePush(args.branch)];
      forcePart := [ForcePush(args.branch)];
      var forceOutcome := Run(ForcePush(args.branch), false, true, shell(ForcePush(args.branch)));
    }
    assert issued == [StageAll, Status] + commitPart + [Push(args.branch)] + forcePart;

    issued := issued + [Log(args.commits)];
    var log := Run(Log(args.commits), false, true, shell(Log(args.commits)));
    var changelog := log.out.value;
    if Strip(changelog) == "" {
      changelog := NoCommitsFound;
    }

    var webhook := ResolveWebhook(args.webhook, envWebhook, autoPushScript);
    assert !Truthy(args.webhook) && !Truthy(envWebhook) ==> webhook == FindWebhookFromAutoPush(autoPushScript);
    posted := PostWebhook(webhook, changelog, TitlePrefix + args.branch, postClock, http);
  }
}
