/**
 * Starting and finishing a hotfix (gfr/commands/hotfix.py:40-198) as
 * methods over a `Workspace`. Each run either stops at its precondition
 * with nothing changed or issues its provider calls in a fixed order; a
 * failing call aborts the run (no rollback), except inside the propagation
 * loop, where a failure is recorded for that branch and the loop goes on.
 */
module Hotfix {
  import opened Wrappers
  import opened Text
  import opened Version
  import opened Changelog
  import opened Rules
  import opened Repo

  /** One pass of the propagation loop: the branch, whether switching to it worked, and the outcome. */
  datatype Attempt = Attempt(branch: string, switched: bool, outcome: Outcome)

  /** Why a run stopped. A failed provider call names the call and carries its message. */
  datatype Abort =
    | MissingName
    | InvalidAction(action: string)
    | NotOnMain(branch: string)
    | NotOnHotfixBranch(branch: string)
    | BadTag(tag: string)
    | InputEnded
    | EmptyChangelog
    | StepFailed(call: Call, message: string)
    | CleanupFailed(call: Call, message: string, attempts: seq<Attempt>)

  /** What a finish publishes, all computed before its first write. */
  datatype Release = Release(version: string, tag: string, items: seq<string>, content: string, body: string, notes: string)

  datatype Report = Report(release: Release, attempts: seq<Attempt>)

  /** The operator's canned answers: the changelog lines, then the PR description. */
  datatype Operator = Operator(lines: seq<string>, description: string)

  /** Helpers whose code is not part of this model: `format_git_url_to_http` and `_extract_issue_number`. */
  datatype External = External(toHttp: string -> string, extractIssue: string -> Option<string>)

  datatype Command = Start(name: string) | Finish

  /** The action dispatch of gfr/commands/hotfix.py:215-224. */
  function ParseCommand(action: string, name: string): (r: Result<Command, Abort>)
    ensures (r.Ok? && r.value.Start?) <==> Lower(action) == "start" && name != ""
    ensures r.Ok? && r.value.Start? ==> r.value.name == name
    ensures (r.Ok? && r.value.Finish?) <==> Lower(action) == "finish"
    ensures r == Err(MissingName) <==> Lower(action) == "start" && name == ""
  {
    var a := Lower(action);
    if a == "start" then (if name == "" then Err(MissingName) else Ok(Start(name)))
    else if a == "finish" then Ok(Finish)
    else Err(InvalidAction(action))
  }

  /** Every call of `made`, issued as call numbers `n`, `n + 1`, ..., succeeded. */
  ghost predicate AllSucceed(made: seq<Call>, oracle: Oracle, n: nat) {
    forall j :: 0 <= j < |made| ==> oracle(n + j, made[j]).None?
  }

  /** The number of the call made `k` calls after call number `n`. */
  function After(n: nat, k: nat): nat {
    n + k
  }

  /** The provider answers every call from number `n` on with success. */
  ghost predicate NeverFails(oracle: Oracle, n: nat) {
    forall i: nat, c: Call :: n <= i ==> oracle(i, c).None?
  }

  /**
   * Issuing `plan` in order from call number `n`, and stopping at the
   * first call that fails, made the calls `made` and left the call counter
   * at `calls`; `failed` is `None` when every call succeeded, and otherwise
   * the call that failed with the provider's message for it.
   */
  ghost predicate Ran(plan: seq<Call>, oracle: Oracle, n: nat, made: seq<Call>, calls: nat, failed: Option<(Call, string)>) {
    && IsPrefix(made, plan) && AllSucceed(made, oracle, n)
    && (failed.None? ==> made == plan && calls == n + |plan|)
    && (failed.Some? ==>
          && |made| < |plan| && calls == n + |made| + 1
          && failed.value.0 == plan[|made|] && oracle(n + |made|, plan[|made|]) == Some(failed.value.1))
  }

  /** The provider's answers decide a run: two runs of the same plan from the same call number agree. */
  lemma RanUnique(plan: seq<Call>, oracle: Oracle, n: nat, made1: seq<Call>, calls1: nat, failed1: Option<(Call, string)>,
                  made2: seq<Call>, calls2: nat, failed2: Option<(Call, string)>)
    requires Ran(plan, oracle, n, made1, calls1, failed1) && Ran(plan, oracle, n, made2, calls2, failed2)
    ensures made1 == made2 && calls1 == calls2 && failed1 == failed2
  {
    if |made1| == |made2| {
      assert made1 == plan[..|made1|] == made2;
    }
  }

  /** A run ends without a failure exactly when the provider answers every call of the plan with success. */
  lemma RanSucceeds(plan: seq<Call>, oracle: Oracle, n: nat, made: seq<Call>, calls: nat, failed: Option<(Call, string)>)
    requires Ran(plan, oracle, n, made, calls, failed)
    ensures failed.None? <==> AllSucceed(plan, oracle, n)
  {
    if failed.Some? {
      var k := |made|;
      assert oracle(n + k, plan[k]).Some?;
    }
  }

  /** A run of `first` that succeeded, followed by a run of `rest`, is a run of both. */
  lemma RanThen(first: seq<Call>, rest: seq<Call>, oracle: Oracle, n: nat, made1: seq<Call>, calls1: nat,
                made2: seq<Call>, calls2: nat, failed: Option<(Call, string)>)
    requires Ran(first, oracle, n, made1, calls1, None) && Ran(rest, oracle, calls1, made2, calls2, failed)
    ensures Ran(first + rest, oracle, n, made1 + made2, calls2, failed)
  {
    var made := made1 + made2;
    assert made[..|made1|] == first;
    assert (first + rest)[..|made|] == made;
    forall j | 0 <= j < |made| ensures oracle(n + j, made[j]).None? {
      if j >= |made1| {
        assert made[j] == made2[j - |made1|];
        assert n + j == calls1 + (j - |made1|);
      }
    }
    if failed.Some? {
      assert (first + rest)[|made|] == rest[|made2|];
    }
  }

  /** A run that stopped inside `first` stopped inside any longer plan. */
  lemma RanStop(first: seq<Call>, rest: seq<Call>, oracle: Oracle, n: nat, made: seq<Call>, calls: nat, failed: (Call, string))
    requires Ran(first, oracle, n, made, calls, Some(failed))
    ensures Ran(first + rest, oracle, n, made, calls, Some(failed))
  {
    assert (first + rest)[..|made|] == first[..|made|];
    assert (first + rest)[|made|] == first[|made|];
  }

  /** Regrouping a log; kept as a lemma so the methods' proofs see it as one fact. */
  lemma Associative(a: seq<Call>, b: seq<Call>, c: seq<Call>)
    ensures a + b + c == a + (b + c)
  {
  }

  /** Issue one call. */
  method Step(ws: Workspace, c: Call, oracle: Oracle) returns (failed: Option<(Call, string)>, ghost made: seq<Call>)
    requires ws.Valid()
    modifies ws`tree, ws`trees, ws`log, ws`calls
    ensures ws.Valid() && ws.log == old(ws.log) + made && Ran([c], oracle, old(ws.calls), made, ws.calls, failed)
    ensures failed.None? ==> ws.tree == Apply(old(ws.tree), c)
    ensures failed.Some? ==> ws.tree == old(ws.tree)
  {
    var err := ws.Perform(c, oracle);
    if err.Some? {
      failed, made := Some((c, err.value)), [];
    } else {
      failed, made := None, [c];
    }
  }

  /** The texts a run writes into the calls it makes (gfr/commands/hotfix.py:60, 122-123, 144, 160, 165). */
  function IssueBody(name: string): string { "Hotfix to address: " + name }
  function PrTitle(branch: string): string { "Hotfix: " + branch }
  function CommitMessage(version: string): string { "docs: update changelog for version " + version }
  function ReleaseTitle(version: string): string { "Release " + version }
  const ChangelogFile := "CHANGELOG.md"

  /** The calls of a start, in order (gfr/commands/hotfix.py:59-70). */
  function StartPlan(repoName: string, name: string, branch: string): seq<Call> {
    [GetRepo(repoName), CreateIssue(name, IssueBody(name), Labels),
     CreateBranch(branch, Main), Switch(branch)]
  }

  /** The calls of a start: find the repository, open the issue, then create the hotfix branch from `main` and switch to it. */
  method OpenHotfix(ws: Workspace, repoName: string, name: string, branch: string, oracle: Oracle)
    returns (failed: Option<(Call, string)>, ghost made: seq<Call>)
    requires ws.Valid()
    modifies ws`tree, ws`trees, ws`log, ws`calls
    ensures ws.Valid() && ws.log == old(ws.log) + made
    ensures Ran(StartPlan(repoName, name, branch), oracle, old(ws.calls), made, ws.calls, failed)
    ensures failed.None? ==> ws.tree == old(ws.tree).(current := branch, branches := old(ws.tree.branches) + [branch])
  {
    ghost var log0, n := ws.log, ws.calls;
    ghost var p1 := [GetRepo(repoName), CreateIssue(name, IssueBody(name), Labels)];
    ghost var p2 := [CreateBranch(branch, Main), Switch(branch)];
    assert StartPlan(repoName, name, branch) == p1 + p2;
    failed, made := StepPair(ws, GetRepo(repoName), CreateIssue(name, IssueBody(name), Labels), oracle);
    if failed.Some? {
      RanStop(p1, p2, oracle, n, made, ws.calls, failed.value);
      return;
    }
    ghost var n1, m := ws.calls, [];
    failed, m := StepPair(ws, CreateBranch(branch, Main), Switch(branch), oracle);
    RanThen(p1, p2, oracle, n, made, n1, m, ws.calls, failed);
    Associative(log0, made, m);
    made := made + m;
  }

  /**
   * `_start_hotfix`. `issueNumber` is the number the hosting provider gives
   * the new issue; `name` is non-empty because the dispatcher refuses an
   * empty one (gfr/commands/hotfix.py:216-218).
   */
  method StartHotfix(ws: Workspace, target: string, repoName: string, name: string, issueNumber: nat, oracle: Oracle)
    returns (r: Result<string, Abort>)
    requires ws.Valid() && name != ""
    modifies ws
    ensures ws.Valid() && ws.origin == old(ws.origin) && ws.remoteUrl == old(ws.remoteUrl)
    ensures IsPrefix(old(ws.log), ws.log)
    ensures (r.Err? && r.error.NotOnMain?) <==> old(ws.tree.current) != Main
    ensures r.Err? && r.error.NotOnMain? ==> r.error.branch == old(ws.tree.current)
    ensures old(ws.tree.current) != Main ==>
              ws.log == old(ws.log) && ws.tree == old(ws.tree) && ws.calls == old(ws.calls) && ws.lastUsed == old(ws.lastUsed)
    ensures r.Err? ==> ws.lastUsed == old(ws.lastUsed) && (r.error.NotOnMain? || r.error.StepFailed?)
    ensures r.Err? && r.error.StepFailed? ==>
              Ran(StartPlan(repoName, name, BranchName(issueNumber, name)), oracle, old(ws.calls),
                  ws.log[|old(ws.log)|..], ws.calls, Some((r.error.call, r.error.message)))
    ensures r.Ok? <==>
              old(ws.tree.current) == Main && AllSucceed(StartPlan(repoName, name, BranchName(issueNumber, name)), oracle, old(ws.calls))
    ensures r.Ok? ==>
              && r.value == BranchName(issueNumber, name)
              && ws.log == old(ws.log) + StartPlan(repoName, name, r.value)
              && ws.calls == old(ws.calls) + |StartPlan(repoName, name, r.value)|
              && ws.tree == old(ws.tree).(current := r.value, branches := old(ws.tree.branches) + [r.value])
              && ws.lastUsed == Some(target)
  {
    var current := ws.tree.current;
    if current != Main {
      return Err(NotOnMain(current));
    }
    var branch := BranchName(issueNumber, name);
    ghost var log0, n := ws.log, ws.calls;
    var failed;
    ghost var made;
    failed, made := OpenHotfix(ws, repoName, name, branch, oracle);
    RanSucceeds(StartPlan(repoName, name, branch), oracle, n, made, ws.calls, failed);
    assert ws.log[|log0|..] == made;
    if failed.Some? {
      return Err(StepFailed(failed.value.0, failed.value.1));
    }
    ws.SetLastUsed(target);
    r := Ok(branch);
  }

  /** The pull requests of a finish: for each base, create one from the hotfix branch, then merge it. */
  function PrSteps(head: string, body: string, bases: seq<string>): (r: seq<Call>)
    ensures |r| == 2 * |bases|
  {
    if bases == [] then []
    else [CreatePr(PrTitle(head), body, head, bases[0], Labels), MergePr(head, bases[0])]
         + PrSteps(head, body, bases[1..])
  }

  /** The pull request for base `i` is created at step `2 * i` and merged at the step right after. */
  lemma {:induction false} PrStepsAt(head: string, body: string, bases: seq<string>, i: nat)
    requires i < |bases|
    ensures PrSteps(head, body, bases)[2 * i] == CreatePr(PrTitle(head), body, head, bases[i], Labels)
    ensures PrSteps(head, body, bases)[2 * i + 1] == MergePr(head, bases[i])
  {
    if i > 0 {
      PrStepsAt(head, body, bases[1..], i - 1);
    }
  }

  /** Calls 1-6 of `PublishSteps` (gfr/commands/hotfix.py:104-140): remote URL, changelog write and commit, push, repository lookup. */
  function CommitSteps(branch: string, repoName: string, rel: Release): seq<Call> {
    [ReadRemoteUrl, WriteChangelog(rel.content), Stage([ChangelogFile]),
     Commit(CommitMessage(rel.version)), PushBranch(branch, true), GetRepo(repoName)]
  }

  /** Calls 11-14 of `PublishSteps` (gfr/commands/hotfix.py:150-154): bring local `main` and `develop` up to date. */
  function SyncSteps(): seq<Call> {
    [Switch(Main), Pull(Main), Switch(Develop), Pull(Develop)]
  }

  /** Calls 15-18 of `PublishSteps` (gfr/commands/hotfix.py:159-165): tag on `main`, push the tags, publish the release. */
  function ReleaseSteps(rel: Release): seq<Call> {
    [Switch(Main), CreateTag(rel.tag, ReleaseTitle(rel.version)), PushTags,
     CreateRelease(rel.tag, ReleaseTitle(rel.version), rel.notes)]
  }

  /** Calls 1-10 of `PublishSteps`: commit the changelog, push, and merge the hotfix into `main` and `develop` by pull request. */
  function MergeSteps(branch: string, repoName: string, rel: Release): seq<Call> {
    CommitSteps(branch, repoName, rel) + PrSteps(branch, rel.body, PrBases)
  }

  /** Calls 11-19 of `PublishSteps`: sync the long-lived branches, tag and release from `main`, list the local branches. */
  function TagSteps(rel: Release): seq<Call> {
    SyncSteps() + ReleaseSteps(rel) + [ListBranches]
  }

  /** The nineteen calls, numbered from 1 in the comments below, that publish a prepared release, from the remote URL to the branch listing (gfr/commands/hotfix.py:104-169). */
  function PublishSteps(branch: string, repoName: string, rel: Release): seq<Call> {
    MergeSteps(branch, repoName, rel) + TagSteps(rel)
  }

  /** Every call of a finish before the propagation loop, in order (gfr/commands/hotfix.py:94-169). */
  function FinishPlan(branch: string, repoName: string, rel: Release): seq<Call> {
    [ReadLatestTag] + PublishSteps(branch, repoName, rel)
  }

  /** The calls after the loop (gfr/commands/hotfix.py:192-194). */
  function CleanupPlan(branch: string): seq<Call> {
    [DeleteRemote(branch), DeleteLocal(branch), Switch(Main)]
  }

  /** With the two bases, the pull-request steps spelled out. */
  lemma TwoPullRequests(head: string, body: string)
    ensures PrSteps(head, body, PrBases)
         == [CreatePr(PrTitle(head), body, head, Main, Labels), MergePr(head, Main),
             CreatePr(PrTitle(head), body, head, Develop, Labels), MergePr(head, Develop)]
  {
    assert PrBases[1..] == [Develop];
    assert PrBases[1..][1..] == [];
  }

  /** The calls of a finish before the propagation loop, one by one. */
  lemma FinishPlanSpelled(branch: string, repoName: string, rel: Release)
    ensures FinishPlan(branch, repoName, rel)
         == [ReadLatestTag, ReadRemoteUrl, WriteChangelog(rel.content), Stage([ChangelogFile]),
             Commit(CommitMessage(rel.version)), PushBranch(branch, true), GetRepo(repoName),
             CreatePr(PrTitle(branch), rel.body, branch, Main, Labels), MergePr(branch, Main),
             CreatePr(PrTitle(branch), rel.body, branch, Develop, Labels), MergePr(branch, Develop),
             Switch(Main), Pull(Main), Switch(Develop), Pull(Develop),
             Switch(Main), CreateTag(rel.tag, ReleaseTitle(rel.version)), PushTags,
             CreateRelease(rel.tag, ReleaseTitle(rel.version), rel.notes), ListBranches]
  {
    TwoPullRequests(branch, rel.body);
  }

  /**
   * A finish opens exactly two pull requests, into `main` first and
   * `develop` second, and merges each before opening the next
   * (gfr/commands/hotfix.py:142-146).
   */
  lemma PullRequestOrder(branch: string, repoName: string, rel: Release)
    ensures var p := FinishPlan(branch, repoName, rel);
      && |p| == 20
      && p[7] == CreatePr(PrTitle(branch), rel.body, branch, Main, Labels) && p[8] == MergePr(branch, Main)
      && p[9] == CreatePr(PrTitle(branch), rel.body, branch, Develop, Labels) && p[10] == MergePr(branch, Develop)
      && (forall k :: 0 <= k < |p| && p[k].CreatePr? ==> k == 7 || k == 9)
      && (forall k :: 0 <= k < |p| && p[k].MergePr? ==> k == 8 || k == 10)
  {
    FinishPlanSpelled(branch, repoName, rel);
  }

  /**
   * The one tag of a finish is created after both merges, and whatever the
   * state the finish started from, `main` is checked out at that moment
   * (gfr/commands/hotfix.py:159-160).
   */
  lemma TagAfterMerges(t: Tree, branch: string, repoName: string, rel: Release)
    ensures var p := FinishPlan(branch, repoName, rel);
      && |p| == 20
      && p[16] == CreateTag(rel.tag, ReleaseTitle(rel.version))
      && (forall k :: 0 <= k < |p| && p[k].CreateTag? ==> k == 16)
      && (forall k :: 0 <= k < |p| && p[k].MergePr? ==> k < 16)
      && Replay(t, p[..16]).current == Main
  {
    FinishPlanSpelled(branch, repoName, rel);
    var p := FinishPlan(branch, repoName, rel);
    ReplayCurrent(t, p[..16], Main);
  }

  /** The calls one propagation attempt made. */
  function AttemptLog(a: Attempt): seq<Call> {
    if !a.switched then []
    else if a.outcome.Merged? then [Switch(a.branch), MergeLocal(Main)]
    else [Switch(a.branch)]
  }

  function LoopLog(attempts: seq<Attempt>): seq<Call>
    decreases |attempts|
  {
    if attempts == [] then [] else LoopLog(attempts[..|attempts| - 1]) + AttemptLog(attempts[|attempts| - 1])
  }

  /**
   * One attempt is coherent: it merged only if it switched, and a failure
   * is classified by its message, a conflict exactly when the message says so.
   */
  predicate Coherent(a: Attempt) {
    && (a.outcome.Merged? ==> a.switched)
    && (!a.outcome.Merged? ==> a.outcome == Classify(a.outcome.message))
  }

  /** Every planned branch was attempted, in order, whatever happened to the others. */
  predicate Covers(attempts: seq<Attempt>, plan: seq<string>) {
    |attempts| == |plan| && forall k :: 0 <= k < |plan| ==> attempts[k].branch == plan[k] && Coherent(attempts[k])
  }

  /** The release values, computed as gfr/commands/hotfix.py:95-108, 132-134 and 164 do. */
  function ReleaseFor(version: string, items: seq<string>, changelog: Option<string>, httpUrl: string,
                      date: string, template: string, issue: Option<string>, description: string): (rel: Release)
    requires VersionText(version) && '\\' !in httpUrl && '\\' !in date
    requires forall k :: 0 <= k < |items| ==> '\\' !in items[k]
    ensures rel.version == version && rel.tag == "v" + version && rel.items == items
  {
    var tag := "v" + version;
    var link := ReleaseLink(httpUrl, tag);
    assert '\\' !in tag && '\\' !in link;
    EntryHasNoBackslash(version, link, date, items);
    var entry := Entry(version, link, date, items);
    Release(version, tag, items, WrittenChangelog(changelog, template, entry), PrBody(issue, description), ReleaseNotes(items))
  }

  predicate NoBackslash(lines: seq<string>) {
    forall k :: 0 <= k < |lines| ==> '\\' !in lines[k]
  }

  /**
   * The changelog items the operator would give carry no backslash: the
   * entry goes into the replacement text of a `re.sub`.
   */
  predicate ItemsClean(lines: seq<string>) {
    ItemsBeforeBlank(lines).Some? ==> NoBackslash(ItemsBeforeBlank(lines).value)
  }

  /**
   * What a finish on this state would publish, or `None` when it cannot
   * get that far (bad tag, input ended, no items).
   */
  ghost function Planned(t: Tree, remoteUrl: string, op: Operator, ext: External, date: string, template: string): Option<Release>
    requires ItemsClean(op.lines) && '\\' !in date && '\\' !in ext.toHttp(remoteUrl)
  {
    var version := NextPatchVersion(LatestTag(t.tags));
    var items := ItemsBeforeBlank(op.lines);
    if version.None? || items.None? || items.value == [] then None
    else
      Some(ReleaseFor(version.value, items.value, t.changelog, ext.toHttp(remoteUrl), date, template,
                      ext.extractIssue(t.current), op.description))
  }

  /** Two calls in a row; the second is issued only when the first succeeded. */
  method StepPair(ws: Workspace, first: Call, second: Call, oracle: Oracle)
    returns (failed: Option<(Call, string)>, ghost made: seq<Call>)
    requires ws.Valid()
    modifies ws`tree, ws`trees, ws`log, ws`calls
    ensures ws.Valid() && ws.log == old(ws.log) + made
    ensures Ran([first, second], oracle, old(ws.calls), made, ws.calls, failed)
    ensures failed.None? ==> ws.tree == Apply(Apply(old(ws.tree), first), second)
  {
    ghost var n := ws.calls;
    assert [first] + [second] == [first, second];
    failed, made := Step(ws, first, oracle);
    if failed.Some? {
      RanStop([first], [second], oracle, n, made, ws.calls, failed.value);
      return;
    }
    ghost var n1, m := ws.calls, [];
    failed, m := Step(ws, second, oracle);
    RanThen([first], [second], oracle, n, made, n1, m, ws.calls, failed);
    made := made + m;
  }

  /** Calls 1-6 of `PublishSteps`: read the remote URL and write the changelog, stage and commit it, push, look the repository up. */
  method CommitAndPush(ws: Workspace, branch: string, repoName: string, rel: Release, oracle: Oracle)
    returns (failed: Option<(Call, string)>, ghost made: seq<Call>)
    requires ws.Valid()
    modifies ws`tree, ws`trees, ws`log, ws`calls
    ensures ws.Valid() && ws.log == old(ws.log) + made
    ensures Ran(CommitSteps(branch, repoName, rel), oracle, old(ws.calls), made, ws.calls, failed)
    ensures failed.None? ==> ws.tree == old(ws.tree).(changelog := Some(rel.content))
  {
    ghost var log0, n := ws.log, ws.calls;
    ghost var p1 := [ReadRemoteUrl, WriteChangelog(rel.content)];
    ghost var p2 := [Stage([ChangelogFile]), Commit(CommitMessage(rel.version))];
    ghost var p3 := [PushBranch(branch, true), GetRepo(repoName)];
    ghost var t1 := ws.tree.(changelog := Some(rel.content));
    assert CommitSteps(branch, repoName, rel) == p1 + (p2 + p3) == (p1 + p2) + p3;
    failed, made := StepPair(ws, ReadRemoteUrl, WriteChangelog(rel.content), oracle);
    if failed.Some? {
      RanStop(p1, p2 + p3, oracle, n, made, ws.calls, failed.value);
      return;
    }
    assert ws.tree == t1;
    ghost var n1, m := ws.calls, [];
    failed, m := StepPair(ws, Stage([ChangelogFile]), Commit(CommitMessage(rel.version)), oracle);
    RanThen(p1, p2, oracle, n, made, n1, m, ws.calls, failed);
    Associative(log0, made, m);
    made := made + m;
    if failed.Some? {
      RanStop(p1 + p2, p3, oracle, n, made, ws.calls, failed.value);
      return;
    }
    assert ws.tree == t1;
    n1 := ws.calls;
    failed, m := StepPair(ws, PushBranch(branch, true), GetRepo(repoName), oracle);
    RanThen(p1 + p2, p3, oracle, n, made, n1, m, ws.calls, failed);
    Associative(log0, made, m);
    made := made + m;
  }

  /** The pull requests for two runs of bases are those for the first, then those for the second. */
  lemma {:induction false} PrStepsAppend(head: string, body: string, a: seq<string>, b: seq<string>)
    ensures PrSteps(head, body, a + b) == PrSteps(head, body, a) + PrSteps(head, body, b)
  {
    if a == [] {
      assert a + b == b;
    } else {
      var pair := [CreatePr(PrTitle(head), body, head, a[0], Labels), MergePr(head, a[0])];
      assert (a + b)[0] == a[0] && (a + b)[1..] == a[1..] + b;
      PrStepsAppend(head, body, a[1..], b);
      calc {
        PrSteps(head, body, a + b);
        pair + PrSteps(head, body, a[1..] + b);
        pair + (PrSteps(head, body, a[1..]) + PrSteps(head, body, b));
        (pair + PrSteps(head, body, a[1..])) + PrSteps(head, body, b);
      }
    }
  }

  /** The pull requests up to base `i` are those before it and base `i`'s own; the rest follow. */
  lemma PrStepsSplit(head: string, body: string, bases: seq<string>, i: nat)
    requires i < |bases|
    ensures PrSteps(head, body, bases[..i + 1])
            == PrSteps(head, body, bases[..i]) + [CreatePr(PrTitle(head), body, head, bases[i], Labels), MergePr(head, bases[i])]
    ensures PrSteps(head, body, bases) == PrSteps(head, body, bases[..i + 1]) + PrSteps(head, body, bases[i + 1..])
  {
    var done, rest := bases[..i + 1], bases[i + 1..];
    assert done == bases[..i] + [bases[i]];
    PrStepsAppend(head, body, bases[..i], [bases[i]]);
    assert done + rest == bases;
    PrStepsAppend(head, body, done, rest);
  }

  /** One more pull request, created and merged, extends a run of the ones before it. */
  lemma RanPullRequest(head: string, body: string, bases: seq<string>, i: nat, oracle: Oracle, n: nat,
                       made1: seq<Call>, calls1: nat, made2: seq<Call>, calls2: nat, failed: Option<(Call, string)>)
    requires i < |bases|
    requires Ran(PrSteps(head, body, bases[..i]), oracle, n, made1, calls1, None)
    requires Ran([CreatePr(PrTitle(head), body, head, bases[i], Labels), MergePr(head, bases[i])], oracle, calls1, made2, calls2, failed)
    ensures Ran(PrSteps(head, body, bases[..i + 1]), oracle, n, made1 + made2, calls2, failed)
    ensures failed.Some? ==> Ran(PrSteps(head, body, bases), oracle, n, made1 + made2, calls2, failed)
  {
    PrStepsSplit(head, body, bases, i);
    RanThen(PrSteps(head, body, bases[..i]), [CreatePr(PrTitle(head), body, head, bases[i], Labels), MergePr(head, bases[i])],
            oracle, n, made1, calls1, made2, calls2, failed);
    if failed.Some? {
      RanStop(PrSteps(head, body, bases[..i + 1]), PrSteps(head, body, bases[i + 1..]), oracle, n, made1 + made2, calls2,
              failed.value);
    }
  }

  /** Calls 7-10 of `PublishSteps`: `for base_branch in PrBases`, create the pull request, then merge it. */
  method MergePullRequests(ws: Workspace, branch: string, body: string, oracle: Oracle)
    returns (failed: Option<(Call, string)>, ghost made: seq<Call>)
    requires ws.Valid()
    modifies ws`tree, ws`trees, ws`log, ws`calls
    ensures ws.Valid() && ws.log == old(ws.log) + made
    ensures Ran(PrSteps(branch, body, PrBases), oracle, old(ws.calls), made, ws.calls, failed)
    ensures failed.None? ==> ws.tree == old(ws.tree)
  {
    var bases := PrBases;
    ghost var log0, n, t0 := ws.log, ws.calls, ws.tree;
    made := [];
    for i := 0 to |bases|
      invariant ws.Valid() && ws.tree == t0
      invariant ws.log == log0 + made
      invariant Ran(PrSteps(branch, body, bases[..i]), oracle, n, made, ws.calls, None)
    {
      ghost var n1, m := ws.calls, [];
      failed, m := StepPair(ws, CreatePr(PrTitle(branch), body, branch, bases[i], Labels), MergePr(branch, bases[i]), oracle);
      RanPullRequest(branch, body, bases, i, oracle, n, made, n1, m, ws.calls, failed);
      Associative(log0, made, m);
      made := made + m;
      if failed.Some? {
        return;
      }
    }
    assert bases[..|bases|] == bases;
    failed := None;
  }

  /** Calls 11-14 of `PublishSteps`: switch to and pull `main`, then `develop`. */
  method SyncBranches(ws: Workspace, oracle: Oracle)
    returns (failed: Option<(Call, string)>, ghost made: seq<Call>)
    requires ws.Valid()
    modifies ws`tree, ws`trees, ws`log, ws`calls
    ensures ws.Valid() && ws.log == old(ws.log) + made
    ensures Ran(SyncSteps(), oracle, old(ws.calls), made, ws.calls, failed)
    ensures failed.None? ==> ws.tree == old(ws.tree).(current := Develop)
  {
    ghost var log0, n := ws.log, ws.calls;
    ghost var p1 := [Switch(Main), Pull(Main)];
    ghost var p2 := [Switch(Develop), Pull(Develop)];
    assert SyncSteps() == p1 + p2;
    failed, made := StepPair(ws, Switch(Main), Pull(Main), oracle);
    if failed.Some? {
      RanStop(p1, p2, oracle, n, made, ws.calls, failed.value);
      return;
    }
    ghost var n1, m := ws.calls, [];
    failed, m := StepPair(ws, Switch(Develop), Pull(Develop), oracle);
    RanThen(p1, p2, oracle, n, made, n1, m, ws.calls, failed);
    Associative(log0, made, m);
    made := made + m;
  }

  /** Calls 15-18 of `PublishSteps`: tag on `main`, push the tags, publish the release. */
  method TagAndRelease(ws: Workspace, rel: Release, oracle: Oracle)
    returns (failed: Option<(Call, string)>, ghost made: seq<Call>)
    requires ws.Valid()
    modifies ws`tree, ws`trees, ws`log, ws`calls
    ensures ws.Valid() && ws.log == old(ws.log) + made
    ensures Ran(ReleaseSteps(rel), oracle, old(ws.calls), made, ws.calls, failed)
    ensures failed.None? ==> ws.tree == old(ws.tree).(current := Main, tags := old(ws.tree.tags) + [rel.tag])
  {
    ghost var log0, n := ws.log, ws.calls;
    ghost var p1 := [Switch(Main), CreateTag(rel.tag, ReleaseTitle(rel.version))];
    ghost var p2 := [PushTags, CreateRelease(rel.tag, ReleaseTitle(rel.version), rel.notes)];
    assert ReleaseSteps(rel) == p1 + p2;
    failed, made := StepPair(ws, Switch(Main), CreateTag(rel.tag, ReleaseTitle(rel.version)), oracle);
    if failed.Some? {
      RanStop(p1, p2, oracle, n, made, ws.calls, failed.value);
      return;
    }
    ghost var n1, m := ws.calls, [];
    failed, m := StepPair(ws, PushTags, CreateRelease(rel.tag, ReleaseTitle(rel.version), rel.notes), oracle);
    RanThen(p1, p2, oracle, n, made, n1, m, ws.calls, failed);
    Associative(log0, made, m);
    made := made + m;
  }

  /**
   * `_prompt_for_changelog_items`, the version and the release values:
   * everything a finish computes from the local state `t` once the latest
   * tag is read, before its first write.
   */
  method PlanRelease(t: Tree, remoteUrl: string, op: Operator, ext: External, date: string, template: string)
    returns (r: Result<Release, Abort>)
    requires ItemsClean(op.lines) && '\\' !in date && '\\' !in ext.toHttp(remoteUrl)
    ensures r.Err? ==> r.error.BadTag? || r.error.InputEnded? || r.error.EmptyChangelog?
    ensures r.Err? && r.error.BadTag? ==> r.error.tag == LatestTag(t.tags) && NextPatchVersion(r.error.tag).None?
    ensures r.Err? && r.error.InputEnded? ==>
              NextPatchVersion(LatestTag(t.tags)).Some? && ItemsBeforeBlank(op.lines).None?
    ensures r.Err? && r.error.EmptyChangelog? ==>
              NextPatchVersion(LatestTag(t.tags)).Some? && ItemsBeforeBlank(op.lines) == Some([])
    ensures r.Ok? <==> Planned(t, remoteUrl, op, ext, date, template).Some?
    ensures r.Ok? ==> Planned(t, remoteUrl, op, ext, date, template) == Some(r.value)
  {
    var latest := LatestTag(t.tags);
    var version := NextPatchVersion(latest);
    if version.None? {
      return Err(BadTag(latest));
    }
    var items := PromptForChangelogItems(op.lines);
    if items.None? {
      return Err(InputEnded);
    }
    if items.value == [] {
      return Err(EmptyChangelog);
    }
    var rel := ReleaseFor(version.value, items.value, t.changelog, ext.toHttp(remoteUrl), date, template,
                          ext.extractIssue(t.current), op.description);
    r := Ok(rel);
  }

  /** Read the latest tag, then plan the release; only the read talks to a provider. */
  method Prepare(ws: Workspace, op: Operator, ext: External, date: string, template: string, oracle: Oracle)
    returns (r: Result<Release, Abort>)
    requires ws.Valid() && ItemsClean(op.lines) && '\\' !in date && '\\' !in ext.toHttp(ws.remoteUrl)
    modifies ws`tree, ws`trees, ws`log, ws`calls
    ensures ws.Valid() && ws.tree == old(ws.tree) && ws.calls == old(ws.calls) + 1
    ensures r.Err? && r.error.StepFailed? <==> oracle(old(ws.calls), ReadLatestTag).Some?
    ensures r.Err? && r.error.StepFailed? ==>
              r.error.call == ReadLatestTag && oracle(old(ws.calls), ReadLatestTag) == Some(r.error.message)
              && ws.log == old(ws.log)
    ensures !(r.Err? && r.error.StepFailed?) ==> ws.log == old(ws.log) + [ReadLatestTag]
    ensures r.Err? ==> r.error.StepFailed? || r.error.BadTag? || r.error.InputEnded? || r.error.EmptyChangelog?
    ensures r.Err? && r.error.BadTag? ==>
              r.error.tag == LatestTag(ws.tree.tags) && NextPatchVersion(r.error.tag).None?
    ensures r.Err? && r.error.InputEnded? ==>
              NextPatchVersion(LatestTag(ws.tree.tags)).Some? && ItemsBeforeBlank(op.lines).None?
    ensures r.Err? && r.error.EmptyChangelog? ==>
              NextPatchVersion(LatestTag(ws.tree.tags)).Some? && ItemsBeforeBlank(op.lines) == Some([])
    ensures oracle(old(ws.calls), ReadLatestTag).None? ==>
              (r.Ok? <==> Planned(old(ws.tree), old(ws.remoteUrl), op, ext, date, template).Some?)
    ensures r.Ok? ==> Planned(old(ws.tree), old(ws.remoteUrl), op, ext, date, template) == Some(r.value)
  {
    var err := ws.Perform(ReadLatestTag, oracle);
    if err.Some? {
      return Err(StepFailed(ReadLatestTag, err.value));
    }
    r := PlanRelease(ws.tree, ws.remoteUrl, op, ext, date, template);
  }

  /** Calls 1-10 of `PublishSteps`: commit and push the changelog, then merge the hotfix into `main` and `develop`. */
  method MergeHotfix(ws: Workspace, branch: string, repoName: string, rel: Release, oracle: Oracle)
    returns (failed: Option<(Call, string)>, ghost made: seq<Call>)
    requires ws.Valid()
    modifies ws`tree, ws`trees, ws`log, ws`calls
    ensures ws.Valid() && ws.log == old(ws.log) + made
    ensures Ran(MergeSteps(branch, repoName, rel), oracle, old(ws.calls), made, ws.calls, failed)
    ensures failed.None? ==> ws.tree == old(ws.tree).(changelog := Some(rel.content))
  {
    ghost var log0, n := ws.log, ws.calls;
    ghost var a := CommitSteps(branch, repoName, rel);
    ghost var b := PrSteps(branch, rel.body, PrBases);
    failed, made := CommitAndPush(ws, branch, repoName, rel, oracle);
    if failed.Some? {
      RanStop(a, b, oracle, n, made, ws.calls, failed.value);
      return;
    }
    ghost var n1, m := ws.calls, [];
    failed, m := MergePullRequests(ws, branch, rel.body, oracle);
    RanThen(a, b, oracle, n, made, n1, m, ws.calls, failed);
    Associative(log0, made, m);
    made := made + m;
  }

  /** Calls 11-19 of `PublishSteps`: sync `main` and `develop`, tag and release from `main`, list the local branches. */
  method ReleaseFromMain(ws: Workspace, rel: Release, oracle: Oracle)
    returns (failed: Option<(Call, string)>, ghost made: seq<Call>)
    requires ws.Valid()
    modifies ws`tree, ws`trees, ws`log, ws`calls
    ensures ws.Valid() && ws.log == old(ws.log) + made
    ensures Ran(TagSteps(rel), oracle, old(ws.calls), made, ws.calls, failed)
    ensures failed.None? ==> ws.tree == old(ws.tree).(current := Main, tags := old(ws.tree.tags) + [rel.tag])
  {
    ghost var log0, n := ws.log, ws.calls;
    ghost var c := SyncSteps();
    ghost var d := ReleaseSteps(rel);
    ghost var e := [ListBranches];
    failed, made := SyncBranches(ws, oracle);
    if failed.Some? {
      RanStop(c, d + e, oracle, n, made, ws.calls, failed.value);
      assert c + (d + e) == c + d + e;
      return;
    }
    ghost var n1, m := ws.calls, [];
    failed, m := TagAndRelease(ws, rel, oracle);
    RanThen(c, d, oracle, n, made, n1, m, ws.calls, failed);
    Associative(log0, made, m);
    made := made + m;
    if failed.Some? {
      RanStop(c + d, e, oracle, n, made, ws.calls, failed.value);
      return;
    }
    n1 := ws.calls;
    failed, m := Step(ws, ListBranches, oracle);
    RanThen(c + d, e, oracle, n, made, n1, m, ws.calls, failed);
    Associative(log0, made, m);
    made := made + m;
  }

  /** Calls 1-19 of `PublishSteps`: publish a prepared release and list the local branches. */
  method Publish(ws: Workspace, branch: string, repoName: string, rel: Release, oracle: Oracle)
    returns (failed: Option<(Call, string)>, ghost made: seq<Call>)
    requires ws.Valid()
    modifies ws`tree, ws`trees, ws`log, ws`calls
    ensures ws.Valid() && ws.log == old(ws.log) + made
    ensures Ran(PublishSteps(branch, repoName, rel), oracle, old(ws.calls), made, ws.calls, failed)
    ensures failed.None? ==>
              ws.tree == old(ws.tree).(current := Main, tags := old(ws.tree.tags) + [rel.tag], changelog := Some(rel.content))
  {
    ghost var log0, n := ws.log, ws.calls;
    ghost var first := MergeSteps(branch, repoName, rel);
    ghost var second := TagSteps(rel);
    failed, made := MergeHotfix(ws, branch, repoName, rel, oracle);
    if failed.Some? {
      RanStop(first, second, oracle, n, made, ws.calls, failed.value);
      return;
    }
    ghost var n1, m := ws.calls, [];
    failed, m := ReleaseFromMain(ws, rel, oracle);
    RanThen(first, second, oracle, n, made, n1, m, ws.calls, failed);
    Associative(log0, made, m);
    made := made + m;
  }

  /** The branch the last successful switch of the loop went to, `before` when there was none. */
  function LastSwitched(attempts: seq<Attempt>, before: string): string
    decreases |attempts|
  {
    if attempts == [] then before
    else if attempts[|attempts| - 1].switched then attempts[|attempts| - 1].branch
    else LastSwitched(attempts[..|attempts| - 1], before)
  }

  /** How many calls one attempt issues: the switch, and the merge after a successful switch. */
  function AttemptCalls(a: Attempt): nat {
    if a.switched then 2 else 1
  }

  function LoopCalls(attempts: seq<Attempt>): nat
    decreases |attempts|
  {
    if attempts == [] then 0 else LoopCalls(attempts[..|attempts| - 1]) + AttemptCalls(attempts[|attempts| - 1])
  }

  /** One more attempt extends the loop's log and call count by that attempt's and moves the checkout only if it switched. */
  lemma LoopSnoc(attempts: seq<Attempt>, a: Attempt, before: string)
    ensures LoopLog(attempts + [a]) == LoopLog(attempts) + AttemptLog(a)
    ensures LoopCalls(attempts + [a]) == LoopCalls(attempts) + AttemptCalls(a)
    ensures LastSwitched(attempts + [a], before) == if a.switched then a.branch else LastSwitched(attempts, before)
  {
    assert (attempts + [a])[..|attempts|] == attempts;
  }

  /** A coherent attempt at the next planned branch extends the coverage by one. */
  lemma CoversSnoc(attempts: seq<Attempt>, a: Attempt, plan: seq<string>, i: nat)
    requires i < |plan| && Covers(attempts, plan[..i]) && a.branch == plan[i] && Coherent(a)
    ensures Covers(attempts + [a], plan[..i + 1])
  {
  }

  /**
   * The attempt at `branch` whose switch is call number `n`, as the
   * provider answers the switch and, once switched, the merge of `main`
   * (gfr/commands/hotfix.py:173-188).
   */
  function AttemptAt(branch: string, oracle: Oracle, n: nat): (a: Attempt)
    ensures a.branch == branch
    ensures a.switched <==> oracle(n, Switch(branch)).None?
    ensures a.outcome.Merged? <==> a.switched && oracle(n + 1, MergeLocal(Main)).None?
    ensures !a.outcome.Merged? ==>
              Some(a.outcome.message) == if a.switched then oracle(n + 1, MergeLocal(Main)) else oracle(n, Switch(branch))
  {
    match oracle(n, Switch(branch))
    case Some(m) => Attempt(branch, false, Classify(m))
    case None =>
      match oracle(n + 1, MergeLocal(Main))
      case Some(m) => Attempt(branch, true, Classify(m))
      case None => Attempt(branch, true, Merged)
  }

  /** Whatever the provider answers, an attempt is coherent. */
  lemma AttemptAtCoherent(branch: string, oracle: Oracle, n: nat)
    ensures Coherent(AttemptAt(branch, oracle, n))
  {
  }

  /** The attempts of the loop over `plan` when its first switch is call number `n`. */
  function Attempts(plan: seq<string>, oracle: Oracle, n: nat): (r: seq<Attempt>)
    ensures |r| == |plan|
    decreases |plan|
  {
    if plan == [] then []
    else
      var before := Attempts(plan[..|plan| - 1], oracle, n);
      before + [AttemptAt(plan[|plan| - 1], oracle, After(n, LoopCalls(before)))]
  }

  /** The loop's attempts over one more branch: those before it, then the one at the next call number. */
  lemma AttemptsSnoc(plan: seq<string>, oracle: Oracle, n: nat, i: nat, before: seq<Attempt>)
    requires i < |plan| && before == Attempts(plan[..i], oracle, n)
    ensures Attempts(plan[..i + 1], oracle, n) == before + [AttemptAt(plan[i], oracle, After(n, LoopCalls(before)))]
  {
    assert plan[..i + 1][..i] == plan[..i];
  }

  /** Whatever the provider answers, the loop attempts every planned branch, in order. */
  lemma {:induction false} AttemptsCover(plan: seq<string>, oracle: Oracle, n: nat)
    ensures Covers(Attempts(plan, oracle, n), plan)
    decreases |plan|
  {
    if plan != [] {
      var i := |plan| - 1;
      AttemptsCover(plan[..i], oracle, n);
      var before := Attempts(plan[..i], oracle, n);
      AttemptAtCoherent(plan[i], oracle, After(n, LoopCalls(before)));
      CoversSnoc(before, AttemptAt(plan[i], oracle, After(n, LoopCalls(before))), plan, i);
      assert plan[..i + 1] == plan;
    }
  }

  /**
   * One pass of the propagation loop (gfr/commands/hotfix.py:173-188):
   * switch to the branch and merge `main` into it; a failure of either
   * is classified and recorded instead of ending the run.
   */
  method TryMerge(ws: Workspace, branch: string, ghost at: nat, oracle: Oracle) returns (a: Attempt)
    requires ws.Valid() && ws.calls == at
    modifies ws`tree, ws`trees, ws`log, ws`calls
    ensures ws.Valid() && a == AttemptAt(branch, oracle, at)
    ensures ws.calls == at + AttemptCalls(a)
    ensures ws.log == old(ws.log) + AttemptLog(a)
    ensures ws.tree == old(ws.tree).(current := if a.switched then branch else old(ws.tree.current))
  {
    var err := ws.Perform(Switch(branch), oracle);
    if err.Some? {
      return Attempt(branch, false, Classify(err.value));
    }
    err := ws.Perform(MergeLocal(Main), oracle);
    if err.Some? {
      return Attempt(branch, true, Classify(err.value));
    }
    a := Attempt(branch, true, Merged);
  }

  /** The propagation loop: every planned branch is attempted, in order, whatever happens to the others. */
  method Propagate(ws: Workspace, plan: seq<string>, ghost start: nat, oracle: Oracle) returns (attempts: seq<Attempt>)
    requires ws.Valid() && ws.calls == start
    modifies ws`tree, ws`trees, ws`log, ws`calls
    ensures ws.Valid() && attempts == Attempts(plan, oracle, start) && Covers(attempts, plan)
    ensures ws.calls == start + LoopCalls(attempts)
    ensures ws.log == old(ws.log) + LoopLog(attempts)
    ensures ws.tree == old(ws.tree).(current := LastSwitched(attempts, old(ws.tree.current)))
  {
    ghost var log0, t0 := ws.log, ws.tree;
    attempts := [];
    var i := 0;
    while i < |plan|
      invariant 0 <= i <= |plan|
      invariant ws.Valid()
      invariant attempts == Attempts(plan[..i], oracle, start)
      invariant ws.calls == start + LoopCalls(attempts)
      invariant ws.log == log0 + LoopLog(attempts)
      invariant ws.tree == t0.(current := LastSwitched(attempts, t0.current))
    {
      var a := TryMerge(ws, plan[i], After(start, LoopCalls(attempts)), oracle);
      LoopSnoc(attempts, a, t0.current);
      Associative(log0, LoopLog(attempts), AttemptLog(a));
      AttemptsSnoc(plan, oracle, start, i, attempts);
      attempts := attempts + [a];
      i := i + 1;
    }
    assert plan[..i] == plan;
    AttemptsCover(plan, oracle, start);
  }

  /** Delete the hotfix branch remotely and locally, then go back to `main` (gfr/commands/hotfix.py:192-194). */
  method Cleanup(ws: Workspace, branch: string, ghost at: nat, oracle: Oracle)
    returns (failed: Option<(Call, string)>, ghost made: seq<Call>)
    requires ws.Valid() && ws.calls == at
    modifies ws`tree, ws`trees, ws`log, ws`calls
    ensures ws.Valid() && ws.log == old(ws.log) + made
    ensures Ran(CleanupPlan(branch), oracle, at, made, ws.calls, failed)
    ensures failed.None? ==>
              ws.tree == old(ws.tree).(current := Main, branches := Without(old(ws.tree.branches), branch))
  {
    ghost var log0, n := ws.log, ws.calls;
    ghost var p1 := [DeleteRemote(branch), DeleteLocal(branch)];
    ghost var p2 := [Switch(Main)];
    assert CleanupPlan(branch) == p1 + p2;
    failed, made := StepPair(ws, DeleteRemote(branch), DeleteLocal(branch), oracle);
    if failed.Some? {
      RanStop(p1, p2, oracle, n, made, ws.calls, failed.value);
      return;
    }
    ghost var n1, m := ws.calls, [];
    failed, m := Step(ws, Switch(Main), oracle);
    RanThen(p1, p2, oracle, n, made, n1, m, ws.calls, failed);
    Associative(log0, made, m);
    made := made + m;
  }

  /**
   * After publishing: propagate `main` into the other local branches, then
   * clean up (gfr/commands/hotfix.py:171-194). The finish began at call
   * number `n` and has made the calls of `plan` so far.
   */
  method Conclude(ws: Workspace, current: string, ghost n: nat, ghost plan: seq<Call>, oracle: Oracle)
    returns (attempts: seq<Attempt>, failed: Option<(Call, string)>, ghost made: seq<Call>)
    requires ws.Valid() && ws.calls == n + |plan|
    modifies ws`tree, ws`trees, ws`log, ws`calls
    ensures ws.Valid()
    ensures attempts == Attempts(MergePlan(old(ws.tree.branches), current), oracle, After(n, |plan|))
    ensures Covers(attempts, MergePlan(old(ws.tree.branches), current))
    ensures ws.log == old(ws.log) + LoopLog(attempts) + made
    ensures Ran(CleanupPlan(current), oracle, After(After(n, |plan|), LoopCalls(attempts)), made, ws.calls, failed)
    ensures failed.None? ==>
              ws.tree == old(ws.tree).(current := Main, branches := Without(old(ws.tree.branches), current))
    ensures NeverFails(oracle, n) ==> failed.None?
  {
    ghost var start := After(n, |plan|);
    attempts := Propagate(ws, MergePlan(ws.tree.branches, current), start, oracle);
    failed, made := Cleanup(ws, current, After(After(n, |plan|), LoopCalls(attempts)), oracle);
    RanNeverFails(CleanupPlan(current), oracle, After(After(n, |plan|), LoopCalls(attempts)), made, ws.calls, failed, n);
  }

  /**
   * A finish from call number `n` that got past publishing: every call of
   * `plan`, up to the branch listing, succeeded, the loop over `loop` made
   * `attempts` as the provider answered, and `cleanup` ran as `failed`
   * says; `made` is every call the finish made.
   */
  ghost predicate Finished(plan: seq<Call>, loop: seq<string>, cleanup: seq<Call>, oracle: Oracle, n: nat,
                           attempts: seq<Attempt>, made: seq<Call>, calls: nat, failed: Option<(Call, string)>) {
    var done := plan + LoopLog(attempts);
    && AllSucceed(plan, oracle, n)
    && attempts == Attempts(loop, oracle, After(n, |plan|))
    && IsPrefix(done, made)
    && Ran(cleanup, oracle, After(After(n, |plan|), LoopCalls(attempts)), made[|done|..], calls, failed)
  }

  /** A run made while the provider never fails ends without a failure. */
  lemma RanNeverFails(plan: seq<Call>, oracle: Oracle, n: nat, made: seq<Call>, calls: nat, failed: Option<(Call, string)>,
                      from: nat)
    requires Ran(plan, oracle, n, made, calls, failed) && from <= n
    ensures NeverFails(oracle, from) ==> failed.None?
  {
    if failed.Some? {
      assert oracle(n + |made|, plan[|made|]).Some?;
    }
  }

  /** Publishing after a successful read of the latest tag, call number `n`, is the run of the plan before the loop. */
  lemma Published(branch: string, repoName: string, rel: Release, oracle: Oracle, n: nat,
                  made: seq<Call>, calls: nat, failed: Option<(Call, string)>)
    requires oracle(n, ReadLatestTag).None?
    requires Ran(PublishSteps(branch, repoName, rel), oracle, n + 1, made, calls, failed)
    ensures Ran(FinishPlan(branch, repoName, rel), oracle, n, [ReadLatestTag] + made, calls, failed)
  {
    assert Ran([ReadLatestTag], oracle, n, [ReadLatestTag], n + 1, None);
    RanThen([ReadLatestTag], PublishSteps(branch, repoName, rel), oracle, n, [ReadLatestTag], n + 1, made, calls, failed);
  }

  /** The parts of a finish past publishing, put together. */
  lemma FinishedOf(plan: seq<Call>, loop: seq<string>, cleanup: seq<Call>, oracle: Oracle, n: nat,
                   attempts: seq<Attempt>, made: seq<Call>, calls: nat, failed: Option<(Call, string)>)
    requires AllSucceed(plan, oracle, n)
    requires attempts == Attempts(loop, oracle, After(n, |plan|))
    requires Ran(cleanup, oracle, After(After(n, |plan|), LoopCalls(attempts)), made, calls, failed)
    ensures Finished(plan, loop, cleanup, oracle, n, attempts, plan + LoopLog(attempts) + made, calls, failed)
  {
    var done := plan + LoopLog(attempts);
    assert (done + made)[..|done|] == done;
    assert (done + made)[|done|..] == made;
  }

  /**
   * After every call of `plan` from call number `n` succeeded: propagate
   * `main`, clean up, remember the target, and report the outcome.
   */
  method Complete(ws: Workspace, target: string, current: string, ghost base: seq<Call>, ghost plan: seq<Call>,
                  ghost n: nat, oracle: Oracle)
    returns (r: Result<seq<Attempt>, Abort>)
    requires ws.Valid() && ws.log == base + plan && ws.calls == n + |plan| && AllSucceed(plan, oracle, n)
    modifies ws`tree, ws`trees, ws`log, ws`calls, ws`lastUsed
    ensures ws.Valid() && IsPrefix(base, ws.log)
    ensures r.Err? ==> ws.lastUsed == old(ws.lastUsed) && r.error.CleanupFailed?
    ensures r.Err? ==>
              && Covers(r.error.attempts, MergePlan(old(ws.tree.branches), current))
              && Finished(plan, MergePlan(old(ws.tree.branches), current), CleanupPlan(current), oracle, n,
                          r.error.attempts, ws.log[|base|..], ws.calls, Some((r.error.call, r.error.message)))
    ensures r.Ok? ==>
              && Covers(r.value, MergePlan(old(ws.tree.branches), current))
              && Finished(plan, MergePlan(old(ws.tree.branches), current), CleanupPlan(current), oracle, n,
                          r.value, ws.log[|base|..], ws.calls, None)
              && ws.log == base + plan + LoopLog(r.value) + CleanupPlan(current)
              && ws.tree == old(ws.tree).(current := Main, branches := Without(old(ws.tree.branches), current))
              && ws.lastUsed == Some(target)
    ensures NeverFails(oracle, n) ==> r.Ok?
  {
    var attempts, failed;
    ghost var m;
    attempts, failed, m := Conclude(ws, current, n, plan, oracle);
    FinishedOf(plan, MergePlan(old(ws.tree.branches), current), CleanupPlan(current), oracle, n,
               attempts, m, ws.calls, failed);
    Associative(base, plan, LoopLog(attempts));
    Associative(base, plan + LoopLog(attempts), m);
    assert ws.log[|base|..] == plan + LoopLog(attempts) + m;
    if failed.Some? {
      return Err(CleanupFailed(failed.value.0, failed.value.1, attempts));
    }
    ws.SetLastUsed(target);
    r := Ok(attempts);
  }

  /**
   * Everything after the release is prepared: publish it, propagate `main`
   * into the other local branches, clean up, and remember the target. The
   * read of the latest tag, call number `n`, has succeeded.
   */
  method Deliver(ws: Workspace, target: string, current: string, repoName: string, rel: Release,
                 ghost base: seq<Call>, ghost n: nat, oracle: Oracle)
    returns (r: Result<seq<Attempt>, Abort>)
    requires ws.Valid() && ws.log == base + [ReadLatestTag] && ws.calls == n + 1 && oracle(n, ReadLatestTag).None?
    modifies ws`tree, ws`trees, ws`log, ws`calls, ws`lastUsed
    ensures ws.Valid() && IsPrefix(base, ws.log)
    ensures r.Err? ==> ws.lastUsed == old(ws.lastUsed) && (r.error.StepFailed? || r.error.CleanupFailed?)
    ensures r.Err? && r.error.StepFailed? ==>
              Ran(FinishPlan(current, repoName, rel), oracle, n, ws.log[|base|..], ws.calls, Some((r.error.call, r.error.message)))
    ensures r.Err? && r.error.CleanupFailed? ==>
              && Covers(r.error.attempts, MergePlan(old(ws.tree.branches), current))
              && Finished(FinishPlan(current, repoName, rel), MergePlan(old(ws.tree.branches), current), CleanupPlan(current),
                          oracle, n, r.error.attempts,
                          ws.log[|base|..], ws.calls, Some((r.error.call, r.error.message)))
    ensures r.Ok? ==>
              && Covers(r.value, MergePlan(old(ws.tree.branches), current))
              && Finished(FinishPlan(current, repoName, rel), MergePlan(old(ws.tree.branches), current), CleanupPlan(current),
                          oracle, n, r.value, ws.log[|base|..], ws.calls, None)
              && ws.log == base + FinishPlan(current, repoName, rel) + LoopLog(r.value) + CleanupPlan(current)
              && ws.tree == Tree(Main, Without(old(ws.tree.branches), current),
                                 old(ws.tree.tags) + [rel.tag], Some(rel.content))
              && ws.lastUsed == Some(target)
    ensures NeverFails(oracle, n) ==> r.Ok?
  {
    ghost var finish := FinishPlan(current, repoName, rel);
    var failed;
    ghost var made;
    failed, made := Publish(ws, current, repoName, rel, oracle);
    Published(current, repoName, rel, oracle, n, made, ws.calls, failed);
    RanNeverFails(finish, oracle, n, [ReadLatestTag] + made, ws.calls, failed, n);
    assert ws.log[|base|..] == [ReadLatestTag] + made;
    if failed.Some? {
      return Err(StepFailed(failed.value.0, failed.value.1));
    }
    Associative(base, [ReadLatestTag], made);
    assert ws.log == base + finish && ws.calls == n + |finish| && AllSucceed(finish, oracle, n);
    assert ws.tree.branches == old(ws.tree.branches);
    r := Complete(ws, target, current, base, finish, n, oracle);
  }

  /**
   * `_finish_hotfix`. `repoName` is the repository name the hosting
   * provider knows; `date` is today's date as `%Y-%m-%d`; `template` is the
   * changelog template a missing CHANGELOG.md is seeded from.
   */
  method FinishHotfix(ws: Workspace, target: string, repoName: string, op: Operator, ext: External,
                      date: string, template: string, oracle: Oracle)
    returns (r: Result<Report, Abort>)
    requires ws.Valid() && ItemsClean(op.lines) && '\\' !in date && '\\' !in ext.toHttp(ws.remoteUrl)
    modifies ws`tree, ws`trees, ws`log, ws`calls, ws`lastUsed
    ensures ws.Valid() && IsPrefix(old(ws.log), ws.log)
    ensures (r.Err? && r.error.NotOnHotfixBranch?) <==> !IsPrefix(HotfixPrefix, old(ws.tree.current))
    ensures r.Err? && r.error.NotOnHotfixBranch? ==> r.error.branch == old(ws.tree.current)
    ensures !IsPrefix(HotfixPrefix, old(ws.tree.current)) ==>
              ws.log == old(ws.log) && ws.tree == old(ws.tree) && ws.calls == old(ws.calls)
    ensures r.Err? ==> ws.lastUsed == old(ws.lastUsed)
    ensures r.Err? && (r.error.BadTag? || r.error.InputEnded? || r.error.EmptyChangelog?) ==>
              && oracle(old(ws.calls), ReadLatestTag).None? && ws.calls == old(ws.calls) + 1
              && ws.log == old(ws.log) + [ReadLatestTag] && ws.tree == old(ws.tree)
              && Planned(old(ws.tree), old(ws.remoteUrl), op, ext, date, template).None?
    ensures r.Err? && r.error.BadTag? ==>
              r.error.tag == LatestTag(old(ws.tree.tags)) && NextPatchVersion(r.error.tag).None?
    ensures r.Err? && r.error.InputEnded? ==>
              NextPatchVersion(LatestTag(old(ws.tree.tags))).Some? && ItemsBeforeBlank(op.lines).None?
    ensures r.Err? && r.error.EmptyChangelog? ==>
              NextPatchVersion(LatestTag(old(ws.tree.tags))).Some? && ItemsBeforeBlank(op.lines) == Some([])
    ensures r.Err? && r.error.StepFailed? ==>
              || (&& r.error.call == ReadLatestTag && oracle(old(ws.calls), ReadLatestTag) == Some(r.error.message)
                  && ws.log == old(ws.log) && ws.tree == old(ws.tree) && ws.calls == old(ws.calls) + 1)
              || (&& Planned(old(ws.tree), old(ws.remoteUrl), op, ext, date, template).Some?
                  && Ran(FinishPlan(old(ws.tree.current), repoName, Planned(old(ws.tree), old(ws.remoteUrl), op, ext, date, template).value),
                         oracle, old(ws.calls), ws.log[|old(ws.log)|..], ws.calls, Some((r.error.call, r.error.message))))
    ensures r.Err? && r.error.CleanupFailed? ==>
              && Planned(old(ws.tree), old(ws.remoteUrl), op, ext, date, template).Some?
              && Covers(r.error.attempts, MergePlan(old(ws.tree.branches), old(ws.tree.current)))
              && Finished(FinishPlan(old(ws.tree.current), repoName, Planned(old(ws.tree), old(ws.remoteUrl), op, ext, date, template).value),
                          MergePlan(old(ws.tree.branches), old(ws.tree.current)), CleanupPlan(old(ws.tree.current)),
                          oracle, old(ws.calls), r.error.attempts,
                          ws.log[|old(ws.log)|..], ws.calls, Some((r.error.call, r.error.message)))
    ensures r.Err? ==>
              r.error.NotOnHotfixBranch? || r.error.BadTag? || r.error.InputEnded? || r.error.EmptyChangelog?
              || r.error.StepFailed? || r.error.CleanupFailed?
    ensures r.Ok? ==>
              && Planned(old(ws.tree), old(ws.remoteUrl), op, ext, date, template) == Some(r.value.release)
              && Covers(r.value.attempts, MergePlan(old(ws.tree.branches), old(ws.tree.current)))
              && Finished(FinishPlan(old(ws.tree.current), repoName, r.value.release),
                          MergePlan(old(ws.tree.branches), old(ws.tree.current)), CleanupPlan(old(ws.tree.current)),
                          oracle, old(ws.calls), r.value.attempts, ws.log[|old(ws.log)|..], ws.calls, None)
              && ws.log == old(ws.log) + FinishPlan(old(ws.tree.current), repoName, r.value.release)
                           + LoopLog(r.value.attempts) + CleanupPlan(old(ws.tree.current))
              && ws.tree == Tree(Main, Without(old(ws.tree.branches), old(ws.tree.current)),
                                 old(ws.tree.tags) + [r.value.release.tag], Some(r.value.release.content))
              && ws.lastUsed == Some(target)
    ensures (&& IsPrefix(HotfixPrefix, old(ws.tree.current)) && NeverFails(oracle, old(ws.calls))
             && Planned(old(ws.tree), old(ws.remoteUrl), op, ext, date, template).Some?) ==> r.Ok?
  {
    var current := ws.tree.current;
    if !IsPrefix(HotfixPrefix, current) {
      return Err(NotOnHotfixBranch(current));
    }
    ghost var base, n := ws.log, ws.calls;
    var prepared := Prepare(ws, op, ext, date, template, oracle);
    if prepared.Err? {
      return Err(prepared.error);
    }
    var rel := prepared.value;
    var delivered := Deliver(ws, target, current, repoName, rel, base, n, oracle);
    if delivered.Err? {
      return Err(delivered.error);
    }
    r := Ok(Report(rel, delivered.value));
  }
}
