# gfr hotfix workflow, modelled in Dafny

This project models the `gfr hotfix` command: `start` opens a hotfix from
`main`, and `finish` publishes it as the next patch release.

**Start** runs these steps:
1. Create an issue.
2. Create a `hotfix/<issue>-<slug>` branch from `main`.
3. Switch to that branch.
4. Remember the target.

**Finish** runs these steps:
1. Read the latest tag and compute the next patch version.
2. Collect the "Fixed" items.
3. Write the new section into `CHANGELOG.md`, then commit and push.
4. Open and merge a pull request into `main`, then one into `develop`.
5. Sync both branches.
6. Tag and release from `main`.
7. Merge `main` into every other local branch. This is best effort: a failure is recorded and the loop goes on.
8. Delete the hotfix branch and return to `main`.

The model has two layers.

**Pure layer:**
- `Version`: tag parsing and the next patch version.
- `Rules`: branch slug, pull-request body, merge-plan filter, conflict classification.
- `Changelog`: item collection, entry and release-notes rendering, and the hand-coded `re.sub` insertion and seeding of CHANGELOG.md.
- `Text` and `Wrappers`: the Python string operations these rely on, written out (`split`, `join`, `strip`, ASCII `lower`, `int`). `lstrip` is `Version.LStrip`.

**State-machine layer** (`Repo`, `Hotfix`):
- A `Workspace` class holds the local state: the checked-out branch, the branch list, the tags in creation order, and CHANGELOG.md. It also holds the remote URL, the "last used" config value, and the log of provider calls that succeeded.
- Every provider call goes through `Workspace.Perform`. An oracle, indexed by the call counter, decides whether the call fails, and with which message.
- The workspace keeps the invariant that its state is the replay of its log from its initial state.

The main contracts:
- `StartHotfix` and `FinishHotfix` abort on a failed precondition with nothing changed, and otherwise make their calls in the fixed order.
- `Ran(plan, oracle, n, made, calls, failed)` says what issuing `plan` from call number `n` does. The calls made are the longest prefix of the plan that the oracle accepts. A reported failure is the next call of the plan, with the message the oracle gave for it. The counter moves by one per call issued. Every phase method before the loop ensures `Ran` of its own plan, except the tag read in `Prepare`, which is tied to the oracle directly. In the loop, `TryMerge` and `Propagate` ensure `AttemptAt` and `Attempts` instead.
- A failed step before the propagation loop ends the run.
- The loop attempts every planned branch whatever happens to the others. Each attempt is decided by the oracle's answers at its own call numbers (`AttemptAt`).

`_extract_issue_number` and `format_git_url_to_http` live in
`gfr/utils/command_helpers`, which is not part of this model. They are
uninterpreted function fields of `Hotfix.External`. The date, the changelog
template, the typed-in lines and the pull-request description are parameters.
So is `issueNumber` of `StartHotfix`, which stands for the `issue.number` that
creating the issue returns (`gfr/commands/hotfix.py:62`, `66`).

Branch names are compared case-sensitively (`gfr/commands/hotfix.py:171`),
and `Rules.MergePlan` does the same.

## Model

| member | source | states |
|---|---|---|
| Version.LStrip | gfr/commands/hotfix.py:25 | the result is a suffix of the input, everything removed is the stripped character, and the result does not start with it |
| Version.ParseVersion | gfr/commands/hotfix.py:25 | `map(int, s.lstrip("v").split("."))` into three names; pinned by `ParseOfPieces` and `RenderedParses` (three digit pieces parse to their values) and by `NextPatchVersion`, whose result exists exactly when it parses |
| Version.NextPatchVersion | gfr/commands/hotfix.py:19-27 | an empty tag gives `0.0.1`; otherwise there is a result exactly when the tag parses as three dot-separated integers after leading `v`s, and then it renders major, minor and patch + 1; every result is digits and dots |
| Version.RenderRoundTrip | gfr/commands/hotfix.py:27 | a rendered version parses back to the same triple |
| Version.RenderedParses | gfr/commands/hotfix.py:25 | a tag with any leading `v`s and zero-padded fields parses to the fields' values |
| Version.ParseOfPieces | gfr/commands/hotfix.py:25 | a tag whose stripped text splits into three non-empty digit strings parses to their values |
| Version.NextOfParsed | gfr/commands/hotfix.py:25-27 | a tag that parses to (major, minor, patch) has next version major.minor.(patch+1) |
| Version.NextOfTag | gfr/commands/hotfix.py:25-27 | any number of leading `v`s and leading zeros in each field are ignored: the next version is the normalised major.minor.(patch+1) |
| Version.NextOfReleaseTag | gfr/commands/hotfix.py:95-96 | for the tag `v` + version that a finish creates, the next version bumps only the patch |
| Version.SuccessiveHotfixes | gfr/commands/hotfix.py:94-96 | two finishes in a row give patch + 1, then patch + 2, with major and minor unchanged |
| Text.NatToString | gfr/commands/hotfix.py:27 | a rendered number is a non-empty string of digits with no leading zero |
| Text.ParseNat | gfr/commands/hotfix.py:25 | `int` succeeds exactly on a non-empty string of digits |
| Text.ParseRendered | gfr/commands/hotfix.py:25 | `int` of a decimal numeral with any leading zeros is its value |
| Text.Strip | gfr/commands/hotfix.py:117 | the result is the input with its leading and trailing whitespace removed, and neither end of the result is whitespace |
| Text.SplitJoin | gfr/commands/hotfix.py:108 | splitting a join at its separator gives back the parts when no part contains it |
| Text.FindFrom | gfr/commands/hotfix.py:114 | the result is the first index at or after `from` where the pattern occurs, or none when it occurs nowhere there |
| Text.Lower | gfr/commands/hotfix.py:66 | each character is lowered, and the length is kept |
| Text.ContainsIff | gfr/commands/hotfix.py:179 | `in` holds exactly when the pattern occurs at some index |
| Changelog.ItemsBeforeBlank | gfr/commands/hotfix.py:32-38 | none exactly when the input ends before an empty line; otherwise the items are the lines before the first empty line, in order, all non-empty |
| Changelog.PromptForChangelogItems | gfr/commands/hotfix.py:29-38 | the `while` loop returns what `ItemsBeforeBlank` specifies |
| Changelog.Bullets | gfr/commands/hotfix.py:108 | one `"- " + item` per item, in order |
| Changelog.ReleaseLink | gfr/commands/hotfix.py:107 | `<http url>/releases/tag/<tag>`; it enters the entry heading, and `EntryHasNoBackslash` carries its backslash-freedom into the entry |
| Changelog.Entry | gfr/commands/hotfix.py:108 | the new section; pinned by `EntryAsLines` and `EntryLines` (heading, `### Fixed`, the bullets in order, an empty last line) |
| Changelog.ReleaseNotes | gfr/commands/hotfix.py:164 | the release body; pinned by `JoinBullets` and `ReleaseNotesLines` (`## Changelog`, then one bullet line per item) |
| Changelog.EntryAsLines | gfr/commands/hotfix.py:107-108 | the entry is the heading line, `### Fixed`, the bullets and an empty last line, joined by newlines |
| Changelog.EntryLines | gfr/commands/hotfix.py:107-108 | when no part contains a newline, the entry's lines are exactly the heading, `### Fixed`, the bullets in order and an empty last line |
| Changelog.JoinBullets | gfr/commands/hotfix.py:164 | joining the items with `"\n- "` after `"- "` is joining their bullets with newlines |
| Changelog.ReleaseNotesLines | gfr/commands/hotfix.py:164 | the release notes are `## Changelog` followed by one bullet line per item, in order |
| Changelog.EntryHasNoBackslash | gfr/commands/hotfix.py:114 | an entry built from backslash-free parts has no backslash, so `re.sub` copies it literally |
| Changelog.FindMatch | gfr/commands/hotfix.py:114 | a match is the first `# Changelog\n\n` and the first `\n\n` at or after its end; none exactly when either is missing |
| Changelog.InsertEntry | gfr/commands/hotfix.py:114 | the rewritten content is never shorter than the original |
| Changelog.InsertAtFirstMatch | gfr/commands/hotfix.py:114 | with a match, the entry and a newline are placed right after the shortest span, and the text before and after it is kept verbatim |
| Changelog.LaterHeadingKept | gfr/commands/hotfix.py:114 | only the first block is rewritten: a later `# Changelog` heading past the insertion point is still there, shifted by the entry and its newline |
| Changelog.InsertWithoutMatch | gfr/commands/hotfix.py:114 | without a `# Changelog` heading, or without a blank line after it, the content is unchanged |
| Changelog.Overwrite | gfr/commands/hotfix.py:111-114 | writing at offset 0 without truncating leaves the longer of the two lengths, led by the data written; after a shorter write the old tail is still there |
| Changelog.Translate | gfr/commands/hotfix.py:112 | the text-mode read has no carriage return left and is never longer than the raw file; it is the raw file when that has no carriage return, and strictly shorter when it has a `\r\n` pair |
| Changelog.TranslateFront | gfr/commands/hotfix.py:112 | character by character: `\r\n` reads as one `\n`, a lone `\r` reads as `\n`, and every other character reads as itself |
| Changelog.WrittenInPlace | gfr/commands/hotfix.py:110-114 | the `r+` write as written: the file starts with the insertion into the text as read, and is exactly that insertion when the raw file has no carriage return |
| Changelog.CrlfLeavesTail | gfr/commands/hotfix.py:110-114 | the raw file `a\r\n` with no heading is left as `a\n\n` by the write as written, and as `a\n` by the truncating one |
| Changelog.Seed | gfr/commands/hotfix.py:117 | a new file is the stripped template, a blank line, then the entry |
| Changelog.WrittenChangelog | gfr/commands/hotfix.py:110-117 | the file holds exactly the new text: the insertion into the text as read on an existing file, the seeded template on a missing one |
| Changelog.SameWithoutCarriageReturns | gfr/commands/hotfix.py:110-114 | on a file without carriage returns the truncating write and the write as written leave the same file, the insertion |
| Changelog.NewestFirst | gfr/commands/hotfix.py:110-117 | on a fresh repository whose stripped template opens with `# Changelog`, a blank line and text with no further blank line, a second finish puts its entry between the template and the first entry |
| Changelog.BareHeadingDropsSecond | gfr/commands/hotfix.py:110-117 | on a fresh repository whose stripped template is the bare `# Changelog` heading, and whose first entry holds no blank line, a second finish leaves the file unchanged, so its entry is lost |
| Rules.Slug | gfr/commands/hotfix.py:66 | same length; no space and no upper-case letter; a result character is `-` exactly where the name had a space or a hyphen; every other character is the lowered one |
| Rules.SlugIdempotent | gfr/commands/hotfix.py:66 | slugging a slug changes nothing |
| Rules.SlugExample | gfr/commands/hotfix.py:66 | `Fix login bug` slugs to `fix-login-bug` |
| Rules.BranchName | gfr/commands/hotfix.py:66 | `hotfix/<issue>-<slug>`; pinned by `BranchNameEncodesIssue` (prefix, and the issue number reads back) and `BranchNameExample` |
| Rules.BranchNameEncodesIssue | gfr/commands/hotfix.py:66 | a branch name starts with `hotfix/`, and the text between that prefix and the first hyphen parses back to the issue number |
| Rules.BranchNameExample | gfr/commands/hotfix.py:66 | issue 42 named `Fix login bug` gives `hotfix/42-fix-login-bug` |
| Rules.PrBody | gfr/commands/hotfix.py:132-134 | with an issue number, exactly `Closes #n`, a blank line and the description; without one, the description itself; so it is longer than the description exactly when an issue number was extracted |
| Rules.Excluded | gfr/commands/hotfix.py:171 | `main`, `develop`, `doc`, the current branch and `remotes/` names; `MergePlan` ensures a branch is planned exactly when it is listed and not excluded |
| Rules.MergePlan | gfr/commands/hotfix.py:171 | a branch is planned exactly when it is listed and is none of `main`, `develop`, `doc`, the current branch or a `remotes/` name; the plan is a subsequence of the list, so order is kept |
| Rules.MergePlanCounts | gfr/commands/hotfix.py:171 | each branch appears in the plan as often as in the list when kept, and never when excluded |
| Rules.MergePlanOrderIndependent | gfr/commands/hotfix.py:171 | reordering the branch list reorders the plan and changes nothing else |
| Rules.Classify | gfr/commands/hotfix.py:178-188 | a failure keeps its message, and it is a conflict exactly when the lowered message contains `merge conflict` |
| Repo.Without | gfr/commands/hotfix.py:193 | after deleting a local branch, the other branches remain and that one is gone |
| Repo.Apply | gfr/commands/hotfix.py:69-193 | the effect of one successful call on the local state: a branch created or deleted, a switch, the changelog written, a tag created, everything else unchanged; `Workspace.Perform` applies it on success and `ReplayAppend`/`ReplayCurrent` compose it |
| Repo.LatestTag | gfr/commands/hotfix.py:94 | the newest tag, `""` with none; `TagAndRelease` ensures the tag it creates becomes the latest, and `NextOfReleaseTag` bumps from it |
| Repo.ReplayAppend | gfr/commands/hotfix.py:76-198 | replaying two runs of calls is replaying the first, then the second |
| Repo.ReplayCurrent | gfr/commands/hotfix.py:194 | after calls ending with a switch, that branch is checked out |
| Repo.ChainReplays | gfr/commands/hotfix.py:76-198 | a chain of states, each made by one call from the one before, ends at the replay of the calls |
| Repo.Workspace.Replays | gfr/commands/hotfix.py:76-198 | a valid workspace's state is its initial state replayed through its log |
| Repo.Workspace.Perform | gfr/commands/hotfix.py:59-70 | a provider call fails as the oracle says; on success it is logged and applied to the state, and on failure nothing changes but the call counter |
| Repo.Workspace.SetLastUsed | gfr/commands/hotfix.py:73 | the config's last-used target becomes the given one |
| Hotfix.ParseCommand | gfr/commands/hotfix.py:215-224 | the action is matched case-insensitively; `start` without a name and an unknown action are errors |
| Hotfix.StartPlan | gfr/commands/hotfix.py:59-70 | repository lookup, issue, branch from `main`, switch, in that order; `StartHotfix` and `OpenHotfix` ensure the run of exactly this plan |
| Hotfix.FinishPlan | gfr/commands/hotfix.py:94-169 | the twenty calls before the loop; spelled out by `FinishPlanSpelled`, ordered by `PullRequestOrder` and `TagAfterMerges`, and run by `Deliver` and `FinishHotfix` |
| Hotfix.Planned | gfr/commands/hotfix.py:95-134 | the release a finish would publish from a state, or none on a bad tag, ended input or no items; `PlanRelease` returns exactly it, and `FinishHotfix` publishes exactly it |
| Hotfix.RanUnique | gfr/commands/hotfix.py:59-70 | the provider's answers decide a run: two runs of one plan from one call number make the same calls, end at the same counter and report the same failure |
| Hotfix.RanSucceeds | gfr/commands/hotfix.py:104-165 | a run ends without a failure exactly when the provider accepts every call of the plan |
| Hotfix.RanThen | gfr/commands/hotfix.py:104-165 | a successful run of one plan followed by a run of a second is the run of both, one after the other |
| Hotfix.RanStop | gfr/commands/hotfix.py:104-165 | a run that stopped inside a plan stopped at the same call of any longer plan |
| Hotfix.RanNeverFails | gfr/commands/hotfix.py:76-198 | a run made while the provider accepts every call ends without a failure |
| Hotfix.Step | gfr/commands/hotfix.py:59 | one call: it fails exactly when the oracle fails it at the current call number, and then the failure names the call and carries the oracle's message; on success it is logged and applied, otherwise the state is unchanged |
| Hotfix.StepPair | gfr/commands/hotfix.py:59-70 | two calls in a row, the second only after the first succeeded, as one run of the pair |
| Hotfix.StartHotfix | gfr/commands/hotfix.py:40-74 | off `main` it aborts with nothing changed; a failure is reported exactly when the oracle fails a call of the plan (repository lookup, issue, branch, switch), it names that call with the oracle's message, and the log gained just the calls before it; on success the log is the plan, the counter moved by four, the new branch `hotfix/<n>-<slug>` exists and is checked out, and the target is remembered |
| Hotfix.OpenHotfix | gfr/commands/hotfix.py:59-70 | repository lookup, issue, branch from `main`, switch, as one run; on success the new branch exists and is checked out |
| Hotfix.PrStepsAt | gfr/commands/hotfix.py:142-146 | the pull request for base `i` is created at step `2i` of the pull-request steps and merged at the step right after |
| Hotfix.TwoPullRequests | gfr/commands/hotfix.py:142 | the bases are `main`, then `develop`: create and merge into `main`, then create and merge into `develop` |
| Hotfix.RanPullRequest | gfr/commands/hotfix.py:142-146 | one more pull request, created then merged, extends the run of those before it; a failure in it stops the run of all of them |
| Hotfix.FinishPlanSpelled | gfr/commands/hotfix.py:94-170 | the twenty calls of a finish before the loop, in source order |
| Hotfix.PullRequestOrder | gfr/commands/hotfix.py:142-146 | exactly two pull requests are created, into `main` then `develop`, and each is merged before the next is created |
| Hotfix.TagAfterMerges | gfr/commands/hotfix.py:157-160 | the one tag is created after both merges, and `main` is checked out at that moment whatever the starting state |
| Hotfix.CommitAndPush | gfr/commands/hotfix.py:104-140 | remote URL, changelog write, stage, commit, push and repository lookup, as one run of that plan from the current call number; on success only the changelog changes |
| Hotfix.MergePullRequests | gfr/commands/hotfix.py:142-146 | the `for` loop over the bases is one run of create-then-merge for each base in turn, stopping at the call the oracle fails; the local state is untouched |
| Hotfix.SyncBranches | gfr/commands/hotfix.py:150-154 | switch to and pull `main`, then `develop`, as one run; on success `develop` is checked out |
| Hotfix.TagAndRelease | gfr/commands/hotfix.py:159-165 | switch to `main`, tag, push the tags, release, as one run; on success `main` is checked out and the new tag is the latest |
| Hotfix.ReleaseFor | gfr/commands/hotfix.py:95-96 | the release carries the computed version, the tag `v` + version, and the collected items |
| Hotfix.PlanRelease | gfr/commands/hotfix.py:95-108 | a bad tag, ended input or no items, each with its cause, exactly when no release is planned for the state; otherwise the planned release |
| Hotfix.Prepare | gfr/commands/hotfix.py:94-108 | the tag read fails exactly when the oracle fails it, and then it is reported with the oracle's message and the log is unchanged; otherwise it is logged, and a bad tag, ended input or no items abort with the state unchanged exactly when no release is planned, and a release is the one planned for that state; the counter moves by one; the changelog items are those before the first blank line and carry no backslash (`ItemsClean`) |
| Hotfix.MergeHotfix | gfr/commands/hotfix.py:104-146 | the commit phase, then the two pull requests, as one run of their joined plan |
| Hotfix.ReleaseFromMain | gfr/commands/hotfix.py:148-170 | sync, tag and release, then the branch listing, as one run of their joined plan |
| Hotfix.Publish | gfr/commands/hotfix.py:104-170 | one run of the publishing calls; on success `main` is checked out, the tag is added and CHANGELOG.md holds the new content |
| Hotfix.LoopSnoc | gfr/commands/hotfix.py:173-176 | each attempt appends its own calls to the log, and moves the checkout only when its switch succeeded |
| Hotfix.CoversSnoc | gfr/commands/hotfix.py:173 | a coherent attempt at the next planned branch extends the coverage of the plan by one |
| Hotfix.AttemptAt | gfr/commands/hotfix.py:174-188 | switched exactly when the oracle accepts the switch; merged exactly when it also accepts the merge of `main`; otherwise the outcome carries the message of the call the oracle failed |
| Hotfix.AttemptAtCoherent | gfr/commands/hotfix.py:178-188 | whatever the provider answers, an attempt merged only if it switched, and a failure is classified by its message |
| Hotfix.Attempts | gfr/commands/hotfix.py:173-188 | the loop's attempts from its first call number, one per planned branch; pinned by `AttemptsCover` (every branch, in order, coherent) and `AttemptAt` (each decided by the oracle at its call numbers); `Propagate` returns exactly it |
| Hotfix.AttemptsCover | gfr/commands/hotfix.py:173-188 | whatever the provider answers, the loop's attempts cover the plan: one per planned branch, in order, each coherent |
| Hotfix.TryMerge | gfr/commands/hotfix.py:174-188 | the attempt is the one the oracle's answers at the current call numbers decide (`AttemptAt`); the counter moves by one call, or two once switched; the log gains the calls that succeeded; only the checkout moves, and only when the switch succeeded |
| Hotfix.Propagate | gfr/commands/hotfix.py:173-188 | the attempts are those the oracle's answers decide from the loop's first call number (`Attempts`), one per planned branch in order whatever happened to the earlier ones; the counter and log move by the attempts' calls, and only the checkout moves |
| Hotfix.Cleanup | gfr/commands/hotfix.py:192-194 | delete the hotfix branch remotely, then locally, then switch to `main`, as one run; on success the branch is gone and `main` is checked out |
| Hotfix.Conclude | gfr/commands/hotfix.py:170-194 | propagation over the merge plan of the post-release branch list, starting at the call after the finish's plan, then the cleanup run at the call after the loop; when the provider never fails, cleanup succeeds |
| Hotfix.Complete | gfr/commands/hotfix.py:170-198 | a cleanup failure is reported with the oracle's message after the whole loop, and the target is not remembered; on success the log is plan, loop and cleanup, the hotfix branch is gone, `main` is checked out and the target is remembered; when the provider never fails, it succeeds |
| Hotfix.Deliver | gfr/commands/hotfix.py:104-197 | after the tag read: a publishing failure is the run of the finish plan stopping at the call the oracle failed; a cleanup failure comes after the whole loop; success gives the full log, the final state and the remembered target; when the provider never fails, it succeeds |
| Hotfix.FinishHotfix | gfr/commands/hotfix.py:76-198 | off a `hotfix/` branch it aborts with no call made; a failed tag read is reported with the oracle's message; a bad tag, ended input or no items abort before the changelog is touched, exactly when no release is planned, and a bad tag wins over the other two because the version is computed before the prompt; any other failed call stops the run of the plan at the call the oracle failed; a cleanup failure comes after the whole loop; on success every planned branch was attempted as the oracle decided, the log is plan, loop and cleanup in order, and the state is `main` checked out, the hotfix branch gone, the new tag latest, CHANGELOG.md written, and the target remembered; when the provider never fails and a release is planned, it succeeds; the changelog items are those before the first blank line and carry no backslash (`ItemsClean`) |

## Left out

- Console output (`rich`), spinners and `typer.Exit` codes: an abort is an `Abort` value instead.
- The `KeyboardInterrupt` handler (gfr/commands/hotfix.py:229-231): there is no interruption in the model.
- `validate_and_get_repo_details`: the target and the provider's repository name are parameters.
- `datetime.now()`: the release date is a parameter.
- `CHANGELOG_TEMPLATE`: the template is a parameter. Whether a second finish on a seeded file keeps its entry depends on it (`Changelog.NewestFirst` against `Changelog.BareHeadingDropsSecond`), and its value is not part of this model.
- `get_multiline_input`: the pull-request description is a parameter. `input()` is a canned sequence of lines, and its end is `EOFError`, modelled as `InputEnded`.
- `_extract_issue_number` and `format_git_url_to_http`: uninterpreted functions, as they are not part of this model.
- Real git and GitHub behaviour: each provider call changes only the local state it names. Merging, pulling and remote branches are not tracked.
- `get_latest_tag` is taken as the most recently created tag, and `""` stands for no tag.
- Reading the current branch is a read of the local state that cannot fail.
- File reads and writes of CHANGELOG.md are the single provider call `WriteChangelog`, which can fail like any other.
- Newline translation on write: a text-mode write is taken to write `\n` as is, as on POSIX. On Windows it would write `\r\n`. Only the read's universal-newline translation (`Changelog.Translate`) is modelled.
- The changelog content a finish writes is the corrected, truncating write (`Changelog.WrittenChangelog`). The write as written differs from it only on a file with carriage returns; see Findings.
- The propagation loop catches only `GitError`. In the model any failure of a loop call is caught, because the model does not tell error types apart.
- A malformed tag raises `ValueError` in `map(int, ...)`, which the command's error handler does not catch. The model reports it as the `BadTag` abort.
- The configuration file: only the "last used" value is modelled, as the `lastUsed` field.
- `gfr/commands/create.py` and `gfr/commands/switch.py`: prompts and a branch picker around single provider calls.
- The general regex engine: only the one pattern of gfr/commands/hotfix.py:114 is hand-coded.
- Changelog.InsertEntry: requires an entry without backslashes. `re.sub` reads its replacement as a template, and its escape handling is not modelled.
- Changelog.WrittenChangelog: requires an entry without backslashes, for the same reason.
- Hotfix.ReleaseFor: requires backslash-free items, date and URL, so the entry is backslash-free.
- Hotfix.FinishHotfix: requires a backslash-free date and URL, and backslash-free changelog items, for the same reason. The items are the typed lines before the first blank line (`ItemsClean`); later lines are unconstrained.
- Hotfix.Prepare: requires the same of its inputs, for the same reason.
- Hotfix.PlanRelease: requires the same of its inputs, for the same reason.
- Changelog.Overwrite: works on characters, where the `r+` write overwrites encoded bytes. It matches the file's bytes only for ASCII text. For example, the raw bytes `0D 0A C3 A9` (`\r\né`) end up as `0A C3 A9 A9`, which is not valid UTF-8, while the model gives `\néé`.
- Changelog.WrittenInPlace: inherits the character-level overwrite, so its leftover tail is exact only for ASCII files.
- Text.Lower: lowers only ASCII letters. Python's `str.lower` is Unicode-aware.
- Rules.Slug: inherits the ASCII-only lowering.
- Text.ParseNat: accepts only ASCII digits. Python's `int` also accepts surrounding whitespace, a sign, underscores between digits and non-ASCII digits.
- Hotfix.TryMerge: does not model the conflict-resolution hints the loop prints.

## Findings

| source | as written | input that shows it | evidently intended | confidence | as-written member | corrected member |
|---|---|---|---|---|---|---|
| gfr/commands/hotfix.py:110-117 | CHANGELOG.md is opened with `r+` in text mode, read, then rewritten from offset 0 with no `truncate()`. The read turns `\r\n` into `\n`, so the rewritten text can be shorter than the raw file, and the raw file's tail stays behind it. | a raw file `a\r\n` with no `# Changelog` heading: the text read is `a\n`, the write puts `a\n` over the first two characters, and the file becomes `a\n\n` | the file holds exactly the rewritten text, `a\n` here | not executed | Changelog.WrittenInPlace; Changelog.CrlfLeavesTail | Changelog.WrittenChangelog; Changelog.SameWithoutCarriageReturns |
