/**
 * The naming and selection rules of the hotfix workflow
 * (gfr/commands/hotfix.py:66, 132-134, 171, 179): the branch slug, the
 * pull-request body, which local branches receive `main` afterwards, and
 * how a failed merge is classified.
 */
module Rules {
  import opened Wrappers
  import opened Text

  const HotfixPrefix := "hotfix/"
  /** The two long-lived branches a hotfix is merged into, in that order. */
  const Main := "main"
  const Develop := "develop"
  const PrBases: seq<string> := [Main, Develop]
  const Labels: seq<string> := ["bug", "hotfix"]

  function SlugChar(c: char): char {
    if c == ' ' then '-' else LowerChar(c)
  }

  /** `name.lower().replace(' ', '-')`, with ASCII case folding. */
  function Slug(name: string): (r: string)
    ensures |r| == |name|
    ensures forall k :: 0 <= k < |r| ==> r[k] != ' ' && !('A' <= r[k] <= 'Z')
    ensures forall k :: 0 <= k < |r| ==> (name[k] == ' ' || name[k] == '-' <==> r[k] == '-')
    ensures forall k :: 0 <= k < |r| && name[k] != ' ' ==> r[k] == Lower(name)[k]
  {
    seq(|name|, k requires 0 <= k < |name| => SlugChar(name[k]))
  }

  /** A slug is its own slug. */
  lemma SlugIdempotent(name: string)
    ensures Slug(Slug(name)) == Slug(name)
  {
    var s := Slug(name);
    forall k | 0 <= k < |s| ensures Slug(s)[k] == s[k] {
      assert SlugChar(s[k]) == s[k];
    }
  }

  /** The branch Start creates: `hotfix/<issue number>-<slug of the name>`. */
  function BranchName(issue: nat, name: string): string {
    HotfixPrefix + NatToString(issue) + "-" + Slug(name)
  }

  lemma DigitsHaveNoHyphen(s: string)
    requires AllDigits(s)
    ensures '-' !in s
  {
  }

  /**
   * The branch name starts with `hotfix/` (so Finish accepts it), and the
   * digits right after the prefix, up to the first hyphen, are the issue number.
   */
  lemma BranchNameEncodesIssue(issue: nat, name: string)
    ensures IsPrefix(HotfixPrefix, BranchName(issue, name))
    ensures ParseNat(Split(BranchName(issue, name)[|HotfixPrefix|..], '-')[0]) == Some(issue)
  {
    var b := BranchName(issue, name);
    var digits := NatToString(issue);
    assert b[|HotfixPrefix|..] == digits + ['-'] + Slug(name);
    DigitsHaveNoHyphen(digits);
    SplitCons(digits, '-', Slug(name));
    ParseRendered("", issue);
    assert "" + digits == digits;
  }

  /** The slug of the example name: lower case, spaces turned into hyphens. */
  lemma SlugExample()
    ensures Slug("Fix login bug") == "fix-login-bug"
  {
    assert SlugChar('F') == 'f' && SlugChar(' ') == '-';
  }

  /** The example of a start on issue 42. */
  lemma BranchNameExample()
    ensures BranchName(42, "Fix login bug") == "hotfix/42-fix-login-bug"
  {
    SlugExample();
    assert NatToString(42) == "42" by {
      assert NatToString(4) == "4";
    }
    assert HotfixPrefix + "42" + "-" + "fix-login-bug" == "hotfix/42-fix-login-bug";
  }

  /** Python truthiness of the extracted issue number: neither missing nor empty. */
  predicate HasIssue(issue: Option<string>) {
    issue.Some? && issue.value != ""
  }

  /** The pull-request body (gfr/commands/hotfix.py:132-134). */
  function PrBody(issue: Option<string>, description: string): (r: string)
    ensures IsSuffix(description, r)
    ensures HasIssue(issue) <==> |r| > |description|
    ensures HasIssue(issue) ==> IsPrefix("Closes #" + issue.value + "\n\n", r)
    ensures HasIssue(issue) ==> r == "Closes #" + issue.value + "\n\n" + description
    ensures !HasIssue(issue) ==> r == description
  {
    if HasIssue(issue) then "Closes #" + issue.value + "\n\n" + description else description
  }

  /** The branches the propagation phase leaves alone. */
  predicate Excluded(branch: string, current: string) {
    branch in [Main, Develop, "doc", current] || IsPrefix("remotes/", branch)
  }

  /** `a` is `b` with some elements dropped, order kept. */
  predicate IsSubsequence(a: seq<string>, b: seq<string>)
    decreases |b|
  {
    if a == [] then true
    else if b == [] then false
    else if a[0] == b[0] then IsSubsequence(a[1..], b[1..])
    else IsSubsequence(a, b[1..])
  }

  /** `branches_to_merge_into` (gfr/commands/hotfix.py:171). */
  function MergePlan(branches: seq<string>, current: string): (r: seq<string>)
    ensures forall b :: b in r <==> b in branches && !Excluded(b, current)
    ensures IsSubsequence(r, branches)
  {
    if branches == [] then []
    else if Excluded(branches[0], current) then MergePlan(branches[1..], current)
    else [branches[0]] + MergePlan(branches[1..], current)
  }

  /** Each kept branch appears in the plan as often as in the input; excluded ones never. */
  lemma {:induction false} MergePlanCounts(branches: seq<string>, current: string, b: string)
    ensures multiset(MergePlan(branches, current))[b]
         == if Excluded(b, current) then 0 else multiset(branches)[b]
  {
    if branches != [] {
      MergePlanCounts(branches[1..], current, b);
      assert branches == [branches[0]] + branches[1..];
    }
  }

  /** Reordering the branch list does not change which branches the plan holds. */
  lemma MergePlanOrderIndependent(a: seq<string>, b: seq<string>, current: string)
    requires multiset(a) == multiset(b)
    ensures multiset(MergePlan(a, current)) == multiset(MergePlan(b, current))
  {
    forall x ensures multiset(MergePlan(a, current))[x] == multiset(MergePlan(b, current))[x] {
      MergePlanCounts(a, current, x);
      MergePlanCounts(b, current, x);
    }
  }

  /** What one propagation attempt came to. */
  datatype Outcome = Merged | Conflict(message: string) | Failed(message: string)

  /** `"merge conflict" in str(e).lower()` (gfr/commands/hotfix.py:179). */
  predicate IsConflict(message: string) {
    Contains(Lower(message), "merge conflict")
  }

  /** The classification of a GitError raised while merging into one branch. */
  function Classify(message: string): (r: Outcome)
    ensures !r.Merged? && r.message == message
    ensures r.Conflict? <==> exists k: nat :: OccursAt(Lower(message), "merge conflict", k)
  {
    ContainsIff(Lower(message), "merge conflict");
    if IsConflict(message) then Conflict(message) else Failed(message)
  }
}
