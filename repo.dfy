/**
 * The repository the workflow drives, seen through its two providers. Every
 * source-control and hosting call is a `Call`; a successful call is logged
 * and may change the local `Tree`. Whether a call fails, and with which
 * message, is decided by an `Oracle` the caller supplies, so every property
 * is proved for every pattern of provider failures.
 */
module Repo {
  import opened Wrappers
  import opened Text

  /** One provider call, with the arguments the source passes. */
  datatype Call =
    | GetRepo(name: string)
    | CreateIssue(title: string, body: string, labels: seq<string>)
    | CreateBranch(name: string, startPoint: string)
    | Switch(name: string)
    | ReadLatestTag
    | ReadRemoteUrl
    | WriteChangelog(content: string)
    | Stage(paths: seq<string>)
    | Commit(message: string)
    | PushBranch(name: string, setUpstream: bool)
    | CreatePr(title: string, body: string, head: string, base: string, labels: seq<string>)
    | MergePr(head: string, base: string)
    | Pull(name: string)
    | CreateTag(name: string, message: string)
    | PushTags
    | CreateRelease(tag: string, title: string, notes: string)
    | ListBranches
    | MergeLocal(from: string)
    | DeleteRemote(name: string)
    | DeleteLocal(name: string)

  /**
   * The local state the workflow reads and changes: the checked-out branch,
   * the branch list as `git` reports it (remote-tracking entries included),
   * the tags in creation order, and CHANGELOG.md (`None` when absent).
   */
  datatype Tree = Tree(current: string, branches: seq<string>, tags: seq<string>, changelog: Option<string>)

  /** `None` for success, `Some(message)` for a provider error; indexed by the call's position in the run. */
  type Oracle = (nat, Call) -> Option<string>

  /** `branches` without any entry equal to `name`. */
  function Without(branches: seq<string>, name: string): (r: seq<string>)
    ensures forall b :: b in r <==> b in branches && b != name
  {
    if branches == [] then []
    else if branches[0] == name then Without(branches[1..], name)
    else [branches[0]] + Without(branches[1..], name)
  }

  /** The effect of one successful call on the local state. */
  function Apply(t: Tree, c: Call): Tree {
    match c
    case CreateBranch(name, _) => t.(branches := t.branches + [name])
    case Switch(name) => t.(current := name)
    case WriteChangelog(content) => t.(changelog := Some(content))
    case CreateTag(name, _) => t.(tags := t.tags + [name])
    case DeleteLocal(name) => t.(branches := Without(t.branches, name))
    case _ => t
  }

  /** The local state after a sequence of successful calls. */
  function Replay(t: Tree, calls: seq<Call>): Tree
    decreases |calls|
  {
    if calls == [] then t else Apply(Replay(t, calls[..|calls| - 1]), calls[|calls| - 1])
  }

  lemma {:induction false} ReplayAppend(t: Tree, a: seq<Call>, b: seq<Call>)
    ensures Replay(t, a + b) == Replay(Replay(t, a), b)
    decreases |b|
  {
    if b == [] {
      assert a + b == a;
    } else {
      assert (a + b)[..|a + b| - 1] == a + b[..|b| - 1];
      ReplayAppend(t, a, b[..|b| - 1]);
    }
  }

  /** The checked-out branch after some calls: the last branch switched to, if any. */
  lemma {:induction false} ReplayCurrent(t: Tree, calls: seq<Call>, name: string)
    requires |calls| > 0 && calls[|calls| - 1] == Switch(name)
    ensures Replay(t, calls).current == name
  {
  }

  /** A chain of states, each made from the one before by one call, ends where replaying the calls ends. */
  lemma {:induction false} ChainReplays(trees: seq<Tree>, calls: seq<Call>, n: nat)
    requires |trees| == |calls| + 1 && n <= |calls|
    requires forall i :: 0 <= i < |calls| ==> trees[i + 1] == Apply(trees[i], calls[i])
    ensures trees[n] == Replay(trees[0], calls[..n])
  {
    if n > 0 {
      ChainReplays(trees, calls, n - 1);
      assert calls[..n][..n - 1] == calls[..n - 1];
    }
  }

  /** The latest tag as `get_latest_tag` reports it: the newest one, `""` with none. */
  function LatestTag(tags: seq<string>): string {
    if tags == [] then "" else tags[|tags| - 1]
  }

  /**
   * The working copy of one repository: its local state, the remote URL it
   * is configured with, the "last used" target of the config file, and the
   * log of every provider call that succeeded.
   */
  class Workspace {
    var tree: Tree
    var remoteUrl: string
    var lastUsed: Option<string>
    var log: seq<Call>
    var calls: nat
    ghost var origin: Tree
    /** The local state before and after each logged call. */
    ghost var trees: seq<Tree>

    /** The local state is always what the logged calls made of the initial state, one call at a time. */
    ghost predicate Valid()
      reads this
    {
      && |trees| == |log| + 1
      && trees[0] == origin
      && trees[|log|] == tree
      && forall i :: 0 <= i < |log| ==> trees[i + 1] == Apply(trees[i], log[i])
    }

    constructor (t: Tree, url: string, last: Option<string>)
      ensures Valid() && tree == t && origin == t
      ensures remoteUrl == url && lastUsed == last && log == [] && calls == 0
    {
      tree, remoteUrl, lastUsed := t, url, last;
      log, calls := [], 0;
      origin, trees := t, [t];
    }

    /** Issue one provider call; on success it takes effect and is logged. */
    method Perform(c: Call, oracle: Oracle) returns (err: Option<string>)
      requires Valid()
      modifies this`tree, this`trees, this`log, this`calls
      ensures Valid()
      ensures calls == old(calls) + 1 && err == oracle(old(calls), c)
      ensures err.None? ==> tree == Apply(old(tree), c) && log == old(log) + [c]
      ensures err.Some? ==> tree == old(tree) && log == old(log)
    {
      err := oracle(calls, c);
      calls := calls + 1;
      if err.None? {
        tree := Apply(tree, c);
        trees := trees + [tree];
        log := log + [c];
      }
    }

    /** The invariant, read as a replay: the local state is the initial one with every logged call applied. */
    lemma Replays()
      requires Valid()
      ensures tree == Replay(origin, log)
    {
      ChainReplays(trees, log, |log|);
      assert log[..|log|] == log;
    }

    /** `config.set_last_used_microservice(target)`. */
    method SetLastUsed(target: string)
      modifies this`lastUsed
      ensures lastUsed == Some(target)
    {
      lastUsed := Some(target);
    }
  }
}
