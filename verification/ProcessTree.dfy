/** The worklist walk over a process tree, for a fixed finite child relation read from /proc. */
module ProcessTree {
  type ChildRelation = map<nat, seq<nat>>

  function ChildPids(tree: ChildRelation, pid: nat): seq<nat> {
    if pid in tree then tree[pid] else []
  }

  /** `pid` is `n` parent-child steps below `root`. */
  ghost predicate ReachIn(tree: ChildRelation, root: nat, pid: nat, n: nat)
    decreases n
  {
    if n == 0 then pid == root
    else exists q :: ReachIn(tree, root, q, n - 1) && pid in ChildPids(tree, q)
  }

  ghost predicate Reachable(tree: ChildRelation, root: nat, pid: nat) {
    exists n: nat :: ReachIn(tree, root, pid, n)
  }

  /** The length of the shortest way from `root` down to `pid`. */
  ghost predicate IsDistance(tree: ChildRelation, root: nat, pid: nat, n: nat) {
    ReachIn(tree, root, pid, n) && forall m: nat :: m < n ==> !ReachIn(tree, root, pid, m)
  }

  ghost predicate NoDuplicates(pids: seq<nat>) {
    forall i, j :: 0 <= i < j < |pids| ==> pids[i] != pids[j]
  }

  function Known(tree: ChildRelation, root: nat): set<nat> {
    {root} + set p, c | p in tree && c in tree[p] :: c
  }

  /** The pids in the list with the depth at which each was found. */
  ghost predicate IsFrontier(tree: ChildRelation, root: nat, pids: seq<nat>, depth: seq<nat>) {
    && |depth| == |pids| >= 1 && pids[0] == root && depth[0] == 0 && NoDuplicates(pids)
    && (forall i :: 0 <= i < |pids| ==> pids[i] in Known(tree, root) && ReachIn(tree, root, pids[i], depth[i]))
    && (forall i, j :: 0 <= i <= j < |pids| ==> depth[i] <= depth[j])
  }

  ghost predicate FoundWithin(pids: seq<nat>, depth: seq<nat>, pid: nat, bound: nat)
    requires |depth| == |pids|
  {
    exists i :: 0 <= i < |pids| && pids[i] == pid && depth[i] <= bound
  }

  /** Every child of the first `cursor` pids is listed, at most one level further down. */
  ghost predicate IsExpanded(tree: ChildRelation, pids: seq<nat>, depth: seq<nat>, cursor: nat)
    requires |depth| == |pids| && cursor <= |pids|
  {
    forall j, c :: 0 <= j < cursor && c in ChildPids(tree, pids[j]) ==> FoundWithin(pids, depth, c, depth[j] + 1)
  }

  lemma FrontierFits(tree: ChildRelation, root: nat, pids: seq<nat>)
    requires NoDuplicates(pids) && forall i :: 0 <= i < |pids| ==> pids[i] in Known(tree, root)
    ensures |pids| <= |Known(tree, root)|
  {
    DistinctFit(pids, Known(tree, root));
  }

  lemma {:induction false} DistinctFit(pids: seq<nat>, known: set<nat>)
    requires NoDuplicates(pids) && forall i :: 0 <= i < |pids| ==> pids[i] in known
    ensures |pids| <= |known|
  {
    if pids != [] {
      var init, last := pids[..|pids| - 1], pids[|pids| - 1];
      assert forall i :: 0 <= i < |init| ==> init[i] in known - {last};
      DistinctFit(init, known - {last});
    }
  }

  /** A pid `n` steps down is listed at depth at most `n` once the whole list is expanded. */
  lemma {:induction false} ExpandedIsComplete(tree: ChildRelation, root: nat, pids: seq<nat>, depth: seq<nat>, pid: nat, n: nat)
    requires IsFrontier(tree, root, pids, depth) && IsExpanded(tree, pids, depth, |pids|)
    requires ReachIn(tree, root, pid, n)
    ensures FoundWithin(pids, depth, pid, n)
    decreases n
  {
    if n == 0 {
      assert pids[0] == pid;
    } else {
      var q :| ReachIn(tree, root, q, n - 1) && pid in ChildPids(tree, q);
      ExpandedIsComplete(tree, root, pids, depth, q, n - 1);
      var j :| 0 <= j < |pids| && pids[j] == q && depth[j] <= n - 1;
      assert FoundWithin(pids, depth, pid, depth[j] + 1);
    }
  }

  lemma DepthIsDistance(tree: ChildRelation, root: nat, pids: seq<nat>, depth: seq<nat>, i: nat)
    requires IsFrontier(tree, root, pids, depth) && IsExpanded(tree, pids, depth, |pids|) && i < |pids|
    ensures IsDistance(tree, root, pids[i], depth[i])
  {
    forall m: nat | m < depth[i] && ReachIn(tree, root, pids[i], m)
      ensures false
    {
      ExpandedIsComplete(tree, root, pids, depth, pids[i], m);
    }
  }

  lemma FoundStays(pids: seq<nat>, depth: seq<nat>, more: nat, level: nat, pid: nat, bound: nat)
    requires |depth| == |pids| && FoundWithin(pids, depth, pid, bound)
    ensures FoundWithin(pids + [more], depth + [level], pid, bound)
  {
    var i :| 0 <= i < |pids| && pids[i] == pid && depth[i] <= bound;
    assert (pids + [more])[i] == pid && (depth + [level])[i] == depth[i];
  }

  /** The state of the inner loop: the first `i` children of the pid at `cursor` are listed. */
  ghost predicate IsExpanding(tree: ChildRelation, root: nat, pids: seq<nat>, depth: seq<nat>, cursor: nat, i: nat) {
    && IsFrontier(tree, root, pids, depth) && cursor < |pids| && IsExpanded(tree, pids, depth, cursor)
    && (forall k :: 0 <= k < |pids| ==> depth[k] <= depth[cursor] + 1)
    && i <= |ChildPids(tree, pids[cursor])|
    && forall k :: 0 <= k < i ==> FoundWithin(pids, depth, ChildPids(tree, pids[cursor])[k], depth[cursor] + 1)
  }

  /** A child that is already listed needs no work. */
  lemma KnownChild(tree: ChildRelation, root: nat, pids: seq<nat>, depth: seq<nat>, cursor: nat, i: nat)
    requires IsExpanding(tree, root, pids, depth, cursor, i) && i < |ChildPids(tree, pids[cursor])|
    requires ChildPids(tree, pids[cursor])[i] in pids
    ensures IsExpanding(tree, root, pids, depth, cursor, i + 1)
  {
  }

  lemma FrontierGrows(tree: ChildRelation, root: nat, pids: seq<nat>, depth: seq<nat>, cursor: nat, child: nat)
    requires IsFrontier(tree, root, pids, depth) && cursor < |pids| && child in ChildPids(tree, pids[cursor]) && child !in pids
    requires forall k :: 0 <= k < |pids| ==> depth[k] <= depth[cursor] + 1
    ensures IsFrontier(tree, root, pids + [child], depth + [depth[cursor] + 1])
  {
    assert ReachIn(tree, root, child, depth[cursor] + 1);
    assert child in Known(tree, root);
  }

  lemma ExpandedGrows(tree: ChildRelation, pids: seq<nat>, depth: seq<nat>, cursor: nat, child: nat, level: nat)
    requires |depth| == |pids| && cursor <= |pids| && IsExpanded(tree, pids, depth, cursor)
    ensures IsExpanded(tree, pids + [child], depth + [level], cursor)
  {
    forall j, c | 0 <= j < cursor && c in ChildPids(tree, (pids + [child])[j])
      ensures FoundWithin(pids + [child], depth + [level], c, (depth + [level])[j] + 1)
    {
      FoundStays(pids, depth, child, level, c, depth[j] + 1);
    }
  }

  /** A new child is listed one level further down. */
  lemma NewChild(tree: ChildRelation, root: nat, pids: seq<nat>, depth: seq<nat>, cursor: nat, i: nat)
    requires IsExpanding(tree, root, pids, depth, cursor, i) && i < |ChildPids(tree, pids[cursor])|
    requires ChildPids(tree, pids[cursor])[i] !in pids
    ensures IsExpanding(tree, root, pids + [ChildPids(tree, pids[cursor])[i]], depth + [depth[cursor] + 1], cursor, i + 1)
  {
    var children, level := ChildPids(tree, pids[cursor]), depth[cursor] + 1;
    var child := children[i];
    var pids', depth' := pids + [child], depth + [level];
    FrontierGrows(tree, root, pids, depth, cursor, child);
    ExpandedGrows(tree, pids, depth, cursor, child, level);
    forall k | 0 <= k < i + 1
      ensures FoundWithin(pids', depth', children[k], level)
    {
      if k < i {
        FoundStays(pids, depth, child, level, children[k], level);
      } else {
        assert pids'[|pids|] == child && depth'[|pids|] == level;
      }
    }
  }

  /** The state of the outer loop. */
  ghost predicate IsWalking(tree: ChildRelation, root: nat, pids: seq<nat>, depth: seq<nat>, cursor: nat) {
    && IsFrontier(tree, root, pids, depth) && cursor <= |pids| && IsExpanded(tree, pids, depth, cursor)
    && (cursor < |pids| ==> forall k :: 0 <= k < |pids| ==> depth[k] <= depth[cursor] + 1)
  }

  lemma PidIsExpanded(tree: ChildRelation, root: nat, pids: seq<nat>, depth: seq<nat>, cursor: nat)
    requires cursor < |pids| && IsExpanding(tree, root, pids, depth, cursor, |ChildPids(tree, pids[cursor])|)
    ensures IsWalking(tree, root, pids, depth, cursor + 1)
  {
    forall c | c in ChildPids(tree, pids[cursor])
      ensures FoundWithin(pids, depth, c, depth[cursor] + 1)
    {
      var k :| 0 <= k < |ChildPids(tree, pids[cursor])| && ChildPids(tree, pids[cursor])[k] == c;
    }
  }

  /** What the walk promises: the reachable pids, each once, root first, in order of distance from the root. */
  ghost predicate IsProcessTree(tree: ChildRelation, root: nat, pids: seq<nat>) {
    && pids != [] && pids[0] == root && NoDuplicates(pids)
    && (forall pid :: pid in pids <==> Reachable(tree, root, pid))
    && (forall i, j, m: nat, n: nat :: 0 <= i <= j < |pids| && IsDistance(tree, root, pids[i], m) && IsDistance(tree, root, pids[j], n)
          ==> m <= n)
  }

  lemma ExpandedIsTree(tree: ChildRelation, root: nat, pids: seq<nat>, depth: seq<nat>)
    requires IsFrontier(tree, root, pids, depth) && IsExpanded(tree, pids, depth, |pids|)
    ensures IsProcessTree(tree, root, pids)
  {
    forall pid
      ensures pid in pids <==> Reachable(tree, root, pid)
    {
      if n: nat :| ReachIn(tree, root, pid, n) {
        ExpandedIsComplete(tree, root, pids, depth, pid, n);
      }
    }
    forall i, j, m: nat, n: nat | 0 <= i <= j < |pids| && IsDistance(tree, root, pids[i], m) && IsDistance(tree, root, pids[j], n)
      ensures m <= n
    {
      DepthIsDistance(tree, root, pids, depth, i);
      DepthIsDistance(tree, root, pids, depth, j);
    }
  }

  /** `process_tree_pids`. */
  method ProcessTreePids(tree: ChildRelation, root: nat, rootExists: bool) returns (pids: seq<nat>)
    ensures !rootExists ==> pids == []
    ensures rootExists ==> IsProcessTree(tree, root, pids)
  {
    if !rootExists {
      return [];
    }
    pids := [root];
    ghost var depth: seq<nat> := [0];
    var cursor := 0;
    while cursor < |pids|
      invariant IsWalking(tree, root, pids, depth, cursor)
      decreases |Known(tree, root)| - cursor
    {
      FrontierFits(tree, root, pids);
      var pid := pids[cursor];
      var children := ChildPids(tree, pid);
      for i := 0 to |children|
        invariant IsExpanding(tree, root, pids, depth, cursor, i) && pids[cursor] == pid
      {
        var child := children[i];
        if child in pids {
          KnownChild(tree, root, pids, depth, cursor, i);
        } else {
          NewChild(tree, root, pids, depth, cursor, i);
          pids, depth := pids + [child], depth + [depth[cursor] + 1];
        }
      }
      PidIsExpanded(tree, root, pids, depth, cursor);
      cursor := cursor + 1;
    }
    ExpandedIsTree(tree, root, pids, depth);
  }
}
