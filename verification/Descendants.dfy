/** The process-descendant closure of the chaos harness: a frontier is pushed
    down a pid-to-parent table one generation at a time, skipping `ps` rows. */
module Descendants {
  import opened Collections

  datatype Row = Row(parent: int, group: int, command: string)

  type Table = map<int, Row>

  predicate IsPs(command: string) {
    command == "ps" || (|command| >= 3 && command[|command| - 3..] == "/ps")
  }

  /** The edge the closure follows: `pid` is a listed, non-`ps` child of `parent`. */
  predicate IsChild(rows: Table, parent: int, pid: int) {
    pid in rows && rows[pid].parent == parent && !IsPs(rows[pid].command)
  }

  function Children(rows: Table, frontier: set<int>): set<int> {
    set pid | pid in rows && rows[pid].parent in frontier && !IsPs(rows[pid].command)
  }

  /** The frontier after `n` rounds. */
  function Level(rows: Table, root: int, n: nat): set<int> {
    if n == 0 then {root} else Children(rows, Level(rows, root, n - 1))
  }

  /** A chain of parent links from `chain[0]` down to its last element, no link
      of which ends in a `ps` row. */
  ghost predicate IsChain(rows: Table, chain: seq<int>) {
    forall i :: 0 < i < |chain| ==> IsChild(rows, chain[i - 1], chain[i])
  }

  ghost predicate Links(rows: Table, root: int, chain: seq<int>, pid: int) {
    |chain| >= 2 && chain[0] == root && chain[|chain| - 1] == pid && IsChain(rows, chain)
  }

  /** `pid` is a transitive descendant of `root`. */
  ghost predicate Descends(rows: Table, root: int, pid: int) {
    exists chain :: Links(rows, root, chain, pid)
  }

  lemma {:induction false} LevelHasChain(rows: Table, root: int, n: nat, pid: int) returns (chain: seq<int>)
    requires pid in Level(rows, root, n)
    ensures |chain| == n + 1 && chain[0] == root && chain[n] == pid && IsChain(rows, chain)
  {
    if n == 0 {
      chain := [root];
    } else {
      var prefix := LevelHasChain(rows, root, n - 1, rows[pid].parent);
      chain := prefix + [pid];
    }
  }

  lemma {:induction false} ChainIsInLevel(rows: Table, root: int, chain: seq<int>)
    requires |chain| > 0 && chain[0] == root && IsChain(rows, chain)
    ensures chain[|chain| - 1] in Level(rows, root, |chain| - 1)
  {
    if |chain| > 1 {
      ChainIsInLevel(rows, root, chain[..|chain| - 1]);
      assert IsChild(rows, chain[|chain| - 2], chain[|chain| - 1]);
    }
  }

  /** Descendants are exactly the pids of the levels below the root's own. */
  lemma DescendsIffInLevel(rows: Table, root: int, pid: int)
    ensures Descends(rows, root, pid) <==> exists n: nat :: n > 0 && pid in Level(rows, root, n)
  {
    if Descends(rows, root, pid) {
      var chain :| Links(rows, root, chain, pid);
      ChainIsInLevel(rows, root, chain);
    }
    if n: nat :| n > 0 && pid in Level(rows, root, n) {
      var chain := LevelHasChain(rows, root, n, pid);
      assert Links(rows, root, chain, pid);
    }
  }

  /** A pid has one parent, so a pid in two levels carries the root down by the
      distance between them. */
  lemma {:induction false} SharedPidReturnsRoot(rows: Table, root: int, i: nat, j: nat, pid: int)
    requires i <= j && pid in Level(rows, root, i) && pid in Level(rows, root, j)
    ensures root in Level(rows, root, j - i)
  {
    if i > 0 {
      SharedPidReturnsRoot(rows, root, i - 1, j - 1, rows[pid].parent);
    }
  }

  lemma LevelsDisjoint(rows: Table, root: int, i: nat, j: nat)
    requires !Descends(rows, root, root) && i < j
    ensures Level(rows, root, i) !! Level(rows, root, j)
  {
    forall pid | pid in Level(rows, root, i) && pid in Level(rows, root, j) ensures false {
      SharedPidReturnsRoot(rows, root, i, j, pid);
      DescendsIffInLevel(rows, root, root);
    }
  }

  /** The pids of levels 1 to n. */
  ghost function Below(rows: Table, root: int, n: nat): set<int> {
    if n == 0 then {} else Below(rows, root, n - 1) + Level(rows, root, n)
  }

  lemma {:induction false} LevelBelow(rows: Table, root: int, i: nat, n: nat, pid: int)
    requires 0 < i <= n && pid in Level(rows, root, i)
    ensures pid in Below(rows, root, n)
  {
    if i < n {
      LevelBelow(rows, root, i, n - 1, pid);
    }
  }

  lemma {:induction false} BelowLevel(rows: Table, root: int, n: nat, pid: int) returns (i: nat)
    requires pid in Below(rows, root, n)
    ensures 0 < i <= n && pid in Level(rows, root, i)
  {
    if pid in Level(rows, root, n) {
      i := n;
    } else {
      i := BelowLevel(rows, root, n - 1, pid);
    }
  }

  lemma {:induction false} EmptyStaysEmpty(rows: Table, root: int, n: nat, later: nat)
    requires Level(rows, root, n) == {} && n <= later
    ensures Level(rows, root, later) == {}
    decreases later - n
  {
    if n < later {
      EmptyStaysEmpty(rows, root, n + 1, later);
    }
  }

  lemma InhabitedBefore(rows: Table, root: int, n: nat, later: nat)
    requires Level(rows, root, later) != {} && n <= later
    ensures Level(rows, root, n) != {}
  {
    if Level(rows, root, n) == {} {
      EmptyStaysEmpty(rows, root, n, later);
    }
  }

  /** As long as the frontier is inhabited, every round adds a new table row. */
  lemma {:induction false} BelowGrows(rows: Table, root: int, n: nat)
    requires !Descends(rows, root, root) && Level(rows, root, n) != {}
    ensures Below(rows, root, n) <= rows.Keys && |Below(rows, root, n)| >= n
  {
    if n > 0 {
      InhabitedBefore(rows, root, n - 1, n);
      BelowGrows(rows, root, n - 1);
      forall pid | pid in Below(rows, root, n - 1) ensures pid !in Level(rows, root, n) {
        var i := BelowLevel(rows, root, n - 1, pid);
        LevelsDisjoint(rows, root, i, n);
      }
      var pid := Member(Level(rows, root, n));
      assert Below(rows, root, n - 1) + {pid} <= Below(rows, root, n);
      SubsetSize(Below(rows, root, n - 1) + {pid}, Below(rows, root, n));
    }
  }

  /** Without a cycle through the root the frontier is empty after at most one
      round more than the table has rows. */
  lemma FrontierRunsDry(rows: Table, root: int)
    requires !Descends(rows, root, root)
    ensures Level(rows, root, |rows| + 1) == {}
  {
    if Level(rows, root, |rows| + 1) != {} {
      BelowGrows(rows, root, |rows| + 1);
      SubsetSize(Below(rows, root, |rows| + 1), rows.Keys);
    }
  }

  lemma {:induction false} CycleRepeats(rows: Table, root: int, period: nat, times: nat, n: nat)
    requires root in Level(rows, root, period) && n == period * times
    ensures root in Level(rows, root, n)
    decreases times
  {
    if times > 0 {
      var before := period * (times - 1);
      CycleRepeats(rows, root, period, times - 1, before);
      LevelShift(rows, root, before, period);
    }
  }

  /** Reaching the root again at round `n` restarts the same levels. */
  lemma {:induction false} LevelShift(rows: Table, root: int, n: nat, k: nat)
    requires root in Level(rows, root, n)
    ensures Level(rows, root, k) <= Level(rows, root, n + k)
  {
    if k > 0 {
      LevelShift(rows, root, n, k - 1);
    }
  }

  /** The frontier loop stops exactly when the root is not its own descendant:
      the condition a caller can read off the table before starting. */
  lemma TerminatesIffRootNotOnCycle(rows: Table, root: int)
    ensures (exists n: nat :: Level(rows, root, n) == {}) <==> !Descends(rows, root, root)
  {
    if !Descends(rows, root, root) {
      FrontierRunsDry(rows, root);
    } else if n: nat :| Level(rows, root, n) == {} {
      DescendsIffInLevel(rows, root, root);
      var period: nat :| period > 0 && root in Level(rows, root, period);
      CycleRepeats(rows, root, period, n, period * n);
      assert period * n >= n;
      EmptyStaysEmpty(rows, root, n, period * n);
    }
  }

  /** The frontier loop. Its only demand is the one that makes it stop. */
  method DescendantSnapshot(rows: Table, root: int) returns (descendants: map<int, (int, int)>)
    requires !Descends(rows, root, root)
    ensures forall pid :: pid in descendants <==> Descends(rows, root, pid)
    ensures forall pid :: pid in descendants ==>
                            pid in rows && descendants[pid] == (rows[pid].parent, rows[pid].group)
  {
    descendants := map[];
    var frontier := {root};
    ghost var n: nat := 0;
    FrontierRunsDry(rows, root);
    while frontier != {}
      invariant frontier == Level(rows, root, n)
      invariant n <= |rows| + 1
      invariant descendants.Keys == Below(rows, root, n)
      invariant forall pid :: pid in descendants ==>
                                pid in rows && descendants[pid] == (rows[pid].parent, rows[pid].group)
      decreases |rows| + 1 - n
    {
      var children := Children(rows, frontier);
      descendants := descendants + map pid | pid in children :: (rows[pid].parent, rows[pid].group);
      frontier := children;
      n := n + 1;
    }
    forall pid ensures pid in descendants <==> Descends(rows, root, pid) {
      BelowIsAll(rows, root, n, pid);
    }
  }

  /** Once the frontier is empty the levels passed hold every descendant. */
  lemma BelowIsAll(rows: Table, root: int, n: nat, pid: int)
    requires Level(rows, root, n) == {}
    ensures pid in Below(rows, root, n) <==> Descends(rows, root, pid)
  {
    if pid in Below(rows, root, n) {
      var i := BelowLevel(rows, root, n, pid);
      var chain := LevelHasChain(rows, root, i, pid);
      assert Links(rows, root, chain, pid);
    }
    if Descends(rows, root, pid) {
      DescendsIffInLevel(rows, root, pid);
      var i: nat :| i > 0 && pid in Level(rows, root, i);
      LevelWithin(rows, root, n, i, pid);
      LevelBelow(rows, root, i, n, pid);
    }
  }

  lemma LevelWithin(rows: Table, root: int, n: nat, i: nat, pid: int)
    requires Level(rows, root, n) == {} && pid in Level(rows, root, i)
    ensures i <= n
  {
    if n < i {
      EmptyStaysEmpty(rows, root, n, i);
    }
  }

  // ----- A table on which the loop never stops -----

  /** The root listed as its own parent. */
  function SelfParented(root: int): Table { map[root := Row(root, root, "")] }

  lemma SelfChild(root: int)
    ensures Children(SelfParented(root), {root}) == {root}
  {
  }

  lemma {:induction false} SelfParentedNeverStops(root: int, n: nat)
    ensures Level(SelfParented(root), root, n) == {root}
  {
    if n > 0 {
      SelfParentedNeverStops(root, n - 1);
      SelfChild(root);
    }
  }

  /** It is its own descendant, and no number of rounds empties the frontier. */
  lemma SelfParentedLoops(root: int)
    ensures Descends(SelfParented(root), root, root)
    ensures forall n: nat :: Level(SelfParented(root), root, n) != {}
  {
    forall n: nat ensures Level(SelfParented(root), root, n) != {} {
      SelfParentedNeverStops(root, n);
    }
    TerminatesIffRootNotOnCycle(SelfParented(root), root);
  }
}
