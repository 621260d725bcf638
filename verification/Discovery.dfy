/** Bounded discovery of marked repositories: a breadth-first walk below explicit
    roots, without following links and with budgets on depth, directories, directory
    entries, candidates and unreadable directories. */
module Discovery {
  import opened Collections
  import opened Sorting

  type Path = seq<string>

  const MAX_ROOTS := 8
  const MAX_DEPTH := 4
  const MAX_CANDIDATES := 128
  const MAX_DIRECTORIES := 8192
  const MAX_ENTRIES := 65536
  const MAX_ERRORS := 128

  /** What is found at a directory's `.git`. */
  datatype Marker = Absent | Proper | Improper | MarkerError

  /** A directory entry: one to descend into, one to skip (a link or no directory), or
      one whose kind cannot be read. */
  datatype Kind = Directory | Skipped | Unreadable

  datatype Entry = Entry(name: string, kind: Kind)

  /** A scan that fails has seen some entries first. */
  datatype Listing = Entries(entries: seq<Entry>) | ScanError(seen: nat)

  /** The file system under the walk. */
  datatype Tree = Tree(marker: Path -> Marker, list: Path -> Listing)

  datatype Limits = Limits(depth: int, candidates: int, directories: int, entries: int)

  datatype Refusal =
    RootBound | DepthBound | CandidateBound | DirectoryBound | EntryBound | ErrorBound | DuplicateRoot

  datatype Outcome =
    Searched(candidates: set<Path>, enqueued: nat, observed: nat, unreadable: seq<Path>) | Refused(refusal: Refusal)

  predicate NameLe(a: Entry, b: Entry) { TextLe(a.name, b.name) }

  // ----- One directory -----

  predicate Raises(e: Entry) { e.name != ".git" && e.kind.Unreadable? }

  predicate Descends(e: Entry) { e.name != ".git" && e.kind.Directory? }

  /** The children enqueued from a sorted listing: those before the first entry whose
      kind cannot be read. */
  function Enqueued(path: Path, entries: seq<Entry>): seq<Path> {
    if entries == [] || Raises(entries[0]) then []
    else (if Descends(entries[0]) then [path + [entries[0].name]] else []) + Enqueued(path, entries[1..])
  }

  predicate AnyRaises(entries: seq<Entry>) {
    exists i :: 0 <= i < |entries| && Raises(entries[i])
  }

  /** The directories one step below `path`. */
  function Below(tree: Tree, path: Path): seq<Path> {
    var listing := tree.list(path);
    if tree.marker(path).MarkerError? || listing.ScanError? then [] else Enqueued(path, Sorted(listing.entries, NameLe))
  }

  function Seen(listing: Listing): nat {
    if listing.ScanError? then listing.seen else |listing.entries|
  }

  function Observed(tree: Tree, path: Path): nat {
    if tree.marker(path).MarkerError? then 0 else Seen(tree.list(path))
  }

  /** Whether visiting `path` is recorded as an unreadable directory. */
  predicate Errs(tree: Tree, path: Path, deeper: bool) {
    || tree.marker(path).MarkerError?
    || (deeper && (tree.list(path).ScanError? || AnyRaises(Sorted(tree.list(path).entries, NameLe))))
  }

  // ----- What is enqueued, without the walk -----

  /** An entry to descend into: a directory that is no link and is not `.git`. */
  predicate Opens(e: Entry) { e.name != ".git" && e.kind == Directory }

  /** An entry, other than `.git`, whose kind cannot be read. */
  predicate Breaks(e: Entry) { e.name != ".git" && e.kind == Unreadable }

  /** Entry `i` opens and no entry before it breaks. */
  predicate ReachedAt(entries: seq<Entry>, i: nat) {
    i < |entries| && Opens(entries[i]) && forall k :: 0 <= k < i ==> !Breaks(entries[k])
  }

  lemma {:induction false} EnqueuedReached(path: Path, entries: seq<Entry>, child: Path)
    returns (i: nat)
    requires child in Enqueued(path, entries)
    ensures ReachedAt(entries, i) && child == path + [entries[i].name]
  {
    if Descends(entries[0]) && child == path + [entries[0].name] {
      i := 0;
    } else {
      var j := EnqueuedReached(path, entries[1..], child);
      i := j + 1;
      forall k | 0 <= k < i ensures !Breaks(entries[k]) {
        assert k > 0 ==> entries[k] == entries[1..][k - 1];
      }
    }
  }

  lemma {:induction false} ReachedEnqueued(path: Path, entries: seq<Entry>, i: nat)
    requires ReachedAt(entries, i)
    ensures path + [entries[i].name] in Enqueued(path, entries)
  {
    if i > 0 {
      assert !Breaks(entries[0]);
      assert forall k :: 0 <= k < i - 1 ==> entries[1..][k] == entries[k + 1];
      ReachedEnqueued(path, entries[1..], i - 1);
    }
  }

  /** What decides on a child: an entry of that name opens, and every entry that breaks
      comes after it by name. */
  ghost predicate ReachedIn(entries: seq<Entry>, e: Entry) {
    e in entries && Opens(e) && forall u :: u in entries && Breaks(u) ==> !TextLe(u.name, e.name)
  }

  lemma ReachedSorted(entries: seq<Entry>, sorted: seq<Entry>, i: nat)
    requires IsSorted(sorted, NameLe) && Distinguishes(NameLe, entries)
    requires multiset(sorted) == multiset(entries) && i < |sorted|
    ensures ReachedAt(sorted, i) ==> ReachedIn(entries, sorted[i])
    ensures ReachedIn(entries, sorted[i]) ==> ReachedAt(sorted, i)
  {
    var e := sorted[i];
    SameMembers(sorted, entries);
    if ReachedAt(sorted, i) {
      forall u | u in entries && Breaks(u) ensures !TextLe(u.name, e.name) {
        var k :| 0 <= k < |sorted| && sorted[k] == u;
        assert k != i && k > i;
        assert NameLe(e, u);
      }
    }
    if ReachedIn(entries, e) {
      forall k | 0 <= k < i ensures !Breaks(sorted[k]) {
        assert NameLe(sorted[k], e);
      }
    }
  }

  lemma SameMembers<T>(a: seq<T>, b: seq<T>)
    requires multiset(a) == multiset(b)
    ensures forall x :: x in a <==> x in b
  {
    forall x ensures x in a <==> x in b {
      assert x in a <==> x in multiset(a);
      assert x in b <==> x in multiset(b);
    }
  }

  predicate ListedAt(path: Path, sorted: seq<Entry>, child: Path, i: nat) {
    ReachedAt(sorted, i) && child == path + [sorted[i].name]
  }

  ghost predicate Listed(path: Path, sorted: seq<Entry>, child: Path) {
    exists i :: ListedAt(path, sorted, child, i)
  }

  lemma EnqueuedIff(path: Path, sorted: seq<Entry>, child: Path)
    ensures child in Enqueued(path, sorted) <==> Listed(path, sorted, child)
  {
    if child in Enqueued(path, sorted) {
      var i := EnqueuedReached(path, sorted, child);
      assert ListedAt(path, sorted, child, i);
    } else if i :| ListedAt(path, sorted, child, i) {
      ReachedEnqueued(path, sorted, i);
    }
  }

  /** A child is below a directory exactly if the marker and the listing could be read and the
      child is a readable directory, no link and not `.git`, listed in name order before the
      first entry whose kind cannot be read. */
  lemma BelowIff(tree: Tree, path: Path, child: Path)
    ensures child in Below(tree, path) <==>
            && tree.marker(path) != MarkerError && tree.list(path).Entries?
            && Listed(path, Sorted(tree.list(path).entries, NameLe), child)
  {
    if tree.list(path).Entries? {
      EnqueuedIff(path, Sorted(tree.list(path).entries, NameLe), child);
    }
  }

  /** The same in the order of the scan, which does not matter where, as in any one directory,
      names differ: an entry breaks the walk off exactly for the names after its own. */
  lemma BelowByName(tree: Tree, path: Path, child: Path, entries: seq<Entry>)
    requires tree.marker(path) != MarkerError && tree.list(path) == Entries(entries)
    requires Distinguishes(NameLe, entries)
    ensures child in Below(tree, path) <==> exists e :: ReachedIn(entries, e) && child == path + [e.name]
  {
    var sorted := Sorted(entries, NameLe);
    TextKeyOrders(NameLe, (e: Entry) => e.name);
    SortedSorts(entries, NameLe);
    SortedKeeps(entries, NameLe);
    if child in Below(tree, path) {
      var i := EnqueuedReached(path, sorted, child);
      ReachedSorted(entries, sorted, i);
    }
    if e :| ReachedIn(entries, e) && child == path + [e.name] {
      SameMembers(sorted, entries);
      var i :| 0 <= i < |sorted| && sorted[i] == e;
      ReachedSorted(entries, sorted, i);
      ReachedEnqueued(path, sorted, i);
    }
  }

  /** A visit is recorded as unreadable exactly if the marker, or below the depth limit the
      listing or the kind of an entry other than `.git`, cannot be read. */
  lemma ErrsIff(tree: Tree, path: Path, deeper: bool)
    ensures Errs(tree, path, deeper) <==>
            || tree.marker(path) == MarkerError
            || (deeper && (tree.list(path).ScanError? || exists e :: e in tree.list(path).entries && Breaks(e)))
  {
    if tree.list(path).Entries? {
      var entries := tree.list(path).entries;
      SortedKeeps(entries, NameLe);
      SameMembers(Sorted(entries, NameLe), entries);
      RaisesIff(Sorted(entries, NameLe));
    }
  }

  lemma RaisesIff(entries: seq<Entry>)
    ensures AnyRaises(entries) <==> exists e :: e in entries && Breaks(e)
  {
    if i :| 0 <= i < |entries| && Raises(entries[i]) {
      assert entries[i] in entries && Breaks(entries[i]);
    }
    if e :| e in entries && Breaks(e) {
      var i :| 0 <= i < |entries| && entries[i] == e;
      assert Raises(entries[i]);
    }
  }

  // ----- The walk by recursion -----

  /** What the walk below one directory comes to: the marked directories, how many
      directories it visits, how many entries it reads and which directories it cannot read. */
  datatype Sum = Sum(found: set<Path>, visits: nat, entries: nat, errors: multiset<Path>)

  function Plus(a: Sum, b: Sum): Sum {
    Sum(a.found + b.found, a.visits + b.visits, a.entries + b.entries, a.errors + b.errors)
  }

  const ZERO := Sum({}, 0, 0, multiset{})

  /** The directory itself. */
  function Here(tree: Tree, path: Path, deeper: bool): Sum {
    Sum(if tree.marker(path).Proper? then {path} else {}, 1,
        if deeper then Observed(tree, path) else 0,
        if Errs(tree, path, deeper) then multiset{path} else multiset{})
  }

  /** The tree as the walk sees it: the directories below one, whether one is marked, and
      what visiting one comes to, with or without descending. */
  datatype View = View(below: Path -> seq<Path>, marked: Path -> bool, here: (Path, bool) -> Sum)

  function ViewOf(tree: Tree): View {
    View((path: Path) => Below(tree, path), (path: Path) => tree.marker(path).Proper?,
         (path: Path, deeper: bool) => Here(tree, path, deeper))
  }

  /** The walk below `path` with `room` levels to go. */
  function Walk(view: View, path: Path, room: nat): Sum
    decreases room, 1
  {
    if room == 0 then view.here(path, false)
    else Plus(view.here(path, true), WalkAll(view, view.below(path), room - 1))
  }

  function WalkAll(view: View, paths: seq<Path>, room: nat): Sum
    decreases room, 2, |paths|
  {
    if paths == [] then ZERO else Plus(Walk(view, paths[0], room), WalkAll(view, paths[1..], room))
  }

  // ----- Reachability -----

  /** Visiting a directory finds that directory when it is marked, and nothing else. */
  ghost predicate FindsItself(view: View) {
    forall path, deeper :: view.here(path, deeper).found == if view.marked(path) then {path} else {}
  }

  ghost predicate VisitsOne(view: View) {
    forall path, deeper :: view.here(path, deeper).visits == 1
  }

  /** A descent of directory steps, none through an unreadable directory. */
  ghost predicate IsDescent(view: View, chain: seq<Path>) {
    forall i :: 0 < i < |chain| ==> chain[i] in view.below(chain[i - 1])
  }

  ghost predicate DescentTo(view: View, root: Path, path: Path, room: nat, chain: seq<Path>) {
    1 <= |chain| <= room + 1 && chain[0] == root && chain[|chain| - 1] == path && IsDescent(view, chain)
  }

  ghost predicate Reaches(view: View, root: Path, path: Path, room: nat) {
    exists chain :: DescentTo(view, root, path, room, chain)
  }

  ghost predicate FoundBelow(view: View, paths: seq<Path>, room: nat, path: Path) {
    exists i :: 0 <= i < |paths| && path in Walk(view, paths[i], room).found
  }

  lemma {:induction false} FoundAmong(view: View, paths: seq<Path>, room: nat, path: Path)
    ensures path in WalkAll(view, paths, room).found <==> FoundBelow(view, paths, room, path)
    decreases |paths|
  {
    if paths != [] {
      FoundAmong(view, paths[1..], room, path);
      if i :| 0 <= i < |paths| && path in Walk(view, paths[i], room).found {
        if i > 0 {
          assert paths[1..][i - 1] == paths[i];
        }
      }
      if i :| 0 <= i < |paths[1..]| && path in Walk(view, paths[1..][i], room).found {
        assert paths[i + 1] == paths[1..][i];
      }
    }
  }

  lemma {:induction false} ReachableIsFound(view: View, root: Path, room: nat, path: Path, chain: seq<Path>)
    requires FindsItself(view) && view.marked(path) && DescentTo(view, root, path, room, chain)
    ensures path in Walk(view, root, room).found
    decreases room
  {
    if |chain| > 1 {
      ChainTail(view, chain);
      ReachableIsFound(view, chain[1], room - 1, path, chain[1..]);
      FoundAmong(view, view.below(root), room - 1, path);
    }
  }

  lemma {:induction false} FoundIsReachable(view: View, root: Path, room: nat, path: Path) returns (chain: seq<Path>)
    requires FindsItself(view) && path in Walk(view, root, room).found
    ensures view.marked(path) && DescentTo(view, root, path, room, chain)
    decreases room
  {
    if path in view.here(root, room > 0).found {
      chain := [root];
    } else {
      FoundAmong(view, view.below(root), room - 1, path);
      var next := PickBelow(view, view.below(root), room - 1, path);
      var rest := FoundIsReachable(view, next, room - 1, path);
      ChainHead(view, root, rest);
      chain := [root] + rest;
    }
  }

  lemma PickBelow(view: View, paths: seq<Path>, room: nat, path: Path) returns (next: Path)
    requires FoundBelow(view, paths, room, path)
    ensures next in paths && path in Walk(view, next, room).found
  {
    var i :| 0 <= i < |paths| && path in Walk(view, paths[i], room).found;
    next := paths[i];
  }

  lemma ChainTail(view: View, chain: seq<Path>)
    requires IsDescent(view, chain) && |chain| > 1
    ensures IsDescent(view, chain[1..])
  {
    forall i | 0 < i < |chain[1..]| ensures chain[1..][i] in view.below(chain[1..][i - 1]) {
      assert chain[i + 1] in view.below(chain[i]);
    }
  }

  lemma ChainHead(view: View, root: Path, chain: seq<Path>)
    requires IsDescent(view, chain) && |chain| >= 1 && chain[0] in view.below(root)
    ensures IsDescent(view, [root] + chain)
  {
    var longer := [root] + chain;
    forall i | 0 < i < |longer| ensures longer[i] in view.below(longer[i - 1]) {
      if i > 1 {
        assert chain[i - 1] in view.below(chain[i - 2]);
      }
    }
  }

  lemma FoundIffReachableIn(view: View, roots: seq<Path>, room: nat, path: Path)
    requires FindsItself(view)
    ensures path in WalkAll(view, roots, room).found <==>
            view.marked(path) && exists root :: root in roots && Reaches(view, root, path, room)
  {
    FoundAmong(view, roots, room, path);
    if path in WalkAll(view, roots, room).found {
      var root := PickBelow(view, roots, room, path);
      var chain := FoundIsReachable(view, root, room, path);
    }
    if root :| root in roots && view.marked(path) && Reaches(view, root, path, room) {
      var chain :| DescentTo(view, root, path, room, chain);
      ReachableIsFound(view, root, room, path, chain);
      var i :| 0 <= i < |roots| && roots[i] == root;
    }
  }

  /** The walk below several roots finds exactly the marked directories that some root
      reaches within the depth limit. */
  lemma FoundIffReachable(tree: Tree, roots: seq<Path>, room: nat, path: Path)
    ensures path in WalkAll(ViewOf(tree), roots, room).found <==>
            tree.marker(path).Proper? && exists root :: root in roots && Reaches(ViewOf(tree), root, path, room)
  {
    FoundIffReachableIn(ViewOf(tree), roots, room, path);
  }

  // ----- The queue -----

  datatype Item = Item(path: Path, depth: nat)

  /** The walk a queued directory still stands for. */
  function Remaining(view: View, limit: nat): Item -> Sum {
    (item: Item) => if item.depth <= limit then Walk(view, item.path, limit - item.depth) else ZERO
  }

  function Pending(walk: Item -> Sum, queue: seq<Item>): Sum {
    if queue == [] then ZERO else Plus(walk(queue[0]), Pending(walk, queue[1..]))
  }

  function AtDepth(paths: seq<Path>, depth: nat): seq<Item> {
    if paths == [] then [] else [Item(paths[0], depth)] + AtDepth(paths[1..], depth)
  }

  lemma PlusZero(a: Sum)
    ensures Plus(ZERO, a) == a == Plus(a, ZERO)
  {
    assert a.found + {} == {} + a.found == a.found && a.errors + multiset{} == multiset{} + a.errors == a.errors;
  }

  lemma PlusAssociative(a: Sum, b: Sum, c: Sum)
    ensures Plus(Plus(a, b), c) == Plus(a, Plus(b, c))
  {
    assert (a.found + b.found) + c.found == a.found + (b.found + c.found);
    assert (a.errors + b.errors) + c.errors == a.errors + (b.errors + c.errors);
  }

  lemma Exchange(a: Sum, b: Sum, c: Sum)
    ensures Plus(Plus(a, b), c) == Plus(a, Plus(c, b))
  {
    assert (a.found + b.found) + c.found == a.found + (c.found + b.found);
    assert (a.errors + b.errors) + c.errors == a.errors + (c.errors + b.errors);
  }

  lemma {:induction false} PendingConcat(walk: Item -> Sum, a: seq<Item>, b: seq<Item>)
    ensures Pending(walk, a + b) == Plus(Pending(walk, a), Pending(walk, b))
  {
    if a == [] {
      assert a + b == b;
      PlusZero(Pending(walk, b));
    } else {
      assert (a + b)[1..] == a[1..] + b;
      PendingConcat(walk, a[1..], b);
      PlusAssociative(walk(a[0]), Pending(walk, a[1..]), Pending(walk, b));
    }
  }

  lemma {:induction false} AtDepthItems(paths: seq<Path>, depth: nat)
    ensures |AtDepth(paths, depth)| == |paths|
    ensures forall i :: 0 <= i < |paths| ==> AtDepth(paths, depth)[i] == Item(paths[i], depth)
  {
    if paths != [] {
      AtDepthItems(paths[1..], depth);
    }
  }

  /** Queued directories of one depth stand for the walks below them. */
  lemma {:induction false} PendingIsWalkAll(view: View, paths: seq<Path>, depth: nat, limit: nat)
    requires depth <= limit
    ensures Pending(Remaining(view, limit), AtDepth(paths, depth)) == WalkAll(view, paths, limit - depth)
  {
    if paths != [] {
      PendingIsWalkAll(view, paths[1..], depth, limit);
      var items := AtDepth(paths, depth);
      assert items[0] == Item(paths[0], depth) && items[1..] == AtDepth(paths[1..], depth);
      assert Remaining(view, limit)(items[0]) == Walk(view, paths[0], limit - depth);
    }
  }

  /** Visiting the head of the queue moves its own share from the pending work to the
      work done and leaves the rest, with its children enqueued, pending. */
  lemma VisitConserves(view: View, head: Item, rest: seq<Item>, limit: nat, children: seq<Path>)
    requires head.depth <= limit
    requires children == if head.depth < limit then view.below(head.path) else []
    ensures Pending(Remaining(view, limit), [head] + rest) ==
            Plus(view.here(head.path, head.depth < limit),
                 Pending(Remaining(view, limit), rest + AtDepth(children, head.depth + 1)))
  {
    if head.depth < limit {
      HeadWalk(view, head, limit);
      PendingIsWalkAll(view, children, head.depth + 1, limit);
      HeadSplits(Remaining(view, limit), head, rest, view.here(head.path, true), AtDepth(children, head.depth + 1));
    } else {
      PlusZero(view.here(head.path, false));
      HeadSplits(Remaining(view, limit), head, rest, view.here(head.path, false), []);
    }
  }

  lemma HeadSplits(walk: Item -> Sum, head: Item, rest: seq<Item>, here: Sum, queued: seq<Item>)
    requires walk(head) == Plus(here, Pending(walk, queued))
    ensures Pending(walk, [head] + rest) == Plus(here, Pending(walk, rest + queued))
  {
    assert ([head] + rest)[1..] == rest;
    PendingConcat(walk, rest, queued);
    Exchange(here, Pending(walk, queued), Pending(walk, rest));
  }

  lemma HeadWalk(view: View, head: Item, limit: nat)
    requires head.depth < limit
    ensures Remaining(view, limit)(head)
         == Plus(view.here(head.path, true), WalkAll(view, view.below(head.path), limit - (head.depth + 1)))
  {
  }

  // ----- The loops -----

  /** The scan of one directory: every entry counts against the budget. */
  method Scan(listing: Listing, observed: nat, limit: nat) returns (refused: bool, seen: nat)
    requires observed <= limit
    ensures refused <==> observed + Seen(listing) > limit
    ensures !refused ==> seen == observed + Seen(listing)
  {
    seen := observed;
    refused := false;
    var i := 0;
    while i < Seen(listing)
      invariant 0 <= i <= Seen(listing) && seen == observed + i <= limit
    {
      seen := seen + 1;
      if seen > limit {
        refused := true;
        return;
      }
      i := i + 1;
    }
  }

  /** The children of one directory, in name order, until a kind cannot be read. */
  method Enqueue(path: Path, entries: seq<Entry>, enqueued: nat, limit: nat)
    returns (refused: bool, children: seq<Path>, raised: bool)
    requires enqueued <= limit
    ensures refused <==> enqueued + |Enqueued(path, entries)| > limit
    ensures !refused ==> children == Enqueued(path, entries) && (raised <==> AnyRaises(entries))
  {
    children, raised, refused := [], false, false;
    var i := 0;
    while i < |entries|
      invariant 0 <= i <= |entries| && !raised && !refused
      invariant enqueued + |children| <= limit
      invariant children + Enqueued(path, entries[i..]) == Enqueued(path, entries)
      invariant forall k :: 0 <= k < i ==> !Raises(entries[k])
    {
      var entry := entries[i];
      assert entries[i..][0] == entry && entries[i..][1..] == entries[i + 1..];
      if entry.name != ".git" && entry.kind.Unreadable? {
        raised := true;
        assert Raises(entries[i]) && Enqueued(path, entries[i..]) == [];
        assert children + [] == children;
        return;
      }
      if Descends(entry) {
        assert children + ([path + [entry.name]] + Enqueued(path, entries[i + 1..]))
            == (children + [path + [entry.name]]) + Enqueued(path, entries[i + 1..]);
        if enqueued + |children| + 1 > limit {
          refused := true;
          return;
        }
        children := children + [path + [entry.name]];
      } else {
        assert [] + Enqueued(path, entries[i + 1..]) == Enqueued(path, entries[i + 1..]);
      }
      i := i + 1;
    }
    assert entries[i..] == [] && children + [] == children;
  }

  datatype Visited =
    | Visited(marked: bool, observed: nat, children: seq<Path>, unreadable: bool)
    | Stopped(refusal: Refusal)

  /** What a completed visit adds to the walk's totals. */
  ghost function Share(v: Visited, path: Path, observed: nat): Sum
    requires v.Visited? && observed <= v.observed
  {
    Sum(if v.marked then {path} else {}, 1, v.observed - observed, if v.unreadable then multiset{path} else multiset{})
  }

  /** One directory taken from the queue. */
  method Visit(tree: Tree, item: Item, limits: Limits, observed: nat, enqueued: nat, ghost view: View)
      returns (v: Visited)
    requires view == ViewOf(tree)
    requires observed <= limits.entries && enqueued <= limits.directories
    ensures v.Visited? ==>
              && v.children == (if item.depth < limits.depth then view.below(item.path) else [])
              && observed <= v.observed <= limits.entries && enqueued + |v.children| <= limits.directories
              && Share(v, item.path, observed) == view.here(item.path, item.depth < limits.depth)
    ensures v.Stopped? ==> item.depth < limits.depth && v.refusal in {EntryBound, DirectoryBound}
    ensures v == Stopped(EntryBound) <==>
            item.depth < limits.depth && observed + view.here(item.path, true).entries > limits.entries
    ensures v == Stopped(DirectoryBound) <==>
            && v != Stopped(EntryBound)
            && item.depth < limits.depth && enqueued + |view.below(item.path)| > limits.directories
  {
    var marker := tree.marker(item.path);
    if marker.MarkerError? {
      return Visited(false, observed, [], true);
    }
    if item.depth >= limits.depth {
      return Visited(marker.Proper?, observed, [], false);
    }
    var listing := tree.list(item.path);
    var refused, seen := Scan(listing, observed, limits.entries);
    if refused {
      return Stopped(EntryBound);
    }
    if listing.ScanError? {
      return Visited(marker.Proper?, seen, [], true);
    }
    var stopped, children, raised := Enqueue(item.path, Sorted(listing.entries, NameLe), enqueued, limits.directories);
    if stopped {
      return Stopped(DirectoryBound);
    }
    return Visited(marker.Proper?, seen, children, raised);
  }

  predicate LimitsValid(limits: Limits) {
    && 0 <= limits.depth <= MAX_DEPTH && 1 <= limits.candidates <= MAX_CANDIDATES
    && 1 <= limits.directories <= MAX_DIRECTORIES && 1 <= limits.entries <= MAX_ENTRIES
  }

  /** A refusal names a bound that the arguments, or the whole walk, really exceed. */
  ghost predicate Justified(refusal: Refusal, roots: seq<Path>, limits: Limits, total: Sum, fits: bool) {
    match refusal
    case RootBound => !(1 <= |roots| <= MAX_ROOTS)
    case DepthBound => !(0 <= limits.depth <= MAX_DEPTH)
    case CandidateBound => !(1 <= limits.candidates <= MAX_CANDIDATES) || !fits
    case DirectoryBound => !(1 <= limits.directories <= MAX_DIRECTORIES) || total.visits > limits.directories
    case EntryBound => !(1 <= limits.entries <= MAX_ENTRIES) || total.entries > limits.entries
    case ErrorBound => |total.errors| > MAX_ERRORS
    case DuplicateRoot => !Distinct(roots)
  }

  ghost predicate WithinBudgets(limits: Limits, total: Sum) {
    && total.visits <= limits.directories && total.entries <= limits.entries && |total.errors| <= MAX_ERRORS
  }

  /** The arguments are in order and the whole walk stays within every budget. */
  ghost predicate Admissible(roots: seq<Path>, limits: Limits, total: Sum) {
    && LimitsValid(limits) && 1 <= |roots| <= MAX_ROOTS && Distinct(roots)
    && WithinBudgets(limits, total)
  }

  lemma PlusMonotone(done: Sum, rest: Sum, total: Sum)
    requires Plus(done, rest) == total
    ensures done.found <= total.found && |done.found| <= |total.found|
    ensures done.visits <= total.visits && done.entries <= total.entries
    ensures |done.errors| <= |total.errors| && done.errors <= total.errors
  {
    assert done.found <= total.found;
    SubsetSize(done.found, total.found);
  }

  /** The walk's totals: what has been visited plus what the queue stands for. */
  ghost predicate Conserved(view: View, limit: nat, done: Sum, queue: seq<Item>, total: Sum) {
    Plus(done, Pending(Remaining(view, limit), queue)) == total
  }

  lemma Step(view: View, limit: nat, done: Sum, queue: seq<Item>, total: Sum, children: seq<Path>)
    requires Conserved(view, limit, done, queue, total)
    requires queue != [] && queue[0].depth <= limit
    requires children == if queue[0].depth < limit then view.below(queue[0].path) else []
    ensures Conserved(view, limit, Plus(done, view.here(queue[0].path, queue[0].depth < limit)),
                      queue[1..] + AtDepth(children, queue[0].depth + 1), total)
  {
    var head, rest := queue[0], queue[1..];
    assert queue == [head] + rest;
    VisitConserves(view, head, rest, limit, children);
    PlusAssociative(done, view.here(head.path, head.depth < limit),
             Pending(Remaining(view, limit), rest + AtDepth(children, head.depth + 1)));
  }

  ghost predicate DepthsWithin(queue: seq<Item>, limit: nat) {
    forall i :: 0 <= i < |queue| ==> queue[i].depth <= limit
  }

  /** Each directory pending is still to be visited. */
  lemma {:induction false} PendingVisits(view: View, queue: seq<Item>, limit: nat)
    requires DepthsWithin(queue, limit) && VisitsOne(view)
    ensures Pending(Remaining(view, limit), queue).visits >= |queue|
  {
    if queue != [] {
      PendingVisits(view, queue[1..], limit);
      assert Walk(view, queue[0].path, limit - queue[0].depth).visits >= 1;
    }
  }

  lemma VisitsOnce(tree: Tree)
    ensures VisitsOne(ViewOf(tree))
  {
  }

  /** The walk's totals are at least what is done, the next visit and its children. */
  lemma TotalsCover(view: View, limit: nat, done: Sum, queue: seq<Item>, total: Sum, children: seq<Path>)
    requires queue != [] && DepthsWithin(queue, limit)
    requires queue[0].depth < limit && children == view.below(queue[0].path)
    requires VisitsOne(view)
    requires Conserved(view, limit, done, queue, total)
    ensures done.entries + view.here(queue[0].path, true).entries <= total.entries
    ensures done.visits + |queue| + |children| <= total.visits
  {
    var next := queue[1..] + AtDepth(children, queue[0].depth + 1);
    Step(view, limit, done, queue, total, children);
    NextDepths(queue, children, limit);
    PendingVisits(view, next, limit);
  }

  lemma NextDepths(queue: seq<Item>, children: seq<Path>, limit: nat)
    requires queue != [] && DepthsWithin(queue, limit) && (queue[0].depth < limit || children == [])
    ensures DepthsWithin(queue[1..] + AtDepth(children, queue[0].depth + 1), limit)
    ensures |queue[1..] + AtDepth(children, queue[0].depth + 1)| == |queue| - 1 + |children|
  {
    AtDepthItems(children, queue[0].depth + 1);
  }

  /** The variables of the search loop. */
  datatype Loop = Loop(queue: seq<Item>, candidates: set<Path>, enqueued: nat, observed: nat, unreadable: seq<Path>)

  /** What the loop has recorded so far. */
  ghost function Done(l: Loop): Sum
    requires |l.queue| <= l.enqueued
  {
    Sum(l.candidates, l.enqueued - |l.queue|, l.observed, multiset(l.unreadable))
  }

  /** Recorded and pending work add up to the whole walk, and no budget is exceeded. */
  ghost predicate LoopInv(view: View, limits: Limits, total: Sum, l: Loop)
    requires LimitsValid(limits)
  {
    && DepthsWithin(l.queue, limits.depth)
    && |l.queue| <= l.enqueued <= limits.directories && l.observed <= limits.entries
    && |l.candidates| <= limits.candidates && |l.unreadable| <= MAX_ERRORS
    && Conserved(view, limits.depth, Done(l), l.queue, total)
  }

  /** One visit recorded. */
  function After(l: Loop, v: Visited): Loop
    requires l.queue != [] && v.Visited?
  {
    var path := l.queue[0].path;
    Loop(l.queue[1..] + AtDepth(v.children, l.queue[0].depth + 1),
         if v.marked then l.candidates + {path} else l.candidates, l.enqueued + |v.children|, v.observed,
         if v.unreadable then l.unreadable + [path] else l.unreadable)
  }

  lemma AfterRecords(l: Loop, v: Visited)
    requires l.queue != [] && |l.queue| <= l.enqueued && v.Visited? && l.observed <= v.observed
    ensures var next := After(l, v);
            && |next.queue| == |l.queue| - 1 + |v.children| <= next.enqueued
            && Done(next) == Plus(Done(l), Share(v, l.queue[0].path, l.observed))
  {
    var path := l.queue[0].path;
    AtDepthItems(v.children, l.queue[0].depth + 1);
    assert l.candidates + {} == l.candidates && multiset(l.unreadable) + multiset{} == multiset(l.unreadable);
    assert multiset(l.unreadable + [path]) == multiset(l.unreadable) + multiset{path};
  }

  /** A visit that runs out of a budget shows that the whole walk exceeds it. */
  lemma StopJustified(tree: Tree, view: View, limits: Limits, total: Sum, l: Loop, refusal: Refusal)
    requires view == ViewOf(tree) && LimitsValid(limits) && LoopInv(view, limits, total, l)
    requires l.queue != [] && l.queue[0].depth < limits.depth
    requires refusal == EntryBound ==> l.observed + view.here(l.queue[0].path, true).entries > limits.entries
    requires refusal == DirectoryBound ==> l.enqueued + |view.below(l.queue[0].path)| > limits.directories
    requires refusal in {EntryBound, DirectoryBound}
    ensures Justified(refusal, [], limits, total, true)
  {
    VisitsOnce(tree);
    TotalsCover(view, limits.depth, Done(l), l.queue, total, view.below(l.queue[0].path));
  }

  /** A visit within its budgets keeps the invariant unless the unreadable directories
      are too many, and then the whole walk has too many. */
  lemma AfterKeeps(view: View, limits: Limits, total: Sum, l: Loop, v: Visited, next: Loop)
    requires LimitsValid(limits) && LoopInv(view, limits, total, l) && l.queue != []
    requires |l.candidates| < limits.candidates && v.Visited?
    requires v.children == if l.queue[0].depth < limits.depth then view.below(l.queue[0].path) else []
    requires l.observed <= v.observed <= limits.entries && l.enqueued + |v.children| <= limits.directories
    requires Share(v, l.queue[0].path, l.observed) == view.here(l.queue[0].path, l.queue[0].depth < limits.depth)
    requires next == After(l, v)
    ensures |next.unreadable| <= |total.errors|
    ensures |next.unreadable| <= MAX_ERRORS ==> LoopInv(view, limits, total, next)
    ensures |next.queue| == |l.queue| - 1 + |v.children|
  {
    AfterRecords(l, v);
    AfterConserves(view, limits, total, l, next, v.children);
    ErrorsWithin(Done(next), Pending(Remaining(view, limits.depth), next.queue), total, next);
  }

  lemma AfterConserves(view: View, limits: Limits, total: Sum, l: Loop, next: Loop, children: seq<Path>)
    requires LimitsValid(limits) && LoopInv(view, limits, total, l) && l.queue != []
    requires children == if l.queue[0].depth < limits.depth then view.below(l.queue[0].path) else []
    requires next.queue == l.queue[1..] + AtDepth(children, l.queue[0].depth + 1) && |next.queue| <= next.enqueued
    requires Done(next) == Plus(Done(l), view.here(l.queue[0].path, l.queue[0].depth < limits.depth))
    ensures DepthsWithin(next.queue, limits.depth)
    ensures Conserved(view, limits.depth, Done(next), next.queue, total)
  {
    NextDepths(l.queue, children, limits.depth);
    Step(view, limits.depth, Done(l), l.queue, total, children);
  }

  lemma ErrorsWithin(done: Sum, pending: Sum, total: Sum, l: Loop)
    requires |l.queue| <= l.enqueued && done == Done(l) && Plus(done, pending) == total
    ensures |l.unreadable| <= |total.errors|
  {
    assert |done.errors| == |l.unreadable|;
  }

  lemma NothingDone(view: View, limits: Limits, total: Sum, queue: seq<Item>, enqueued: nat)
    requires LimitsValid(limits) && |queue| == enqueued <= limits.directories && DepthsWithin(queue, limits.depth)
    requires Pending(Remaining(view, limits.depth), queue) == total
    ensures LoopInv(view, limits, total, Loop(queue, {}, enqueued, 0, []))
  {
    PlusZero(total);
    assert Done(Loop(queue, {}, enqueued, 0, [])) == ZERO;
  }

  lemma LoopStarts(view: View, roots: seq<Path>, limits: Limits, total: Sum)
    requires LimitsValid(limits) && |roots| <= limits.directories && total == WalkAll(view, roots, limits.depth)
    ensures LoopInv(view, limits, total, Loop(AtDepth(roots, 0), {}, |roots|, 0, []))
  {
    AtDepthItems(roots, 0);
    PendingIsWalkAll(view, roots, 0, limits.depth);
    NothingDone(view, limits, total, AtDepth(roots, 0), |roots|);
  }

  lemma LoopEnds(view: View, limits: Limits, total: Sum, l: Loop)
    requires LimitsValid(limits) && LoopInv(view, limits, total, l)
    ensures |l.candidates| <= |total.found|
    ensures l.queue == [] ==> total == Sum(l.candidates, l.enqueued, l.observed, multiset(l.unreadable))
  {
    PlusMonotone(Done(l), Pending(Remaining(view, limits.depth), l.queue), total);
    PlusZero(Done(l));
  }

  // ----- The order of the visits -----

  function BelowAll(view: View, paths: seq<Path>): seq<Path> { Image(paths, view.below) }

  /** The directories of the walk, level by level. */
  function Levels(view: View, paths: seq<Path>, room: nat): seq<Path>
    decreases room
  {
    if room == 0 then paths else paths + Levels(view, BelowAll(view, paths), room - 1)
  }

  ghost function MarkedIn(view: View, paths: seq<Path>): set<Path> { set p | p in paths && view.marked(p) }

  /** The candidates met before the last directory of the walk leave room for one more. */
  ghost predicate LeavesRoom(view: View, order: seq<Path>, candidates: int) {
    order != [] ==> |MarkedIn(view, order[..|order| - 1])| < candidates
  }

  function HereAll(view: View, paths: seq<Path>, deeper: bool): Sum {
    if paths == [] then ZERO else Plus(view.here(paths[0], deeper), HereAll(view, paths[1..], deeper))
  }

  lemma Interchange(a: Sum, b: Sum, c: Sum, d: Sum)
    ensures Plus(Plus(a, b), Plus(c, d)) == Plus(Plus(a, c), Plus(b, d))
  {
    assert (a.found + b.found) + (c.found + d.found) == (a.found + c.found) + (b.found + d.found);
    assert (a.errors + b.errors) + (c.errors + d.errors) == (a.errors + c.errors) + (b.errors + d.errors);
  }

  lemma {:induction false} WalkAllConcat(view: View, a: seq<Path>, b: seq<Path>, room: nat)
    ensures WalkAll(view, a + b, room) == Plus(WalkAll(view, a, room), WalkAll(view, b, room))
    decreases |a|
  {
    if a == [] {
      assert a + b == b;
      PlusZero(WalkAll(view, b, room));
    } else {
      assert (a + b)[1..] == a[1..] + b;
      WalkAllConcat(view, a[1..], b, room);
      PlusAssociative(Walk(view, a[0], room), WalkAll(view, a[1..], room), WalkAll(view, b, room));
    }
  }

  /** The walk level by level: this level, then the walk below it. */
  lemma {:induction false} WalkAllByLevel(view: View, paths: seq<Path>, room: nat)
    requires room > 0
    ensures WalkAll(view, paths, room) ==
            Plus(HereAll(view, paths, true), WalkAll(view, BelowAll(view, paths), room - 1))
    decreases |paths|
  {
    if paths == [] {
      PlusZero(ZERO);
    } else {
      var head, rest := paths[0], paths[1..];
      WalkAllByLevel(view, rest, room);
      WalkAllConcat(view, view.below(head), BelowAll(view, rest), room - 1);
      Interchange(view.here(head, true), WalkAll(view, view.below(head), room - 1),
                  HereAll(view, rest, true), WalkAll(view, BelowAll(view, rest), room - 1));
    }
  }

  lemma {:induction false} HereAllFinds(view: View, paths: seq<Path>, deeper: bool)
    requires FindsItself(view) && VisitsOne(view)
    ensures HereAll(view, paths, deeper).found == MarkedIn(view, paths)
            && HereAll(view, paths, deeper).visits == |paths|
  {
    if paths != [] {
      HereAllFinds(view, paths[1..], deeper);
      assert paths == [paths[0]] + paths[1..];
    }
  }

  lemma {:induction false} LeavesAreHere(view: View, paths: seq<Path>)
    ensures WalkAll(view, paths, 0) == HereAll(view, paths, false)
  {
    if paths != [] {
      LeavesAreHere(view, paths[1..]);
    }
  }

  /** The breadth-first order visits exactly what the recursive walk visits. */
  lemma {:induction false} LevelsCoverWalk(view: View, paths: seq<Path>, room: nat)
    requires FindsItself(view) && VisitsOne(view)
    ensures WalkAll(view, paths, room).found == MarkedIn(view, Levels(view, paths, room))
    ensures WalkAll(view, paths, room).visits == |Levels(view, paths, room)|
    decreases room
  {
    if room == 0 {
      LeavesAreHere(view, paths);
      HereAllFinds(view, paths, false);
    } else {
      var below := BelowAll(view, paths);
      WalkAllByLevel(view, paths, room);
      HereAllFinds(view, paths, true);
      LevelsCoverWalk(view, below, room - 1);
      MarkedConcat(view, paths, Levels(view, below, room - 1));
    }
  }

  lemma MarkedConcat(view: View, a: seq<Path>, b: seq<Path>)
    ensures MarkedIn(view, a + b) == MarkedIn(view, a) + MarkedIn(view, b)
  {
  }

  /** What a queue of the rest `a` of one level and the part `b` of the next stands for. */
  function Ahead(view: View, a: seq<Path>, b: seq<Path>, room: nat): seq<Path> {
    if room == 0 then a else a + Levels(view, b + BelowAll(view, a), room - 1)
  }

  lemma {:induction false} NoLevels(view: View, room: nat)
    ensures Levels(view, [], room) == []
  {
    if room > 0 {
      NoLevels(view, room - 1);
    }
  }

  /** Taking the head of the queue and appending its children advances the order by one. */
  lemma AheadStep(view: View, head: Path, a: seq<Path>, b: seq<Path>, room: nat, children: seq<Path>)
    requires children == if room > 0 then view.below(head) else []
    ensures Ahead(view, [head] + a, b, room) == [head] + Ahead(view, a, b + children, room)
  {
    assert ([head] + a)[1..] == a;
    if room > 0 {
      assert b + (children + BelowAll(view, a)) == (b + children) + BelowAll(view, a);
      var rest := Levels(view, b + BelowAll(view, [head] + a), room - 1);
      assert ([head] + a) + rest == [head] + (a + rest);
    }
  }

  /** At the end of a level the next one takes its place. */
  lemma AheadShift(view: View, b: seq<Path>, room: nat)
    ensures Ahead(view, [], b, room) == if room == 0 then [] else Ahead(view, b, [], room - 1)
  {
    if room > 0 {
      assert b + BelowAll(view, []) == b && [] + BelowAll(view, b) == BelowAll(view, b);
      assert [] + Levels(view, b, room - 1) == Levels(view, b, room - 1);
    }
  }

  /** The queue as the rest of one level and the part of the next enqueued so far. */
  datatype Front = Front(a: seq<Path>, b: seq<Path>, depth: nat)

  ghost predicate QueueIs(f: Front, queue: seq<Item>) {
    queue == AtDepth(f.a, f.depth) + AtDepth(f.b, f.depth + 1)
  }

  /** What is done and what lies ahead make up the order. */
  ghost predicate OrderIs(view: View, limit: nat, order: seq<Path>, done: seq<Path>, f: Front) {
    && (f.a == [] ==> f.b == [] && done == order)
    && (f.a != [] ==> f.depth <= limit && done + Ahead(view, f.a, f.b, limit - f.depth) == order)
    && (f.depth >= limit ==> f.b == [])
  }

  /** The candidates are those of the directories done, and left room before the last. */
  ghost predicate CandidatesAre(view: View, done: seq<Path>, found: set<Path>, candidates: int) {
    found == MarkedIn(view, done) && LeavesRoom(view, done, candidates)
  }

  /** The directories visited, the queue and the candidates agree with the order. */
  ghost predicate InOrder(view: View, limit: nat, order: seq<Path>, done: seq<Path>, f: Front, l: Loop,
                          candidates: int)
  {
    QueueIs(f, l.queue) && OrderIs(view, limit, order, done, f) && CandidatesAre(view, done, l.candidates, candidates)
  }

  lemma {:induction false} AtDepthConcat(a: seq<Path>, b: seq<Path>, depth: nat)
    ensures AtDepth(a + b, depth) == AtDepth(a, depth) + AtDepth(b, depth)
  {
    if a == [] {
      assert a + b == b;
    } else {
      assert (a + b)[1..] == a[1..] + b;
      AtDepthConcat(a[1..], b, depth);
    }
  }

  lemma OrderStarts(view: View, roots: seq<Path>, limit: nat, candidates: int)
    requires candidates >= 1
    ensures InOrder(view, limit, Levels(view, roots, limit), [], Front(roots, [], 0),
                    Loop(AtDepth(roots, 0), {}, |roots|, 0, []), candidates)
  {
    assert AtDepth(roots, 0) + AtDepth([], 1) == AtDepth(roots, 0);
    assert [] + BelowAll(view, roots) == BelowAll(view, roots);
    assert [] + Levels(view, roots, limit) == Levels(view, roots, limit);
    if roots == [] {
      NoLevels(view, limit);
    }
  }

  /** The front after its head has been visited. */
  function Shifted(f: Front, children: seq<Path>): Front
    requires f.a != []
  {
    if |f.a| > 1 then Front(f.a[1..], f.b + children, f.depth) else Front(f.b + children, [], f.depth + 1)
  }

  lemma QueueShifts(f: Front, queue: seq<Item>, children: seq<Path>)
    requires f.a != [] && QueueIs(f, queue)
    ensures queue != [] && queue[0] == Item(f.a[0], f.depth)
    ensures QueueIs(Shifted(f, children), queue[1..] + AtDepth(children, f.depth + 1))
  {
    AtDepthConcat(f.b, children, f.depth + 1);
    var rest, next, more := AtDepth(f.a[1..], f.depth), AtDepth(f.b, f.depth + 1), AtDepth(children, f.depth + 1);
    assert queue == [Item(f.a[0], f.depth)] + (rest + next);
    assert queue[1..] + more == rest + (next + more);
    if |f.a| == 1 {
      assert rest == [] && AtDepth([], f.depth + 2) == [];
    }
  }

  /** One more directory of the order is done. */
  lemma OrderShifts(view: View, limit: nat, order: seq<Path>, done: seq<Path>, f: Front, children: seq<Path>)
    requires f.a != [] && OrderIs(view, limit, order, done, f)
    requires children == if f.depth < limit then view.below(f.a[0]) else []
    ensures OrderIs(view, limit, order, done + [f.a[0]], Shifted(f, children))
  {
    var head, rest, room := f.a[0], f.a[1..], limit - f.depth;
    assert f.a == [head] + rest;
    AheadStep(view, head, rest, f.b, room, children);
    var ahead := Ahead(view, rest, f.b + children, room);
    assert done + ([head] + ahead) == (done + [head]) + ahead;
    if rest == [] {
      AheadShift(view, f.b + children, room);
      if room > 0 {
        NoLevels(view, room - 1);
      }
    }
  }

  lemma CandidatesGrow(view: View, done: seq<Path>, path: Path, found: set<Path>, candidates: int)
    requires CandidatesAre(view, done, found, candidates) && |found| < candidates
    ensures CandidatesAre(view, done + [path], found + (if view.marked(path) then {path} else {}), candidates)
  {
    MarkedGrows(view, done, path);
  }

  lemma MarkedGrows(view: View, done: seq<Path>, path: Path)
    ensures MarkedIn(view, done + [path]) == MarkedIn(view, done) + (if view.marked(path) then {path} else {})
    ensures (done + [path])[..|done|] == done
  {
  }

  lemma MarkedWithin(view: View, done: seq<Path>, order: seq<Path>)
    requires done <= order && |done| < |order|
    ensures |MarkedIn(view, done)| <= |MarkedIn(view, order[..|order| - 1])|
  {
    assert done <= order[..|order| - 1];
    SubsetSize(MarkedIn(view, done), MarkedIn(view, order[..|order| - 1]));
  }

  /** The search over checked roots: breadth first, stopping at the candidate limit. */
  method Search(tree: Tree, roots: seq<Path>, limits: Limits, ghost view: View, ghost total: Sum,
                ghost order: seq<Path>)
    returns (r: Outcome)
    requires LimitsValid(limits) && |roots| <= limits.directories && view == ViewOf(tree)
    requires total == WalkAll(view, roots, limits.depth) && order == Levels(view, roots, limits.depth)
    ensures match r
            case Searched(candidates, enqueued, observed, unreadable) =>
              && total == Sum(candidates, enqueued, observed, multiset(unreadable))
              && WithinBudgets(limits, total) && LeavesRoom(view, order, limits.candidates)
            case Refused(refusal) =>
              Justified(refusal, roots, limits, total, LeavesRoom(view, order, limits.candidates))
  {
    LoopStarts(view, roots, limits, total);
    OrderStarts(view, roots, limits.depth, limits.candidates);
    var l := Loop(AtDepth(roots, 0), {}, |roots|, 0, []);
    ghost var f, done := Front(roots, [], 0), [];
    while l.queue != [] && |l.candidates| < limits.candidates
      invariant LoopInv(view, limits, total, l)
      invariant InOrder(view, limits.depth, order, done, f, l, limits.candidates)
      decreases limits.directories - l.enqueued, |l.queue|
    {
      var refusal, next := Advance(tree, limits, l, view, total);
      if refusal.Some? {
        return Refused(refusal.value);
      }
      f, done := OrderKeeps(view, limits.depth, order, done, f, l, next, limits.candidates);
      l := next;
    }
    LoopEnds(view, limits, total, l);
    OrderEnds(view, limits, order, done, f, l);
    if l.queue != [] {
      return Refused(CandidateBound);
    }
    return Searched(l.candidates, l.enqueued, l.observed, l.unreadable);
  }

  lemma FrontInhabited(f: Front, queue: seq<Item>)
    requires QueueIs(f, queue) && (f.a == [] ==> f.b == [])
    ensures f.a == [] <==> queue == []
  {
    AtDepthItems(f.a, f.depth);
  }

  lemma OrderKeeps(view: View, limit: nat, order: seq<Path>, done: seq<Path>, f: Front, l: Loop, next: Loop,
                   candidates: int)
    returns (g: Front, now: seq<Path>)
    requires InOrder(view, limit, order, done, f, l, candidates)
    requires l.queue != [] && |l.candidates| < candidates && Follows(view, limit, l, next)
    ensures InOrder(view, limit, order, now, g, next, candidates)
  {
    FrontInhabited(f, l.queue);
    var children := if f.depth < limit then view.below(f.a[0]) else [];
    g, now := Shifted(f, children), done + [f.a[0]];
    QueueShifts(f, l.queue, children);
    OrderShifts(view, limit, order, done, f, children);
    CandidatesGrow(view, done, f.a[0], l.candidates, candidates);
  }

  lemma OrderEnds(view: View, limits: Limits, order: seq<Path>, done: seq<Path>, f: Front, l: Loop)
    requires limits.depth >= 0 && InOrder(view, limits.depth, order, done, f, l, limits.candidates)
    requires l.queue == [] || |l.candidates| >= limits.candidates
    ensures l.queue == [] <==> LeavesRoom(view, order, limits.candidates)
  {
    FrontInhabited(f, l.queue);
    if f.a != [] {
      assert Ahead(view, f.a, f.b, limits.depth - f.depth)[0] == f.a[0];
      MarkedWithin(view, done, order);
    }
  }

  /** The queue and the candidates after one visit. */
  ghost predicate Follows(view: View, limit: nat, l: Loop, next: Loop)
    requires l.queue != []
  {
    var head := l.queue[0];
    var children := if head.depth < limit then view.below(head.path) else [];
    && next.queue == l.queue[1..] + AtDepth(children, head.depth + 1)
    && next.candidates == l.candidates + (if view.marked(head.path) then {head.path} else {})
  }

  /** One turn of the loop. */
  method Advance(tree: Tree, limits: Limits, l: Loop, ghost view: View, ghost total: Sum)
    returns (refusal: Option<Refusal>, next: Loop)
    requires view == ViewOf(tree) && LimitsValid(limits) && LoopInv(view, limits, total, l)
    requires l.queue != [] && |l.candidates| < limits.candidates
    ensures match refusal
            case None => LoopInv(view, limits, total, next) && Follows(view, limits.depth, l, next)
            case Some(bound) =>
              bound in {DirectoryBound, EntryBound, ErrorBound} && Justified(bound, [], limits, total, true)
    ensures refusal.None? ==> next.enqueued - l.enqueued == |next.queue| - |l.queue| + 1 >= 0
  {
    var v := Visit(tree, l.queue[0], limits, l.observed, l.enqueued, view);
    if v.Stopped? {
      StopJustified(tree, view, limits, total, l, v.refusal);
      return Some(v.refusal), l;
    }
    AfterKeeps(view, limits, total, l, v, After(l, v));
    if v.unreadable && |l.unreadable| >= MAX_ERRORS {
      return Some(ErrorBound), l;
    }
    next := Record(l, v);
    FindsOnly(tree);
    AfterFollows(view, limits.depth, l, v);
    refusal := None;
  }

  lemma FindsOnly(tree: Tree)
    ensures FindsItself(ViewOf(tree))
  {
  }

  lemma AfterFollows(view: View, limit: nat, l: Loop, v: Visited)
    requires l.queue != [] && v.Visited? && l.observed <= v.observed && FindsItself(view)
    requires v.children == if l.queue[0].depth < limit then view.below(l.queue[0].path) else []
    requires Share(v, l.queue[0].path, l.observed) == view.here(l.queue[0].path, l.queue[0].depth < limit)
    ensures Follows(view, limit, l, After(l, v))
  {
    var path := l.queue[0].path;
    assert Share(v, path, l.observed).found == if view.marked(path) then {path} else {};
    assert path in (if v.marked then {path} else {}) <==> v.marked;
    assert l.candidates + {} == l.candidates;
  }

  /** The loop's variables updated by a visit. */
  method Record(l: Loop, v: Visited) returns (next: Loop)
    requires l.queue != [] && v.Visited?
    ensures next == After(l, v)
  {
    var item := l.queue[0];
    next := l.(queue := l.queue[1..], observed := v.observed);
    if v.marked {
      next := next.(candidates := next.candidates + {item.path});
    }
    next := next.(enqueued := next.enqueued + |v.children|, queue := next.queue + AtDepth(v.children, item.depth + 1));
    if v.unreadable {
      next := next.(unreadable := next.unreadable + [item.path]);
    }
  }

  /** The whole search. It returns exactly when the arguments are in order, the whole
      walk stays within every budget and the candidates before its last directory leave
      room; then it returns the totals of the recursive walk. Each refusal is justified. */
  method Discover(tree: Tree, roots: seq<Path>, limits: Limits) returns (r: Outcome)
    ensures var depth := if limits.depth < 0 then 0 else limits.depth;
            var total := WalkAll(ViewOf(tree), roots, depth);
            var fits := LeavesRoom(ViewOf(tree), Levels(ViewOf(tree), roots, depth), limits.candidates);
            && (r.Searched? <==> Admissible(roots, limits, total) && fits)
            && (r.Searched? ==> total == Sum(r.candidates, r.enqueued, r.observed, multiset(r.unreadable)))
            && (r.Refused? ==> Justified(r.refusal, roots, limits, total, fits))
  {
    if !(1 <= |roots| <= MAX_ROOTS) {
      return Refused(RootBound);
    }
    if !(0 <= limits.depth <= MAX_DEPTH) {
      return Refused(DepthBound);
    }
    if !(1 <= limits.candidates <= MAX_CANDIDATES) {
      return Refused(CandidateBound);
    }
    if !(1 <= limits.directories <= MAX_DIRECTORIES) {
      return Refused(DirectoryBound);
    }
    if !(1 <= limits.entries <= MAX_ENTRIES) {
      return Refused(EntryBound);
    }
    var distinct := CheckRoots(roots);
    if !distinct {
      return Refused(DuplicateRoot);
    }
    if |roots| > limits.directories {
      RootsVisited(tree, roots, limits.depth);
      return Refused(DirectoryBound);
    }
    r := Search(tree, roots, limits, ViewOf(tree), WalkAll(ViewOf(tree), roots, limits.depth),
                Levels(ViewOf(tree), roots, limits.depth));
  }

  lemma RootsVisited(tree: Tree, roots: seq<Path>, limit: nat)
    ensures WalkAll(ViewOf(tree), roots, limit).visits >= |roots|
  {
    AtDepthItems(roots, 0);
    PendingIsWalkAll(ViewOf(tree), roots, 0, limit);
    VisitsOnce(tree);
    PendingVisits(ViewOf(tree), AtDepth(roots, 0), limit);
  }

  method CheckRoots(given: seq<Path>) returns (distinct: bool)
    ensures distinct <==> Distinct(given)
  {
    var roots: seq<Path> := [];
    var i := 0;
    while i < |given|
      invariant 0 <= i <= |given| && roots == given[..i] && Distinct(roots)
    {
      DistinctAppend(roots, given[i]);
      assert given[..i + 1] == roots + [given[i]];
      if given[i] in roots {
        assert given[..i][..] == roots;
        return false;
      }
      roots := roots + [given[i]];
      i := i + 1;
    }
    assert given[..i] == given;
    return true;
  }
}
