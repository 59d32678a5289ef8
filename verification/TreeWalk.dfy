/** The two walks over a workspace's directory tree, each with a stack of directories still to read. */
module TreeWalk {
  import opened Tables

  datatype Kind = File(size: nat) | Symlink(size: nat) | Special | Folder(readable: bool, children: seq<Node>)

  /**
   A directory entry.  Reading the metadata of one without `stats` raises; whether it is a link or a
   directory may still be `known` from the listing of its parent.
   */
  datatype Node = Node(kind: Kind, junction: bool, mount: bool, known: bool, stats: bool)
  {
    predicate Typed() { known || stats }
  }

  predicate Readable(n: Node) { n.kind.Folder? && n.kind.readable }

  /** How many entries a tree has: what a walk uses up. */
  function Weight(n: Node): (weight: nat)
    ensures weight >= 1
    decreases n, 0
  {
    if n.kind.Folder? then 1 + WeightBelow(n, |n.kind.children|) else 1
  }

  function WeightBelow(n: Node, k: nat): nat
    requires n.kind.Folder? && k <= |n.kind.children|
    decreases n, -1, k
  {
    if k == 0 then 0 else WeightBelow(n, k - 1) + Weight(n.kind.children[k - 1])
  }

  // ---- size ----

  /** What one entry adds: its own size, or what lies below it. */
  function EntrySize(n: Node): nat
    decreases n, 1
  {
    if !n.Typed() then 0
    else match n.kind
      case File(size) => if n.stats then size else 0
      case Symlink(size) => if n.stats then size else 0
      case Special => 0
      case Folder(_, _) => SizeBelow(n)
  }

  function SizeBelow(n: Node): nat
    decreases n, 0
  {
    if Readable(n) then SizeOfFirst(n, |n.kind.children|) else 0
  }

  /** The first `k` entries of a directory. */
  function SizeOfFirst(n: Node, k: nat): nat
    requires n.kind.Folder? && k <= |n.kind.children|
    decreases n, -1, k
  {
    if k == 0 then 0 else SizeOfFirst(n, k - 1) + EntrySize(n.kind.children[k - 1])
  }

  ghost function Remaining(pending: seq<Node>): int { SumBy(pending, (n: Node) => SizeBelow(n)) }

  ghost function Work(pending: seq<Node>): int { SumBy(pending, (n: Node) => Weight(n)) }

  lemma WorkIsPositive(pending: seq<Node>)
    ensures Work(pending) >= 0
  {
    SumNonNegative(pending, (n: Node) => Weight(n));
  }

  lemma Pushed(pending: seq<Node>, n: Node)
    ensures Remaining(pending + [n]) == Remaining(pending) + SizeBelow(n)
    ensures Work(pending + [n]) == Work(pending) + Weight(n)
  {}

  lemma {:induction false} WeightGrows(n: Node, j: nat, k: nat)
    requires n.kind.Folder? && j <= k <= |n.kind.children|
    ensures WeightBelow(n, j) <= WeightBelow(n, k)
    decreases k
  {
    if j < k {
      WeightGrows(n, j, k - 1);
    }
  }

  /** The walk with a stack adds up what the recursive definition does. */
  method DirectorySize(root: Node) returns (total: nat)
    ensures total == SizeBelow(root)
  {
    total := 0;
    var pending := [root];
    assert pending == [] + [root];
    Pushed([], root);
    while pending != []
      invariant total + Remaining(pending) == SizeBelow(root)
      decreases Work(pending)
    {
      ghost var before := pending;
      var directory := pending[|pending| - 1];
      pending := pending[..|pending| - 1];
      assert before == pending + [directory];
      Pushed(pending, directory);
      WorkIsPositive(pending);
      if Readable(directory) {
        total, pending := ReadDirectory(directory, total, pending);
      }
    }
  }

  /** The entries of one directory: sizes are added, directories wait on the stack. */
  method ReadDirectory(directory: Node, sofar: nat, waiting: seq<Node>) returns (total: nat, pending: seq<Node>)
    requires Readable(directory)
    ensures total + Remaining(pending) == sofar + Remaining(waiting) + SizeBelow(directory)
    ensures Work(pending) < Work(waiting) + Weight(directory)
  {
    total, pending := sofar, waiting;
    var entries := directory.kind.children;
    for i := 0 to |entries|
      invariant total + Remaining(pending) == sofar + Remaining(waiting) + SizeOfFirst(directory, i)
      invariant Work(pending) <= Work(waiting) + WeightBelow(directory, i)
    {
      var entry := entries[i];
      if entry.Typed() {
        match entry.kind {
          case Symlink(size) => total := total + if entry.stats then size else 0;
          case Folder(_, _) =>
            Pushed(pending, entry);
            pending := pending + [entry];
          case File(size) => total := total + if entry.stats then size else 0;
          case Special =>
        }
      }
    }
  }

  // ---- what may be deleted ----

  predicate LinkLike(n: Node) { !n.stats || n.kind.Symlink? || n.junction }

  predicate Plain(n: Node) { !LinkLike(n) && !n.mount }

  /** Nothing at or below an entry is a link or a mount, and every directory can be read. */
  predicate EntrySafe(n: Node)
    decreases n, 1
  {
    Plain(n) && (n.kind.Folder? ==> SafeBelow(n))
  }

  predicate SafeBelow(n: Node)
    decreases n, 0
  {
    Readable(n) && forall i | 0 <= i < |n.kind.children| :: EntrySafe(n.kind.children[i])
  }

  ghost predicate AllSafe(pending: seq<Node>) { forall i | 0 <= i < |pending| :: SafeBelow(pending[i]) }

  lemma PushedSafe(pending: seq<Node>, n: Node)
    ensures AllSafe(pending + [n]) <==> AllSafe(pending) && SafeBelow(n)
  {
    assert (pending + [n])[|pending|] == n;
    assert forall i | 0 <= i < |pending| :: (pending + [n])[i] == pending[i];
  }

  /** The walk with a stack accepts exactly the plain, readable trees. */
  method SafeToDelete(root: Node) returns (safe: bool)
    ensures safe <==> Plain(root) && SafeBelow(root)
  {
    if LinkLike(root) || root.mount {
      return false;
    }
    var pending := [root];
    assert pending == [] + [root];
    PushedSafe([], root);
    while pending != []
      invariant SafeBelow(root) <==> AllSafe(pending)
      decreases Work(pending)
    {
      ghost var before := pending;
      var directory := pending[|pending| - 1];
      pending := pending[..|pending| - 1];
      assert before == pending + [directory];
      PushedSafe(pending, directory);
      Pushed(pending, directory);
      WorkIsPositive(pending);
      if !Readable(directory) {
        return false;
      }
      var clean;
      clean, pending := InspectDirectory(directory, pending);
      if !clean {
        return false;
      }
    }
    return true;
  }

  /** Stops at the first entry that is a link, a mount or unreadable. */
  method InspectDirectory(directory: Node, waiting: seq<Node>) returns (clean: bool, pending: seq<Node>)
    requires Readable(directory)
    ensures clean ==> (AllSafe(pending) <==> AllSafe(waiting) && SafeBelow(directory))
    ensures !clean ==> !SafeBelow(directory)
    ensures Work(pending) < Work(waiting) + Weight(directory)
  {
    clean, pending := true, waiting;
    var entries := directory.kind.children;
    for i := 0 to |entries|
      invariant AllSafe(pending) <==> AllSafe(waiting) && forall j | 0 <= j < i :: EntrySafe(entries[j])
      invariant forall j | 0 <= j < i :: Plain(entries[j])
      invariant Work(pending) <= Work(waiting) + WeightBelow(directory, i)
    {
      var entry := entries[i];
      WeightGrows(directory, i + 1, |entries|);
      if LinkLike(entry) || entry.mount {
        assert !EntrySafe(entry);
        return false, pending;
      }
      if entry.kind.Folder? {
        PushedSafe(pending, entry);
        Pushed(pending, entry);
        pending := pending + [entry];
      }
    }
  }

  // ---- what the recursive definitions mean, entry by entry ----

  /** The entry that a list of positions leads to. */
  predicate IsPath(n: Node, path: seq<nat>)
    decreases |path|
  {
    path == [] || (n.kind.Folder? && path[0] < |n.kind.children| && IsPath(n.kind.children[path[0]], path[1..]))
  }

  function At(n: Node, path: seq<nat>): Node
    requires IsPath(n, path)
    decreases |path|
  {
    if path == [] then n else At(n.kind.children[path[0]], path[1..])
  }

  /** An entry that is what it seems: no link, junction or mount, and readable if it is a directory. */
  predicate Ordinary(n: Node) {
    && n.stats && !n.kind.Symlink? && !n.junction && !n.mount
    && (n.kind.Folder? ==> n.kind.readable)
  }

  ghost predicate PlainEverywhere(n: Node) { forall path | IsPath(n, path) :: Ordinary(At(n, path)) }

  lemma {:induction false} SafeHereIsPlain(n: Node, path: seq<nat>)
    requires EntrySafe(n) && IsPath(n, path)
    ensures Ordinary(At(n, path))
    decreases |path|
  {
    if path != [] {
      SafeHereIsPlain(n.kind.children[path[0]], path[1..]);
    }
  }

  lemma PlainBelow(n: Node, i: nat)
    requires PlainEverywhere(n) && n.kind.Folder? && i < |n.kind.children|
    ensures PlainEverywhere(n.kind.children[i])
  {
    var child := n.kind.children[i];
    forall path | IsPath(child, path) ensures Ordinary(At(child, path)) {
      var longer := [i] + path;
      assert longer[1..] == path;
      assert IsPath(n, longer) && At(n, longer) == At(child, path);
    }
  }

  lemma {:induction false} PlainIsSafe(n: Node)
    requires PlainEverywhere(n)
    ensures EntrySafe(n)
    decreases n
  {
    assert IsPath(n, []) && At(n, []) == n;
    if n.kind.Folder? {
      forall i | 0 <= i < |n.kind.children| ensures EntrySafe(n.kind.children[i]) {
        PlainBelow(n, i);
        PlainIsSafe(n.kind.children[i]);
      }
    }
  }

  /**
   A directory may be deleted exactly when no entry anywhere in it, itself included, is a link, a
   junction or a mount or hides its metadata, and every directory in it can be read.
   */
  lemma DeletableExactly(root: Node)
    requires root.kind.Folder?
    ensures Plain(root) && SafeBelow(root) <==> PlainEverywhere(root)
  {
    if Plain(root) && SafeBelow(root) {
      forall path | IsPath(root, path) ensures Ordinary(At(root, path)) {
        SafeHereIsPlain(root, path);
      }
    }
    if PlainEverywhere(root) {
      PlainIsSafe(root);
    }
  }

  // ---- what the size counts ----

  /** Every entry below a directory that a reader reaches, entering readable directories and no link. */
  function Reached(n: Node): seq<Node>
    decreases n, 0
  {
    if Readable(n) then ReachedFirst(n, |n.kind.children|) else []
  }

  function ReachedFirst(n: Node, k: nat): seq<Node>
    requires n.kind.Folder? && k <= |n.kind.children|
    decreases n, -1, k
  {
    if k == 0 then []
    else
      var child := n.kind.children[k - 1];
      ReachedFirst(n, k - 1) + [child] + if child.Typed() then Reached(child) else []
  }

  /** The size an entry's metadata reports; directories and special files count for nothing. */
  function OwnSize(n: Node): nat {
    if n.stats && n.kind.File? then n.kind.size
    else if n.stats && n.kind.Symlink? then n.kind.size
    else 0
  }

  /** The size of a directory is the sum over the files and links reached, each counted once. */
  lemma {:induction false} SizeCountsReached(n: Node)
    ensures SizeBelow(n) == SumBy(Reached(n), (m: Node) => OwnSize(m))
    decreases n, 0
  {
    if Readable(n) {
      SizeCountsFirst(n, |n.kind.children|);
    }
  }

  lemma {:induction false} SizeCountsFirst(n: Node, k: nat)
    requires n.kind.Folder? && k <= |n.kind.children|
    ensures SizeOfFirst(n, k) == SumBy(ReachedFirst(n, k), (m: Node) => OwnSize(m))
    decreases n, -1, k
  {
    if k > 0 {
      var child, own := n.kind.children[k - 1], (m: Node) => OwnSize(m);
      var before, below := ReachedFirst(n, k - 1), if child.Typed() then Reached(child) else [];
      SizeCountsFirst(n, k - 1);
      SizeCountsReached(child);
      SumAppend(before, child, own);
      SumConcat(before + [child], below, own);
    }
  }

  predicate Enters(n: Node, path: seq<nat>)
    requires IsPath(n, path)
    decreases |path|
  {
    if path == [] then true
    else if |path| == 1 then Readable(n)
    else Readable(n) && n.kind.children[path[0]].Typed() && Enters(n.kind.children[path[0]], path[1..])
  }

  lemma {:induction false} InReachedFirst(n: Node, i: nat, k: nat, m: Node)
    requires n.kind.Folder? && i < k <= |n.kind.children|
    requires m == n.kind.children[i] || (n.kind.children[i].Typed() && m in Reached(n.kind.children[i]))
    ensures m in ReachedFirst(n, k)
    decreases k
  {
    if i < k - 1 {
      InReachedFirst(n, i, k - 1, m);
    }
  }

  /** Whatever a path through readable directories leads to is reached, so its size is counted. */
  lemma {:induction false} EnteredIsReached(n: Node, path: seq<nat>)
    requires path != [] && IsPath(n, path) && Enters(n, path)
    ensures At(n, path) in Reached(n)
    decreases |path|
  {
    var child := n.kind.children[path[0]];
    if |path| > 1 {
      EnteredIsReached(child, path[1..]);
      assert child.Typed() && At(n, path) == At(child, path[1..]);
    } else {
      assert path[1..] == [] && At(n, path) == At(child, []);
    }
    InReachedFirst(n, path[0], |n.kind.children|, At(n, path));
  }

  // ---- what lies behind junctions and mounts ----

  /** A directory whose entries need not lie in the tree. */
  predicate Crosses(n: Node) { n.kind.Folder? && (n.junction || n.mount) }

  /** The size of what lies in the tree itself. */
  function SizeInside(n: Node): nat
    decreases n, 0
  {
    if Readable(n) then SizeInsideFirst(n, |n.kind.children|) else 0
  }

  function SizeInsideFirst(n: Node, k: nat): nat
    requires n.kind.Folder? && k <= |n.kind.children|
    decreases n, -1, k
  {
    if k == 0 then 0 else SizeInsideFirst(n, k - 1) + EntryInside(n.kind.children[k - 1])
  }

  function EntryInside(n: Node): nat
    decreases n, 1
  {
    if Crosses(n) || !n.Typed() then 0 else if n.kind.Folder? then SizeInside(n) else OwnSize(n)
  }

  /** The junctions and mounts that the walk comes upon, not counting those behind another. */
  function Crossings(n: Node): seq<Node>
    decreases n, 0
  {
    if Readable(n) then CrossingsFirst(n, |n.kind.children|) else []
  }

  function CrossingsFirst(n: Node, k: nat): seq<Node>
    requires n.kind.Folder? && k <= |n.kind.children|
    decreases n, -1, k
  {
    if k == 0 then [] else CrossingsFirst(n, k - 1) + EntryCrossings(n.kind.children[k - 1])
  }

  function EntryCrossings(n: Node): seq<Node>
    decreases n, 1
  {
    if !n.Typed() || !n.kind.Folder? then [] else if Crosses(n) then [n] else Crossings(n)
  }

  /** The walk counts what lies in the tree, and everything reached behind its junctions and mounts. */
  lemma {:induction false} SizeSplits(n: Node)
    ensures SizeBelow(n) == SizeInside(n) + SumBy(Crossings(n), (m: Node) => SizeBelow(m))
    decreases n, 0
  {
    if Readable(n) {
      SizeSplitsFirst(n, |n.kind.children|);
    }
  }

  lemma {:induction false} SizeSplitsFirst(n: Node, k: nat)
    requires n.kind.Folder? && k <= |n.kind.children|
    ensures SizeOfFirst(n, k) == SizeInsideFirst(n, k) + SumBy(CrossingsFirst(n, k), (m: Node) => SizeBelow(m))
    decreases n, -1, k
  {
    if k > 0 {
      SizeSplitsFirst(n, k - 1);
      EntrySplits(n.kind.children[k - 1]);
      SumConcat(CrossingsFirst(n, k - 1), EntryCrossings(n.kind.children[k - 1]), (m: Node) => SizeBelow(m));
    }
  }

  lemma {:induction false} EntrySplits(n: Node)
    ensures EntrySize(n) == EntryInside(n) + SumBy(EntryCrossings(n), (m: Node) => SizeBelow(m))
    decreases n, 1
  {
    if n.Typed() && n.kind.Folder? {
      if Crosses(n) {
        SumAppend([], n, (m: Node) => SizeBelow(m));
        assert [] + [n] == [n];
      } else {
        SizeSplits(n);
      }
    }
  }

  /**
   The size is that of what lies in the tree itself, if and only if nothing with a size is reached
   behind the junctions and mounts in it.
   */
  lemma SizeStaysInsideExactly(n: Node)
    ensures SizeBelow(n) == SizeInside(n) <==> forall m | m in Crossings(n) :: SizeBelow(m) == 0
  {
    SizeSplits(n);
    SumIsZeroExactly(Crossings(n), (m: Node) => SizeBelow(m));
  }

  /** For every size: a file behind a junction is counted although nothing lies in the tree. */
  lemma JunctionIsCounted(size: nat)
    ensures var file := Node(File(size), false, false, true, true);
      var away := Node(Folder(true, [file]), true, false, true, true);
      var root := Node(Folder(true, [away]), false, false, true, true);
      SizeBelow(root) == size && SizeInside(root) == 0
  {
    var file := Node(File(size), false, false, true, true);
    var away := Node(Folder(true, [file]), true, false, true, true);
    assert SizeOfFirst(away, 1) == SizeOfFirst(away, 0) + EntrySize(file);
    var root := Node(Folder(true, [away]), false, false, true, true);
    assert SizeOfFirst(root, 1) == SizeOfFirst(root, 0) + EntrySize(away);
    assert SizeInsideFirst(root, 1) == SizeInsideFirst(root, 0);
  }
}
