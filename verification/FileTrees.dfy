/** File trees, and the two loops that change them: removing and copying, each free to fail after any entry. */
module FileTrees {
  import opened Prelude

  type Path = string

  datatype Node = File(content: string) | Dir | Manifest(agent: string, files: set<Path>)

  type Tree = map<Path, Node>

  /**
   * What the upper layer of an overlay says about a path: something put on top, a mark that the path
   * below is deleted, or nothing of its own because a directory above it was deleted or replaced.
   */
  datatype Change = Put(node: Node) | Whiteout | Hidden

  type Layer = map<Path, Change>

  ghost predicate Lists(order: seq<Path>, entries: set<Path>) {
    NoDup(order) && forall p :: p in order <==> p in entries
  }

  ghost function SomeOrder(entries: set<Path>): (order: seq<Path>)
    ensures Lists(order, entries)
  {
    if entries == {} then [] else var p :| p in entries; [p] + SomeOrder(entries - {p})
  }

  /** A way to list directories: every entry once, in any order. */
  type Listing = list: set<Path> -> seq<Path> | forall entries :: Lists(list(entries), entries)
    ghost witness (entries => SomeOrder(entries))

  /** `Some(k)`: the loop fails once it has dealt with `k` entries, or with all if there are fewer. */
  type Stop = Option<nat>

  function Less(stop: Stop): Stop {
    if stop.Some? && stop.value > 0 then Some(stop.value - 1) else stop
  }

  lemma NewPath(taken: set<Path>) returns (p: Path)
    ensures p !in taken
  {
    p := Longer(taken);
  }

  /** A path longer than all the given ones. */
  ghost function Longer(taken: set<Path>): (p: Path)
    ensures forall q :: q in taken ==> |q| < |p|
  {
    if taken == {} then "x"
    else
      var q :| q in taken;
      var p := Longer(taken - {q});
      if |q| < |p| then p else q + "x"
  }

  // ----- removal -----

  function RemoveEach<T>(m: map<Path, T>, order: seq<Path>, stop: Stop): (map<Path, T>, bool) {
    if stop == Some(0) then (m, false)
    else if order == [] then (m, stop.None?)
    else RemoveEach(m - {order[0]}, order[1..], Less(stop))
  }

  /** How many of `n` entries the loop gets to. */
  function Reached(stop: Stop, n: nat): nat {
    if stop.Some? && stop.value < n then stop.value else n
  }

  /** The entries of the map that are not among the given ones. */
  function Except<T>(m: map<Path, T>, gone: seq<Path>): map<Path, T> {
    map p | p in m && p !in gone :: m[p]
  }

  /** A removal takes away exactly the entries it got to, and fails exactly when it was stopped. */
  lemma {:induction false} RemovalTakesPrefix<T>(m: map<Path, T>, order: seq<Path>, stop: Stop)
    ensures var (rest, ok) := RemoveEach(m, order, stop);
      rest == Except(m, order[..Reached(stop, |order|)]) && (ok <==> stop.None?)
  {
    if order == [] || stop == Some(0) {
      assert Except(m, []) == m;
    } else {
      RemovalTakesPrefix(m - {order[0]}, order[1..], Less(stop));
      var n := Reached(stop, |order|);
      assert order[..n] == [order[0]] + order[1..][..n - 1];
      assert Except(m - {order[0]}, order[1..][..n - 1]) == Except(m, order[..n]);
    }
  }

  /** Removing everything, in the order listed. */
  function Clear<T>(m: map<Path, T>, list: Listing, stop: Stop): (map<Path, T>, bool) {
    RemoveEach(m, list(m.Keys), stop)
  }

  /** A removal that succeeds leaves nothing; one that fails leaves what it did not get to. */
  lemma RemovalEmpties<T>(m: map<Path, T>, list: Listing, stop: Stop)
    ensures var (rest, ok) := Clear(m, list, stop);
      && (ok <==> stop.None?) && (ok ==> rest == map[])
      && rest == Except(m, list(m.Keys)[..Reached(stop, |list(m.Keys)|)])
  {
    RemovalTakesPrefix(m, list(m.Keys), stop);
    if stop.None? {
      assert list(m.Keys)[..|list(m.Keys)|] == list(m.Keys);
      assert Lists(list(m.Keys), m.Keys);
    }
  }

  // ----- removal through a mounted overlay -----

  /** Entries of the lower tree are covered by a mark, entries of the upper layer alone go. */
  function HideEach(lower: Tree, upper: Layer, order: seq<Path>, stop: Stop): Layer
    decreases |order|
  {
    if stop == Some(0) || order == [] then upper
    else
      var p := order[0];
      HideEach(lower, if p in lower then upper[p := Whiteout] else upper - {p}, order[1..], Less(stop))
  }

  // ----- copying -----

  function Lift(tree: Tree): Layer {
    map p | p in tree :: Put(tree[p])
  }

  /** A file does not replace a directory, nor a directory a file. */
  predicate Clashes(dst: Tree, p: Path, node: Node) {
    p in dst && (dst[p] == Dir) != (node == Dir)
  }

  /** A deletion mark cannot be opened for copying; a hidden path is not there to be copied. */
  predicate Copyable(dst: Tree, p: Path, change: Change) {
    match change
    case Put(node) => !Clashes(dst, p, node)
    case Whiteout => false
    case Hidden => true
  }

  function CopyEntry(dst: Tree, p: Path, change: Change): Tree {
    if change.Put? then dst[p := change.node] else dst
  }

  function CopyEach(src: Layer, dst: Tree, order: seq<Path>, stop: Stop): (Tree, bool)
    requires forall p :: p in order ==> p in src
    decreases |order|
  {
    if stop == Some(0) then (dst, false)
    else if order == [] then (dst, stop.None?)
    else if !Copyable(dst, order[0], src[order[0]]) then (dst, false)
    else CopyEach(src, CopyEntry(dst, order[0], src[order[0]]), order[1..], Less(stop))
  }

  /** The destination with the chosen entries of the source laid over it. */
  function Laid(dst: Tree, src: Layer, chosen: seq<Path>): Tree {
    map p | p in dst.Keys + src.Keys && (p in dst || (p in chosen && src[p].Put?)) ::
      if p in src && p in chosen && src[p].Put? then src[p].node else dst[p]
  }

  /** The copy got through the first `n` entries and, unless it was then done, was stopped or blocked there. */
  ghost predicate CopiedUpTo(src: Layer, dst: Tree, order: seq<Path>, stop: Stop, n: nat, result: (Tree, bool))
    requires forall p :: p in order ==> p in src
  {
    && n <= |order| && result.0 == Laid(dst, src, order[..n])
    && (forall i :: 0 <= i < n ==> Copyable(dst, order[i], src[order[i]]))
    && (stop.Some? ==> n <= stop.value)
    && (result.1 <==> n == |order| && stop.None?)
    && (!result.1 && n < |order| ==> stop == Some(n) || !Copyable(dst, order[n], src[order[n]]))
  }

  lemma CopyEntryElsewhere(src: Layer, dst: Tree, order: seq<Path>, i: nat)
    requires NoDup(order) && 0 < i < |order| && forall p :: p in order ==> p in src
    ensures Copyable(CopyEntry(dst, order[0], src[order[0]]), order[i], src[order[i]])
         == Copyable(dst, order[i], src[order[i]])
  {
  }

  lemma LaidCons(src: Layer, dst: Tree, p: Path, rest: seq<Path>)
    requires p in src
    ensures Laid(CopyEntry(dst, p, src[p]), src, rest) == Laid(dst, src, [p] + rest)
  {
  }

  /** A copy lays exactly the entries it got to over what was there. */
  lemma {:induction false} CopyLaysPrefix(src: Layer, dst: Tree, order: seq<Path>, stop: Stop) returns (n: nat)
    requires NoDup(order) && forall p :: p in order ==> p in src
    ensures CopiedUpTo(src, dst, order, stop, n, CopyEach(src, dst, order, stop))
    decreases |order|
  {
    if stop == Some(0) || order == [] || !Copyable(dst, order[0], src[order[0]]) {
      n := 0;
      assert Laid(dst, src, []) == dst;
    } else {
      var p, rest := order[0], order[1..];
      var dst' := CopyEntry(dst, p, src[p]);
      var m := CopyLaysPrefix(src, dst', rest, Less(stop));
      n := m + 1;
      assert order[..n] == [p] + rest[..m];
      LaidCons(src, dst, p, rest[..m]);
      forall i | 0 <= i < |rest|
        ensures rest[i] == order[i + 1]
        ensures Copyable(dst', rest[i], src[rest[i]]) == Copyable(dst, order[i + 1], src[order[i + 1]])
      {
        CopyEntryElsewhere(src, dst, order, i + 1);
      }
      forall i | 0 <= i < n
        ensures Copyable(dst, order[i], src[order[i]])
      {
        if i > 0 { assert rest[i - 1] == order[i]; }
      }
    }
  }

  /** Copying everything, in the order listed. */
  function Copy(src: Layer, dst: Tree, list: Listing, stop: Stop): (Tree, bool) {
    assert Lists(list(src.Keys), src.Keys);
    CopyEach(src, dst, list(src.Keys), stop)
  }

  /** All of the source laid over the destination. */
  function Overlaid(dst: Tree, src: Layer): Tree {
    map p | p in dst.Keys + src.Keys && (p in dst || src[p].Put?) ::
      if p in src && src[p].Put? then src[p].node else dst[p]
  }

  /** Nothing in the way, and no deletion mark. */
  ghost predicate AllCopyable(src: Layer, dst: Tree) {
    forall p :: p in src ==> Copyable(dst, p, src[p])
  }

  /** A copy succeeds exactly when it is not stopped and nothing blocks it, and then it lays down all of the source. */
  lemma CopyOverlays(src: Layer, dst: Tree, list: Listing, stop: Stop)
    ensures var (result, ok) := Copy(src, dst, list, stop);
      && (ok <==> stop.None? && AllCopyable(src, dst))
      && (ok ==> result == Overlaid(dst, src))
  {
    var order := list(src.Keys);
    assert Lists(order, src.Keys);
    var n := CopyLaysPrefix(src, dst, order, stop);
    if n == |order| {
      assert order[..n] == order;
    }
  }

  /** Copying a tree to an empty place. */
  lemma CopyOfTree(src: Tree, list: Listing, stop: Stop)
    ensures var (result, ok) := Copy(Lift(src), map[], list, stop);
      (ok <==> stop.None?) && (ok ==> result == src)
  {
    CopyOverlays(Lift(src), map[], list, stop);
    assert Overlaid(map[], Lift(src)) == src;
  }

  // ----- the loops -----

  function Rest(stop: Stop, i: nat): Stop {
    if stop.Some? then Some(if stop.value > i then stop.value - i else 0) else None
  }

  method RemoveTree<T>(tree: map<Path, T>, list: Listing, stop: Stop) returns (rest: map<Path, T>, ok: bool)
    ensures (rest, ok) == Clear(tree, list, stop)
  {
    var entries := list(tree.Keys);
    rest, ok := tree, false;
    var i := 0;
    assert entries[0..] == entries;
    while i < |entries|
      invariant i <= |entries| && (stop.Some? ==> i <= stop.value)
      invariant RemoveEach(rest, entries[i..], Rest(stop, i)) == RemoveEach(tree, entries, stop)
    {
      if stop == Some(i) {
        return;
      }
      assert entries[i..][0] == entries[i] && entries[i..][1..] == entries[i + 1..];
      rest := rest - {entries[i]};
      i := i + 1;
    }
    ok := stop.None?;
  }

  method CopyTree(src: Layer, dst: Tree, list: Listing, stop: Stop) returns (result: Tree, ok: bool)
    ensures (result, ok) == Copy(src, dst, list, stop)
  {
    var entries := list(src.Keys);
    assert Lists(entries, src.Keys);
    result, ok := dst, false;
    var i := 0;
    assert entries[0..] == entries;
    while i < |entries|
      invariant i <= |entries| && (stop.Some? ==> i <= stop.value)
      invariant CopyEach(src, result, entries[i..], Rest(stop, i)) == CopyEach(src, dst, entries, stop)
    {
      if stop == Some(i) {
        return;
      }
      var p := entries[i];
      assert entries[i..][0] == p && entries[i..][1..] == entries[i + 1..];
      match src[p] {
        case Put(node) =>
          if Clashes(result, p, node) {
            return;
          }
          result := result[p := node];
        case Whiteout =>
          return;
        case Hidden =>
      }
      i := i + 1;
    }
    ok := stop.None?;
  }
}
