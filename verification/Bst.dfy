/** The tree-deletion microbenchmark: a perfect binary search tree with parent links, from
    which leaves are deleted in place until only the root is left. */
module Bst {
  import opened Basics
  import opened Bits

  // ---- Trees as values ----

  datatype Tree = Nil | Bin(left: Tree, val: int, right: Tree)

  function Keys(t: Tree): seq<int> {
    if t.Nil? then [] else Keys(t.left) + [t.val] + Keys(t.right)
  }

  predicate IsLeaf(t: Tree) {
    t.Bin? && t.left.Nil? && t.right.Nil?
  }

  /** Every key is between lo and hi, and search order holds at every node. */
  predicate Ordered(t: Tree, lo: int, hi: int) {
    t.Nil? || (lo <= t.val <= hi && Ordered(t.left, lo, t.val - 1) && Ordered(t.right, t.val + 1, hi))
  }

  /** Search order is ascending order of the keys. */
  lemma {:induction false} OrderedAscends(t: Tree, lo: int, hi: int)
    requires Ordered(t, lo, hi)
    ensures forall k :: k in Keys(t) ==> lo <= k <= hi
    ensures forall i, j :: 0 <= i < j < |Keys(t)| ==> Keys(t)[i] < Keys(t)[j]
  {
    if t.Bin? {
      OrderedAscends(t.left, lo, t.val - 1);
      OrderedAscends(t.right, t.val + 1, hi);
      Concat(Keys(t.left), t.val, Keys(t.right));
    }
  }

  lemma Concat(a: seq<int>, v: int, b: seq<int>)
    requires forall k :: k in a ==> k < v
    requires forall k :: k in b ==> v < k
    requires forall i, j :: 0 <= i < j < |a| ==> a[i] < a[j]
    requires forall i, j :: 0 <= i < j < |b| ==> b[i] < b[j]
    ensures var s := a + [v] + b; forall i, j :: 0 <= i < j < |s| ==> s[i] < s[j]
  {
    var s := a + [v] + b;
    forall i, j | 0 <= i < j < |s|
      ensures s[i] < s[j]
    {
      assert i < |a| ==> s[i] in a;
      assert j > |a| ==> s[j] == b[j - |a| - 1] && s[j] in b;
      if i < |a| && j < |a| {
        assert s[i] == a[i] && s[j] == a[j];
      } else if i > |a| {
        assert s[i] == b[i - |a| - 1] && s[i] in b;
      }
    }
  }

  /** The perfect tree of a given depth around val. */
  function Perfect(val: int, depth: nat): (t: Tree)
    decreases depth
  {
    if depth == 0 then Bin(Nil, val, Nil)
    else
      var diff := Pow2(depth - 1);
      Bin(Perfect(val - diff, depth - 1), val, Perfect(val + diff, depth - 1))
  }

  lemma IntervalJoin(a: int, b: int, c: int)
    requires a <= b <= c
    ensures Interval(a, b - 1) + [b] + Interval(b + 1, c) == Interval(a, c)
  {
  }

  /** The tree built holds every key within 2^depth - 1 of its root, in order. */
  lemma {:induction false} PerfectKeys(val: int, depth: nat)
    ensures Keys(Perfect(val, depth)) == Interval(val - (Pow2(depth) - 1), val + (Pow2(depth) - 1))
    decreases depth
  {
    if depth == 0 {
      hide Interval;
      assert Keys(Nil) == [] && [] + [val] + [] == [val];
      OneKey(val);
    } else {
      hide Interval, Perfect, Pow2;
      var diff := Pow2(depth - 1);
      PerfectNode(val, depth);
      PerfectKeys(val - diff, depth - 1);
      PerfectKeys(val + diff, depth - 1);
      assert val - diff - (diff - 1) == val - (2 * diff - 1) && val - diff + (diff - 1) == val - 1;
      assert val + diff - (diff - 1) == val + 1 && val + diff + (diff - 1) == val + (2 * diff - 1);
      IntervalJoin(val - (2 * diff - 1), val, val + (2 * diff - 1));
    }
  }

  lemma OneKey(val: int)
    ensures Interval(val, val) == [val]
  {
  }

  lemma PerfectNode(val: int, depth: nat)
    requires depth > 0
    ensures Pow2(depth) == 2 * Pow2(depth - 1)
    ensures var diff := Pow2(depth - 1);
            Perfect(val, depth) == Bin(Perfect(val - diff, depth - 1), val, Perfect(val + diff, depth - 1))
  {
  }

  lemma {:induction false} PerfectOrdered(val: int, depth: nat)
    ensures Ordered(Perfect(val, depth), val - (Pow2(depth) - 1), val + (Pow2(depth) - 1))
    decreases depth
  {
    if depth > 0 {
      hide Perfect, Pow2;
      var diff := Pow2(depth - 1);
      PerfectNode(val, depth);
      var l, r := Perfect(val - diff, depth - 1), Perfect(val + diff, depth - 1);
      PerfectOrdered(val - diff, depth - 1);
      PerfectOrdered(val + diff, depth - 1);
      assert val - diff - (diff - 1) == val - (2 * diff - 1) && val - diff + (diff - 1) == val - 1;
      assert val + diff - (diff - 1) == val + 1 && val + diff + (diff - 1) == val + (2 * diff - 1);
      assert Ordered(l, val - (2 * diff - 1), val - 1) && Ordered(r, val + 1, val + (2 * diff - 1));
    }
  }

  // ---- Deleting a leaf ----

  /** The effect below the root: a key on a leaf is removed, any other changes nothing. */
  function Removed(t: Tree, key: int): Tree {
    if t.Nil? then t
    else if key == t.val then (if IsLeaf(t) then Nil else t)
    else if key > t.val then t.(right := Removed(t.right, key))
    else t.(left := Removed(t.left, key))
  }

  /** The effect of one call: the root itself stays. */
  function Pruned(t: Tree, key: int): Tree {
    if IsLeaf(t) then t else Removed(t, key)
  }

  /** A key that sits on a leaf. */
  predicate OnLeaf(t: Tree, key: int) {
    t.Bin? && ((IsLeaf(t) && t.val == key) || OnLeaf(t.left, key) || OnLeaf(t.right, key))
  }

  lemma {:induction false} OnLeafIsKey(t: Tree, lo: int, hi: int, key: int)
    requires Ordered(t, lo, hi) && OnLeaf(t, key)
    ensures lo <= key <= hi
  {
    if OnLeaf(t.left, key) {
      OnLeafIsKey(t.left, lo, t.val - 1, key);
    } else if OnLeaf(t.right, key) {
      OnLeafIsKey(t.right, t.val + 1, hi, key);
    }
  }

  /** s without the key. */
  function Without(s: seq<int>, key: int): seq<int> {
    if s == [] then [] else (if s[0] == key then [] else [s[0]]) + Without(s[1..], key)
  }

  lemma {:induction false} WithoutConcat(a: seq<int>, b: seq<int>, key: int)
    ensures Without(a + b, key) == Without(a, key) + Without(b, key)
    decreases |a|
  {
    if a == [] {
      assert a + b == b;
    } else {
      assert (a + b)[1..] == a[1..] + b;
      WithoutConcat(a[1..], b, key);
    }
  }

  lemma {:induction false} WithoutAbsent(s: seq<int>, key: int)
    requires key !in s
    ensures Without(s, key) == s
  {
    if s != [] {
      WithoutAbsent(s[1..], key);
    }
  }

  lemma {:induction false} RemovedOrdered(t: Tree, lo: int, hi: int, key: int)
    requires Ordered(t, lo, hi)
    ensures Ordered(Removed(t, key), lo, hi)
  {
    if t.Bin? {
      RemovedOrdered(t.left, lo, t.val - 1, key);
      RemovedOrdered(t.right, t.val + 1, hi, key);
    }
  }

  /** Search order finds a leaf's key. */
  lemma {:induction false} OnLeafSide(t: Tree, lo: int, hi: int, key: int)
    requires Ordered(t, lo, hi) && t.Bin?
    ensures OnLeaf(t, key) <==>
            if key == t.val then IsLeaf(t) else if key > t.val then OnLeaf(t.right, key) else OnLeaf(t.left, key)
  {
    LeafWithin(t.left, lo, t.val - 1, key);
    LeafWithin(t.right, t.val + 1, hi, key);
  }

  /** The keys on one side of a key, and the key itself. */
  lemma {:induction false} WithoutSide(t: Tree, lo: int, hi: int, key: int)
    requires Ordered(t, lo, hi) && t.Bin?
    ensures Without(Keys(t), key) ==
            if key == t.val then Keys(t.left) + Keys(t.right)
            else if key > t.val then Keys(t.left) + [t.val] + Without(Keys(t.right), key)
            else Without(Keys(t.left), key) + [t.val] + Keys(t.right)
  {
    var l, r := Keys(t.left), Keys(t.right);
    OrderedAscends(t.left, lo, t.val - 1);
    OrderedAscends(t.right, t.val + 1, hi);
    hide Keys, Ordered;
    WithoutConcat(l + [t.val], r, key);
    WithoutConcat(l, [t.val], key);
    WithoutOne(t.val, key);
    if key <= t.val {
      WithoutAbsent(r, key);
    }
    if key >= t.val {
      WithoutAbsent(l, key);
    }
    assert Keys(t) == l + [t.val] + r by { KeysOf(t); }
    assert l + [] == l;
  }

  lemma KeysOf(t: Tree)
    requires t.Bin?
    ensures Keys(t) == Keys(t.left) + [t.val] + Keys(t.right)
  {
  }

  /** Deleting keeps search order, and takes out the key exactly when it sits on a leaf. */
  lemma {:induction false} RemovedIs(t: Tree, lo: int, hi: int, key: int)
    requires Ordered(t, lo, hi)
    ensures Ordered(Removed(t, key), lo, hi)
    ensures Keys(Removed(t, key)) == if OnLeaf(t, key) then Without(Keys(t), key) else Keys(t)
    ensures !OnLeaf(t, key) ==> Removed(t, key) == t
    ensures OnLeaf(t, key) ==> |Keys(Removed(t, key))| == |Keys(t)| - 1
  {
    RemovedOrdered(t, lo, hi, key);
    if t.Bin? {
      OnLeafSide(t, lo, hi, key);
      WithoutSide(t, lo, hi, key);
      hide OnLeaf, Without;
      if key > t.val {
        RemovedIs(t.right, t.val + 1, hi, key);
      } else if key < t.val {
        RemovedIs(t.left, lo, t.val - 1, key);
      }
    }
  }

  lemma WithoutOne(v: int, key: int)
    ensures Without([v], key) == if v == key then [] else [v]
  {
    assert [v][1..] == [];
  }

  lemma LeafWithin(t: Tree, lo: int, hi: int, key: int)
    requires Ordered(t, lo, hi)
    ensures OnLeaf(t, key) ==> lo <= key <= hi
  {
    if OnLeaf(t, key) {
      OnLeafIsKey(t, lo, hi, key);
    }
  }

  /** A key on a leaf. */
  function SomeLeaf(t: Tree): (key: int)
    requires t.Bin?
    ensures OnLeaf(t, key)
  {
    if IsLeaf(t) then t.val else if t.left.Bin? then SomeLeaf(t.left) else SomeLeaf(t.right)
  }

  /** While the root has a child, some key of the drawing range takes a node away. */
  lemma SomeKeyMakesProgress(t: Tree, lo: int, hi: int) returns (key: int)
    requires Ordered(t, lo, hi) && t.Bin? && !IsLeaf(t)
    ensures lo <= key <= hi && |Keys(Pruned(t, key))| == |Keys(t)| - 1
  {
    key := SomeLeaf(t);
    OnLeafIsKey(t, lo, hi, key);
    RemovedIs(t, lo, hi, key);
  }

  // ---- The linked tree ----

  class Node {
    var left: Node?
    var right: Node?
    var val: int
    var parent: Node?
    ghost var repr: set<Node>
    ghost var tree: Tree

    /** The nodes below are distinct, each child points back, and tree is what they hold. */
    ghost predicate Valid()
      reads this, repr
      decreases repr
    {
      this in repr && tree.Bin? && tree.val == val &&
      (if left == null then tree.left == Nil else
        left in repr && left.repr <= repr - {this} && left.Valid() && left.parent == this && left.tree == tree.left) &&
      (if right == null then tree.right == Nil else
        right in repr && right.repr <= repr - {this} && right.Valid() && right.parent == this &&
        right.tree == tree.right) &&
      (left != null && right != null ==> left.repr !! right.repr)
    }

    constructor (val: int, parent: Node?)
      ensures Valid() && this.val == val && this.parent == parent && left == null && right == null
      ensures tree == Bin(Nil, val, Nil) && repr == {this}
    {
      this.val, this.parent, left, right := val, parent, null, null;
      tree, repr := Bin(Nil, val, Nil), {this};
    }

    predicate IsLeafNode()
      reads this
    {
      left == null && right == null
    }
  }

  // ---- Building ----

  /** C's remainder of division by 2. */
  function CRem2(x: int): int {
    if x >= 0 then x % 2 else -((-x) % 2)
  }

  /** Every assert of `build_tree` and of the calls it makes. */
  predicate AssertsHold(val: int, depth: nat)
    decreases depth
  {
    val % Pow2(depth) == 0 &&
    if depth == 0 then CRem2(val) == 1
    else
      var diff := Pow2(depth - 1);
      AssertsHold(val - diff, depth - 1) && AssertsHold(val + diff, depth - 1)
  }

  /** The asserts hold exactly for a multiple of 2^depth that leaves every leaf positive,
      and odd when it is a leaf itself. */
  lemma {:induction false} AssertsHoldIff(val: int, depth: nat)
    ensures AssertsHold(val, depth) <==>
            val % Pow2(depth) == 0 && val >= Pow2(depth) && (depth == 0 ==> val % 2 == 1)
    decreases depth
  {
    if depth > 0 && val % Pow2(depth) == 0 {
      var diff := Pow2(depth - 1);
      Halves(val, depth);
      AssertsHoldIff(val - diff, depth - 1);
      AssertsHoldIff(val + diff, depth - 1);
      if depth == 1 {
        assert Pow2(0) == 1 && Pow2(1) == 2;
      }
    }
  }

  /** The children of a multiple of 2^depth are multiples of half of that. */
  lemma Halves(val: int, depth: nat)
    requires depth > 0 && val % Pow2(depth) == 0
    ensures var diff := Pow2(depth - 1); (val - diff) % diff == 0 && (val + diff) % diff == 0
  {
    var diff := Pow2(depth - 1);
    var q := val / Pow2(depth);
    assert val == q * (2 * diff) by { assert Pow2(depth) == 2 * diff; }
    assert val - diff == (2 * q - 1) * diff;
    assert val + diff == (2 * q + 1) * diff;
    MultipleOf(2 * q - 1, diff);
    MultipleOf(2 * q + 1, diff);
  }

  /** `build_tree`. */
  method BuildTree(val: int, depth: nat, parent: Node?) returns (root: Node)
    requires AssertsHold(val, depth)
    ensures root.Valid() && fresh(root.repr) && root.parent == parent && root.tree == Perfect(val, depth)
    decreases depth
  {
    root := new Node(val, parent);
    if depth > 0 {
      PerfectNode(val, depth);
      hide Perfect, Pow2;
      var diff := Pow2(depth - 1);
      var l := BuildTree(val - diff, depth - 1, root);
      var r := BuildTree(val + diff, depth - 1, root);
      root.left, root.right := l, r;
      Refresh(root);
    }
  }

  // ---- Deleting in place ----

  /** A node's parent link: null, or a node outside its subtree with it as one child. */
  ghost predicate Linked(root: Node)
    reads root, root.parent
  {
    root.parent == null ||
    (root.parent !in root.repr && root.parent.left != root.parent.right &&
     (root.parent.left == root || root.parent.right == root))
  }

  /** `delete_if_leaf`: unlinks the root from its parent when it is the leaf with the key;
      otherwise the subtree becomes what the specification says. */
  method DeleteIfLeaf(root: Node?, key: int)
    requires root != null ==> root.Valid() && Linked(root)
    modifies if root == null then {} else root.repr + (if root.parent == null then {} else {root.parent})
    ensures root != null && old(root.parent) != null ==>
              var p := old(root.parent);
              p.tree == old(root.parent.tree) && p.repr == old(root.parent.repr) && p.val == old(root.parent.val) &&
              p.parent == old(root.parent.parent) &&
              var gone := IsLeaf(old(root.tree)) && old(root.val) == key;
              p.left == (if gone && old(root.parent.left) == root then null else old(root.parent.left)) &&
              p.right == (if gone && old(root.parent.left) != root then null else old(root.parent.right))
    ensures root != null ==>
              root.Valid() && root.repr <= old(root.repr) && root.parent == old(root.parent) &&
              root.tree == Pruned(old(root.tree), key)
    decreases if root == null then {} else root.repr
  {
    hide Removed, Pruned;
    if root == null {
      return;
    }
    if key == root.val || IsLeaf(root.tree) {
      PrunedHere(root.tree, key);
    }
    if key == root.val {
      if root.IsLeafNode() {
        if root.parent == null {
          return;
        }
        if root == root.parent.left {
          root.parent.left := null;
        } else {
          root.parent.right := null;
        }
      }
    } else if key > root.val {
      PrunedRight(root.tree, key);
      DeleteIfLeaf(root.right, key);
      Refresh(root);
    } else {
      PrunedLeft(root.tree, key);
      DeleteIfLeaf(root.left, key);
      Refresh(root);
    }
  }

  lemma PrunedHere(t: Tree, key: int)
    requires t.Bin? && (key == t.val || IsLeaf(t))
    ensures Pruned(t, key) == t
  {
  }

  /** Below a child, pruning and unlinking together are the specification's removal. */
  lemma PrunedRight(t: Tree, key: int)
    requires t.Bin? && key > t.val
    ensures Pruned(t, key) ==
            Bin(t.left, t.val,
                if t.right.Nil? || (IsLeaf(t.right) && t.right.val == key) then Nil else Pruned(t.right, key))
  {
    LeafStays(t.right, key);
  }

  lemma PrunedLeft(t: Tree, key: int)
    requires t.Bin? && key < t.val
    ensures Pruned(t, key) ==
            Bin(if t.left.Nil? || (IsLeaf(t.left) && t.left.val == key) then Nil else Pruned(t.left, key),
                t.val, t.right)
  {
    LeafStays(t.left, key);
  }

  lemma LeafStays(t: Tree, key: int)
    ensures IsLeaf(t) && t.val != key ==> Removed(t, key) == t
    ensures IsLeaf(t) && t.val == key ==> Removed(t, key) == Nil
    ensures Removed(Nil, key) == Nil
  {
  }

  /** Brings a node's record of its subtree up to date with its children. */
  ghost method Refresh(n: Node)
    requires n.left != null ==> n.left.Valid() && n.left.parent == n && n !in n.left.repr
    requires n.right != null ==> n.right.Valid() && n.right.parent == n && n !in n.right.repr
    requires n.left != null && n.right != null ==> n.left.repr !! n.right.repr
    modifies n`tree, n`repr
    ensures n.Valid()
    ensures n.tree == Bin(if n.left == null then Nil else n.left.tree, n.val,
                          if n.right == null then Nil else n.right.tree)
    ensures n.repr == {n} + (if n.left == null then {} else n.left.repr) +
                      (if n.right == null then {} else n.right.repr)
  {
    n.tree := Bin(if n.left == null then Nil else n.left.tree, n.val, if n.right == null then Nil else n.right.tree);
    n.repr := {n} + (if n.left == null then {} else n.left.repr) + (if n.right == null then {} else n.right.repr);
  }

  // ---- The benchmark loop ----

  /** The tree after deleting keys in turn, stopping when only the root is left. */
  function After(t: Tree, keys: seq<int>): Tree
    decreases |keys|
  {
    if keys == [] || IsLeaf(t) then t else After(Pruned(t, keys[0]), keys[1..])
  }

  /** Any run of deletions keeps search order and the root. */
  lemma {:induction false} AfterKeeps(t: Tree, keys: seq<int>, lo: int, hi: int)
    requires Ordered(t, lo, hi) && t.Bin?
    ensures Ordered(After(t, keys), lo, hi) && After(t, keys).Bin? && After(t, keys).val == t.val
    ensures forall k :: k in Keys(After(t, keys)) ==> k in Keys(t)
    decreases |keys|
  {
    if keys != [] && !IsLeaf(t) {
      RemovedIs(t, lo, hi, keys[0]);
      WithoutWithin(Keys(t), keys[0]);
      AfterKeeps(Pruned(t, keys[0]), keys[1..], lo, hi);
    }
  }

  lemma {:induction false} WithoutWithin(s: seq<int>, key: int)
    ensures forall k :: k in Without(s, key) ==> k in s && k != key
  {
    if s != [] {
      WithoutWithin(s[1..], key);
    }
  }

  lemma {:induction false} AfterSnoc(t: Tree, keys: seq<int>, key: int)
    requires !IsLeaf(After(t, keys))
    ensures After(t, keys + [key]) == Pruned(After(t, keys), key)
    decreases |keys|
  {
    if keys == [] {
      assert [key][1..] == [];
    } else {
      assert (keys + [key])[1..] == keys[1..] + [key];
      AfterSnoc(Pruned(t, keys[0]), keys[1..], key);
    }
  }

  lemma PerfectAsserts(depth: nat)
    ensures AssertsHold(Pow2(depth), depth)
  {
    AssertsHoldIff(Pow2(depth), depth);
    assert depth == 0 ==> Pow2(depth) == 1;
  }

  /** `do_stuff` on the keys drawn: it stops as soon as the root is a leaf, and steps is the
      number of keys used by then. */
  method DoStuff(depth: nat, drawn: seq<int>) returns (root: Node, steps: nat)
    ensures root.Valid() && root.parent == null && steps <= |drawn|
    ensures root.tree == After(Perfect(Pow2(depth), depth), drawn[..steps])
    ensures IsLeaf(root.tree) || steps == |drawn|
    ensures forall j :: 0 <= j < steps ==> !IsLeaf(After(Perfect(Pow2(depth), depth), drawn[..j]))
  {
    hide After, Pruned, Perfect, AssertsHold, Pow2;
    PerfectAsserts(depth);
    root := BuildTree(Pow2(depth), depth, null);
    steps := 0;
    NoneDrawn(root.tree, drawn);
    while !root.IsLeafNode() && steps < |drawn|
      invariant root.Valid() && root.parent == null && fresh(root.repr) && steps <= |drawn|
      invariant root.tree == After(Perfect(Pow2(depth), depth), drawn[..steps])
      invariant forall j :: 0 <= j < steps ==> !IsLeaf(After(Perfect(Pow2(depth), depth), drawn[..j]))
    {
      AfterSnoc(Perfect(Pow2(depth), depth), drawn[..steps], drawn[steps]);
      assert drawn[..steps + 1] == drawn[..steps] + [drawn[steps]];
      DeleteIfLeaf(root, drawn[steps]);
      steps := steps + 1;
    }
  }

  lemma NoneDrawn(t: Tree, drawn: seq<int>)
    ensures After(t, drawn[..0]) == t
  {
  }

  /** While the loop runs, some key of its drawing range 1..2^(depth+1)-1 makes progress. */
  lemma LoopCanProgress(depth: nat, drawn: seq<int>) returns (key: int)
    requires var t := After(Perfect(Pow2(depth), depth), drawn); !IsLeaf(t)
    ensures var t := After(Perfect(Pow2(depth), depth), drawn);
            1 <= key <= Pow2(depth + 1) - 1 && |Keys(Pruned(t, key))| == |Keys(t)| - 1
  {
    var t := Perfect(Pow2(depth), depth);
    PerfectOrdered(Pow2(depth), depth);
    AfterKeeps(t, drawn, 1, Pow2(depth + 1) - 1);
    key := SomeKeyMakesProgress(After(t, drawn), 1, Pow2(depth + 1) - 1);
  }
}
