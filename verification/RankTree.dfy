/** The rank heap as a value: a binary tree with cached sizes, kept ordered top-down only. */
module RankTree {
  datatype Option<+T> = None | Some(value: T)

  datatype Tree<T> = Leaf | Node(size: int, data: T, left: Tree<T>, right: Tree<T>)

  /** Positive when the first object ranks higher, negative when it ranks lower. */
  type Ranks<!T> = (T, T) -> int

  /** The contract of `ranks`: consistent signs, and never-outranked is transitive. */
  ghost predicate TotalPreorder<T(!new)>(ranks: Ranks<T>) {
    && (forall a, b :: ranks(a, b) > 0 <==> ranks(b, a) < 0)
    && (forall a, b, c :: ranks(a, b) >= 0 && ranks(b, c) >= 0 ==> ranks(a, c) >= 0)
  }

  function Cached<T>(t: Tree<T>): int {
    if t.Leaf? then 0 else t.size
  }

  function Single<T>(x: T): Tree<T> {
    Node(1, x, Leaf, Leaf)
  }

  ghost function Count<T>(t: Tree<T>): nat {
    if t.Leaf? then 0 else 1 + Count(t.left) + Count(t.right)
  }

  ghost function Elements<T>(t: Tree<T>): multiset<T> {
    if t.Leaf? then multiset{} else multiset{t.data} + Elements(t.left) + Elements(t.right)
  }

  ghost function Height<T>(t: Tree<T>): nat {
    if t.Leaf? then 0
    else 1 + Max(Height(t.left), Height(t.right))
  }

  ghost predicate Sized<T>(t: Tree<T>) {
    t.Node? ==> t.size == 1 + Cached(t.left) + Cached(t.right) && Sized(t.left) && Sized(t.right)
  }

  /** No child of `t` outranks `x`. */
  ghost predicate Below<T>(ranks: Ranks<T>, x: T, t: Tree<T>) {
    t.Node? ==> !(ranks(t.data, x) > 0)
  }

  ghost predicate Ordered<T>(ranks: Ranks<T>, t: Tree<T>) {
    t.Node? ==>
      && Below(ranks, t.data, t.left) && Below(ranks, t.data, t.right)
      && Ordered(ranks, t.left) && Ordered(ranks, t.right)
  }

  ghost predicate Heap<T>(ranks: Ranks<T>, t: Tree<T>) {
    Sized(t) && Ordered(ranks, t)
  }

  // ---------- the operations ----------

  function Push<T>(ranks: Ranks<T>, t: Tree<T>, x: T): Tree<T>
    requires t.Node?
  {
    var swap := ranks(x, t.data) > 0;
    var (top, low) := if swap then (x, t.data) else (t.data, x);
    if t.left.Leaf? then Node(t.size + 1, top, Single(low), t.right)
    else if t.right.Leaf? then Node(t.size + 1, top, t.left, Single(low))
    else if t.left.size <= t.right.size then Node(t.size + 1, top, Push(ranks, t.left, low), t.right)
    else Node(t.size + 1, top, t.left, Push(ranks, t.right, low))
  }

  /** The child whose data replaces that of a popped root. */
  predicate TakesLeft<T>(ranks: Ranks<T>, t: Tree<T>)
    requires t.Node? && (t.left.Node? || t.right.Node?)
  {
    t.left.Node? && (t.right.Leaf? || ranks(t.left.data, t.right.data) > 0)
  }

  /** What is left after the root's data has been swapped down to a leaf and that leaf cut off. */
  function Pop<T>(ranks: Ranks<T>, t: Tree<T>): Tree<T>
    requires t.Node?
  {
    if t.left.Leaf? && t.right.Leaf? then Leaf
    else if TakesLeft(ranks, t) then Node(t.size - 1, t.left.data, Pop(ranks, t.left), t.right)
    else Node(t.size - 1, t.right.data, t.left, Pop(ranks, t.right))
  }

  /** Pruned search for one object; the flag says whether it was taken out. */
  function Remove<T(==)>(ranks: Ranks<T>, t: Tree<T>, x: T): (bool, Tree<T>)
    requires t.Node?
  {
    if x == t.data then (true, Pop(ranks, t))
    else if ranks(x, t.data) > 0 then (false, t)
    else
      var (inLeft, l) := if t.left.Node? then Remove(ranks, t.left, x) else (false, t.left);
      if inLeft then (true, Node(t.size - 1, t.data, l, t.right)) else
      var (inRight, r) := if t.right.Node? then Remove(ranks, t.right, x) else (false, t.right);
      if inRight then (true, Node(t.size - 1, t.data, t.left, r)) else (false, t)
  }

  /** The self-check: cached sizes add up and no child outranks its parent. */
  predicate CheckNodes<T>(ranks: Ranks<T>, t: Tree<T>)
    requires t.Node?
  {
    && (t.left.Node? ==> !(ranks(t.left.data, t.data) > 0) && CheckNodes(ranks, t.left))
    && (t.right.Node? ==> !(ranks(t.right.data, t.data) > 0) && CheckNodes(ranks, t.right))
    && t.size - Cached(t.left) - Cached(t.right) == 1
  }

  // ---------- order ----------

  lemma {:induction false} CheckNodesIsHeap<T>(ranks: Ranks<T>, t: Tree<T>)
    requires t.Node?
    ensures CheckNodes(ranks, t) <==> Heap(ranks, t)
  {
    if t.left.Node? {
      CheckNodesIsHeap(ranks, t.left);
    }
    if t.right.Node? {
      CheckNodesIsHeap(ranks, t.right);
    }
    assert Heap(ranks, t.left) <==> t.left.Node? ==> CheckNodes(ranks, t.left);
    assert Heap(ranks, t.right) <==> t.right.Node? ==> CheckNodes(ranks, t.right);
  }

  lemma {:induction false} CachedIsCount<T>(t: Tree<T>)
    requires Sized(t)
    ensures Cached(t) == Count(t) == |Elements(t)|
  {
    if t.Node? {
      CachedIsCount(t.left);
      CachedIsCount(t.right);
    }
  }

  /** Nothing in an ordered tree outranks its root. */
  lemma {:induction false} RootRanksHighest<T(!new)>(ranks: Ranks<T>, t: Tree<T>, x: T)
    requires TotalPreorder(ranks) && Ordered(ranks, t) && x in Elements(t)
    ensures ranks(t.data, x) >= 0
  {
    assert ranks(x, x) > 0 <==> ranks(x, x) < 0;
    if x == t.data {
    } else if x in Elements(t.left) {
      RootRanksHighest(ranks, t.left, x);
    } else {
      RootRanksHighest(ranks, t.right, x);
    }
  }

  lemma RootIsElement<T>(t: Tree<T>)
    requires t.Node?
    ensures t.data in Elements(t)
  {
  }

  // ---------- push ----------

  /** Where the lower of the two data goes, among the subtrees of a node. */
  function Placed<T>(ranks: Ranks<T>, l: Tree<T>, r: Tree<T>, low: T): (Tree<T>, Tree<T>) {
    if l.Leaf? then (Single(low), r)
    else if r.Leaf? then (l, Single(low))
    else if l.size <= r.size then (Push(ranks, l, low), r)
    else (l, Push(ranks, r, low))
  }

  /** One step of a push: the root's new data, and the subtree the lower of the two goes to. */
  lemma PushUnfolds<T>(ranks: Ranks<T>, t: Tree<T>, x: T) returns (top: T, low: T)
    requires t.Node?
    ensures if ranks(x, t.data) > 0 then top == x && low == t.data else top == t.data && low == x
    ensures Push(ranks, t, x)
         == Node(t.size + 1, top, Placed(ranks, t.left, t.right, low).0, Placed(ranks, t.left, t.right, low).1)
  {
    top, low := if ranks(x, t.data) > 0 then x else t.data, if ranks(x, t.data) > 0 then t.data else x;
  }

  lemma {:induction false} PushElements<T>(ranks: Ranks<T>, t: Tree<T>, x: T)
    requires t.Node?
    ensures Elements(Push(ranks, t, x)) == Elements(t) + multiset{x}
    decreases t, 1
  {
    hide Push, Placed;
    var top, low := PushUnfolds(ranks, t, x);
    PlacedElements(ranks, t, low);
    var (l, r) := Placed(ranks, t.left, t.right, low);
    Regroup(top, low, t.data, x, Elements(l), Elements(r), Elements(t.left), Elements(t.right));
  }

  lemma Regroup<T>(a: T, b: T, c: T, d: T, l: multiset<T>, r: multiset<T>, l': multiset<T>, r': multiset<T>)
    requires l + r == l' + r' + multiset{b} && multiset{a} + multiset{b} == multiset{c} + multiset{d}
    ensures multiset{a} + l + r == multiset{c} + l' + r' + multiset{d}
  {
    calc {
      multiset{a} + l + r;
      multiset{a} + (l + r);
      multiset{a} + (l' + r' + multiset{b});
      multiset{a} + multiset{b} + (l' + r');
      multiset{c} + multiset{d} + (l' + r');
      multiset{c} + l' + r' + multiset{d};
    }
  }

  lemma {:induction false} PlacedElements<T>(ranks: Ranks<T>, t: Tree<T>, low: T)
    requires t.Node?
    ensures var (l, r) := Placed(ranks, t.left, t.right, low);
      Elements(l) + Elements(r) == Elements(t.left) + Elements(t.right) + multiset{low}
    decreases t, 0
  {
    hide Push, Elements;
    SmallElements(low);
    if t.left.Node? && t.right.Node? {
      if t.left.size <= t.right.size {
        PushElements(ranks, t.left, low);
      } else {
        PushElements(ranks, t.right, low);
      }
    }
  }

  lemma SmallElements<T>(x: T)
    ensures Elements<T>(Leaf) == multiset{} && Elements(Single(x)) == multiset{x}
  {
  }

  lemma {:induction false} PushSized<T>(ranks: Ranks<T>, t: Tree<T>, x: T)
    requires t.Node? && Sized(t)
    ensures Sized(Push(ranks, t, x)) && Push(ranks, t, x).Node? && Push(ranks, t, x).size == t.size + 1
  {
    var low := if ranks(x, t.data) > 0 then t.data else x;
    if t.left.Node? && t.right.Node? {
      if t.left.size <= t.right.size {
        PushSized(ranks, t.left, low);
      } else {
        PushSized(ranks, t.right, low);
      }
    }
  }

  /** A push below `p` stays below `p`, and in order. */
  lemma {:induction false} PushOrdered<T(!new)>(ranks: Ranks<T>, t: Tree<T>, x: T, p: T)
    requires TotalPreorder(ranks) && t.Node? && Ordered(ranks, t)
    ensures Ordered(ranks, Push(ranks, t, x))
    ensures Below(ranks, p, t) && !(ranks(x, p) > 0) ==> Below(ranks, p, Push(ranks, t, x))
  {
    NotOutranked(ranks, x, t.data);
    BelowTransitive(ranks, x, t.data, t.left);
    BelowTransitive(ranks, x, t.data, t.right);
    hide TotalPreorder, Push;
    var top, low := PushUnfolds(ranks, t, x);
    if t.left.Node? && t.right.Node? {
      if t.left.size <= t.right.size {
        PushOrdered(ranks, t.left, low, top);
      } else {
        PushOrdered(ranks, t.right, low, top);
      }
    }
  }

  lemma NotOutranked<T(!new)>(ranks: Ranks<T>, a: T, b: T)
    requires TotalPreorder(ranks)
    ensures ranks(a, b) > 0 ==> !(ranks(b, a) > 0)
  {
  }

  /** Push adds exactly one element and keeps the heap. */
  lemma PushKeepsHeap<T(!new)>(ranks: Ranks<T>, t: Tree<T>, x: T)
    requires TotalPreorder(ranks) && t.Node? && Heap(ranks, t)
    ensures var r := Push(ranks, t, x);
      && r.Node? && Heap(ranks, r) && r.size == t.size + 1
      && Elements(r) == Elements(t) + multiset{x}
  {
    PushElements(ranks, t, x);
    PushSized(ranks, t, x);
    PushOrdered(ranks, t, x, x);
  }

  /** The four-way choice of a subtree is: left exactly when it is not the larger one. */
  lemma PushSide<T>(ranks: Ranks<T>, t: Tree<T>, low: T)
    requires t.Node? && Sized(t)
    ensures var (l, r) := Placed(ranks, t.left, t.right, low);
      if Cached(t.left) <= Cached(t.right)
      then r == t.right && Sized(l) && Cached(l) == Cached(t.left) + 1
      else l == t.left && Sized(r) && Cached(r) == Cached(t.right) + 1
  {
    CachedIsCount(t.left);
    CachedIsCount(t.right);
    if t.left.Node? && t.right.Node? {
      PushSized(ranks, t.left, low);
      PushSized(ranks, t.right, low);
    }
  }

  // ---------- pop ----------

  /** One step of a pop; the data at the root of a child does not matter to what popping it leaves. */
  lemma PopUnfolds<T>(ranks: Ranks<T>, t: Tree<T>, x: T)
    requires t.Node?
    ensures Pop(ranks, t)
         == if t.left.Leaf? && t.right.Leaf? then Leaf
            else if TakesLeft(ranks, t) then Node(t.size - 1, t.left.data, Pop(ranks, t.left.(data := x)), t.right)
            else Node(t.size - 1, t.right.data, t.left, Pop(ranks, t.right.(data := x)))
  {
  }

  lemma PopForgets<T>(ranks: Ranks<T>, t: Tree<T>)
    requires t.Node?
    ensures t.left.Node? ==> Pop(ranks, t.left.(data := t.data)) == Pop(ranks, t.left)
    ensures t.right.Node? ==> Pop(ranks, t.right.(data := t.data)) == Pop(ranks, t.right)
  {
  }

  lemma {:induction false} PopElements<T>(ranks: Ranks<T>, t: Tree<T>)
    requires t.Node?
    ensures Elements(t) == Elements(Pop(ranks, t)) + multiset{t.data}
  {
    PopUnfolds(ranks, t, t.data);
    PopForgets(ranks, t);
    hide Pop;
    if t.left.Node? || t.right.Node? {
      if TakesLeft(ranks, t) {
        PopElements(ranks, t.left);
      } else {
        PopElements(ranks, t.right);
      }
    }
  }

  lemma {:induction false} PopSized<T>(ranks: Ranks<T>, t: Tree<T>)
    requires t.Node? && Sized(t)
    ensures Sized(Pop(ranks, t)) && Cached(Pop(ranks, t)) == t.size - 1
  {
    if t.left.Node? || t.right.Node? {
      if TakesLeft(ranks, t) {
        PopSized(ranks, t.left);
      } else {
        PopSized(ranks, t.right);
      }
    }
  }

  lemma {:induction false} PopHeight<T>(ranks: Ranks<T>, t: Tree<T>)
    requires t.Node?
    ensures Height(Pop(ranks, t)) <= Height(t)
  {
    if t.left.Node? || t.right.Node? {
      if TakesLeft(ranks, t) {
        PopHeight(ranks, t.left);
      } else {
        PopHeight(ranks, t.right);
      }
    }
  }

  /** Only the subtrees have to be in order: the data at the root is never looked at. */
  lemma {:induction false} PopOrdered<T(!new)>(ranks: Ranks<T>, t: Tree<T>)
    requires TotalPreorder(ranks) && t.Node? && Ordered(ranks, t.left) && Ordered(ranks, t.right)
    ensures Ordered(ranks, Pop(ranks, t))
  {
    if t.left.Node? || t.right.Node? {
      if TakesLeft(ranks, t) {
        PopOrdered(ranks, t.left);
        PoppedBelow(ranks, t.left);
        if t.right.Node? {
          NotOutranked(ranks, t.left.data, t.right.data);
        }
      } else {
        PopOrdered(ranks, t.right);
        PoppedBelow(ranks, t.right);
      }
    }
  }

  /** What takes over a popped root never outranks it. */
  lemma PoppedBelow<T>(ranks: Ranks<T>, t: Tree<T>)
    requires t.Node? && Ordered(ranks, t)
    ensures Below(ranks, t.data, Pop(ranks, t))
  {
  }

  /** Whose data replaces that of a popped root, and which subtree loses a node: the only child, or the left one
      exactly when it outranks the right one. */
  lemma PopSide<T>(ranks: Ranks<T>, t: Tree<T>)
    requires t.Node? && (t.left.Node? || t.right.Node?)
    ensures var r := Pop(ranks, t);
      r.Node? && r.size == t.size - 1 &&
      if t.right.Leaf? || (t.left.Node? && ranks(t.left.data, t.right.data) > 0)
      then r.data == t.left.data && r.left == Pop(ranks, t.left) && r.right == t.right
      else r.data == t.right.data && r.left == t.left && r.right == Pop(ranks, t.right)
  {
  }

  /** Pop takes out exactly the root's element, in any tree whose subtrees are in order. */
  lemma PopKeepsHeap<T(!new)>(ranks: Ranks<T>, t: Tree<T>)
    requires TotalPreorder(ranks) && t.Node? && Sized(t) && Ordered(ranks, t.left) && Ordered(ranks, t.right)
    ensures var r := Pop(ranks, t);
      && Heap(ranks, r) && Cached(r) == t.size - 1
      && Elements(t) == Elements(r) + multiset{t.data}
      && Height(r) <= Height(t)
  {
    PopElements(ranks, t);
    PopSized(ranks, t);
    PopHeight(ranks, t);
    PopOrdered(ranks, t);
  }

  // ---------- remove ----------

  /** One step of the search below the root. */
  lemma RemoveUnfolds<T>(ranks: Ranks<T>, t: Tree<T>, x: T) returns (l: (bool, Tree<T>), r: (bool, Tree<T>))
    requires t.Node? && x != t.data && !(ranks(x, t.data) > 0)
    ensures l == if t.left.Node? then Remove(ranks, t.left, x) else (false, t.left)
    ensures r == if t.right.Node? then Remove(ranks, t.right, x) else (false, t.right)
    ensures Remove(ranks, t, x)
         == if l.0 then (true, Node(t.size - 1, t.data, l.1, t.right))
            else if r.0 then (true, Node(t.size - 1, t.data, t.left, r.1))
            else (false, t)
  {
    l := if t.left.Node? then Remove(ranks, t.left, x) else (false, t.left);
    r := if t.right.Node? then Remove(ranks, t.right, x) else (false, t.right);
  }

  /** The search among the subtrees of a node: the right one only when the left one does not have it. */
  function RemovedBelow<T(==)>(ranks: Ranks<T>, l: Tree<T>, r: Tree<T>, x: T): (bool, Tree<T>, Tree<T>) {
    var (inLeft, l') := if l.Node? then Remove(ranks, l, x) else (false, l);
    if inLeft then (true, l', r) else
    var (inRight, r') := if r.Node? then Remove(ranks, r, x) else (false, r);
    (inRight, l', r')
  }

  lemma RemoveSearchesBelow<T>(ranks: Ranks<T>, t: Tree<T>, x: T)
    requires t.Node? && x != t.data && !(ranks(x, t.data) > 0)
    ensures var (found, l, r) := RemovedBelow(ranks, t.left, t.right, x);
      Remove(ranks, t, x) == (found, Node(if found then t.size - 1 else t.size, t.data, l, r))
  {
  }

  /** The object is found exactly when the tree holds it. */
  lemma {:induction false} RemoveFinds<T(!new)>(ranks: Ranks<T>, t: Tree<T>, x: T)
    requires TotalPreorder(ranks) && t.Node? && Ordered(ranks, t)
    ensures Remove(ranks, t, x).0 <==> x in Elements(t)
  {
    if x == t.data {
    } else if ranks(x, t.data) > 0 {
      Contrary(ranks, t.data, x);
      if x in Elements(t) {
        RootRanksHighest(ranks, t, x);
      }
    } else {
      hide TotalPreorder, Remove;
      var l, r := RemoveUnfolds(ranks, t, x);
      if t.left.Node? {
        RemoveFinds(ranks, t.left, x);
      }
      if t.right.Node? {
        RemoveFinds(ranks, t.right, x);
      }
    }
  }

  /** Whatever the order, a successful removal takes out one occurrence and an unsuccessful one nothing. */
  lemma {:induction false} RemoveElements<T>(ranks: Ranks<T>, t: Tree<T>, x: T)
    requires t.Node?
    ensures var (found, r) := Remove(ranks, t, x);
      if found then Elements(t) == Elements(r) + multiset{x} else r == t
  {
    if x == t.data {
      PopElements(ranks, t);
    } else if !(ranks(x, t.data) > 0) {
      hide Remove;
      var l, r := RemoveUnfolds(ranks, t, x);
      if t.left.Node? {
        RemoveElements(ranks, t.left, x);
      }
      if t.right.Node? {
        RemoveElements(ranks, t.right, x);
      }
    }
  }

  lemma {:induction false} RemoveHeight<T>(ranks: Ranks<T>, t: Tree<T>, x: T)
    requires t.Node?
    ensures Height(Remove(ranks, t, x).1) <= Height(t)
  {
    if x == t.data {
      PopHeight(ranks, t);
    } else if !(ranks(x, t.data) > 0) {
      hide Remove;
      var l, r := RemoveUnfolds(ranks, t, x);
      if t.left.Node? {
        RemoveHeight(ranks, t.left, x);
      }
      if t.right.Node? {
        RemoveHeight(ranks, t.right, x);
      }
    }
  }

  lemma {:induction false} RemoveSized<T>(ranks: Ranks<T>, t: Tree<T>, x: T)
    requires t.Node? && Sized(t)
    ensures var (found, r) := Remove(ranks, t, x);
      Sized(r) && Cached(r) == if found then t.size - 1 else t.size
  {
    if x == t.data {
      PopSized(ranks, t);
    } else if !(ranks(x, t.data) > 0) {
      hide Remove;
      var l, r := RemoveUnfolds(ranks, t, x);
      if t.left.Node? {
        RemoveSized(ranks, t.left, x);
      }
      if t.right.Node? {
        RemoveSized(ranks, t.right, x);
      }
    }
  }

  lemma {:induction false} RemoveOrdered<T(!new)>(ranks: Ranks<T>, t: Tree<T>, x: T, p: T)
    requires TotalPreorder(ranks) && t.Node? && Ordered(ranks, t)
    ensures Ordered(ranks, Remove(ranks, t, x).1)
    ensures Below(ranks, p, t) ==> Below(ranks, p, Remove(ranks, t, x).1)
  {
    if x == t.data {
      PopOrdered(ranks, t);
      PoppedBelow(ranks, t);
      BelowTransitive(ranks, p, t.data, Pop(ranks, t));
    } else if !(ranks(x, t.data) > 0) {
      hide TotalPreorder, Remove;
      var l, r := RemoveUnfolds(ranks, t, x);
      if t.left.Node? {
        RemoveOrdered(ranks, t.left, x, t.data);
      }
      if t.right.Node? {
        RemoveOrdered(ranks, t.right, x, t.data);
      }
    }
  }

  /** The pruned search is exact: it finds the object exactly when the tree holds it,
      takes out one occurrence and keeps order and sizes; otherwise it changes nothing. */
  lemma RemoveIsExact<T(!new)>(ranks: Ranks<T>, t: Tree<T>, x: T)
    requires TotalPreorder(ranks) && t.Node? && Heap(ranks, t)
    ensures var (found, r) := Remove(ranks, t, x);
      && (found <==> x in Elements(t))
      && Heap(ranks, r)
      && (found ==> Elements(t) == Elements(r) + multiset{x} && Cached(r) == t.size - 1)
      && (!found ==> r == t)
      && Height(r) <= Height(t)
  {
    RemoveFinds(ranks, t, x);
    RemoveElements(ranks, t, x);
    RemoveHeight(ranks, t, x);
    RemoveSized(ranks, t, x);
    RemoveOrdered(ranks, t, x, t.data);
  }

  lemma Contrary<T(!new)>(ranks: Ranks<T>, a: T, b: T)
    requires TotalPreorder(ranks)
    ensures ranks(b, a) > 0 <==> ranks(a, b) < 0
  {
  }

  lemma BelowTransitive<T(!new)>(ranks: Ranks<T>, x: T, y: T, t: Tree<T>)
    requires TotalPreorder(ranks)
    ensures !(ranks(y, x) > 0) && Below(ranks, y, t) ==> Below(ranks, x, t)
  {
  }

  /** Without order the pruning misses objects: here 3 sits below 1 and is never looked for. */
  lemma PruningNeedsOrder()
    ensures var t := Node(2, 1, Single(3), Leaf); var ranks := (a: int, b: int) => a - b;
      TotalPreorder(ranks) && Sized(t) && 3 in Elements(t) && !Remove(ranks, t, 3).0
  {
  }

  // ---------- balance ----------

  ghost function Pow2(n: nat): nat {
    if n == 0 then 1 else 2 * Pow2(n - 1)
  }

  ghost predicate Balanced<T>(t: Tree<T>) {
    t.Node? ==> 0 <= Cached(t.left) - Cached(t.right) <= 1 && Balanced(t.left) && Balanced(t.right)
  }

  lemma {:induction false} PushKeepsBalance<T>(ranks: Ranks<T>, t: Tree<T>, x: T)
    requires t.Node? && Sized(t) && Balanced(t)
    ensures Balanced(Push(ranks, t, x))
    decreases t, 1
  {
    hide Push, Placed;
    var top, low := PushUnfolds(ranks, t, x);
    PushSide(ranks, t, low);
    PlacedBalanced(ranks, t, low);
  }

  lemma {:induction false} PlacedBalanced<T>(ranks: Ranks<T>, t: Tree<T>, low: T)
    requires t.Node? && Sized(t) && Balanced(t)
    ensures var (l, r) := Placed(ranks, t.left, t.right, low); Balanced(l) && Balanced(r)
    decreases t, 0
  {
    hide Push;
    if t.left.Node? && t.right.Node? {
      PushKeepsBalance(ranks, t.left, low);
      PushKeepsBalance(ranks, t.right, low);
    }
  }

  /** h is the least height of a binary tree of n nodes: floor(log2 n) + 1, or 0. */
  ghost predicate LeastHeight(n: nat, h: nat) {
    if n == 0 then h == 0 else h > 0 && Pow2(h - 1) <= n < Pow2(h)
  }

  function Max(a: nat, b: nat): nat {
    if a >= b then a else b
  }

  lemma {:induction false} BalancedHeight<T>(t: Tree<T>)
    requires Sized(t) && Balanced(t)
    ensures LeastHeight(Count(t), Height(t))
  {
    if t.Node? {
      BalancedHeight(t.left);
      BalancedHeight(t.right);
      CachedIsCount(t.left);
      CachedIsCount(t.right);
      Doubling(Count(t.left), Height(t.left), Count(t.right), Height(t.right));
    }
  }

  /** Two halves of least height make a whole of least height. */
  lemma Doubling(m: nat, l: nat, n: nat, r: nat)
    requires 0 <= m - n <= 1 && LeastHeight(m, l) && LeastHeight(n, r)
    ensures LeastHeight(1 + m + n, 1 + Max(l, r))
  {
    if l < r {
      Pow2Monotonic(l, r);
    } else {
      Pow2Monotonic(r, l);
    }
  }

  lemma {:induction false} Pow2Monotonic(m: nat, n: nat)
    requires m <= n
    ensures Pow2(m) <= Pow2(n)
    decreases n
  {
    if m < n {
      Pow2Monotonic(m, n - 1);
    }
  }

  // ---------- whole histories ----------

  datatype Op<T> = PushOp(x: T) | PopOp | RemoveOp(x: T)

  /** One heap operation on a possibly empty tree, with the object it hands back. */
  function Step<T(==)>(ranks: Ranks<T>, t: Tree<T>, op: Op<T>): (Tree<T>, Option<T>) {
    match op
    case PushOp(x) => (if t.Leaf? then Single(x) else Push(ranks, t, x), None)
    case PopOp => if t.Leaf? then (t, None) else (Pop(ranks, t), Some(t.data))
    case RemoveOp(x) =>
      if t.Leaf? then (t, None) else
      var (found, r) := Remove(ranks, t, x);
      (r, if found then Some(x) else None)
  }

  /** A priority queue over multisets, as a relation: which answers and which new contents an operation allows. */
  ghost predicate QueueStep<T(!new)>(ranks: Ranks<T>, m: multiset<T>, op: Op<T>, m': multiset<T>, r: Option<T>) {
    match op
    case PushOp(x) => r == None && m' == m + multiset{x}
    case PopOp =>
      if m == multiset{} then r == None && m' == m
      else r.Some? && r.value in m && m == m' + multiset{r.value} && forall y :: y in m ==> ranks(r.value, y) >= 0
    case RemoveOp(x) =>
      if x in m then r == Some(x) && m == m' + multiset{x} else r == None && m' == m
  }

  /** Every operation refines the multiset queue and keeps the heap. */
  lemma StepRefinesQueue<T(!new)>(ranks: Ranks<T>, t: Tree<T>, op: Op<T>)
    requires TotalPreorder(ranks) && Heap(ranks, t)
    ensures var (t', r) := Step(ranks, t, op);
      Heap(ranks, t') && QueueStep(ranks, Elements(t), op, Elements(t'), r)
  {
    match op
    case PushOp(x) =>
      if t.Node? {
        PushKeepsHeap(ranks, t, x);
      }
    case PopOp =>
      if t.Node? {
        RootIsElement(t);
        PopKeepsHeap(ranks, t);
        forall y | y in Elements(t)
          ensures ranks(t.data, y) >= 0
        {
          RootRanksHighest(ranks, t, y);
        }
      }
    case RemoveOp(x) =>
      if t.Node? {
        RemoveIsExact(ranks, t, x);
      }
  }

  function Run<T(==)>(ranks: Ranks<T>, t: Tree<T>, ops: seq<Op<T>>): Tree<T>
    decreases |ops|
  {
    if ops == [] then t else Run(ranks, Step(ranks, t, ops[0]).0, ops[1..])
  }

  lemma {:induction false} RunKeepsHeap<T(!new)>(ranks: Ranks<T>, t: Tree<T>, ops: seq<Op<T>>)
    requires TotalPreorder(ranks) && Heap(ranks, t)
    ensures Heap(ranks, Run(ranks, t, ops))
    decreases |ops|
  {
    if ops != [] {
      StepRefinesQueue(ranks, t, ops[0]);
      RunKeepsHeap(ranks, Step(ranks, t, ops[0]).0, ops[1..]);
    }
  }

  lemma {:induction false} PopShrinks<T>(ranks: Ranks<T>, t: Tree<T>)
    requires t.Node?
    ensures Count(Pop(ranks, t)) == Count(t) - 1
  {
    if t.left.Node? || t.right.Node? {
      if TakesLeft(ranks, t) {
        PopShrinks(ranks, t.left);
      } else {
        PopShrinks(ranks, t.right);
      }
    }
  }

  /** Popping until nothing is left. */
  ghost function Drain<T>(ranks: Ranks<T>, t: Tree<T>): seq<T>
    decreases Count(t)
  {
    if t.Leaf? then [] else
    PopShrinks(ranks, t);
    [t.data] + Drain(ranks, Pop(ranks, t))
  }

  lemma {:induction false} DrainElements<T>(ranks: Ranks<T>, t: Tree<T>)
    ensures multiset(Drain(ranks, t)) == Elements(t)
    decreases Count(t)
  {
    if t.Node? {
      PopShrinks(ranks, t);
      PopElements(ranks, t);
      DrainElements(ranks, Pop(ranks, t));
      assert Drain(ranks, t) == [t.data] + Drain(ranks, Pop(ranks, t));
    }
  }

  lemma DrainBelow<T(!new)>(ranks: Ranks<T>, t: Tree<T>)
    requires TotalPreorder(ranks) && t.Node? && Ordered(ranks, t)
    ensures forall j :: 0 <= j < |Drain(ranks, Pop(ranks, t))| ==> ranks(t.data, Drain(ranks, Pop(ranks, t))[j]) >= 0
  {
    PopElements(ranks, t);
    DrainElements(ranks, Pop(ranks, t));
    hide TotalPreorder, Drain, Pop;
    var rest := Drain(ranks, Pop(ranks, t));
    forall j | 0 <= j < |rest|
      ensures ranks(t.data, rest[j]) >= 0
    {
      assert rest[j] in multiset(rest);
      RootRanksHighest(ranks, t, rest[j]);
    }
  }

  lemma {:induction false} DrainOrdered<T(!new)>(ranks: Ranks<T>, t: Tree<T>)
    requires TotalPreorder(ranks) && Ordered(ranks, t)
    ensures forall i, j :: 0 <= i < j < |Drain(ranks, t)| ==> ranks(Drain(ranks, t)[i], Drain(ranks, t)[j]) >= 0
    decreases Count(t)
  {
    if t.Node? {
      PopShrinks(ranks, t);
      PopOrdered(ranks, t);
      hide TotalPreorder, Pop;
      var rest := Drain(ranks, Pop(ranks, t));
      DrainOrdered(ranks, Pop(ranks, t));
      DrainBelow(ranks, t);
      assert Drain(ranks, t) == [t.data] + rest;
    }
  }

  /** Draining after any history gives the contents, each object once, in rank order. */
  lemma DrainSorts<T(!new)>(ranks: Ranks<T>, t: Tree<T>, ops: seq<Op<T>>)
    requires TotalPreorder(ranks) && Heap(ranks, t)
    ensures var t' := Run(ranks, t, ops); var out := Drain(ranks, t');
      multiset(out) == Elements(t') && forall i, j :: 0 <= i < j < |out| ==> ranks(out[i], out[j]) >= 0
  {
    RunKeepsHeap(ranks, t, ops);
    DrainElements(ranks, Run(ranks, t, ops));
    DrainOrdered(ranks, Run(ranks, t, ops));
  }

  /** The tree that pushing `xs` onto an empty heap builds. */
  function Build<T(==)>(ranks: Ranks<T>, xs: seq<T>): Tree<T> {
    if xs == [] then Leaf else Step(ranks, Build(ranks, xs[..|xs| - 1]), PushOp(xs[|xs| - 1])).0
  }

  /** Pushes alone build a tree of minimal height. */
  lemma {:induction false} BuildBalanced<T(!new)>(ranks: Ranks<T>, xs: seq<T>)
    requires TotalPreorder(ranks)
    ensures var t := Build(ranks, xs);
      && Heap(ranks, t) && Balanced(t) && Count(t) == |xs|
      && LeastHeight(|xs|, Height(t))
  {
    if xs != [] {
      var init, x := xs[..|xs| - 1], xs[|xs| - 1];
      BuildBalanced(ranks, init);
      var t := Build(ranks, init);
      if t.Node? {
        PushKeepsHeap(ranks, t, x);
        PushKeepsBalance(ranks, t, x);
        CachedIsCount(t);
      }
      CachedIsCount(Build(ranks, xs));
      BalancedHeight(Build(ranks, xs));
    }
  }
}
