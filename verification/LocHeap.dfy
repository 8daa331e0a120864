/** The rank heap as the code keeps it: linked nodes changed in place. */
module LocHeap {
  import opened RankTree

  class LocHeapNode<T(==)> {
    var mSize: int
    var mLeft: LocHeapNode?<T>
    var mRight: LocHeapNode?<T>
    var mData: T
    ghost var Repr: set<LocHeapNode<T>>   // the nodes of this subtree
    ghost var tree: Tree<T>               // this subtree as a value

    constructor (data: T)
      ensures Valid() && Repr == {this} && tree == Single(data) && mLeft == null && mRight == null && mData == data
    {
      mSize, mLeft, mRight, mData := 1, null, null, data;
      Repr, tree := {this}, Single(data);
    }

    ghost predicate Valid()
      reads this, Repr
      decreases Repr, 1
    {
      && (mLeft != null ==> mLeft in Repr) && (mRight != null ==> mRight in Repr)
      && this !in Nodes(mLeft) && this !in Nodes(mRight)
      && Repr == {this} + Nodes(mLeft) + Nodes(mRight)
      && ChildrenValid()
      && tree == Node(mSize, mData, TreeOf(mLeft), TreeOf(mRight))
    }

    static ghost function Nodes(n: LocHeapNode?<T>): set<LocHeapNode<T>>
      reads n
    {
      if n == null then {} else n.Repr
    }

    static ghost function TreeOf(n: LocHeapNode?<T>): Tree<T>
      reads n
    {
      if n == null then Leaf else n.tree
    }

    /** A link is null or leads to a well-formed subtree; the last line spells out what that says of its top. */
    static ghost predicate Good(n: LocHeapNode?<T>)
      reads n, Nodes(n)
      decreases Nodes(n), 2
    {
      n != null ==>
        && n in n.Repr && n.Valid()
        && n.tree.Node? && n.tree.size == n.mSize && n.tree.data == n.mData
    }

    /** The children are well formed and share no node with each other or with this one. */
    ghost predicate ChildrenValid()
      reads `mLeft, `mRight, mLeft, mRight, Nodes(mLeft), Nodes(mRight)
      decreases Nodes(mLeft) + Nodes(mRight), 3
    {
      && Good(mLeft) && Good(mRight)
      && this !in Nodes(mLeft) && this !in Nodes(mRight) && Nodes(mLeft) !! Nodes(mRight)
    }

    /** What validity says about this node alone. */
    lemma Open()
      requires Valid()
      ensures this in Repr && ChildrenValid() && Good(mLeft) && Good(mRight)
      ensures this !in Nodes(mLeft) && this !in Nodes(mRight) && Nodes(mLeft) !! Nodes(mRight)
      ensures Repr == {this} + Nodes(mLeft) + Nodes(mRight)
      ensures tree == Node(mSize, mData, TreeOf(mLeft), TreeOf(mRight))
    {
    }

    /** Sets this node's size and brings its ghost fields in line with its links. */
    method Settle(size: int)
      requires ChildrenValid()
      modifies `mSize, `Repr, `tree
      ensures Valid() && Good(this) && mSize == size
      ensures Repr == {this} + old(Nodes(mLeft)) + old(Nodes(mRight))
      ensures tree == Node(size, mData, old(TreeOf(mLeft)), old(TreeOf(mRight)))
    {
      mSize := size;
      Repr := {this} + Nodes(mLeft) + Nodes(mRight);
      tree := Node(size, mData, TreeOf(mLeft), TreeOf(mRight));
    }

    /** Keeps the higher ranked of two data here and leaves the other in the loose node. */
    method KeepHigher(node: LocHeapNode<T>, ranks: Ranks<T>)
      requires ChildrenValid() && node.Valid() && node.Repr == {node} && node.tree == Single(node.mData)
      requires node != this && node !in Nodes(mLeft) && node !in Nodes(mRight)
      modifies `mData, node`mData, node`tree
      ensures ChildrenValid() && node.Valid() && node.tree == Single(node.mData)
      ensures Nodes(mLeft) == old(Nodes(mLeft)) && Nodes(mRight) == old(Nodes(mRight))
      ensures TreeOf(mLeft) == old(TreeOf(mLeft)) && TreeOf(mRight) == old(TreeOf(mRight))
      ensures if ranks(old(node.mData), old(mData)) > 0
              then mData == old(node.mData) && node.mData == old(mData)
              else mData == old(mData) && node.mData == old(node.mData)
    {
      if ranks(node.mData, mData) > 0 {
        node.mData, mData := mData, node.mData;
      }
      node.tree := Single(node.mData);
    }

    /** Hands a loose node to the smaller subtree. */
    method Place(node: LocHeapNode<T>, ranks: Ranks<T>)
      requires ChildrenValid() && node.Valid() && node.Repr == {node} && node.tree == Single(node.mData)
      requires node != this && node !in Nodes(mLeft) && node !in Nodes(mRight)
      modifies `mLeft, `mRight, Nodes(mLeft), Nodes(mRight), node
      ensures ChildrenValid() && mData == old(mData) && mSize == old(mSize)
      ensures Nodes(mLeft) + Nodes(mRight) == old(Nodes(mLeft) + Nodes(mRight)) + {node}
      ensures (TreeOf(mLeft), TreeOf(mRight)) == Placed(ranks, old(TreeOf(mLeft)), old(TreeOf(mRight)), old(node.mData))
      decreases Nodes(mLeft) + Nodes(mRight), 0
    {
      assert node.Valid() && Good(node);
      hide Valid, RankTree.Push;
      if mLeft == null {
        mLeft := node;
      } else if mRight == null {
        mRight := node;
      } else if mLeft.mSize <= mRight.mSize {
        mLeft.Push(node, ranks);
      } else {
        mRight.Push(node, ranks);
      }
    }

    method PlaceBelow(node: LocHeapNode<T>, ranks: Ranks<T>)
      requires ChildrenValid() && node.Valid() && node.Repr == {node} && node.tree == Single(node.mData)
      requires node != this && node !in Nodes(mLeft) && node !in Nodes(mRight)
      modifies this, Nodes(mLeft), Nodes(mRight), node
      ensures Valid() && Good(this) && mData == old(mData)
      ensures Repr == {this} + old(Nodes(mLeft) + Nodes(mRight)) + {node}
      ensures var (l, r) := Placed(ranks, old(TreeOf(mLeft)), old(TreeOf(mRight)), old(node.mData));
        tree == Node(old(mSize) + 1, mData, l, r)
      decreases Nodes(mLeft) + Nodes(mRight), 1
    {
      hide RankTree.Push, Placed, Valid, ChildrenValid, Good, Nodes, TreeOf;
      Place(node, ranks);
      Settle(mSize + 1);
    }

    method Push(node: LocHeapNode<T>, ranks: Ranks<T>)
      requires Valid() && node.Valid() && node.Repr == {node} && node.tree == Single(node.mData) && node !in Repr
      modifies Repr, node
      ensures Valid() && Good(this) && Repr == old(Repr) + {node}
      ensures tree == RankTree.Push(ranks, old(tree), old(node.mData))
      decreases Repr, 1
    {
      Open();
      hide RankTree.Push, Placed, Valid, ChildrenValid, Good, Nodes, TreeOf;
      ghost var top, low := PushUnfolds(ranks, tree, node.mData);
      KeepHigher(node, ranks);
      PlaceBelow(node, ranks);
    }

    /** Swaps the root's data down to a leaf and detaches that leaf; `left` replaces the link to `top`. */
    static method Pop(top: LocHeapNode<T>, ranks: Ranks<T>) returns (left: LocHeapNode?<T>, popped: LocHeapNode<T>)
      requires top.Valid()
      modifies top.Repr
      ensures popped in old(top.Repr) && popped.mLeft == null && popped.mRight == null
      ensures popped.mData == old(top.mData)
      ensures TreeOf(left) == RankTree.Pop(ranks, old(top.tree))
      ensures Nodes(left) == old(top.Repr) - {popped}
      ensures Good(left) && (left == null || left == top)
      decreases top.Repr, 1
    {
      top.Open();
      PopUnfolds(ranks, top.tree, top.mData);
      hide RankTree.Pop, top.Valid, top.ChildrenValid;
      if top.mLeft == null && top.mRight == null {
        return null, top;
      }
      if top.mLeft != null && (top.mRight == null || ranks(top.mLeft.mData, top.mRight.mData) > 0) {
        popped := top.PopLeft(ranks);
      } else {
        popped := top.PopRight(ranks);
      }
      top.Settle(top.mSize - 1);
      left := top;
    }

    /** Takes the left child's data and pops the left subtree. */
    method PopLeft(ranks: Ranks<T>) returns (popped: LocHeapNode<T>)
      requires ChildrenValid() && mLeft != null && mLeft.tree.Node?
      modifies `mLeft, `mData, Nodes(mLeft)
      ensures ChildrenValid() && popped in old(Nodes(mLeft)) && popped.mLeft == null && popped.mRight == null
      ensures mData == old(mLeft.mData) && popped.mData == old(mData)
      ensures TreeOf(mLeft) == RankTree.Pop(ranks, old(mLeft.tree).(data := old(mData)))
      ensures Nodes(mLeft) == old(Nodes(mLeft)) - {popped}
      decreases Nodes(mLeft), 2
    {
      hide Valid, RankTree.Pop;
      SwapData(this, mLeft);
      var link;
      link, popped := Pop(mLeft, ranks);
      mLeft := link;
    }

    method PopRight(ranks: Ranks<T>) returns (popped: LocHeapNode<T>)
      requires ChildrenValid() && mRight != null && mRight.tree.Node?
      modifies `mRight, `mData, Nodes(mRight)
      ensures ChildrenValid() && popped in old(Nodes(mRight)) && popped.mLeft == null && popped.mRight == null
      ensures mData == old(mRight.mData) && popped.mData == old(mData)
      ensures TreeOf(mRight) == RankTree.Pop(ranks, old(mRight.tree).(data := old(mData)))
      ensures Nodes(mRight) == old(Nodes(mRight)) - {popped}
      decreases Nodes(mRight), 2
    {
      hide Valid, RankTree.Pop;
      SwapData(this, mRight);
      var link;
      link, popped := Pop(mRight, ranks);
      mRight := link;
    }

    /** Exchanges the data of a node and one of its children. */
    static method SwapData(a: LocHeapNode<T>, b: LocHeapNode<T>)
      requires a != b && b.Valid() && a !in b.Repr
      modifies a`mData, b`mData, b`tree
      ensures a.mData == old(b.mData) && b.mData == old(a.mData)
      ensures b.Valid() && old(b.tree).Node? && b.tree == old(b.tree).(data := b.mData)
    {
      a.mData, b.mData := b.mData, a.mData;
      b.tree := b.tree.(data := b.mData);
    }

    /** Takes one object out of the tree under `top`, by identity; `left` replaces the link. */
    static method Remove(top: LocHeapNode<T>, data: T, ranks: Ranks<T>)
      returns (left: LocHeapNode?<T>, removed: LocHeapNode?<T>)
      requires top.Valid()
      modifies top.Repr
      ensures var (found, r) := RankTree.Remove(ranks, old(top.tree), data);
        TreeOf(left) == r && (removed != null <==> found)
      ensures Good(left) && (left == null || left == top)
      ensures removed != null ==>
        removed in old(top.Repr) && removed.mLeft == null && removed.mRight == null && removed.mData == data
        && Nodes(left) == old(top.Repr) - {removed}
      ensures removed == null ==> Nodes(left) == old(top.Repr) && left == top
      decreases top.Repr, 1
    {
      top.Open();
      if data == top.mData {
        left, removed := Pop(top, ranks);
        return;
      }
      left, removed := top, null;
      if !(ranks(data, top.mData) > 0) {
        RemoveSearchesBelow(ranks, top.tree, data);
        hide RankTree.Remove, RemovedBelow, top.Valid, top.ChildrenValid, Good, Nodes, TreeOf;
        removed := top.RemoveBelow(data, ranks);
        top.Settle(if removed != null then top.mSize - 1 else top.mSize);
      }
    }

    /** Looks in the left subtree and then, if it is not there, in the right one. */
    method RemoveBelow(data: T, ranks: Ranks<T>) returns (removed: LocHeapNode?<T>)
      requires ChildrenValid() && (mLeft != null ==> mLeft.tree.Node?) && (mRight != null ==> mRight.tree.Node?)
      modifies `mLeft, `mRight, Nodes(mLeft), Nodes(mRight)
      ensures ChildrenValid()
      ensures (removed != null, TreeOf(mLeft), TreeOf(mRight))
           == RemovedBelow(ranks, old(TreeOf(mLeft)), old(TreeOf(mRight)), data)
      ensures removed != null ==>
        removed in old(Nodes(mLeft) + Nodes(mRight))
        && removed.mLeft == null && removed.mRight == null && removed.mData == data
      ensures Nodes(mLeft) + Nodes(mRight) == old(Nodes(mLeft) + Nodes(mRight)) - {removed}
      decreases Nodes(mLeft) + Nodes(mRight), 3
    {
      hide Valid, RankTree.Remove;
      removed := RemoveLeft(data, ranks);
      if removed == null {
        removed := RemoveRight(data, ranks);
      }
    }

    /** Looks in the left subtree. */
    method RemoveLeft(data: T, ranks: Ranks<T>) returns (removed: LocHeapNode?<T>)
      requires ChildrenValid() && (mLeft != null ==> mLeft.tree.Node?)
      modifies `mLeft, Nodes(mLeft)
      ensures ChildrenValid()
      ensures (removed != null, TreeOf(mLeft))
           == if old(mLeft) == null then (false, Leaf) else RankTree.Remove(ranks, old(TreeOf(mLeft)), data)
      ensures removed != null ==>
        removed in old(Nodes(mLeft)) && removed.mLeft == null && removed.mRight == null && removed.mData == data
      ensures Nodes(mLeft) == old(Nodes(mLeft)) - {removed}
      decreases Nodes(mLeft), 2
    {
      removed := null;
      if mLeft != null {
        hide Valid, RankTree.Remove;
        var link;
        link, removed := Remove(mLeft, data, ranks);
        mLeft := link;
      }
    }

    method RemoveRight(data: T, ranks: Ranks<T>) returns (removed: LocHeapNode?<T>)
      requires ChildrenValid() && (mRight != null ==> mRight.tree.Node?)
      modifies `mRight, Nodes(mRight)
      ensures ChildrenValid()
      ensures (removed != null, TreeOf(mRight))
           == if old(mRight) == null then (false, Leaf) else RankTree.Remove(ranks, old(TreeOf(mRight)), data)
      ensures removed != null ==>
        removed in old(Nodes(mRight)) && removed.mLeft == null && removed.mRight == null && removed.mData == data
      ensures Nodes(mRight) == old(Nodes(mRight)) - {removed}
      decreases Nodes(mRight), 2
    {
      removed := null;
      if mRight != null {
        hide Valid, RankTree.Remove;
        var link;
        link, removed := Remove(mRight, data, ranks);
        mRight := link;
      }
    }

    /** The self-check of the unit tests. */
    method CheckNodes(ranks: Ranks<T>) returns (ok: bool)
      requires Valid()
      ensures ok == RankTree.CheckNodes(ranks, tree)
      decreases Repr
    {
      Open();
      var totalSize := mSize;
      if mLeft != null {
        if ranks(mLeft.mData, mData) > 0 {
          return false;
        }
        var l := mLeft.CheckNodes(ranks);
        if !l {
          return false;
        }
        totalSize := totalSize - mLeft.mSize;
      }
      if mRight != null {
        if ranks(mRight.mData, mData) > 0 {
          return false;
        }
        var r := mRight.CheckNodes(ranks);
        if !r {
          return false;
        }
        totalSize := totalSize - mRight.mSize;
      }
      return totalSize == 1;
    }
  }

  /** The heap itself: a link to the tree, empty at first. */
  class LocHeap<T(==)> {
    var mTree: LocHeapNode?<T>

    constructor ()
      ensures Valid() && View() == Leaf
    {
      mTree := null;
    }

    ghost predicate Valid()
      reads this, mTree, LocHeapNode.Nodes(mTree)
    {
      LocHeapNode.Good(mTree)
    }

    ghost function View(): Tree<T>
      reads this, mTree
    {
      LocHeapNode.TreeOf(mTree)
    }

    method Push(x: T, ranks: Ranks<T>)
      requires Valid()
      modifies this, LocHeapNode.Nodes(mTree)
      ensures Valid() && fresh(LocHeapNode.Nodes(mTree) - old(LocHeapNode.Nodes(mTree)))
      ensures View() == Step(ranks, old(View()), PushOp(x)).0
    {
      var node := new LocHeapNode(x);
      if mTree == null {
        mTree := node;
      } else {
        mTree.Push(node, ranks);
      }
    }

    method Peek() returns (x: Option<T>)
      requires Valid()
      ensures x == if View().Leaf? then None else Some(View().data)
    {
      x := None;
      if mTree != null {
        x := Some(mTree.mData);
      }
    }

    method Pop(ranks: Ranks<T>) returns (x: Option<T>)
      requires Valid()
      modifies this, LocHeapNode.Nodes(mTree)
      ensures Valid() && LocHeapNode.Nodes(mTree) <= old(LocHeapNode.Nodes(mTree))
      ensures (View(), x) == Step(ranks, old(View()), PopOp)
    {
      x := None;
      if mTree != null {
        var link, popped := LocHeapNode.Pop(mTree, ranks);
        mTree := link;
        x := Some(popped.mData);
      }
    }

    method Remove(data: T, ranks: Ranks<T>) returns (x: Option<T>)
      requires Valid()
      modifies this, LocHeapNode.Nodes(mTree)
      ensures Valid() && LocHeapNode.Nodes(mTree) <= old(LocHeapNode.Nodes(mTree))
      ensures (View(), x) == Step(ranks, old(View()), RemoveOp(data))
    {
      x := None;
      if mTree != null {
        var link, removed := LocHeapNode.Remove(mTree, data, ranks);
        mTree := link;
        if removed != null {
          x := Some(removed.mData);
        }
      }
    }
  }
}
