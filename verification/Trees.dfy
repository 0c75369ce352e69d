/** Binary trees with parent links: walking them in order without a stack, and rebuilding
    them from their pre-order and in-order strings. */
module Trees {
  import opened Wrappers

  class TreeNode {
    const value: char
    var left: TreeNode?
    var right: TreeNode?
    var parent: TreeNode?

    constructor (value: char)
      ensures this.value == value && left == null && right == null && parent == null
    {
      this.value := value;
      left, right, parent := null, null, null;
    }

    method SetLeft(child: TreeNode?)
      modifies this, child
      ensures left == child && right == old(right) && (child != this ==> parent == old(parent))
      ensures child != null ==> child.parent == this && child.right == old(child.right)
      ensures child != null && child != this ==> child.left == old(child.left)
    {
      left := child;
      if left != null {
        left.parent := this;
      }
    }

    method SetRight(child: TreeNode?)
      modifies this, child
      ensures right == child && left == old(left) && (child != this ==> parent == old(parent))
      ensures child != null ==> child.parent == this && child.left == old(child.left)
      ensures child != null && child != this ==> child.right == old(child.right)
    {
      right := child;
      if right != null {
        right.parent := this;
      }
    }
  }

  /** The nodes of a tree, as they hang together. */
  datatype Shape = Nil | Fork(left: Shape, node: TreeNode, right: Shape)

  ghost function Nodes(t: Shape): set<TreeNode> {
    match t
    case Nil => {}
    case Fork(l, n, r) => Nodes(l) + {n} + Nodes(r)
  }

  ghost function InOrder(t: Shape): seq<TreeNode> {
    match t
    case Nil => []
    case Fork(l, n, r) => InOrder(l) + [n] + InOrder(r)
  }

  ghost function RootOf(t: Shape): TreeNode? { if t.Nil? then null else t.node }

  /** The heap holds the tree `t` of nodes in `repr` below `parent`, with links and parent links agreeing and no
      node shared. */
  ghost predicate Holds(t: Shape, parent: TreeNode?, repr: set<TreeNode>)
    reads repr
  {
    match t
    case Nil => true
    case Fork(l, n, r) =>
      && n in repr && n !in Nodes(l) && n !in Nodes(r) && Nodes(l) !! Nodes(r)
      && n.parent == parent && n.left == RootOf(l) && n.right == RootOf(r)
      && Holds(l, n, repr) && Holds(r, n, repr)
  }

  // ---------------------------------------------------------------------------------
  // A subtree and its surroundings

  /** One step up: the subtree is the left or the right child of `node`, `other` the sibling. */
  datatype Frame = LeftOf(node: TreeNode, other: Shape) | RightOf(other: Shape, node: TreeNode)

  ghost function Up(t: Shape, f: Frame): Shape {
    match f
    case LeftOf(n, r) => Fork(t, n, r)
    case RightOf(l, n) => Fork(l, n, t)
  }

  /** The whole tree around `t`; the last frame is the nearest. */
  ghost function Plug(t: Shape, ctx: seq<Frame>): Shape
    decreases |ctx|
  {
    if ctx == [] then t else Plug(Up(t, ctx[|ctx| - 1]), ctx[..|ctx| - 1])
  }

  ghost function Before(ctx: seq<Frame>): seq<TreeNode> {
    if ctx == [] then [] else
      var f := ctx[|ctx| - 1];
      Before(ctx[..|ctx| - 1]) + if f.RightOf? then InOrder(f.other) + [f.node] else []
  }

  ghost function After(ctx: seq<Frame>): seq<TreeNode> {
    if ctx == [] then [] else
      var f := ctx[|ctx| - 1];
      (if f.LeftOf? then [f.node] + InOrder(f.other) else []) + After(ctx[..|ctx| - 1])
  }

  lemma {:induction false} PlugInOrder(t: Shape, ctx: seq<Frame>)
    ensures InOrder(Plug(t, ctx)) == Before(ctx) + InOrder(t) + After(ctx)
    decreases |ctx|
  {
    if ctx != [] {
      var f, rest := ctx[|ctx| - 1], ctx[..|ctx| - 1];
      PlugInOrder(Up(t, f), rest);
      var b, a, x, o := Before(rest), After(rest), InOrder(t), InOrder(f.other);
      if f.LeftOf? {
        assert b + (x + [f.node] + o) + a == (b + []) + x + (([f.node] + o) + a);
      } else {
        assert b + (o + [f.node] + x) + a == (b + (o + [f.node])) + x + ([] + a);
      }
    }
  }

  ghost function ParentIn(ctx: seq<Frame>): TreeNode? { if ctx == [] then null else ctx[|ctx| - 1].node }

  /** `t` sits inside a tree without parent, below its nearest frame. */
  ghost predicate Climbs(t: Shape, ctx: seq<Frame>, repr: set<TreeNode>)
    reads repr
  {
    && Holds(Plug(t, ctx), null, repr) && Holds(t, ParentIn(ctx), repr)
    && (ctx != [] ==> Holds(Up(t, ctx[|ctx| - 1]), ParentIn(ctx[..|ctx| - 1]), repr))
  }

  /** Inside a tree without a parent, each subtree hangs below the nearest frame. */
  lemma {:induction false} CanClimb(t: Shape, ctx: seq<Frame>, repr: set<TreeNode>)
    requires Holds(Plug(t, ctx), null, repr)
    ensures Climbs(t, ctx, repr)
    decreases |ctx|
  {
    if ctx != [] {
      CanClimb(Up(t, ctx[|ctx| - 1]), ctx[..|ctx| - 1], repr);
    }
  }

  /** The place of the `i`-th node in order. */
  lemma {:induction false} Focus(t: Shape, i: nat, ctx: seq<Frame>) returns (u: Shape, ctx': seq<Frame>)
    requires i < |InOrder(t)|
    ensures u.Fork? && u.node == InOrder(t)[i] && Plug(u, ctx') == Plug(t, ctx)
    ensures |Before(ctx')| + |InOrder(u.left)| == |Before(ctx)| + i
    decreases t
  {
    var k := |InOrder(t.left)|;
    if i < k {
      var down := ctx + [LeftOf(t.node, t.right)];
      assert down[..|ctx|] == ctx;
      u, ctx' := Focus(t.left, i, down);
    } else if i == k {
      u, ctx' := t, ctx;
    } else {
      var down := ctx + [RightOf(t.left, t.node)];
      assert down[..|ctx|] == ctx;
      u, ctx' := Focus(t.right, i - k - 1, down);
    }
  }

  // ---------------------------------------------------------------------------------
  // The walk

  method First(root: TreeNode?, ghost t: Shape, ghost parent: TreeNode?, ghost repr: set<TreeNode>) returns (n: TreeNode?)
    requires Holds(t, parent, repr) && root == RootOf(t)
    ensures n == if t.Nil? then null else InOrder(t)[0]
  {
    if root == null {
      return null;
    }
    n := root;
    ghost var u, p := t, parent;
    while n.left != null
      invariant u.Fork? && n == u.node && Holds(u, p, repr) && InOrder(u)[0] == InOrder(t)[0]
      decreases u
    {
      n := n.left;
      u, p := u.left, u.node;
    }
  }

  /** The node after `node`, which sits at `u` inside a tree without parent. */
  method Next(node: TreeNode?, ghost u: Shape, ghost ctx: seq<Frame>, ghost repr: set<TreeNode>) returns (n: TreeNode?)
    requires node != null ==> u.Fork? && u.node == node && Climbs(u, ctx, repr)
    ensures node == null ==> n == null
    ensures node != null ==>
              var rest := InOrder(u.right) + After(ctx);
              n == if rest == [] then null else rest[0]
  {
    if node == null {
      return null;
    }
    if node.right != null {
      n := First(node.right, u.right, node, repr);
    } else {
      var cur := node;
      ghost var t, c := u, ctx;
      while cur.parent != null && cur.parent.right == cur
        invariant t.Fork? && t.node == cur && Climbs(t, c, repr) && After(c) == After(ctx)
        decreases |c|
      {
        assert c[|c| - 1].RightOf?;
        CanClimb(Up(t, c[|c| - 1]), c[..|c| - 1], repr);
        t, c := Up(t, c[|c| - 1]), c[..|c| - 1];
        cur := cur.parent;
      }
      n := cur.parent;
    }
  }

  /** Walking with `First` and `Next` prints every node once, in order, and then stops. */
  method Traverse(root: TreeNode?, ghost t: Shape, ghost repr: set<TreeNode>) returns (output: seq<char>)
    requires Holds(t, null, repr) && root == RootOf(t)
    ensures |output| == |InOrder(t)| && forall i :: 0 <= i < |output| ==> output[i] == InOrder(t)[i].value
  {
    output := [];
    ghost var order := InOrder(t);
    var node := First(root, t, null, repr);
    while node != null
      invariant |output| <= |order| && forall i :: 0 <= i < |output| ==> output[i] == order[i].value
      invariant node == if |output| < |order| then order[|output|] else null
      decreases |order| - |output|
    {
      ghost var u, ctx := Focus(t, |output|, []);
      PlugInOrder(u, ctx);
      CanClimb(u, ctx, repr);
      output := output + [node.value];
      node := Next(node, u, ctx, repr);
    }
  }

  /** In order, every node of the tree comes up, and none twice. */
  lemma {:induction false} InOrderOnce(t: Shape, parent: TreeNode?, repr: set<TreeNode>)
    requires Holds(t, parent, repr)
    ensures multiset(InOrder(t)) == multiset(Nodes(t))
  {
    if t.Fork? {
      InOrderOnce(t.left, t.node, repr);
      InOrderOnce(t.right, t.node, repr);
      DisjointUnion(Nodes(t.left), t.node, Nodes(t.right));
      hide Holds;
    }
  }

  lemma DisjointUnion<T>(a: set<T>, x: T, b: set<T>)
    requires x !in a && x !in b && a !! b
    ensures multiset(a + {x} + b) == multiset(a) + multiset{x} + multiset(b)
  {
  }

  // ---------------------------------------------------------------------------------
  // Rebuilding a tree from its traversals

  datatype Tree = Empty | Tree(left: Tree, value: char, right: Tree)

  function Pre(t: Tree): string { if t.Empty? then [] else [t.value] + Pre(t.left) + Pre(t.right) }

  function In(t: Tree): string { if t.Empty? then [] else In(t.left) + [t.value] + In(t.right) }

  function Post(t: Tree): string { if t.Empty? then [] else Post(t.left) + Post(t.right) + [t.value] }

  /** The first position of `c`, or -1. */
  function IndexOf(s: string, c: char): (i: int)
    ensures -1 <= i < |s|
    ensures i >= 0 ==> s[i] == c && c !in s[..i]
    ensures i == -1 ==> c !in s
  {
    if s == [] then -1
    else if s[0] == c then 0
    else
      var i := IndexOf(s[1..], c);
      assert s == [s[0]] + s[1..];
      if i == -1 then -1 else
        assert s[..i + 1] == [s[0]] + s[1..][..i];
        i + 1
  }

  /** Whether the substrings that the program takes around `i` exist; otherwise it throws. */
  predicate Splits(pre: string, i: int) { 0 <= i && 1 + i <= |pre| }

  /** The tree that creation yields, or None for an exception. */
  function Rebuild(pre: string, ins: string): Option<Tree>
    decreases |pre|
  {
    if pre == [] then Some(Empty) else
      var i := IndexOf(ins, pre[0]);
      if !Splits(pre, i) then None else
        Join(Rebuild(pre[1..1 + i], ins[..i]), pre[0], Rebuild(pre[1 + i..], ins[1 + i..]))
  }

  function Join(l: Option<Tree>, value: char, r: Option<Tree>): Option<Tree> {
    if l.None? || r.None? then None else Some(Tree(l.value, value, r.value))
  }

  /** The post-order string computed from the two strings alone, or None for an exception. */
  function PostOrder(pre: string, ins: string): Option<string>
    decreases |pre|
  {
    if pre == [] then Some([]) else
      var i := IndexOf(ins, pre[0]);
      if !Splits(pre, i) then None else
        JoinPost(PostOrder(pre[1..1 + i], ins[..i]), pre[0], PostOrder(pre[1 + i..], ins[1 + i..]))
  }

  function JoinPost(l: Option<string>, value: char, r: Option<string>): Option<string> {
    if l.None? || r.None? then None else Some(l.value + r.value + [value])
  }

  lemma RebuildSplits(pre: string, ins: string, i: int)
    requires pre != [] && i == IndexOf(ins, pre[0]) && Splits(pre, i)
    ensures Rebuild(pre, ins) == Join(Rebuild(pre[1..1 + i], ins[..i]), pre[0], Rebuild(pre[1 + i..], ins[1 + i..]))
  {
    hide IndexOf, Join;
  }

  lemma PostOrderSplits(pre: string, ins: string, i: int)
    requires pre != [] && i == IndexOf(ins, pre[0]) && Splits(pre, i)
    ensures PostOrder(pre, ins) == JoinPost(PostOrder(pre[1..1 + i], ins[..i]), pre[0], PostOrder(pre[1 + i..], ins[1 + i..]))
  {
    hide IndexOf, JoinPost;
  }

  lemma JoinAgrees(l: Option<Tree>, value: char, r: Option<Tree>)
    ensures JoinPost(PostOf(l), value, PostOf(r)) == PostOf(Join(l, value, r))
  {
  }

  function PostOf(t: Option<Tree>): Option<string> { if t.None? then None else Some(Post(t.value)) }

  /** On all strings, well matched or not: the post-order string is that of the rebuilt tree, and both throw together. */
  lemma {:induction false} PostOrderOfRebuilt(pre: string, ins: string)
    ensures PostOrder(pre, ins) == PostOf(Rebuild(pre, ins))
    decreases |pre|
  {
    if pre != [] && Splits(pre, IndexOf(ins, pre[0])) {
      var i := IndexOf(ins, pre[0]);
      var preL, insL, preR, insR := pre[1..1 + i], ins[..i], pre[1 + i..], ins[1 + i..];
      hide IndexOf, Rebuild, PostOrder, Join, JoinPost, PostOf;
      RebuildSplits(pre, ins, i);
      PostOrderSplits(pre, ins, i);
      PostOrderOfRebuilt(preL, insL);
      PostOrderOfRebuilt(preR, insR);
      JoinAgrees(Rebuild(preL, insL), pre[0], Rebuild(preR, insR));
    }
  }

  ghost predicate Distinct(s: string) { forall i, j :: 0 <= i < j < |s| ==> s[i] != s[j] }

  lemma {:induction false} SameLength(t: Tree)
    ensures |Pre(t)| == |In(t)|
  {
    if !t.Empty? {
      SameLength(t.left);
      SameLength(t.right);
    }
  }

  /** Round trip: a tree with distinct values is rebuilt from its pre-order and in-order strings. */
  lemma {:induction false} RebuildRoundTrip(t: Tree)
    requires Distinct(In(t))
    ensures Rebuild(Pre(t), In(t)) == Some(t)
  {
    if !t.Empty? {
      var pre, ins, k := Pre(t), In(t), |In(t.left)|;
      SameLength(t.left);
      assert ins[k] == t.value && pre[0] == t.value;
      var i := IndexOf(ins, pre[0]);
      assert ins[i] == ins[k] && i == k;
      assert ins[..k] == In(t.left) && ins[1 + k..] == In(t.right);
      assert pre[1..1 + k] == Pre(t.left) && pre[1 + k..] == Pre(t.right);
      DistinctParts(t);
      RebuildRoundTrip(t.left);
      RebuildRoundTrip(t.right);
    }
  }

  lemma DistinctParts(t: Tree)
    requires Distinct(In(t)) && !t.Empty?
    ensures Distinct(In(t.left)) && Distinct(In(t.right))
  {
    var ins, k := In(t), |In(t.left)|;
    assert In(t.left) == ins[..k] && In(t.right) == ins[k + 1..];
  }

  ghost function TreeOf(t: Shape): Tree {
    match t
    case Nil => Empty
    case Fork(l, n, r) => Tree(TreeOf(l), n.value, TreeOf(r))
  }

  /** Only the nodes of the tree itself matter. */
  lemma {:induction false} HoldsWithin(t: Shape, parent: TreeNode?, repr: set<TreeNode>, repr': set<TreeNode>)
    requires Holds(t, parent, repr) && Nodes(t) <= repr'
    ensures Holds(t, parent, repr')
  {
    if t.Fork? {
      HoldsWithin(t.left, t.node, repr, repr');
      HoldsWithin(t.right, t.node, repr, repr');
    }
  }

  /** What creation promises of the nodes it made for `tree`. */
  ghost predicate Built(root: TreeNode?, t: Shape, repr: set<TreeNode>, tree: Tree)
    reads repr
  {
    Nodes(t) == repr && Holds(t, null, repr) && root == RootOf(t) && TreeOf(t) == tree
  }

  lemma BuiltRoot(root: TreeNode?, t: Shape, repr: set<TreeNode>, tree: Tree)
    requires Built(root, t, repr, tree)
    ensures root == null || root in repr
  {
  }

  /** Builds the nodes of the tree with consistent parent links, or throws when the strings do not match. */
  method CreateTree(pre: string, ins: string)
    returns (thrown: bool, root: TreeNode?, ghost t: Shape, ghost repr: set<TreeNode>)
    ensures thrown <==> Rebuild(pre, ins).None?
    ensures !thrown ==> fresh(repr) && Built(root, t, repr, Rebuild(pre, ins).value)
    decreases |pre|, 0
  {
    if pre == [] {
      return false, null, Nil, {};
    }
    var i := IndexOf(ins, pre[0]);
    if !Splits(pre, i) {
      return true, null, Nil, {};
    }
    var preL, insL, preR, insR := pre[1..1 + i], ins[..i], pre[1 + i..], ins[1 + i..];
    RebuildSplits(pre, ins, i);
    hide Rebuild, Built, IndexOf;
    thrown, root, t, repr := CreateNode(pre[0], preL, insL, preR, insR, |pre| - 1);
  }

  /** A node with the value and the two subtrees that these strings describe. */
  method CreateNode(value: char, preL: string, insL: string, preR: string, insR: string, ghost bound: nat)
    returns (thrown: bool, root: TreeNode?, ghost t: Shape, ghost repr: set<TreeNode>)
    requires |preL| <= bound && |preR| <= bound
    ensures thrown <==> Rebuild(preL, insL).None? || Rebuild(preR, insR).None?
    ensures !thrown ==> fresh(repr) && Built(root, t, repr, Tree(Rebuild(preL, insL).value, value, Rebuild(preR, insR).value))
    decreases bound, 1
  {
    hide Rebuild, Built, Holds, Nodes, TreeOf, RootOf;
    var node := new TreeNode(value);
    var failed, l, tl, rl := CreateTree(preL, insL);
    if failed {
      return true, null, Nil, {};
    }
    BuiltRoot(l, tl, rl, Rebuild(preL, insL).value);
    AttachLeft(node, l, tl, rl, Rebuild(preL, insL).value);
    var failed', r, tr, rr := CreateTree(preR, insR);
    if failed' {
      return true, null, Nil, {};
    }
    BuiltRoot(r, tr, rr, Rebuild(preR, insR).value);
    AttachRight(node, r, tl, rl, tr, rr, Rebuild(preL, insL).value, Rebuild(preR, insR).value);
    return false, node, Fork(tl, node, tr), rl + {node} + rr;
  }

  lemma Assembled(tl: Shape, node: TreeNode, tr: Shape, rl: set<TreeNode>, rr: set<TreeNode>)
    requires Holds(tl, node, rl) && Nodes(tl) == rl && Holds(tr, node, rr) && Nodes(tr) == rr
    requires node !in rl && node !in rr && rl !! rr
    requires node.parent == null && node.left == RootOf(tl) && node.right == RootOf(tr)
    ensures Holds(Fork(tl, node, tr), null, rl + {node} + rr) && Nodes(Fork(tl, node, tr)) == rl + {node} + rr
  {
    HoldsWithin(tl, node, rl, rl + {node} + rr);
    HoldsWithin(tr, node, rr, rl + {node} + rr);
  }

  /** Changing the parent of its root leaves a tree intact. */
  lemma Reparented(t: Shape, parent: TreeNode?, repr: set<TreeNode>, a: set<TreeNode>, b: set<TreeNode>)
    requires t.Fork? ==>
               && Holds(t.left, t.node, a) && Holds(t.right, t.node, b) && Nodes(t) <= repr
               && t.node !in Nodes(t.left) && t.node !in Nodes(t.right) && Nodes(t.left) !! Nodes(t.right)
               && t.node.parent == parent && t.node.left == RootOf(t.left) && t.node.right == RootOf(t.right)
    ensures Holds(t, parent, repr)
  {
    if t.Fork? {
      HoldsWithin(t.left, t.node, a, repr);
      HoldsWithin(t.right, t.node, b, repr);
    }
  }

  /** `root.setLeft(child)` for a freshly built child. */
  method AttachLeft(node: TreeNode, child: TreeNode?, ghost t: Shape, ghost repr: set<TreeNode>, ghost tree: Tree)
    requires Built(child, t, repr, tree) && node !in repr
    modifies node, child
    ensures Holds(t, node, repr) && Nodes(t) == repr && RootOf(t) == child && TreeOf(t) == tree
    ensures node.left == child && node.right == old(node.right) && node.parent == old(node.parent)
  {
    ghost var a, b := if t.Nil? then {} else Nodes(t.left), if t.Nil? then {} else Nodes(t.right);
    if t.Fork? {
      HoldsWithin(t.left, t.node, repr, a);
      HoldsWithin(t.right, t.node, repr, b);
    }
    node.SetLeft(child);
    Reparented(t, node, repr, a, b);
  }

  /** `root.setRight(child)`, which completes the tree. */
  method AttachRight(node: TreeNode, child: TreeNode?, ghost tl: Shape, ghost rl: set<TreeNode>, ghost t: Shape,
                     ghost repr: set<TreeNode>, ghost treeL: Tree, ghost tree: Tree)
    requires Built(child, t, repr, tree) && node !in repr && node !in rl && rl !! repr
    requires Holds(tl, node, rl) && Nodes(tl) == rl && TreeOf(tl) == treeL && node.left == RootOf(tl) && node.parent == null
    modifies node, child
    ensures Built(node, Fork(tl, node, t), rl + {node} + repr, Tree(treeL, node.value, tree))
  {
    ghost var a, b := if t.Nil? then {} else Nodes(t.left), if t.Nil? then {} else Nodes(t.right);
    if t.Fork? {
      HoldsWithin(t.left, t.node, repr, a);
      HoldsWithin(t.right, t.node, repr, b);
    }
    node.SetRight(child);
    Reparented(t, node, repr, a, b);
    Assembled(tl, node, t, rl, repr);
  }
}
