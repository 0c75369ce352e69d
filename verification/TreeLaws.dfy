/** Laws of the three traversals that do not go through their definitions: mirroring, and what
    they are on the tree that the program itself builds. */
module TreeLaws {
  import opened Wrappers
  import opened Trees

  /** The tree with left and right exchanged everywhere. */
  function Mirror(t: Tree): Tree {
    if t.Empty? then Empty else Tree(Mirror(t.right), t.value, Mirror(t.left))
  }

  ghost predicate Reversed(s: string, r: string) {
    |r| == |s| && forall i :: 0 <= i < |s| ==> r[i] == s[|s| - 1 - i]
  }

  /** Post-order is the pre-order of the mirror image read backwards. */
  lemma {:induction false} PostIsMirroredPre(t: Tree)
    ensures Reversed(Pre(Mirror(t)), Post(t))
  {
    if !t.Empty? {
      PostIsMirroredPre(t.left);
      PostIsMirroredPre(t.right);
      ReversedParts([t.value], Pre(Mirror(t.right)), Pre(Mirror(t.left)), Post(t.left), Post(t.right), [t.value]);
    }
  }

  lemma ReversedParts(a: string, b: string, c: string, c': string, b': string, a': string)
    requires Reversed(a, a') && Reversed(b, b') && Reversed(c, c')
    ensures Reversed(a + b + c, c' + b' + a')
  {
    var s, r := a + b + c, c' + b' + a';
    forall i | 0 <= i < |s| ensures r[i] == s[|s| - 1 - i] {
      if i < |c| {
        assert r[i] == c'[i] && s[|s| - 1 - i] == c[|c| - 1 - i];
      } else if i < |c| + |b| {
        assert r[i] == b'[i - |c|] && s[|s| - 1 - i] == b[|b| - 1 - (i - |c|)];
      } else {
        assert r[i] == a'[i - |c| - |b|] && s[|s| - 1 - i] == a[|a| - 1 - (i - |c| - |b|)];
      }
    }
  }

  /** In-order is that of the mirror image read backwards. */
  lemma {:induction false} InIsMirrored(t: Tree)
    ensures Reversed(In(Mirror(t)), In(t))
  {
    if !t.Empty? {
      InIsMirrored(t.left);
      InIsMirrored(t.right);
      ReversedParts(In(Mirror(t.right)), [t.value], In(Mirror(t.left)), In(t.left), [t.value], In(t.right));
    }
  }

  /** So the post-order that is computed from the strings of a tree with distinct values is its mirrored pre-order read
      backwards. */
  lemma PostOrderOfStrings(t: Tree)
    requires Distinct(In(t))
    ensures PostOrder(Pre(t), In(t)).Some? && Reversed(Pre(Mirror(t)), PostOrder(Pre(t), In(t)).value)
  {
    RebuildRoundTrip(t);
    PostOrderOfRebuilt(Pre(t), In(t));
    PostIsMirroredPre(t);
  }

  /** The in-order string `ins` has room for `t`: each root is found, where it occurs first, right behind as many
      characters as its left subtree has nodes, and what is left over on either side has room for the subtrees. */
  predicate Fits(t: Tree, ins: string) {
    t.Tree? ==>
      var i := |Pre(t.left)|;
      && i < |ins| && ins[i] == t.value && t.value !in ins[..i]
      && Fits(t.left, ins[..i]) && Fits(t.right, ins[i + 1..])
  }

  /** Rebuilding gives the one tree with this pre-order that the in-order string has room for, and throws exactly when
      there is none, for all strings. */
  lemma {:induction false} RebuildExactly(pre: string, ins: string, t: Tree)
    ensures Rebuild(pre, ins) == Some(t) <==> Pre(t) == pre && Fits(t, ins)
    decreases |pre|
  {
    if pre != "" {
      var i := IndexOf(ins, pre[0]);
      if Splits(pre, i) {
        RebuildSplits(pre, ins, i);
        hide Rebuild, IndexOf;
        if t.Tree? {
          var preL, insL, preR, insR := pre[1..1 + i], ins[..i], pre[1 + i..], ins[1 + i..];
          RebuildExactly(preL, insL, t.left);
          RebuildExactly(preR, insR, t.right);
          RebuildParts(pre, ins, i, t);
        }
      } else if Pre(t) == pre && Fits(t, ins) {
        FitsIndex(t, ins);
      }
    }
  }

  lemma FitsIndex(t: Tree, ins: string)
    requires t.Tree? && Fits(t, ins)
    ensures IndexOf(ins, t.value) == |Pre(t.left)|
  {
    var i := IndexOf(ins, t.value);
    var k := |Pre(t.left)|;
    assert t.value in ins;
    assert forall j :: 0 <= j < i ==> ins[..i][j] == ins[j];
    assert forall j :: 0 <= j < k ==> ins[..k][j] == ins[j];
  }

  lemma RebuildParts(pre: string, ins: string, i: int, t: Tree)
    requires pre != "" && t.Tree? && i == IndexOf(ins, pre[0]) && Splits(pre, i)
    ensures Pre(t) == pre && Fits(t, ins) <==>
            && t.value == pre[0]
            && Pre(t.left) == pre[1..1 + i] && Fits(t.left, ins[..i])
            && Pre(t.right) == pre[1 + i..] && Fits(t.right, ins[1 + i..])
  {
    if Pre(t) == pre && Fits(t, ins) {
      FitsIndex(t, ins);
      hide IndexOf;
      assert pre[1..1 + i] == Pre(t.left) && pre[1 + i..] == Pre(t.right);
    }
    if t.value == pre[0] && Pre(t.left) == pre[1..1 + i] && Pre(t.right) == pre[1 + i..] {
      assert pre == [t.value] + pre[1..1 + i] + pre[1 + i..];
    }
  }

  /** The heap traversal puts out the in-order of the tree that the nodes form. */
  lemma {:induction false} InOrderValues(t: Shape)
    ensures |InOrder(t)| == |In(TreeOf(t))|
    ensures forall i :: 0 <= i < |InOrder(t)| ==> InOrder(t)[i].value == In(TreeOf(t))[i]
  {
    if t.Fork? {
      InOrderValues(t.left);
      InOrderValues(t.right);
    }
  }

  function Leaf(value: char): Tree { Tree(Empty, value, Empty) }

  /** The tree that the program builds as its sample. */
  function Sample(): Tree {
    Tree(Tree(Leaf('D'), 'B', Tree(Leaf('G'), 'E', Empty)), 'A', Tree(Empty, 'C', Leaf('F')))
  }

  /** What the program prints for it. */
  lemma SampleOrders()
    ensures Pre(Sample()) == "ABDEGCF" && In(Sample()) == "DBGEACF" && Post(Sample()) == "DGEBFCA"
    ensures Rebuild("ABDEGCF", "DBGEACF") == Some(Sample())
    ensures PostOrder("ABDEGCF", "DBGEACF") == Some("DGEBFCA")
  {
    SampleStrings();
    RebuildRoundTrip(Sample());
    PostOrderOfRebuilt(Pre(Sample()), In(Sample()));
    hide Rebuild, PostOrder;
  }

  lemma SampleStrings()
    ensures Pre(Sample()) == "ABDEGCF" && In(Sample()) == "DBGEACF" && Post(Sample()) == "DGEBFCA"
    ensures Distinct(In(Sample()))
  {
    var e := Tree(Leaf('G'), 'E', Empty);
    var b := Tree(Leaf('D'), 'B', e);
    var c := Tree(Empty, 'C', Leaf('F'));
    assert Pre(e) == "EG" && In(e) == "GE" && Post(e) == "GE";
    assert Pre(b) == "BDEG" && In(b) == "DBGE" && Post(b) == "DGEB";
    assert Pre(c) == "CF" && In(c) == "CF" && Post(c) == "FC";
  }
}
