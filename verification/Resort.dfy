/** What resorting the value lists keeps, and why a sorted tree with no missing
    array index stands for the same leaves as the data it prints as. */
module Resort {
  import opened Sorting
  import opened Tree
  import opened Yaml

  ghost predicate InOrder(vl: seq<YamlNode>) {
    forall i, j :: 0 <= i < j < |vl| ==> vl[i].lastNodeIndex <= vl[j].lastNodeIndex
  }

  // ----- the sort -----

  lemma {:induction false} SortPerm(o: Order, s: seq<YamlNode>)
    ensures Perm(Sort(o, s), s)
  {
    if Permutes(o(Indexes(s)), |s|) {
      PickedPerm(s, o(Indexes(s)));
    }
  }

  lemma {:induction false} SortMember(o: Order, s: seq<YamlNode>, i: nat)
    requires i < |s|
    ensures exists j :: 0 <= j < |s| && s[j] == Sort(o, s)[i]
  {
    SortPerm(o, s);
    assert Sort(o, s)[i] in multiset(s);
  }

  lemma {:induction false} SortInOrder(o: Order, s: seq<YamlNode>)
    requires Sorts(o) && Uniform(Indexes(s))
    ensures Permutes(o(Indexes(s)), |s|) && InOrder(Sort(o, s))
    ensures InOrder(s) ==> Sort(o, s) == s
  {
    var keys, p := Indexes(s), o(Indexes(s));
    assert Arranges(p, keys);
    SortStays(o, s);
    forall i, j | 0 <= i < j < |s| ensures s[p[i]].lastNodeIndex <= s[p[j]].lastNodeIndex {
      assert Picked(keys, p)[i] <= Picked(keys, p)[j];
    }
  }

  lemma {:induction false} SortStays(o: Order, s: seq<YamlNode>)
    requires Sorts(o)
    ensures NoInversion(Indexes(s)) ==> Sort(o, s) == s
    ensures InOrder(s) ==> NoInversion(Indexes(s))
  {
    assert Arranges(o(Indexes(s)), Indexes(s));
  }

  /** A second sort finds the list in order. */
  lemma {:induction false} SortTwice(o: Order, s: seq<YamlNode>)
    requires Sorts(o) && Uniform(Indexes(s))
    ensures Sort(o, Sort(o, s)) == Sort(o, s)
  {
    SortInOrder(o, s);
    SortUniform(o, s);
    SortInOrder(o, Sort(o, s));
  }

  lemma {:induction false} SortUniform(o: Order, s: seq<YamlNode>)
    requires Uniform(Indexes(s))
    ensures Uniform(Indexes(Sort(o, s)))
  {
    forall i | 0 <= i < |s| ensures exists j :: 0 <= j < |s| && Indexes(s)[j] == Indexes(Sort(o, s))[i] {
      SortMember(o, s, i);
      var j :| 0 <= j < |s| && s[j] == Sort(o, s)[i];
      assert Indexes(s)[j] == Indexes(Sort(o, s))[i];
    }
  }

  lemma {:induction false} SortGood(o: Order, s: seq<YamlNode>)
    requires Sorts(o) && Good(s, true)
    ensures Good(Sort(o, s), true) && InOrder(Sort(o, s))
  {
    GoodUniform(s);
    SortInOrder(o, s);
    PickedGood(s, o(Indexes(s)));
  }

  lemma {:induction false} GoodUniform(s: seq<YamlNode>)
    requires Good(s, true)
    ensures Uniform(Indexes(s))
  {
    assert forall i :: 0 <= i < |s| ==> Indexes(s)[i] == s[i].lastNodeIndex >= 0;
  }

  lemma {:induction false} PickedGood(s: seq<YamlNode>, p: seq<int>)
    requires Good(s, true) && Permutes(p, |s|)
    ensures Good(Picked(s, p), true)
  {
    var r := Picked(s, p);
    forall i, j | 0 <= i < j < |r| ensures r[i].name != r[j].name || r[i].lastNodeIndex != r[j].lastNodeIndex {
      assert p[i] != p[j] && r[i] == s[p[i]] && r[j] == s[p[j]];
    }
    assert forall i :: 0 <= i < |r| ==> r[i] == s[p[i]];
  }

  lemma {:induction false} SortScalars(o: Order, s: seq<YamlNode>)
    requires Sorts(o) && forall i :: 0 <= i < |s| ==> s[i].lastNodeIndex == -1
    ensures Sort(o, s) == s
  {
    assert forall i :: 0 <= i < |s| ==> Indexes(s)[i] == -1;
    SortInOrder(o, s);
  }

  // ----- leaves under reordering -----

  lemma {:induction false} LeavesPerm(a: seq<YamlNode>, b: seq<YamlNode>)
    requires Perm(a, b)
    ensures Perm(Leaves(a), Leaves(b))
    decreases |a|
  {
    if a == [] {
      assert |multiset(b)| == 0;
    } else {
      assert a == [a[0]] + a[1..];
      var j := PermRemove(a[0], a[1..], b);
      LeavesPerm(a[1..], b[..j] + b[j + 1..]);
      LeavesConcat(b[..j], b[j + 1..]);
      LeavesAt(b, j);
      PermMiddle(NodeLeaves(a[0]), Leaves(a[1..]), Leaves(b[..j]), Leaves(b[j + 1..]));
    }
  }

  lemma {:induction false} PermMiddle<T>(x: seq<T>, a: seq<T>, b: seq<T>, c: seq<T>)
    requires Perm(a, b + c)
    ensures Perm(x + a, b + x + c)
  {
  }

  lemma {:induction false} PermConcat<T>(a: seq<T>, a': seq<T>, b: seq<T>, b': seq<T>)
    requires Perm(a, a') && Perm(b, b')
    ensures Perm(a + b, a' + b')
  {
  }

  lemma {:induction false} PermTrans<T>(a: seq<T>, b: seq<T>, c: seq<T>)
    requires Perm(a, b) && Perm(b, c)
    ensures Perm(a, c)
  {
  }

  lemma {:induction false} LeavesPointwise(a: seq<YamlNode>, b: seq<YamlNode>)
    requires |a| == |b| && forall i :: 0 <= i < |a| ==> Perm(NodeLeaves(a[i]), NodeLeaves(b[i]))
    ensures Perm(Leaves(a), Leaves(b))
    decreases |a|
  {
    if a != [] {
      LeavesPointwise(a[1..], b[1..]);
      PermConcat(NodeLeaves(a[0]), NodeLeaves(b[0]), Leaves(a[1..]), Leaves(b[1..]));
    }
  }

  // ----- the deep sort -----

  ghost predicate Ordered(nodes: seq<YamlNode>)
    decreases nodes, 0
  {
    forall i :: 0 <= i < |nodes| ==> OrderedNode(nodes[i])
  }

  ghost predicate OrderedNode(n: YamlNode)
    decreases n, 0
  {
    InOrder(n.valueList) && Ordered(n.valueList) && Ordered(n.children)
  }

  lemma {:induction false} DeepSortNode(o: Order, n: YamlNode)
    requires Sorts(o) && GoodNode(n)
    ensures GoodNode(DeepSort(o, n)) && OrderedNode(DeepSort(o, n))
    ensures Perm(NodeLeaves(DeepSort(o, n)), NodeLeaves(n))
    decreases n, 0
  {
    hide Sorts, Sort, InOrder;
    DeepSortParts(o, n);
    if n.arrayFlag {
      DeepSortList(o, n.valueList);
      UnderAllPerm(n.lastNodeIndex, n.name, ArrayLeaves(Sort(o, DeepSortAll(o, n.valueList))),
          ArrayLeaves(n.valueList));
    } else {
      assert Good(n.children, false);
      NothingInOrder();
      DeepSortNodes(o, n.children, false);
      UnderAllPerm(n.lastNodeIndex, n.name, Leaves(DeepSortAll(o, n.children)), Leaves(n.children));
    }
  }

  lemma {:induction false} DeepSortParts(o: Order, n: YamlNode)
    ensures n.valueList == [] ==> DeepSort(o, n) == n.(children := DeepSortAll(o, n.children))
    ensures n.children == [] ==> DeepSort(o, n) == n.(valueList := Sort(o, DeepSortAll(o, n.valueList)))
    ensures |DeepSortAll(o, n.children)| == |n.children|
  {
    assert DeepSortAll(o, []) == [];
  }

  lemma {:induction false} NothingInOrder()
    ensures InOrder([])
  {
  }

  lemma {:induction false} DeepSortNodes(o: Order, nodes: seq<YamlNode>, inArray: bool)
    requires Sorts(o) && Good(nodes, inArray)
    ensures Good(DeepSortAll(o, nodes), inArray) && Ordered(DeepSortAll(o, nodes))
    ensures Perm(Leaves(DeepSortAll(o, nodes)), Leaves(nodes))
    decreases nodes, 1
  {
    var after := DeepSortAll(o, nodes);
    forall i | 0 <= i < |nodes|
      ensures GoodNode(after[i]) && OrderedNode(after[i]) && Perm(NodeLeaves(after[i]), NodeLeaves(nodes[i]))
    {
      DeepSortNode(o, nodes[i]);
    }
    LeavesPointwise(after, nodes);
  }

  lemma {:induction false} DeepSortList(o: Order, vl: seq<YamlNode>)
    requires Sorts(o) && vl != [] && GoodList(vl)
    ensures var after := Sort(o, DeepSortAll(o, vl));
            after != [] && GoodList(after) && InOrder(after) && Ordered(after)
                && Perm(ArrayLeaves(after), ArrayLeaves(vl))
    decreases vl, 2
  {
    if ScalarList(vl) {
      DeepSortScalars(o, vl);
    } else {
      assert Good(vl, true);
      DeepSortNodes(o, vl, true);
      SortedNodes(o, DeepSortAll(o, vl), vl);
    }
  }

  lemma {:induction false} DeepSortScalars(o: Order, vl: seq<YamlNode>)
    requires Sorts(o) && ScalarList(vl)
    ensures Sort(o, DeepSortAll(o, vl)) == vl && InOrder(vl) && Ordered(vl)
  {
    assert DeepSortAll(o, []) == [];
    assert DeepSortAll(o, vl) == vl;
    SortScalars(o, vl);
  }

  lemma {:induction false} SortedNodes(o: Order, mid: seq<YamlNode>, vl: seq<YamlNode>)
    requires Sorts(o) && vl != [] && |mid| == |vl| && Good(vl, true) && Good(mid, true) && Ordered(mid)
    requires Perm(Leaves(mid), Leaves(vl))
    ensures var after := Sort(o, mid);
            after != [] && Good(after, true) && InOrder(after) && Ordered(after)
                && Perm(ArrayLeaves(after), ArrayLeaves(vl))
  {
    var after := Sort(o, mid);
    SortGood(o, mid);
    SortOrdered(o, mid);
    SortPerm(o, mid);
    LeavesPerm(after, mid);
    PermTrans(Leaves(after), Leaves(mid), Leaves(vl));
    assert vl[0].lastNodeIndex >= 0 && after[0].lastNodeIndex >= 0;
  }

  lemma {:induction false} SortOrdered(o: Order, mid: seq<YamlNode>)
    requires Ordered(mid)
    ensures Ordered(Sort(o, mid))
  {
    forall i | 0 <= i < |mid| ensures OrderedNode(Sort(o, mid)[i]) {
      SortMember(o, mid, i);
    }
  }
}
