/** The trie nodes of storage/tree.go, updated in place: AddNode and Flatten proved to
    take the tree below a node to the values PathTree.dfy and PathFlatten.dfy name. */
module PathNodes {
  import opened Runs
  import opened PathTree
  import opened PathFlatten

  class Node<V> {
    var name: string
    var fullPath: string
    var value: Option<V>
    var children: seq<Node<V>>
    ghost var repr: set<object>

    /** The nodes below this one form a tree: no sharing, no cycle. */
    ghost predicate Valid()
      reads this, repr
      decreases repr
    {
      && this in repr
      && (forall i :: 0 <= i < |children| ==>
            children[i] in repr && children[i].repr < repr && this !in children[i].repr && children[i].Valid())
      && (forall i, j :: 0 <= i < j < |children| ==> children[i].repr !! children[j].repr)
    }

    /** The value the tree below this node stands for. */
    ghost function Model(): Tree<V>
      requires Valid()
      reads this, repr
      decreases repr
    {
      var cs := children;
      Tree(name, fullPath, value,
           seq(|cs|, i requires 0 <= i < |cs| && cs[i].Valid() && cs[i].repr < repr
                       reads if 0 <= i < |cs| then {this, cs[i]} + cs[i].repr else {} => cs[i].Model()))
    }

    constructor (name: string, fullPath: string)
      ensures Valid() && fresh(repr) && repr == {this}
      ensures Model() == Tree(name, fullPath, None, [])
    {
      this.name, this.fullPath, value, children := name, fullPath, None, [];
      repr := {this};
    }

    /** Walks down from this node, which stands at `prefix`, comparing the last child
        only. */
    method AddNode(prefix: seq<string>, parts: seq<string>, v: V)
      requires Valid()
      modifies repr
      ensures Valid() && fresh(repr - old(repr)) && old(repr) <= repr
      ensures Model() == Add(old(Model()), prefix, Entry(parts, v))
      decreases |parts|
    {
      if |parts| == 0 {
        value := Some(v);
        return;
      }
      var n := |children|;
      if n > 0 && children[n - 1].name == parts[0] {
        AddToLast(prefix, parts, v);
      } else {
        AddAsNew(prefix, parts, v);
      }
    }

    method AddAsNew(prefix: seq<string>, parts: seq<string>, v: V)
      requires Valid() && parts != []
      requires children != [] ==> children[|children| - 1].name != parts[0]
      modifies repr
      ensures Valid() && fresh(repr - old(repr)) && old(repr) <= repr
      ensures Model() == Add(old(Model()), prefix, Entry(parts, v))
      decreases |parts|, 0
    {
      var child := new Node(parts[0], PathOf(prefix + [parts[0]]));
      child.AddNode(prefix + [parts[0]], parts[1..], v);
      Append(child);
    }

    method Append(child: Node<V>)
      requires Valid() && child.Valid() && child.repr !! repr
      modifies this
      ensures Valid() && repr == old(repr) + child.repr
      ensures Model() == old(Model()).(children := old(Model()).children + [old(child.Model())])
    {
      children := children + [child];
      repr := repr + child.repr;
    }

    /** Child `i` changed in place and may have grown, and this node's footprint grew with
        it; nothing else did. */
    twostate predicate ChildChanged(i: nat)
      reads this, repr
      requires old(Valid())
    {
      && children == old(children) && i < |children| && old(repr) <= repr
      && name == old(name) && fullPath == old(fullPath) && value == old(value)
      && repr == old(repr) + children[i].repr
      && children[i].Valid()
      && children[i].repr >= old(children[i].repr) && fresh(children[i].repr - old(children[i].repr))
      && forall o :: o in old(repr) && o != this && o !in old(children[i].repr) ==> unchanged(o)
    }

    twostate predicate SiblingStays(i: nat, k: nat)
      requires old(Valid()) && ChildChanged(i) && k < |children|
      reads this, repr
    {
      && children[k].repr == old(children[k].repr)
      && children[k].repr !! children[i].repr && children[k].repr < repr && this !in children[k].repr
      && children[k].Valid()
      && children[k].Model() == old(children[k].Model())
    }

    twostate lemma {:induction false} SiblingsStay(i: nat)
      requires old(Valid()) && ChildChanged(i)
      ensures forall k :: 0 <= k < |children| && k != i ==> SiblingStays(i, k)
    {
      assert forall k, o :: 0 <= k < |children| && k != i && o in old(children[k].repr) ==> unchanged(o);
    }

    twostate lemma {:induction false} ChildChangedKeeps(i: nat)
      requires old(Valid()) && ChildChanged(i)
      ensures Valid()
      ensures Model() == old(Model()).(children := old(Model()).children[i := children[i].Model()])
    {
      SiblingsStay(i);
    }

    method AddToLast(prefix: seq<string>, parts: seq<string>, v: V)
      requires Valid() && parts != [] && children != [] && children[|children| - 1].name == parts[0]
      modifies repr
      ensures Valid() && fresh(repr - old(repr)) && old(repr) <= repr
      ensures Model() == Add(old(Model()), prefix, Entry(parts, v))
      decreases |parts|, 0
    {
      var n := |children|;
      var child := children[n - 1];
      child.AddNode(prefix + [parts[0]], parts[1..], v);
      repr := repr + child.repr;
      ChildChangedKeeps(n - 1);
    }

    /** Terminates with the number of nodes; nothing is allocated. */
    method Flatten()
      requires Valid()
      modifies repr
      ensures Valid() && repr == old(repr)
      ensures Model() == Flat(old(Model()))
      decreases Size(Model()), 1
    {
      FlattenChildren();
      if |children| == 1 {
        FlatAllSizes(old(Model()));
        TakeOverChild();
        Flatten();
      }
    }

    method FlattenChild(i: nat)
      requires Valid() && i < |children|
      modifies children[i].repr
      ensures Valid() && repr == old(repr) && children == old(children)
      ensures Model() == old(Model()).(children := old(Model()).children[i := Flat(old(Model()).children[i])])
      decreases Size(Model()), 0, 0
    {
      SizeAllMember(Model().children, i);
      children[i].Flatten();
      ChildChangedKeeps(i);
    }

    method FlattenChildren()
      requires Valid()
      modifies repr
      ensures Valid() && repr == old(repr)
      ensures Model() == old(Model()).(children := FlatAll(old(Model()).children))
      decreases Size(Model()), 0, 1
    {
      ghost var start := Model();
      for i := 0 to |children|
        invariant Valid() && repr == old(repr) && children == old(children)
        invariant Model() == start.(children := FlatFirst(start.children, i))
        invariant Size(Model()) <= Size(start)
      {
        FlatFirstNext(start.children, i);
        FlattenChild(i);
      }
      FlatAllAt(start.children);
      assert FlatFirst(start.children, |start.children|) == FlatAll(start.children);
    }

    method TakeOverChild()
      requires Valid() && |children| == 1
      modifies this
      ensures Valid() && repr == old(repr)
      ensures Model() == Merge(old(Model()), old(Model()).children[0])
    {
      var child := children[0];
      name := Join(name, child.name);
      value := child.value;
      children := child.children;
      fullPath := child.fullPath;
    }
  }

  lemma FlatAllSizes<V>(t: Tree<V>)
    requires |t.children| == 1
    ensures Size(FlatAll(t.children)[0]) < Size(t)
  {
    var cs := FlatAll(t.children);
    assert cs[..0] == [];
  }

  lemma {:induction false} SizeUpdate<V>(ts: seq<Tree<V>>, i: nat, t: Tree<V>)
    requires i < |ts|
    ensures SizeAll(ts[i := t]) == SizeAll(ts) - Size(ts[i]) + Size(t)
    decreases |ts|
  {
    var n := |ts| - 1;
    if i == n {
      assert ts[i := t][..n] == ts[..n];
    } else {
      assert ts[i := t][..n] == ts[..n][i := t];
      SizeUpdate(ts[..n], i, t);
    }
  }

  /** The children after the first `n` of them were flattened. */
  function FlatFirst<V>(ts: seq<Tree<V>>, n: nat): (rs: seq<Tree<V>>)
    requires n <= |ts|
    ensures |rs| == |ts|
    ensures forall i :: 0 <= i < |ts| ==> rs[i] == if i < n then Flat(ts[i]) else ts[i]
  {
    if n == 0 then ts else FlatFirst(ts, n - 1)[n - 1 := Flat(ts[n - 1])]
  }

  lemma FlatFirstNext<V>(ts: seq<Tree<V>>, n: nat)
    requires n < |ts|
    ensures FlatFirst(ts, n + 1) == FlatFirst(ts, n)[n := Flat(ts[n])]
    ensures SizeAll(FlatFirst(ts, n + 1)) <= SizeAll(FlatFirst(ts, n))
  {
    SizeUpdate(FlatFirst(ts, n), n, Flat(ts[n]));
  }

  /** Results.AsTree: the results of a run, in the order the store returns them. */
  method AsTree<V>(results: seq<Entry<V>>) returns (tree: Node<V>)
    ensures tree.Valid() && fresh(tree.repr)
    ensures tree.Model() == Flat(Build(Root(), [], results))
    ensures NoSingleChild(tree.Model())
  {
    tree := new Node("", "");
    for i := 0 to |results|
      invariant tree.Valid() && fresh(tree.repr)
      invariant tree.Model() == Build(Root(), [], results[..i])
    {
      assert results[..i + 1][..i] == results[..i];
      tree.AddNode([], results[i].parts, results[i].value);
    }
    assert results[..|results|] == results;
    FlatIsTight(tree.Model());
    tree.Flatten();
  }
}
