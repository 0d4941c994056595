/** Flatten of storage/tree.go on trie values: chains of single children are merged into
    one node, bottom up, and a merged node is flattened again. */
module PathFlatten {
  import opened Runs
  import opened PathTree

  function Size<V>(t: Tree<V>): (n: nat)
    ensures n > 0
    decreases t
  {
    1 + SizeAll(t.children)
  }

  function SizeAll<V>(ts: seq<Tree<V>>): nat
    decreases ts
  {
    if ts == [] then 0 else SizeAll(ts[..|ts| - 1]) + Size(ts[|ts| - 1])
  }

  /** A node takes over its only child. */
  function Merge<V>(t: Tree<V>, child: Tree<V>): (m: Tree<V>)
    ensures Size(m) == Size(child)
  {
    Tree(Join(t.name, child.name), child.fullPath, child.value, child.children)
  }

  /** Terminates because every merge drops one node. */
  function Flat<V>(t: Tree<V>): (r: Tree<V>)
    ensures Size(r) <= Size(t)
    decreases Size(t), 0
  {
    var cs := FlatAll(t.children);
    if |cs| == 1 then
      assert SizeAll(cs) == Size(cs[0]) by { assert cs[..0] == []; }
      Flat(Merge(t, cs[0]))
    else t.(children := cs)
  }

  function FlatAll<V>(ts: seq<Tree<V>>): (rs: seq<Tree<V>>)
    ensures |rs| == |ts| && SizeAll(rs) <= SizeAll(ts)
    decreases SizeAll(ts), 1
  {
    if ts == [] then []
    else
      var before, last := FlatAll(ts[..|ts| - 1]), Flat(ts[|ts| - 1]);
      assert (before + [last])[..|before|] == before;
      before + [last]
  }

  lemma {:induction false} FlatAllAt<V>(ts: seq<Tree<V>>)
    ensures forall i :: 0 <= i < |ts| ==> FlatAll(ts)[i] == Flat(ts[i])
    decreases |ts|
  {
    if ts != [] {
      FlatAllAt(ts[..|ts| - 1]);
    }
  }

  // ------------------------------------------------------------ normal form

  ghost predicate NoSingleChild<V>(t: Tree<V>)
    decreases t
  {
    |t.children| != 1 && forall i :: 0 <= i < |t.children| ==> NoSingleChild(t.children[i])
  }

  lemma {:induction false} SizeAllMember<V>(ts: seq<Tree<V>>, i: nat)
    requires i < |ts|
    ensures Size(ts[i]) <= SizeAll(ts)
    decreases |ts|
  {
    if i < |ts| - 1 {
      SizeAllMember(ts[..|ts| - 1], i);
    }
  }

  /** No node of the result has exactly one child. */
  lemma {:induction false} FlatIsTight<V>(t: Tree<V>)
    ensures NoSingleChild(Flat(t))
    decreases Size(t)
  {
    FlatAllAt(t.children);
    forall i | 0 <= i < |t.children| ensures NoSingleChild(FlatAll(t.children)[i]) {
      SizeAllMember(t.children, i);
      FlatIsTight(t.children[i]);
    }
    var cs := FlatAll(t.children);
    if |cs| == 1 {
      MergeIsFlat(t, cs[0]);
    }
  }

  lemma {:induction false} FlatFixed<V>(t: Tree<V>)
    requires NoSingleChild(t)
    ensures Flat(t) == t
    decreases t
  {
    FlatAllAt(t.children);
    forall i | 0 <= i < |t.children| ensures FlatAll(t.children)[i] == t.children[i] {
      FlatFixed(t.children[i]);
    }
    assert FlatAll(t.children) == t.children;
  }

  /** Entering the merged node again finds nothing left to merge. */
  lemma MergeIsFlat<V>(t: Tree<V>, c: Tree<V>)
    requires NoSingleChild(c)
    ensures Flat(Merge(t, c)) == Merge(t, c) && NoSingleChild(Merge(t, c))
  {
    FlatFixed(Merge(t, c));
  }

  lemma FlatIdempotent<V>(t: Tree<V>)
    ensures Flat(Flat(t)) == Flat(t)
  {
    FlatIsTight(t);
    FlatFixed(Flat(t));
  }

  /** The same merging in one bottom-up pass. */
  function Squash<V>(t: Tree<V>): Tree<V>
    decreases t
  {
    var cs := seq(|t.children|, i requires 0 <= i < |t.children| => Squash(t.children[i]));
    if |cs| == 1 then Merge(t, cs[0]) else t.(children := cs)
  }

  lemma {:induction false} FlatIsSquash<V>(t: Tree<V>)
    ensures Flat(t) == Squash(t)
    decreases t
  {
    FlatAllAt(t.children);
    forall i | 0 <= i < |t.children| ensures FlatAll(t.children)[i] == Squash(t.children[i]) {
      FlatIsSquash(t.children[i]);
    }
    var cs := seq(|t.children|, i requires 0 <= i < |t.children| => Squash(t.children[i]));
    assert FlatAll(t.children) == cs;
    if |cs| == 1 {
      FlatIsTight(t.children[0]);
      MergeIsFlat(t, cs[0]);
    }
  }

  // ------------------------------------------------------------ what is kept

  /** A node as seen from the root: the names down to it, joined, and its fields. */
  datatype Seen<V> = Seen(spelled: string, fullPath: string, value: Option<V>, children: nat)

  /** The nodes in pre-order, without those that have exactly one child. */
  function Kept<V>(t: Tree<V>, above: string): seq<Seen<V>>
    decreases t
  {
    var here := Join(above, t.name);
    (if |t.children| == 1 then [] else [Seen(here, t.fullPath, t.value, |t.children|)]) + KeptAll(t.children, here)
  }

  function KeptAll<V>(ts: seq<Tree<V>>, above: string): seq<Seen<V>>
    decreases ts
  {
    if ts == [] then [] else KeptAll(ts[..|ts| - 1], above) + Kept(ts[|ts| - 1], above)
  }

  /** All nodes in pre-order. */
  function Nodes<V>(t: Tree<V>, above: string): seq<Seen<V>>
    decreases t
  {
    var here := Join(above, t.name);
    [Seen(here, t.fullPath, t.value, |t.children|)] + NodesAll(t.children, here)
  }

  function NodesAll<V>(ts: seq<Tree<V>>, above: string): seq<Seen<V>>
    decreases ts
  {
    if ts == [] then [] else NodesAll(ts[..|ts| - 1], above) + Nodes(ts[|ts| - 1], above)
  }

  lemma JoinAssociates(a: string, b: string, c: string)
    ensures Join(Join(a, b), c) == Join(a, Join(b, c))
  {
    if a != "" && b != "" && c != "" {
      assert (a + "/" + b) + "/" + c == a + "/" + (b + "/" + c);
    }
  }

  lemma MergeKeeps<V>(t: Tree<V>, c: Tree<V>, above: string)
    ensures Kept(Merge(t, c), above) == Kept(t.(children := [c]), above)
  {
    JoinAssociates(above, t.name, c.name);
    assert [c][..0] == [];
    assert KeptAll([c], Join(above, t.name)) == [] + Kept(c, Join(above, t.name));
  }

  lemma {:induction false} SquashKeeps<V>(t: Tree<V>, above: string)
    ensures Kept(Squash(t), above) == Kept(t, above)
    decreases t, 1
  {
    var cs := seq(|t.children|, i requires 0 <= i < |t.children| => Squash(t.children[i]));
    SquashAllKeeps(t, |t.children|, Join(above, t.name));
    assert cs[..|cs|] == cs && t.children[..|t.children|] == t.children;
    assert Kept(t.(children := cs), above) == Kept(t, above);
    if |cs| == 1 {
      MergeKeeps(t, cs[0], above);
      assert cs == [cs[0]];
    }
  }

  lemma {:induction false} SquashAllKeeps<V>(t: Tree<V>, n: nat, above: string)
    requires n <= |t.children|
    ensures var cs := seq(|t.children|, i requires 0 <= i < |t.children| => Squash(t.children[i]));
            KeptAll(cs[..n], above) == KeptAll(t.children[..n], above)
    decreases t, 0, n
  {
    if n > 0 {
      var cs := seq(|t.children|, i requires 0 <= i < |t.children| => Squash(t.children[i]));
      SquashAllKeeps(t, n - 1, above);
      SquashKeeps(t.children[n - 1], above);
      assert cs[..n][..n - 1] == cs[..n - 1] && t.children[..n][..n - 1] == t.children[..n - 1];
    }
  }

  lemma {:induction false} TightNodesAreKept<V>(t: Tree<V>, above: string)
    requires NoSingleChild(t)
    ensures Nodes(t, above) == Kept(t, above)
    decreases t, 1
  {
    TightNodesAllKept(t, |t.children|, Join(above, t.name));
    assert t.children[..|t.children|] == t.children;
  }

  lemma {:induction false} TightNodesAllKept<V>(t: Tree<V>, n: nat, above: string)
    requires NoSingleChild(t) && n <= |t.children|
    ensures NodesAll(t.children[..n], above) == KeptAll(t.children[..n], above)
    decreases t, 0, n
  {
    if n > 0 {
      TightNodesAllKept(t, n - 1, above);
      TightNodesAreKept(t.children[n - 1], above);
      assert t.children[..n][..n - 1] == t.children[..n - 1];
    }
  }

  /** Flattening keeps exactly the nodes without a single child, in order, each with its
      full path, value, number of children and spelled path. */
  lemma FlattenKeepsExactly<V>(t: Tree<V>, above: string)
    ensures Nodes(Flat(t), above) == Kept(t, above)
  {
    FlatIsTight(t);
    FlatIsSquash(t);
    SquashKeeps(t, above);
    TightNodesAreKept(Flat(t), above);
  }

  /** A value survives at its node exactly when the node does not have a single child;
      otherwise it cannot influence the result at all. */
  lemma SingleChildValueIsDropped<V>(t: Tree<V>, other: Option<V>)
    ensures |t.children| == 1 ==> Flat(t.(value := other)) == Flat(t)
    ensures |t.children| != 1 ==> Flat(t).value == t.value && Flat(t).fullPath == t.fullPath
  {
  }

  // ------------------------------------------------------ leaves of the trie

  function Leaves<V>(seen: seq<Seen<V>>): seq<Seen<V>> {
    if seen == [] then []
    else Leaves(seen[..|seen| - 1]) + if seen[|seen| - 1].children == 0 then [seen[|seen| - 1]] else []
  }

  lemma {:induction false} LeavesAppend<V>(a: seq<Seen<V>>, b: seq<Seen<V>>)
    ensures Leaves(a + b) == Leaves(a) + Leaves(b)
    decreases |b|
  {
    if b == [] {
      assert a + b == a && Leaves(a) + [] == Leaves(a);
    } else {
      assert (a + b)[..|a| + |b| - 1] == a + b[..|b| - 1];
      LeavesAppend(a, b[..|b| - 1]);
    }
  }

  lemma {:induction false} KeptLeaves<V>(t: Tree<V>, above: string)
    ensures Leaves(Kept(t, above)) == Leaves(Nodes(t, above))
    decreases t, 1
  {
    var here := Join(above, t.name);
    var seen := Seen(here, t.fullPath, t.value, |t.children|);
    KeptLeavesAll(t, |t.children|, here);
    assert t.children[..|t.children|] == t.children;
    LeavesAppend([seen], NodesAll(t.children, here));
    LeavesAppend(if |t.children| == 1 then [] else [seen], KeptAll(t.children, here));
    assert [seen][..0] == [];
  }

  lemma {:induction false} KeptLeavesAll<V>(t: Tree<V>, n: nat, above: string)
    requires n <= |t.children|
    ensures Leaves(KeptAll(t.children[..n], above)) == Leaves(NodesAll(t.children[..n], above))
    decreases t, 0, n
  {
    if n > 0 {
      KeptLeavesAll(t, n - 1, above);
      KeptLeaves(t.children[n - 1], above);
      assert t.children[..n][..n - 1] == t.children[..n - 1];
      LeavesAppend(KeptAll(t.children[..n - 1], above), Kept(t.children[n - 1], above));
      LeavesAppend(NodesAll(t.children[..n - 1], above), Nodes(t.children[n - 1], above));
    }
  }

  /** The leaves keep their order, full paths, values and spelled paths. */
  lemma FlattenKeepsLeaves<V>(t: Tree<V>)
    ensures Leaves(Nodes(Flat(t), "")) == Leaves(Nodes(t, ""))
  {
    FlattenKeepsExactly(t, "");
    KeptLeaves(t, "");
  }

  // --------------------------------------------------------------- full paths

  /** Every node below `t`, which stands at `prefix`, carries the path of its components. */
  ghost predicate PathsMatch<V>(t: Tree<V>, prefix: seq<string>)
    decreases t
  {
    forall i :: 0 <= i < |t.children| ==>
      var below := prefix + [t.children[i].name];
      t.children[i].fullPath == PathOf(below) && PathsMatch(t.children[i], below)
  }

  lemma {:induction false} AddMatches<V>(t: Tree<V>, prefix: seq<string>, e: Entry<V>)
    requires PathsMatch(t, prefix)
    ensures PathsMatch(Add(t, prefix, e), prefix)
    decreases |e.parts|
  {
    if e.parts != [] {
      var rest := Entry(e.parts[1..], e.value);
      var below := prefix + [e.parts[0]];
      var n := |t.children|;
      var from := if Continues(t.children, e.parts[0]) then t.children[n - 1] else Fresh(prefix, e.parts[0]);
      AddMatches(from, below, rest);
    }
  }

  lemma {:induction false} BuildMatches<V>(entries: seq<Entry<V>>)
    ensures PathsMatch(Build(Root(), [], entries), []) && Build(Root(), [], entries).name == ""
    decreases |entries|
  {
    if entries != [] {
      var before := Build(Root(), [], entries[..|entries| - 1]);
      BuildMatches(entries[..|entries| - 1]);
      AddMatches(before, [], entries[|entries| - 1]);
    }
  }

  predicate WellSpelled<V>(seen: seq<Seen<V>>) {
    forall k :: 0 <= k < |seen| ==> seen[k].fullPath == "/" + seen[k].spelled
  }

  lemma {:induction false} NodesSpelled<V>(t: Tree<V>, prefix: seq<string>, above: string)
    requires PathsMatch(t, prefix) && t.fullPath == PathOf(prefix) && Join(above, t.name) == JoinAll(prefix)
    ensures WellSpelled(Nodes(t, above))
    decreases t, 1
  {
    NodesAllSpelled(t, |t.children|, prefix);
    assert t.children[..|t.children|] == t.children;
  }

  lemma {:induction false} NodesAllSpelled<V>(t: Tree<V>, n: nat, prefix: seq<string>)
    requires n <= |t.children| && PathsMatch(t, prefix)
    ensures WellSpelled(NodesAll(t.children[..n], JoinAll(prefix)))
    decreases t, 0, n
  {
    if n > 0 {
      var c := t.children[n - 1];
      NodesAllSpelled(t, n - 1, prefix);
      assert (prefix + [c.name])[..|prefix|] == prefix;
      NodesSpelled(c, prefix + [c.name], JoinAll(prefix));
      assert t.children[..n][..n - 1] == t.children[..n - 1];
    }
  }

  /** Flattening spells the same paths: in the tree of any stored results every node but
      the first has the joined names from the root as its full path. */
  lemma FlattenedPathsSpell<V>(entries: seq<Entry<V>>)
    ensures var seen := Nodes(Flat(Build(Root(), [], entries)), "");
            seen != [] && WellSpelled(seen[1..])
    ensures var t := Build(Root<V>(), [], entries); |t.children| == 1 ==> WellSpelled(Nodes(Flat(t), ""))
  {
    var t := Build(Root(), [], entries);
    BuildMatches(entries);
    FlattenKeepsExactly(t, "");
    NodesAllSpelled(t, |t.children|, []);
    assert t.children[..|t.children|] == t.children;
    KeptSpelled(t.children, "");
    var seen := Nodes(Flat(t), "");
    if |t.children| == 1 {
      assert seen == [] + KeptAll(t.children, "");
    } else {
      assert seen[1..] == KeptAll(t.children, "");
    }
  }

  lemma SpelledAppend<V>(a: seq<Seen<V>>, b: seq<Seen<V>>)
    ensures WellSpelled(a + b) <==> WellSpelled(a) && WellSpelled(b)
  {
    if WellSpelled(a + b) {
      assert forall k :: 0 <= k < |a| ==> a[k] == (a + b)[k];
      forall k | 0 <= k < |b| ensures b[k].fullPath == "/" + b[k].spelled {
        assert b[k] == (a + b)[|a| + k];
      }
    }
  }

  lemma {:induction false} KeptSpelled<V>(ts: seq<Tree<V>>, above: string)
    requires WellSpelled(NodesAll(ts, above))
    ensures WellSpelled(KeptAll(ts, above))
    decreases ts
  {
    if ts != [] {
      var before, t := ts[..|ts| - 1], ts[|ts| - 1];
      var here := Join(above, t.name);
      var seen := Seen(here, t.fullPath, t.value, |t.children|);
      SpelledAppend(NodesAll(before, above), Nodes(t, above));
      SpelledAppend([seen], NodesAll(t.children, here));
      KeptSpelled(before, above);
      KeptSpelled(t.children, here);
      SpelledAppend(if |t.children| == 1 then [] else [seen], KeptAll(t.children, here));
      SpelledAppend(KeptAll(before, above), Kept(t, above));
    }
  }
}
