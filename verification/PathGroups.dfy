/** When adding paths one after the other builds a trie with unique siblings: exactly when
    the paths come grouped by every prefix. Byte-sorted paths need not. */
module PathGroups {
  import opened Runs
  import opened PathTree

  function Next<V>(e: Entry<V>, q: seq<string>): seq<string> {
    if |q| < |e.parts| && e.parts[..|q|] == q then [e.parts[|q|]] else []
  }

  /** The components that follow the directory `q`, in the order the paths are added. */
  function Nexts<V>(entries: seq<Entry<V>>, q: seq<string>): seq<string> {
    if entries == [] then [] else Nexts(entries[..|entries| - 1], q) + Next(entries[|entries| - 1], q)
  }

  /** Nothing comes back once something else has come. */
  ghost predicate NoReturn(s: seq<string>) {
    forall i, j, k :: 0 <= i < j < k < |s| && s[i] == s[k] ==> s[j] == s[i]
  }

  /** Below every directory, the paths through one child come in one block. */
  ghost predicate Grouped<V(!new)>(entries: seq<Entry<V>>) {
    forall q :: NoReturn(Nexts(entries, q))
  }

  // --------------------------------------------------------------------- runs

  /** A maximal run of entries that share their first component. */
  datatype Block<V> = Block(head: string, rest: seq<Entry<V>>)

  function Tail<V>(e: Entry<V>): Entry<V>
    requires e.parts != []
  {
    Entry(e.parts[1..], e.value)
  }

  function Blocks<V>(entries: seq<Entry<V>>): seq<Block<V>> {
    if entries == [] then []
    else
      var e := entries[|entries| - 1];
      var blocks := Blocks(entries[..|entries| - 1]);
      var n := |blocks|;
      if e.parts == [] then blocks
      else if n > 0 && blocks[n - 1].head == e.parts[0] then
        blocks[..n - 1] + [Block(blocks[n - 1].head, blocks[n - 1].rest + [Tail(e)])]
      else blocks + [Block(e.parts[0], [Tail(e)])]
  }

  function BlockTree<V>(prefix: seq<string>, b: Block<V>): Tree<V> {
    Build(Fresh(prefix, b.head), prefix + [b.head], b.rest)
  }

  lemma {:induction false} BuildKeepsName<V>(t: Tree<V>, prefix: seq<string>, entries: seq<Entry<V>>)
    ensures Build(t, prefix, entries).name == t.name
    decreases |entries|
  {
    if entries != [] {
      BuildKeepsName(t, prefix, entries[..|entries| - 1]);
    }
  }

  lemma BuildSnoc<V>(t: Tree<V>, prefix: seq<string>, entries: seq<Entry<V>>, e: Entry<V>)
    ensures Build(t, prefix, entries + [e]) == Add(Build(t, prefix, entries), prefix, e)
  {
    assert (entries + [e])[..|entries|] == entries;
  }

  ghost predicate ChildrenAre<V>(t: Tree<V>, prefix: seq<string>, blocks: seq<Block<V>>) {
    |t.children| == |blocks| && forall i :: 0 <= i < |blocks| ==> t.children[i] == BlockTree(prefix, blocks[i])
  }

  /** The children of a node are the tries of the runs below it. */
  lemma {:induction false} ChildrenAreBlocks<V>(t: Tree<V>, prefix: seq<string>, entries: seq<Entry<V>>)
    requires t.children == []
    ensures ChildrenAre(Build(t, prefix, entries), prefix, Blocks(entries))
    decreases |entries|
  {
    if entries != [] {
      var before, e := entries[..|entries| - 1], entries[|entries| - 1];
      ChildrenAreBlocks(t, prefix, before);
      if e.parts != [] {
        var blocks := Blocks(before);
        if |blocks| > 0 && blocks[|blocks| - 1].head == e.parts[0] {
          ChildGrows(Build(t, prefix, before), prefix, blocks, e);
        } else {
          ChildAppears(Build(t, prefix, before), prefix, blocks, e);
        }
      }
    }
  }

  lemma ChildGrows<V>(u: Tree<V>, prefix: seq<string>, blocks: seq<Block<V>>, e: Entry<V>)
    requires e.parts != [] && ChildrenAre(u, prefix, blocks)
    requires blocks != [] && blocks[|blocks| - 1].head == e.parts[0]
    ensures var b := blocks[|blocks| - 1];
            ChildrenAre(Add(u, prefix, e), prefix, blocks[..|blocks| - 1] + [Block(b.head, b.rest + [Tail(e)])])
  {
    var n := |blocks|;
    var head, rest := blocks[n - 1].head, blocks[n - 1].rest;
    assert u.children[n - 1] == BlockTree(prefix, blocks[n - 1]);
    BuildKeepsName(Fresh(prefix, head), prefix + [head], rest);
    BuildSnoc(Fresh(prefix, head), prefix + [head], rest, Tail(e));
    assert Add(u, prefix, e).children == u.children[..n - 1] + [BlockTree(prefix, Block(head, rest + [Tail(e)]))];
  }

  lemma ChildAppears<V>(u: Tree<V>, prefix: seq<string>, blocks: seq<Block<V>>, e: Entry<V>)
    requires e.parts != [] && ChildrenAre(u, prefix, blocks)
    requires blocks != [] ==> blocks[|blocks| - 1].head != e.parts[0]
    ensures ChildrenAre(Add(u, prefix, e), prefix, blocks + [Block(e.parts[0], [Tail(e)])])
  {
    var n := |blocks|;
    if n > 0 {
      BuildKeepsName(Fresh(prefix, blocks[n - 1].head), prefix + [blocks[n - 1].head], blocks[n - 1].rest);
      assert u.children[n - 1] == BlockTree(prefix, blocks[n - 1]);
    }
    BuildSnoc(Fresh(prefix, e.parts[0]), prefix + [e.parts[0]], [], Tail(e));
    assert [] + [Tail(e)] == [Tail(e)];
    assert Add(u, prefix, e).children == u.children + [BlockTree(prefix, Block(e.parts[0], [Tail(e)]))];
  }

  function Heads<V>(blocks: seq<Block<V>>): seq<string> {
    seq(|blocks|, i requires 0 <= i < |blocks| => blocks[i].head)
  }

  ghost predicate Distinct(s: seq<string>) { forall i, j :: 0 <= i < j < |s| ==> s[i] != s[j] }

  function Collapse(s: seq<string>): seq<string> {
    if s == [] then []
    else
      var before := Collapse(s[..|s| - 1]);
      if |s| > 1 && s[|s| - 2] == s[|s| - 1] then before else before + [s[|s| - 1]]
  }

  lemma {:induction false} CollapseMembers(s: seq<string>)
    ensures forall x :: x in Collapse(s) <==> x in s
    ensures s != [] ==> Collapse(s) != [] && Collapse(s)[|Collapse(s)| - 1] == s[|s| - 1]
    decreases |s|
  {
    if s != [] {
      CollapseMembers(s[..|s| - 1]);
      assert s == s[..|s| - 1] + [s[|s| - 1]];
    }
  }

  lemma DistinctSnoc(s: seq<string>, x: string)
    ensures Distinct(s + [x]) <==> Distinct(s) && x !in s
  {
    var t := s + [x];
    if Distinct(t) {
      forall i | 0 <= i < |s| ensures s[i] != x {
        assert t[i] != t[|s|];
      }
      forall i, j | 0 <= i < j < |s| ensures s[i] != s[j] {
        assert t[i] != t[j];
      }
    }
  }

  lemma {:induction false} CollapseDistinct(s: seq<string>)
    ensures Distinct(Collapse(s)) <==> NoReturn(s)
    decreases |s|
  {
    if s != [] {
      var before, x := s[..|s| - 1], s[|s| - 1];
      assert s == before + [x];
      CollapseDistinct(before);
      CollapseMembers(before);
      NoReturnSnoc(before, x);
      DistinctSnoc(Collapse(before), x);
    }
  }

  lemma NoReturnSnoc(s: seq<string>, x: string)
    ensures NoReturn(s + [x]) <==> NoReturn(s) && (x in s ==> s[|s| - 1] == x)
  {
    var t := s + [x];
    if NoReturn(t) {
      forall i, j, k | 0 <= i < j < k < |s| && s[i] == s[k] ensures s[j] == s[i] {
        assert t[i] == t[k] && t[j] == s[j];
      }
      forall i | 0 <= i < |s| && s[i] == x ensures s[|s| - 1] == x {
        assert t[i] == x && t[|s|] == x && t[|s| - 1] == s[|s| - 1];
      }
    }
  }

  lemma BlocksSnoc<V>(entries: seq<Entry<V>>)
    requires entries != [] && entries[|entries| - 1].parts != []
    ensures var heads := Heads(Blocks(entries[..|entries| - 1]));
            var head := entries[|entries| - 1].parts[0];
            Heads(Blocks(entries)) ==
            if heads != [] && heads[|heads| - 1] == head then heads else heads + [head]
  {
  }

  /** The first components of the runs are the components below the node, each run
      counted once. */
  lemma {:induction false} HeadsAreCollapsed<V>(entries: seq<Entry<V>>)
    ensures Heads(Blocks(entries)) == Collapse(Nexts(entries, []))
    decreases |entries|
  {
    if entries != [] {
      var before, e := entries[..|entries| - 1], entries[|entries| - 1];
      HeadsAreCollapsed(before);
      if e.parts != [] {
        BlocksSnoc(entries);
        CollapseMembers(Nexts(before, []));
        assert e.parts[..0] == [];
      } else {
        assert Nexts(before, []) + [] == Nexts(before, []);
        assert Nexts(entries, []) == Nexts(before, []);
      }
    }
  }

  function TailOf<V>(e: Entry<V>, h: string): seq<Entry<V>> {
    if e.parts != [] && e.parts[0] == h then [Tail(e)] else []
  }

  /** The entries through the child `h`, without that component. */
  function Tails<V>(entries: seq<Entry<V>>, h: string): seq<Entry<V>> {
    if entries == [] then [] else Tails(entries[..|entries| - 1], h) + TailOf(entries[|entries| - 1], h)
  }

  /** Appending at most one entry. */
  lemma NextsAppend<V>(entries: seq<Entry<V>>, more: seq<Entry<V>>, q: seq<string>)
    requires |more| <= 1
    ensures Nexts(entries + more, q) == Nexts(entries, q) + Nexts(more, q)
  {
    if more == [] {
      assert entries + more == entries && Nexts(entries, q) + [] == Nexts(entries, q);
    } else {
      assert (entries + more)[..|entries|] == entries && more[..0] == [];
    }
  }

  lemma NextOfTail<V>(e: Entry<V>, h: string, q: seq<string>)
    ensures Next(e, [h] + q) == Nexts(TailOf(e, h), q)
  {
    if e.parts != [] && e.parts[0] == h {
      assert e.parts == [h] + Tail(e).parts && [Tail(e)][..0] == [];
      assert |q| < |Tail(e).parts| ==> (e.parts[..|q| + 1] == [h] + q <==> Tail(e).parts[..|q|] == q);
    } else {
      assert |e.parts| > |q| + 1 ==> e.parts[..|q| + 1][0] == e.parts[0] != h == ([h] + q)[0];
    }
  }

  lemma {:induction false} NextsBelow<V>(entries: seq<Entry<V>>, h: string, q: seq<string>)
    ensures Nexts(entries, [h] + q) == Nexts(Tails(entries, h), q)
    decreases |entries|
  {
    if entries != [] {
      var before, e := entries[..|entries| - 1], entries[|entries| - 1];
      NextsBelow(before, h, q);
      NextOfTail(e, h, q);
      NextsAppend(Tails(before, h), TailOf(e, h), q);
    }
  }

  ghost predicate BlocksAreTails<V>(entries: seq<Entry<V>>) {
    && (forall i :: 0 <= i < |Blocks(entries)| ==> Blocks(entries)[i].rest == Tails(entries, Blocks(entries)[i].head))
    && (forall h :: h !in Heads(Blocks(entries)) ==> Tails(entries, h) == [])
  }

  lemma {:induction false} DistinctBlocksAreTails<V>(entries: seq<Entry<V>>)
    requires Distinct(Heads(Blocks(entries)))
    ensures BlocksAreTails(entries)
    decreases |entries|
  {
    if entries != [] {
      var before, e := entries[..|entries| - 1], entries[|entries| - 1];
      var heads := Heads(Blocks(before));
      if e.parts == [] {
        DistinctBlocksAreTails(before);
        assert forall h :: Tails(entries, h) == Tails(before, h) + [];
      } else {
        BlocksSnoc(entries);
        if heads != [] && heads[|heads| - 1] == e.parts[0] {
          DistinctBlocksAreTails(before);
          GrownBlockIsTail(entries);
        } else {
          DistinctSnoc(heads, e.parts[0]);
          DistinctBlocksAreTails(before);
          NewBlockIsTail(entries);
        }
      }
    }
  }

  lemma OtherTailsEmpty<V>(entries: seq<Entry<V>>, heads: seq<string>)
    requires entries != [] && entries[|entries| - 1].parts != [] && entries[|entries| - 1].parts[0] in heads
    requires forall h :: h !in heads ==> Tails(entries[..|entries| - 1], h) == []
    ensures forall h :: h !in heads ==> Tails(entries, h) == []
  {
    forall h | h !in heads ensures Tails(entries, h) == [] {
    }
  }

  lemma GrownBlockIsTail<V>(entries: seq<Entry<V>>)
    requires entries != [] && entries[|entries| - 1].parts != []
    requires BlocksAreTails(entries[..|entries| - 1])
    requires var heads := Heads(Blocks(entries[..|entries| - 1]));
             Distinct(heads) && heads != [] && heads[|heads| - 1] == entries[|entries| - 1].parts[0]
    ensures BlocksAreTails(entries)
  {
    var earlier := Blocks(entries[..|entries| - 1]);
    var e, n := entries[|entries| - 1], |earlier|;
    var later := earlier[..n - 1] + [Block(e.parts[0], earlier[n - 1].rest + [Tail(e)])];
    HeadsAt(earlier);
    GrownTails(entries, earlier, later);
    OtherTailsEmpty(entries, Heads(earlier));
    assert Blocks(entries) == later;
    GrownHeads(earlier, later);
  }

  lemma HeadsAt<V>(blocks: seq<Block<V>>)
    ensures |Heads(blocks)| == |blocks| && forall i :: 0 <= i < |blocks| ==> Heads(blocks)[i] == blocks[i].head
  {
  }

  lemma GrownHeads<V>(earlier: seq<Block<V>>, later: seq<Block<V>>)
    requires earlier != [] && |later| == |earlier| && later[..|later| - 1] == earlier[..|earlier| - 1]
    requires later[|later| - 1].head == earlier[|earlier| - 1].head
    ensures Heads(later) == Heads(earlier)
  {
    forall i | 0 <= i < |later| - 1 ensures later[i] == earlier[i] {
      assert later[..|later| - 1][i] == earlier[..|earlier| - 1][i];
    }
  }

  lemma {:induction false} GrownTails<V>(entries: seq<Entry<V>>, earlier: seq<Block<V>>, later: seq<Block<V>>)
    requires entries != [] && entries[|entries| - 1].parts != [] && earlier != []
    requires forall i :: 0 <= i < |earlier| ==> earlier[i].rest == Tails(entries[..|entries| - 1], earlier[i].head)
    requires forall i :: 0 <= i < |earlier| - 1 ==> earlier[i].head != earlier[|earlier| - 1].head
    requires earlier[|earlier| - 1].head == entries[|entries| - 1].parts[0]
    requires later == earlier[..|earlier| - 1]
                      + [Block(entries[|entries| - 1].parts[0], earlier[|earlier| - 1].rest + [Tail(entries[|entries| - 1])])]
    ensures forall i :: 0 <= i < |later| ==> later[i].rest == Tails(entries, later[i].head)
  {
    forall i | 0 <= i < |later| ensures later[i].rest == Tails(entries, later[i].head) {
    }
  }

  lemma {:induction false} NewTails<V>(entries: seq<Entry<V>>, earlier: seq<Block<V>>, later: seq<Block<V>>)
    requires entries != [] && entries[|entries| - 1].parts != []
    requires forall i :: 0 <= i < |earlier| ==> earlier[i].rest == Tails(entries[..|entries| - 1], earlier[i].head)
    requires forall i :: 0 <= i < |earlier| ==> earlier[i].head != entries[|entries| - 1].parts[0]
    requires Tails(entries[..|entries| - 1], entries[|entries| - 1].parts[0]) == []
    requires later == earlier + [Block(entries[|entries| - 1].parts[0], [Tail(entries[|entries| - 1])])]
    ensures forall i :: 0 <= i < |later| ==> later[i].rest == Tails(entries, later[i].head)
  {
    forall i | 0 <= i < |later| ensures later[i].rest == Tails(entries, later[i].head) {
    }
  }

  lemma NewBlockIsTail<V>(entries: seq<Entry<V>>)
    requires entries != [] && entries[|entries| - 1].parts != []
    requires BlocksAreTails(entries[..|entries| - 1])
    requires entries[|entries| - 1].parts[0] !in Heads(Blocks(entries[..|entries| - 1]))
    ensures BlocksAreTails(entries)
  {
    var earlier := Blocks(entries[..|entries| - 1]);
    var e := entries[|entries| - 1];
    forall i | 0 <= i < |earlier| ensures earlier[i].head != e.parts[0] {
      assert Heads(earlier)[i] == earlier[i].head;
    }
    var later := earlier + [Block(e.parts[0], [Tail(e)])];
    NewTails(entries, earlier, later);
    assert Heads(later) == Heads(earlier) + [e.parts[0]];
    OtherTailsEmpty(entries, Heads(later));
    assert Blocks(entries) == later;
  }

  // -------------------------------------------------------------- main result

  ghost predicate Shallow<V>(entries: seq<Entry<V>>, depth: nat) {
    forall k :: 0 <= k < |entries| ==> |entries[k].parts| <= depth
  }

  lemma {:induction false} TailsShallow<V>(entries: seq<Entry<V>>, h: string, depth: nat)
    requires depth > 0 && Shallow(entries, depth)
    ensures Shallow(Tails(entries, h), depth - 1)
    decreases |entries|
  {
    if entries != [] {
      TailsShallow(entries[..|entries| - 1], h, depth);
    }
  }

  lemma {:induction false} FlatHasNoChildren<V>(entries: seq<Entry<V>>)
    requires Shallow(entries, 0)
    ensures Blocks(entries) == [] && forall q :: Nexts(entries, q) == []
    decreases |entries|
  {
    if entries != [] {
      FlatHasNoChildren(entries[..|entries| - 1]);
    }
  }

  lemma {:induction false} UniqueExactly<V(!new)>(t: Tree<V>, prefix: seq<string>, entries: seq<Entry<V>>, depth: nat)
    requires t.children == [] && Shallow(entries, depth)
    ensures UniqueSiblings(Build(t, prefix, entries)) <==> Grouped(entries)
    decreases depth
  {
    var blocks := Blocks(entries);
    var u := Build(t, prefix, entries);
    ChildrenAreBlocks(t, prefix, entries);
    if depth == 0 {
      FlatHasNoChildren(entries);
    } else {
      HeadsAreCollapsed(entries);
      CollapseDistinct(Nexts(entries, []));
      NamesAreHeads(u, prefix, blocks);
      if Distinct(Heads(blocks)) {
        DistinctBlocksAreTails(entries);
        forall i | 0 <= i < |blocks|
          ensures UniqueSiblings(u.children[i]) <==> Grouped(Tails(entries, blocks[i].head))
        {
          TailsShallow(entries, blocks[i].head, depth);
          UniqueExactly(Fresh(prefix, blocks[i].head), prefix + [blocks[i].head], blocks[i].rest, depth - 1);
        }
        GroupedBelow(entries);
      }
    }
  }

  lemma NamesAreHeads<V>(u: Tree<V>, prefix: seq<string>, blocks: seq<Block<V>>)
    requires ChildrenAre(u, prefix, blocks)
    ensures DistinctNames(u.children) <==> Distinct(Heads(blocks))
  {
    forall i | 0 <= i < |blocks| ensures u.children[i].name == Heads(blocks)[i] {
      BuildKeepsName(Fresh(prefix, blocks[i].head), prefix + [blocks[i].head], blocks[i].rest);
    }
  }

  lemma GroupedTails<V(!new)>(entries: seq<Entry<V>>, h: string)
    requires Grouped(entries)
    ensures Grouped(Tails(entries, h))
  {
    forall q ensures NoReturn(Nexts(Tails(entries, h), q)) {
      NextsBelow(entries, h, q);
      assert NoReturn(Nexts(entries, [h] + q));
    }
  }

  lemma GroupedFromTails<V(!new)>(entries: seq<Entry<V>>)
    requires NoReturn(Nexts(entries, [])) && forall h :: Grouped(Tails(entries, h))
    ensures Grouped(entries)
  {
    forall q ensures NoReturn(Nexts(entries, q)) {
      if q != [] {
        NextsBelow(entries, q[0], q[1..]);
        assert q == [q[0]] + q[1..];
        assert Grouped(Tails(entries, q[0]));
      }
    }
  }

  ghost predicate BlocksGrouped<V(!new)>(entries: seq<Entry<V>>) {
    forall i :: 0 <= i < |Blocks(entries)| ==> Grouped(Tails(entries, Blocks(entries)[i].head))
  }

  lemma GroupedBelow<V(!new)>(entries: seq<Entry<V>>)
    requires BlocksAreTails(entries)
    ensures Grouped(entries) <==> NoReturn(Nexts(entries, [])) && BlocksGrouped(entries)
  {
    var blocks := Blocks(entries);
    if Grouped(entries) {
      forall i | 0 <= i < |blocks| ensures Grouped(Tails(entries, blocks[i].head)) {
        GroupedTails(entries, blocks[i].head);
      }
    }
    if NoReturn(Nexts(entries, [])) && BlocksGrouped(entries) {
      forall h ensures Grouped(Tails(entries, h)) {
        if h in Heads(blocks) {
          var i :| 0 <= i < |blocks| && Heads(blocks)[i] == h;
          assert Grouped(Tails(entries, blocks[i].head));
        } else {
          assert forall q :: Nexts(Tails(entries, h), q) == [];
        }
      }
      GroupedFromTails(entries);
    }
  }

  lemma {:induction false} SomeDepth<V>(entries: seq<Entry<V>>) returns (depth: nat)
    ensures Shallow(entries, depth)
    decreases |entries|
  {
    depth := 0;
    if entries != [] {
      depth := SomeDepth(entries[..|entries| - 1]);
      var last := |entries[|entries| - 1].parts|;
      depth := if depth < last then last else depth;
      assert forall k :: 0 <= k < |entries| - 1 ==> |entries[..|entries| - 1][k].parts| == |entries[k].parts|;
    }
  }

  /** The built trie has unique siblings exactly when the paths are grouped. */
  lemma TrieExactly<V(!new)>(entries: seq<Entry<V>>)
    ensures UniqueSiblings(Build(Root(), [], entries)) <==> Grouped(entries)
  {
    var depth := SomeDepth(entries);
    UniqueExactly(Root(), [], entries, depth);
  }

  /** Grouped paths can all be looked up, each with its last value. */
  lemma GroupedLookup<V(!new)>(entries: seq<Entry<V>>, p: seq<string>)
    requires Grouped(entries)
    ensures Lookup(Build(Root(), [], entries), p) == LastValue(entries, p)
  {
    TrieExactly(entries);
    LookupGivesLastValue(entries, p);
  }

  // ------------------------------------------------------------- sorted paths

  /** strings.Split by the path separator. */
  function Split(path: string): (parts: seq<string>)
    ensures |parts| > 0
  {
    if path == "" then [""]
    else
      var rest := Split(path[1..]);
      if path[0] == '/' then [""] + rest else [[path[0]] + rest[0]] + rest[1..]
  }

  lemma {:induction false} SplitAtSlash(part: string, rest: string)
    requires '/' !in part
    ensures Split(part + "/" + rest) == [part] + Split(rest)
    decreases |part|
  {
    var path := part + "/" + rest;
    if part == "" {
      assert path[0] == '/' && path[1..] == rest;
    } else {
      assert path[0] == part[0] && path[1..] == part[1..] + "/" + rest;
      SplitAtSlash(part[1..], rest);
      assert part == [part[0]] + part[1..];
    }
  }

  lemma {:induction false} SplitPlain(part: string)
    requires '/' !in part
    ensures Split(part) == [part]
    decreases |part|
  {
    if part != "" {
      SplitPlain(part[1..]);
      assert part == [part[0]] + part[1..];
    }
  }

  predicate ByteLess(a: string, b: string) {
    b != "" && (a == "" || a[0] < b[0] || (a[0] == b[0] && ByteLess(a[1..], b[1..])))
  }

  lemma SplitExamples()
    ensures Split("/a") == ["", "a"] && Split("/a-b") == ["", "a-b"] && Split("/a/c") == ["", "a", "c"]
  {
    SplitPlain("a");
    SplitPlain("a-b");
    SplitPlain("c");
    SplitAtSlash("a", "c");
    SplitAtSlash("", "a");
    SplitAtSlash("", "a-b");
    SplitAtSlash("", "a/c");
    assert "" + "/" + "a" == "/a" && "" + "/" + "a-b" == "/a-b" && "" + "/" + "a/c" == "/a/c" && "a" + "/" + "c" == "a/c";
  }

  /** Sorting paths as byte strings does not group them: "/a-b" sorts between "/a" and
      "/a/c", and the trie gets two children named "a". */
  lemma SortedPathsDuplicate<V(!new)>(x: V, y: V, z: V)
    ensures ByteLess("/a", "/a-b") && ByteLess("/a-b", "/a/c")
    ensures !UniqueSiblings(Build(Root(), [], [Entry(Split("/a"), x), Entry(Split("/a-b"), y), Entry(Split("/a/c"), z)]))
  {
    SplitExamples();
    assert "/a"[1..] == "a" && "/a-b"[1..] == "a-b" && "/a/c"[1..] == "a/c";
    assert "a"[1..] == "" && "a-b"[1..] == "-b" && "a/c"[1..] == "/c";
    BetweenBreaksGroup(Entry(["", "a"], x), Entry(["", "a-b"], y), Entry(["", "a", "c"], z), [""]);
    TrieExactly([Entry(["", "a"], x), Entry(["", "a-b"], y), Entry(["", "a", "c"], z)]);
  }

  /** Three paths below `q` of which only the first and the last take the same child. */
  lemma BetweenBreaksGroup<V(!new)>(a: Entry<V>, b: Entry<V>, c: Entry<V>, q: seq<string>)
    requires |q| < |a.parts| && |q| < |b.parts| && |q| < |c.parts|
    requires a.parts[..|q|] == q && b.parts[..|q|] == q && c.parts[..|q|] == q
    requires a.parts[|q|] == c.parts[|q|] != b.parts[|q|]
    ensures !Grouped([a, b, c])
  {
    assert [a, b, c][..2] == [a, b] && [a, b][..1] == [a] && [a][..0] == [];
    assert Nexts([a], q) == [a.parts[|q|]];
    assert Nexts([a, b], q) == [a.parts[|q|], b.parts[|q|]];
    var nexts := Nexts([a, b, c], q);
    assert nexts == [a.parts[|q|], b.parts[|q|], c.parts[|q|]];
    assert nexts[0] == nexts[2] && nexts[1] != nexts[0];
  }
}
