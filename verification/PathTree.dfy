/** The path trie of storage/tree.go as a value: adding a path under the last child of
    each level, and when that builds a proper trie. Paths are given by the components of
    their cleaned names; an unset value is None. PathNodes.dfy holds the methods that
    work in place. */
module PathTree {
  import opened Runs

  datatype Tree<V> = Tree(name: string, fullPath: string, value: Option<V>, children: seq<Tree<V>>)

  /** The rest of a path below some node, and the value to store at its end. */
  datatype Entry<V> = Entry(parts: seq<string>, value: V)

  function Root<V>(): Tree<V> { Tree("", "", None, []) }

  /** filepath.Join of two cleaned names: empty ones are dropped. */
  function Join(a: string, b: string): string {
    if a == "" then b else if b == "" then a else a + "/" + b
  }

  function JoinAll(parts: seq<string>): string {
    if parts == [] then "" else Join(JoinAll(parts[..|parts| - 1]), parts[|parts| - 1])
  }

  function PathOf(parts: seq<string>): string { "/" + JoinAll(parts) }

  /** The names between slashes, `current` being the part of the first already read. */
  function Components(path: string, current: string): seq<string>
    decreases |path|
  {
    var read := if current == "" then [] else [current];
    if path == "" then read
    else if path[0] == '/' then read + Components(path[1..], "")
    else Components(path[1..], current + [path[0]])
  }

  predicate Plain(part: string) { part != "" && '/' !in part }

  lemma {:induction false} ComponentsOfPart(part: string, current: string)
    requires '/' !in part && current + part != ""
    ensures Components(part, current) == [current + part]
    decreases |part|
  {
    if part == "" {
      assert current + part == current;
    } else {
      assert part[0] in part && forall c :: c in part[1..] ==> c in part;
      assert current + [part[0]] + part[1..] == current + part;
      ComponentsOfPart(part[1..], current + [part[0]]);
    }
  }

  lemma {:induction false} ComponentsSnoc(path: string, current: string, part: string)
    requires Plain(part)
    ensures Components(path + "/" + part, current) == Components(path, current) + [part]
    decreases |path|
  {
    var longer := path + "/" + part;
    if path == "" {
      assert longer == "/" + part && longer[1..] == part;
      ComponentsOfPart(part, "");
      assert "" + part == part;
    } else {
      assert longer[0] == path[0] && longer[1..] == path[1..] + "/" + part;
      ComponentsSnoc(path[1..], "", part);
      ComponentsSnoc(path[1..], current + [path[0]], part);
    }
  }

  /** The full path of a node spells its components and nothing else. */
  lemma {:induction false} PathSpellsParts(parts: seq<string>)
    requires forall k :: 0 <= k < |parts| ==> Plain(parts[k])
    ensures Components(JoinAll(parts), "") == parts && Components(PathOf(parts), "") == parts
    ensures PathOf(parts)[0] == '/'
    decreases |parts|
  {
    assert PathOf(parts)[1..] == JoinAll(parts);
    if parts != [] {
      var before, last := parts[..|parts| - 1], parts[|parts| - 1];
      PathSpellsParts(before);
      assert parts == before + [last];
      if JoinAll(before) == "" {
        assert before == [];
        ComponentsOfPart(last, "");
        assert "" + last == last;
      } else {
        ComponentsSnoc(JoinAll(before), "", last);
      }
    }
  }

  /** A new child of the node at `prefix`. */
  function Fresh<V>(prefix: seq<string>, part: string): Tree<V> { Tree(part, PathOf(prefix + [part]), None, []) }

  predicate Continues<V>(children: seq<Tree<V>>, part: string) {
    |children| > 0 && children[|children| - 1].name == part
  }

  /** AddNode below the node at `prefix`: only the last child is compared. */
  function Add<V>(t: Tree<V>, prefix: seq<string>, e: Entry<V>): Tree<V>
    decreases |e.parts|
  {
    if e.parts == [] then t.(value := Some(e.value))
    else
      var rest := Entry(e.parts[1..], e.value);
      var n := |t.children|;
      var below := prefix + [e.parts[0]];
      if Continues(t.children, e.parts[0]) then
        t.(children := t.children[..n - 1] + [Add(t.children[n - 1], below, rest)])
      else t.(children := t.children + [Add(Fresh(prefix, e.parts[0]), below, rest)])
  }

  function Build<V>(t: Tree<V>, prefix: seq<string>, entries: seq<Entry<V>>): Tree<V>
    decreases |entries|
  {
    if entries == [] then t
    else Add(Build(t, prefix, entries[..|entries| - 1]), prefix, entries[|entries| - 1])
  }

  // ------------------------------------------------------------------ lookup

  function Find<V>(children: seq<Tree<V>>, part: string): Option<Tree<V>> {
    if children == [] then None
    else if children[0].name == part then Some(children[0])
    else Find(children[1..], part)
  }

  /** The value at a path, following the first child of each name. */
  function Lookup<V>(t: Tree<V>, parts: seq<string>): Option<V>
    decreases |parts|
  {
    if parts == [] then t.value
    else
      match Find(t.children, parts[0])
      case None => None
      case Some(c) => Lookup(c, parts[1..])
  }

  ghost predicate DistinctNames<V>(children: seq<Tree<V>>) {
    forall i, j :: 0 <= i < j < |children| ==> children[i].name != children[j].name
  }

  /** No two siblings anywhere share a name. */
  ghost predicate UniqueSiblings<V>(t: Tree<V>)
    decreases t
  {
    DistinctNames(t.children) && forall i :: 0 <= i < |t.children| ==> UniqueSiblings(t.children[i])
  }

  lemma {:induction false} FindIs<V>(children: seq<Tree<V>>, part: string, i: nat)
    requires DistinctNames(children) && i < |children| && children[i].name == part
    ensures Find(children, part) == Some(children[i])
    decreases |children|
  {
    if i > 0 {
      assert children[1..][i - 1] == children[i];
      assert forall a :: 0 <= a < |children[1..]| ==> children[1..][a] == children[a + 1];
      FindIs(children[1..], part, i - 1);
    }
  }

  lemma {:induction false} FindNone<V>(children: seq<Tree<V>>, part: string)
    requires forall i :: 0 <= i < |children| ==> children[i].name != part
    ensures Find(children, part) == None
    decreases |children|
  {
    if children != [] {
      assert forall a :: 0 <= a < |children[1..]| ==> children[1..][a] == children[a + 1];
      FindNone(children[1..], part);
    }
  }

  lemma AddKeepsName<V>(t: Tree<V>, prefix: seq<string>, e: Entry<V>)
    ensures Add(t, prefix, e).name == t.name
  {
  }

  /** Adding never merges siblings that were already apart. */
  lemma {:induction false} UniqueBefore<V>(t: Tree<V>, prefix: seq<string>, e: Entry<V>)
    requires UniqueSiblings(Add(t, prefix, e))
    ensures UniqueSiblings(t)
    decreases |e.parts|
  {
    if e.parts != [] {
      var u := Add(t, prefix, e);
      var n := |t.children|;
      if Continues(t.children, e.parts[0]) {
        AddKeepsName(t.children[n - 1], prefix + [e.parts[0]], Entry(e.parts[1..], e.value));
        assert u.children[n - 1] == Add(t.children[n - 1], prefix + [e.parts[0]], Entry(e.parts[1..], e.value));
        UniqueBefore(t.children[n - 1], prefix + [e.parts[0]], Entry(e.parts[1..], e.value));
        assert forall i :: 0 <= i < n - 1 ==> u.children[i] == t.children[i];
        assert forall i :: 0 <= i < n ==> u.children[i].name == t.children[i].name;
      } else {
        assert forall i :: 0 <= i < n ==> u.children[i] == t.children[i];
      }
    }
  }

  lemma {:induction false} LookupFresh<V>(part: string, prefix: seq<string>, below: seq<string>, e: Entry<V>, p: seq<string>)
    ensures Lookup(Add(Fresh(prefix, part), below, e), p) == if p == e.parts then Some(e.value) else None
    decreases |e.parts|
  {
    var t: Tree<V> := Fresh(prefix, part);
    if e.parts == [] {
      if p != [] {
        assert Find(Add(t, below, e).children, p[0]) == None;
      }
    } else if p != [] {
      var rest := Entry(e.parts[1..], e.value);
      var c := Add(Fresh(below, e.parts[0]), below + [e.parts[0]], rest);
      AddKeepsName(Fresh(below, e.parts[0]), below + [e.parts[0]], rest);
      assert Add(t, below, e).children == [c];
      if p[0] == e.parts[0] {
        LookupFresh(e.parts[0], below, below + [e.parts[0]], rest, p[1..]);
        assert p == e.parts <==> p[1..] == e.parts[1..];
      } else {
        FindNone([c], p[0]);
      }
    }
  }

  /** While siblings stay unique, an addition changes the value at its own path only. */
  lemma {:induction false} LookupAdd<V>(t: Tree<V>, prefix: seq<string>, e: Entry<V>, p: seq<string>)
    requires UniqueSiblings(Add(t, prefix, e))
    ensures Lookup(Add(t, prefix, e), p) == if p == e.parts then Some(e.value) else Lookup(t, p)
    decreases |e.parts|
  {
    UniqueBefore(t, prefix, e);
    if e.parts != [] && p != [] {
      var u := Add(t, prefix, e);
      var n := |t.children|;
      var rest := Entry(e.parts[1..], e.value);
      var below := prefix + [e.parts[0]];
      assert p == e.parts <==> p[0] == e.parts[0] && p[1..] == e.parts[1..];
      if p[0] != e.parts[0] {
        OtherChildrenStay(t, prefix, e, p[0]);
      } else if Continues(t.children, e.parts[0]) {
        AddKeepsName(t.children[n - 1], below, rest);
        assert u.children[n - 1] == Add(t.children[n - 1], below, rest);
        FindIs(u.children, p[0], n - 1);
        FindIs(t.children, p[0], n - 1);
        LookupAdd(t.children[n - 1], below, rest, p[1..]);
      } else {
        AddKeepsName(Fresh(prefix, e.parts[0]), below, rest);
        assert u.children[n] == Add(Fresh(prefix, e.parts[0]), below, rest);
        FindIs(u.children, p[0], n);
        assert forall i :: 0 <= i < n ==> u.children[i] == t.children[i] && u.children[i].name != u.children[n].name;
        FindNone(t.children, p[0]);
        LookupFresh(e.parts[0], prefix, below, rest, p[1..]);
      }
    }
  }

  lemma OtherChildrenStay<V>(t: Tree<V>, prefix: seq<string>, e: Entry<V>, part: string)
    requires e.parts != [] && part != e.parts[0] && UniqueSiblings(t) && UniqueSiblings(Add(t, prefix, e))
    ensures Find(Add(t, prefix, e).children, part) == Find(t.children, part)
  {
    var u := Add(t, prefix, e);
    var n := |t.children|;
    var below, rest := prefix + [e.parts[0]], Entry(e.parts[1..], e.value);
    if Continues(t.children, e.parts[0]) {
      AddKeepsName(t.children[n - 1], below, rest);
    } else {
      AddKeepsName(Fresh(prefix, e.parts[0]), below, rest);
    }
    if i :| 0 <= i < n && t.children[i].name == part {
      assert u.children[i] == t.children[i];
      FindIs(t.children, part, i);
      FindIs(u.children, part, i);
    } else {
      FindNone(t.children, part);
      assert forall i :: 0 <= i < |u.children| ==> u.children[i].name != part;
      FindNone(u.children, part);
    }
  }

  function LastValue<V>(entries: seq<Entry<V>>, p: seq<string>): Option<V> {
    if entries == [] then None
    else if entries[|entries| - 1].parts == p then Some(entries[|entries| - 1].value)
    else LastValue(entries[..|entries| - 1], p)
  }

  /** In a trie with unique siblings every path holds the last value stored for it, and
      every other path holds none. */
  lemma {:induction false} LookupGivesLastValue<V>(entries: seq<Entry<V>>, p: seq<string>)
    requires UniqueSiblings(Build(Root(), [], entries))
    ensures Lookup(Build(Root(), [], entries), p) == LastValue(entries, p)
    decreases |entries|
  {
    if entries != [] {
      var before := entries[..|entries| - 1];
      UniqueBefore(Build(Root(), [], before), [], entries[|entries| - 1]);
      LookupAdd(Build(Root(), [], before), [], entries[|entries| - 1], p);
      LookupGivesLastValue(before, p);
    } else if p != [] {
      assert Find(Root<V>().children, p[0]) == None;
    }
  }
}
