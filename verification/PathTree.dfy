/**
 The path trie the dashboard builds from a flat list of vault paths
 (dashboard/components/ui/PathTreeView.tsx, `buildTreeFromPaths`), as the heap structure it is: nodes
 that hold their children, grown in place by a moving cursor.
 */
module PathTree {

  /** A node's position: the labels from the root down to it. */
  type Path = seq<string>

  // ---------------------------------------------------------------- paths as strings and as segments

  function WordLength(s: string): (n: nat)
    ensures n <= |s| && '/' !in s[..n] && (n < |s| ==> s[n] == '/')
  {
    if s == [] || s[0] == '/' then 0
    else
      assert forall k :: 0 <= k <= |s| - 1 ==> s[..k + 1] == [s[0]] + s[1..][..k];
      1 + WordLength(s[1..])
  }

  /** `path.split('/').filter(s => s !== '')`. */
  function Segments(path: string): (segments: Path)
    ensures Clean(segments)
    decreases |path|
  {
    if path == [] then []
    else if path[0] == '/' then Segments(path[1..])
    else [path[..WordLength(path)]] + Segments(path[WordLength(path)..])
  }

  predicate Clean(segments: Path) {
    forall i :: 0 <= i < |segments| ==> segments[i] != "" && '/' !in segments[i]
  }

  /** The prefix string a node of this position shows. */
  function Joined(p: Path): string {
    if p == [] then "" else Joined(p[..|p| - 1]) + "/" + p[|p| - 1]
  }

  lemma {:induction false} WordThen(word: string, rest: string)
    requires '/' !in word && (rest == "" || rest[0] == '/')
    ensures WordLength(word + rest) == |word|
    decreases |word|
  {
    if word == [] {
      assert word + rest == rest;
    } else {
      assert (word + rest)[1..] == word[1..] + rest;
      WordThen(word[1..], rest);
    }
  }

  lemma {:induction false} SegmentsOfWord(word: string, rest: string)
    requires word != "" && '/' !in word && (rest == "" || rest[0] == '/')
    ensures Segments(word + rest) == [word] + Segments(rest)
  {
    WordThen(word, rest);
    assert (word + rest)[..|word|] == word && (word + rest)[|word|..] == rest;
  }

  lemma {:induction false} SegmentsAppend(s: string, word: string)
    requires word != "" && '/' !in word
    ensures Segments(s + "/" + word) == Segments(s) + [word]
    decreases |s|
  {
    var t := s + "/" + word;
    if s == [] {
      assert t[1..] == word && word + "" == word;
      SegmentsOfWord(word, "");
    } else if s[0] == '/' {
      assert t[1..] == s[1..] + "/" + word;
      SegmentsAppend(s[1..], word);
    } else {
      var n := WordLength(s);
      var rest := s[n..] + "/" + word;
      assert t == s[..n] + rest && s == s[..n] + s[n..];
      SegmentsOfWord(s[..n], rest);
      SegmentsAppend(s[n..], word);
      assert [s[..n]] + (Segments(s[n..]) + [word]) == [s[..n]] + Segments(s[n..]) + [word];
    }
  }

  /** Splitting at any slash, anywhere; and a word without one is its own only segment. */
  lemma {:induction false} SegmentsSplit(s: string, t: string)
    ensures Segments(s + "/" + t) == Segments(s) + Segments(t)
    ensures s != "" && '/' !in s ==> Segments(s) == [s]
    ensures Segments("") == []
    decreases |s|
  {
    var all := s + "/" + t;
    if s == [] {
      assert all[1..] == t;
    } else if s[0] == '/' {
      assert all[1..] == s[1..] + "/" + t;
      SegmentsSplit(s[1..], t);
    } else {
      var n := WordLength(s);
      var rest := s[n..] + "/" + t;
      assert all == s[..n] + rest && s == s[..n] + s[n..];
      SegmentsOfWord(s[..n], rest);
      SegmentsSplit(s[n..], t);
      assert [s[..n]] + (Segments(s[n..]) + Segments(t)) == [s[..n]] + Segments(s[n..]) + Segments(t);
      if '/' !in s {
        SegmentsOfWord(s, "");
        assert s + "" == s && [s] + [] == [s];
      }
    }
  }

  /** A node's prefix determines its position: printing and splitting round-trip. */
  lemma {:induction false} JoinedSplits(p: Path)
    requires Clean(p)
    ensures Segments(Joined(p)) == p
    decreases |p|
  {
    if p != [] {
      JoinedSplits(p[..|p| - 1]);
      SegmentsAppend(Joined(p[..|p| - 1]), p[|p| - 1]);
    }
  }

  /** A slash at `i` is followed by something that is not one. */
  predicate SlashThenWord(s: string, i: nat) {
    i < |s| && s[i] == '/' ==> i + 1 < |s| && s[i + 1] != '/'
  }

  /** And the printed prefix is in normal form: it begins with a slash, and every slash is followed by a word. */
  lemma {:induction false} JoinedNormal(p: Path)
    requires Clean(p)
    ensures p != [] ==> Joined(p) != "" && Joined(p)[0] == '/'
    ensures forall i :: 0 <= i < |Joined(p)| ==> SlashThenWord(Joined(p), i)
    decreases |p|
  {
    if p != [] {
      var front, word := Joined(p[..|p| - 1]), p[|p| - 1];
      JoinedNormal(p[..|p| - 1]);
      forall i | 0 <= i < |Joined(p)|
        ensures SlashThenWord(Joined(p), i)
      {
        if i < |front| {
          assert SlashThenWord(front, i);
        } else if i > |front| {
          assert Joined(p)[i] == word[i - |front| - 1];
        }
      }
    }
  }

  // ---------------------------------------------------------------- what the tree should hold

  function Prefixes(p: Path): set<Path> {
    set k | 0 <= k <= |p| :: p[..k]
  }

  function LeavesOf(paths: seq<string>): set<Path> {
    set path | path in paths && Segments(path) != [] :: Segments(path)
  }

  function NodesOf(paths: seq<string>): set<Path> {
    {[]} + set path, k | path in paths && 0 <= k <= |Segments(path)| :: Segments(path)[..k]
  }

  // ---------------------------------------------------------------- the tree

  class TreeNode {
    const prefix: string
    const tag: string
    var isLeaf: bool
    var children: seq<TreeNode>

    constructor (prefix: string, tag: string)
      ensures this.prefix == prefix && this.tag == tag && !isLeaf && children == []
    {
      this.prefix, this.tag, isLeaf, children := prefix, tag, false, [];
    }

    /** `children.find(c => c.label === segment)`. */
    method Find(segment: string) returns (found: TreeNode?)
      ensures found == null ==> forall k :: 0 <= k < |children| ==> children[k].tag != segment
      ensures found != null ==> found in children && found.tag == segment
    {
      for i := 0 to |children|
        invariant forall k :: 0 <= k < i ==> children[k].tag != segment
      {
        if children[i].tag == segment {
          return children[i];
        }
      }
      return null;
    }
  }

  function Below(p: Path, tag: string): (q: Path)
    ensures q != [] && q[..|q| - 1] == p && q[|q| - 1] == tag
  {
    p + [tag]
  }

  /** Positions are closed under prefixes, nodes are not shared, labels and prefixes are the position's. */
  ghost predicate Shaped(at: map<Path, TreeNode>) {
    && [] in at && at[[]].tag == "/"
    && (forall p :: p in at && p != [] ==> p[..|p| - 1] in at && at[p].tag == p[|p| - 1])
    && (forall p :: p in at ==> at[p].prefix == Joined(p))
    && (forall p, q :: p in at && q in at && at[p] == at[q] ==> p == q)
  }

  /** The children of a node are exactly the nodes one label below it, each label once. */
  ghost predicate Parents(at: map<Path, TreeNode>, p: Path, children: seq<TreeNode>) {
    && (forall k :: 0 <= k < |children| ==> Below(p, children[k].tag) in at && at[Below(p, children[k].tag)] == children[k])
    && (forall j, k :: 0 <= j < k < |children| ==> children[j].tag != children[k].tag)
    && (forall tag :: Below(p, tag) in at ==> at[Below(p, tag)] in children)
  }

  lemma ShapedGrows(at: map<Path, TreeNode>, p: Path, tag: string, child: TreeNode)
    requires Shaped(at) && p in at && Below(p, tag) !in at && child !in at.Values
    requires child.tag == tag && child.prefix == Joined(Below(p, tag))
    ensures Shaped(at[Below(p, tag) := child])
  {
    hide Joined, Below;
    assert forall q :: q in at ==> at[q] in at.Values;
  }

  lemma ParentsGrow(at: map<Path, TreeNode>, p: Path, tag: string, child: TreeNode, q: Path, children: seq<TreeNode>)
    requires Parents(at, q, children) && Below(p, tag) !in at && child.tag == tag
    ensures var at' := at[Below(p, tag) := child];
            Parents(at', q, if q == p then children + [child] else children)
  {
    hide Below;
    var at' := at[Below(p, tag) := child];
    var grown := if q == p then children + [child] else children;
    forall k | 0 <= k < |grown|
      ensures Below(q, grown[k].tag) in at' && at'[Below(q, grown[k].tag)] == grown[k]
    {
      if k < |children| {
        assert Below(q, children[k].tag) in at && grown[k] == children[k];
      }
    }
    forall other | Below(q, other) in at'
      ensures at'[Below(q, other)] in grown
    {
      if Below(q, other) == Below(p, tag) {
        assert q == p && grown[|children|] == child;
      } else {
        var k :| 0 <= k < |children| && children[k] == at[Below(q, other)];
        assert grown[k] == at[Below(q, other)];
      }
    }
  }

  lemma TagOf(at: map<Path, TreeNode>, p: Path, tag: string)
    requires Shaped(at) && Below(p, tag) in at
    ensures at[Below(p, tag)].tag == tag
  {
    hide Below, Joined;
  }

  lemma NewNodeParents(at: map<Path, TreeNode>, p: Path, tag: string, child: TreeNode)
    requires Shaped(at) && Below(p, tag) !in at
    ensures Parents(at[Below(p, tag) := child], Below(p, tag), [])
  {
    hide Below, Joined;
    forall other
      ensures Below(Below(p, tag), other) !in at[Below(p, tag) := child]
    {
      assert Below(Below(p, tag), other)[..|Below(Below(p, tag), other)| - 1] == Below(p, tag);
      assert |Below(Below(p, tag), other)| != |Below(p, tag)|;
    }
  }

  /** The leaf a path walked this far has marked. */
  ghost function Marked(p: Path, done: bool): set<Path> {
    if done && p != [] then {p} else {}
  }

  lemma MarkedIs(p: Path, done: bool)
    ensures Marked(p, done) == if done && p != [] then {p} else {}
  {
  }

  lemma OneMore(at: map<Path, TreeNode>, p: Path, child: TreeNode)
    ensures at[p := child].Values <= at.Values + {child}
  {
  }

  lemma RootAlone(at: map<Path, TreeNode>, root: TreeNode)
    requires at == map[[] := root] && root.tag == "/" && root.prefix == ""
    ensures Shaped(at) && Parents(at, [], [])
  {
    hide Below;
  }

  lemma Unshared(at: map<Path, TreeNode>)
    requires Shaped(at)
    ensures forall p, q :: p in at && q in at && at[p] == at[q] ==> p == q
  {
    hide Joined;
  }

  lemma NoPrefixes()
    ensures Prefixes([]) == {[]} && Joined([]) == ""
  {
    var p: Path := [];
    assert p[..0] == p;
    assert [] in Prefixes(p);
  }

  lemma SplitLast(segments: Path, i: nat)
    requires i < |segments|
    ensures segments[..i + 1] == Below(segments[..i], segments[i])
    ensures Joined(segments[..i + 1]) == Joined(segments[..i]) + "/" + segments[i]
  {
    assert segments[..i + 1][..i] == segments[..i];
  }

  lemma PrefixesSnoc(p: Path, segment: string)
    ensures Prefixes(Below(p, segment)) == Prefixes(p) + {Below(p, segment)}
  {
    var q := Below(p, segment);
    assert q[..|q|] == q;
    forall x | x in Prefixes(q)
      ensures x in Prefixes(p) + {q}
    {
      var k :| 0 <= k <= |q| && x == q[..k];
      if k <= |p| {
        assert x == p[..k];
      }
    }
    forall x | x in Prefixes(p)
      ensures x in Prefixes(q)
    {
      var k :| 0 <= k <= |p| && x == p[..k];
      assert x == q[..k];
    }
  }

  class Tree {
    const root: TreeNode
    // Every node by its position.
    ghost var at: map<Path, TreeNode>

    ghost predicate Valid()
      reads this, at.Values
    {
      && Shaped(at) && at[[]] == root
      && forall p :: p in at ==> Parents(at, p, at[p].children)
    }

    ghost function Leaves(): set<Path>
      reads this, at.Values
    {
      set p | p in at && at[p].isLeaf
    }

    constructor ()
      ensures Valid() && at.Keys == {[]} && Leaves() == {} && fresh(at.Values)
    {
      var node := new TreeNode("", "/");
      root := node;
      at := map[[] := node];
      new;
      RootAlone(at, root);
      assert forall p :: p in at ==> p == [];
      hide Shaped, Parents, Below, Joined;
    }

    /** Push a child that is not there yet. */
    method Push(cursor: TreeNode, ghost p: Path, prefixSoFar: string, segment: string) returns (child: TreeNode)
      requires Valid() && p in at && at[p] == cursor
      requires Below(p, segment) !in at && prefixSoFar == Joined(Below(p, segment))
      modifies this, cursor`children
      ensures Valid() && fresh(child) && at == old(at)[Below(p, segment) := child]
      ensures !child.isLeaf
    {
      hide Joined, Below, Parents;
      child := new TreeNode(prefixSoFar, segment);
      ghost var before := at;
      ShapedGrows(before, p, segment, child);
      NewNodeParents(before, p, segment, child);
      assert forall q :: q in before && q != p ==> before[q] != cursor by { hide Parents; }
      cursor.children := cursor.children + [child];
      at := at[Below(p, segment) := child];
      hide Shaped;
      forall q | q in at
        ensures Parents(at, q, at[q].children)
      {
        if q in before && q != Below(p, segment) {
          ParentsGrow(before, p, segment, child, q, old(before[q].children));
        }
      }
    }

    /** The child of `cursor` with this label, pushed if it is not there yet. */
    method Descend(cursor: TreeNode, ghost p: Path, prefixSoFar: string, segment: string) returns (child: TreeNode)
      requires Valid() && p in at && at[p] == cursor && prefixSoFar == Joined(Below(p, segment))
      modifies this, cursor`children
      ensures Valid() && Below(p, segment) in at && at[Below(p, segment)] == child
      ensures at == old(at)[Below(p, segment) := child]
      ensures if Below(p, segment) in old(at) then child == old(at)[Below(p, segment)] else fresh(child) && !child.isLeaf
    {
      hide Joined, Shaped, Below;
      assert Parents(at, p, cursor.children);
      var found := cursor.Find(segment);
      if found != null {
        assert at[Below(p, segment)] == found && found in cursor.children;
        assert at[Below(p, segment) := found] == at;
        return found;
      }
      assert Below(p, segment) !in at by {
        if Below(p, segment) in at {
          TagOf(at, p, segment);
        }
      }
      child := Push(cursor, p, prefixSoFar, segment);
    }

    /** One segment: find or push the child, and mark it if the path ends here. */
    method Step(cursor: TreeNode, ghost p: Path, prefixSoFar: string, segment: string, isLast: bool) returns (child: TreeNode)
      requires Valid() && p in at && at[p] == cursor && prefixSoFar == Joined(Below(p, segment))
      modifies this, at.Values
      ensures Valid() && Below(p, segment) in at && at[Below(p, segment)] == child
      ensures at.Keys == old(at.Keys) + {Below(p, segment)} && fresh(at.Values - old(at.Values))
      ensures Leaves() == old(Leaves()) + if isLast then {Below(p, segment)} else {}
    {
      hide Joined, Below, Shaped, Parents;
      ghost var before, key := at, Below(p, segment);
      child := Descend(cursor, p, prefixSoFar, segment);
      OneMore(before, key, child);
      Unshared(at);
      if isLast {
        child.isLeaf := true;
      }
      assert forall q :: q in at ==> (q in before && q != key && at[q] == before[q]) || (q == key && at[q] == child);
    }

    lemma RootAt()
      requires Valid()
      ensures [] in at && at[[]] == root
    {
      hide Joined, Below, Parents;
    }

    /** One path: walk down its segments, marking the last node. */
    method AddPath(segments: Path)
      requires Valid()
      modifies this, at.Values
      ensures Valid() && fresh(at.Values - old(at.Values))
      ensures at.Keys == old(at.Keys) + Prefixes(segments)
      ensures Leaves() == old(Leaves()) + if segments == [] then {} else {segments}
    {
      hide *;
      RootAt();
      var cursor, prefixSoFar := root, "";
      ghost var leaves, keys, nodes := Leaves(), at.Keys, at.Values;
      ghost var p: Path := [];
      NoPrefixes();
      MarkedIs([], |segments| == 0);
      for i := 0 to |segments|
        invariant p == segments[..i]
        invariant Valid() && p in at && at[p] == cursor && prefixSoFar == Joined(p)
        invariant fresh(at.Values - nodes)
        invariant at.Keys == keys + Prefixes(p)
        invariant Leaves() == leaves + Marked(p, i == |segments|)
      {
        SplitLast(segments, i);
        PrefixesSnoc(p, segments[i]);
        prefixSoFar := prefixSoFar + "/" + segments[i];
        cursor := Step(cursor, p, prefixSoFar, segments[i], i == |segments| - 1);
        MarkedIs(p, false);
        p := Below(p, segments[i]);
        MarkedIs(p, i == |segments| - 1);
      }
      assert p == segments;
      MarkedIs(p, true);
    }
  }

  /**
   buildTreeFromPaths. `sorted` is what sorting returned: the same paths in some order. The leaf-marked
   nodes are exactly the inputs' segment lists, the nodes exactly their prefixes.
   */
  method BuildTreeFromPaths(paths: seq<string>, sorted: seq<string>) returns (tree: Tree)
    requires multiset(sorted) == multiset(paths)
    ensures fresh(tree) && tree.Valid()
    ensures tree.Leaves() == LeavesOf(paths)
    ensures tree.at.Keys == NodesOf(paths)
  {
    hide LeavesOf, NodesOf, Prefixes, Segments, Tree.Valid, Tree.Leaves;
    tree := new Tree();
    assert sorted[..0] == [];
    NoPaths();
    for i := 0 to |sorted|
      invariant fresh(tree) && tree.Valid() && fresh(tree.at.Values)
      invariant tree.Leaves() == LeavesOf(sorted[..i])
      invariant tree.at.Keys == NodesOf(sorted[..i])
    {
      OnePathMore(sorted, i);
      tree.AddPath(Segments(sorted[i]));
    }
    assert sorted[..|sorted|] == sorted;
    SameElements(sorted, paths);
    SamePathsSameTree(sorted, paths);
  }

  lemma SameElements(a: seq<string>, b: seq<string>)
    requires multiset(a) == multiset(b)
    ensures forall path :: path in a <==> path in b
  {
    assert forall path :: path in a <==> path in multiset(a);
    assert forall path :: path in b <==> path in multiset(b);
  }

  lemma NoPaths()
    ensures LeavesOf([]) == {} && NodesOf([]) == {[]}
  {
  }

  lemma OnePathMore(paths: seq<string>, i: nat)
    requires i < |paths|
    ensures var segments := Segments(paths[i]);
            && LeavesOf(paths[..i + 1]) == LeavesOf(paths[..i]) + (if segments == [] then {} else {segments})
            && NodesOf(paths[..i + 1]) == NodesOf(paths[..i]) + Prefixes(segments)
  {
    assert paths[..i + 1] == paths[..i] + [paths[i]];
    assert forall path :: path in paths[..i + 1] <==> path in paths[..i] || path == paths[i];
    hide Segments;
  }

  /** The set a tree represents depends on neither the order of the paths nor their repeats. */
  lemma SamePathsSameTree(a: seq<string>, b: seq<string>)
    requires forall path :: path in a <==> path in b
    ensures LeavesOf(a) == LeavesOf(b) && NodesOf(a) == NodesOf(b)
  {
    hide Segments;
  }

  /** The nodes are the root and the prefixes of the inputs, and a node's own prefix string splits back into its position. */
  lemma NodesArePrefixes(paths: seq<string>, p: Path)
    ensures p in NodesOf(paths) <==> p == [] || exists path :: path in paths && p <= Segments(path)
    ensures p in NodesOf(paths) ==> Clean(p) && Segments(Joined(p)) == p
  {
    if p in NodesOf(paths) {
      if p != [] {
        var path, k :| path in paths && 0 <= k <= |Segments(path)| && p == Segments(path)[..k];
        assert p <= Segments(path);
      }
      JoinedSplits(p);
    }
    if path :| path in paths && p <= Segments(path) {
      assert p == Segments(path)[..|p|];
    }
  }

  /** The leaves are the inputs that are not blank, by their positions. */
  lemma LeavesAreInputs(paths: seq<string>, p: Path)
    ensures p in LeavesOf(paths) <==> p != [] && exists path :: path in paths && Segments(path) == p
  {
  }

  /** The strings on the leaves are exactly the inputs with their slashes normalised, the blank ones left out. */
  lemma LeafStrings(paths: seq<string>, shown: string)
    ensures (exists p :: p in LeavesOf(paths) && Joined(p) == shown)
       <==> (exists path :: path in paths && Segments(path) != [] && Joined(Segments(path)) == shown)
  {
    if p :| p in LeavesOf(paths) && Joined(p) == shown {
      var path :| path in paths && Segments(path) != [] && p == Segments(path);
      assert Joined(Segments(path)) == shown;
    }
    if path :| path in paths && Segments(path) != [] && Joined(Segments(path)) == shown {
      assert Segments(path) in LeavesOf(paths);
    }
  }
}
