/** The resource tree of an Argo application (pkg/apps/application/deploy_argocd.go): nodes that name their parents are
    unfolded, from the nodes without parents down, into a tree. */
module ResourceTree {
  datatype ResourceRef = ResourceRef(group: string, version: string, kind: string, namespace: string, name: string)

  /** What two references must share to denote the same resource; the version is not looked at. */
  datatype Id = Id(group: string, kind: string, namespace: string, name: string)

  function IdOf(r: ResourceRef): Id {
    Id(r.group, r.kind, r.namespace, r.name)
  }

  predicate IsSameResourceRef(v: ResourceRef, r: ResourceRef) {
    v.group == r.group && v.kind == r.kind && v.namespace == r.namespace && v.name == r.name
  }

  /** Two references denote the same resource exactly when they differ in nothing but the version. */
  lemma SameReference(v: ResourceRef, r: ResourceRef)
    ensures IsSameResourceRef(v, r) <==> v.(version := r.version) == r
    ensures IsSameResourceRef(v, r) <==> IdOf(v) == IdOf(r)
  {
  }

  datatype Node = Node(ref: ResourceRef, parentRefs: seq<ResourceRef>)

  datatype Tree = Tree(node: Node, sync: string, children: seq<Tree>)

  /** One reference: the node at `child` names a parent at position `parent` of its list. */
  datatype Link = Link(child: nat, parent: nat)

  ghost predicate IsLink(nodes: seq<Node>, r: ResourceRef, l: Link) {
    && l.child < |nodes|
    && l.parent < |nodes[l.child].parentRefs|
    && IsSameResourceRef(nodes[l.child].parentRefs[l.parent], r)
  }

  /** Exactly the links to `r` before position (i, j), each once. */
  ghost predicate Listed(nodes: seq<Node>, r: ResourceRef, i: nat, j: nat, links: seq<Link>) {
    && (forall k :: 0 <= k < |links| ==> IsLink(nodes, r, links[k]) && Before(links[k], i, j))
    && (forall l :: IsLink(nodes, r, l) && Before(l, i, j) ==> l in links)
    && forall a, b :: 0 <= a < b < |links| ==> links[a] != links[b]
  }

  lemma ListedMore(nodes: seq<Node>, r: ResourceRef, i: nat, j: nat, links: seq<Link>)
    requires i < |nodes| && j < |nodes[i].parentRefs| && Listed(nodes, r, i, j, links)
    ensures Listed(nodes, r, i, j + 1,
                   links + if IsSameResourceRef(nodes[i].parentRefs[j], r) then [Link(i, j)] else [])
  {
    var more := links + if IsSameResourceRef(nodes[i].parentRefs[j], r) then [Link(i, j)] else [];
    forall l | IsLink(nodes, r, l) && Before(l, i, j + 1)
      ensures l in more
    {
      if !Before(l, i, j) {
        assert l == Link(i, j) && more[|links|] == l;
      }
    }
  }

  lemma ListedRow(nodes: seq<Node>, r: ResourceRef, i: nat, links: seq<Link>)
    requires i < |nodes| && Listed(nodes, r, i, |nodes[i].parentRefs|, links)
    ensures Listed(nodes, r, i + 1, 0, links)
  {
    assert forall l :: IsLink(nodes, r, l) && Before(l, i + 1, 0) ==> Before(l, i, |nodes[i].parentRefs|);
  }

  /** The links to `r` met by the two nested loops, before position (i, j). */
  ghost function LinksBefore(nodes: seq<Node>, r: ResourceRef, i: nat, j: nat): seq<Link>
    requires i <= |nodes| && (i < |nodes| ==> j <= |nodes[i].parentRefs|) && (i == |nodes| ==> j == 0)
    decreases i, j
  {
    if j > 0 then
      LinksBefore(nodes, r, i, j - 1) +
      if IsSameResourceRef(nodes[i].parentRefs[j - 1], r) then [Link(i, j - 1)] else []
    else if i > 0 then LinksBefore(nodes, r, i - 1, |nodes[i - 1].parentRefs|)
    else []
  }

  lemma {:induction false} LinksBeforeListed(nodes: seq<Node>, r: ResourceRef, i: nat, j: nat)
    requires i <= |nodes| && (i < |nodes| ==> j <= |nodes[i].parentRefs|) && (i == |nodes| ==> j == 0)
    ensures Listed(nodes, r, i, j, LinksBefore(nodes, r, i, j))
    decreases i, j
  {
    if j > 0 {
      LinksBeforeListed(nodes, r, i, j - 1);
      ListedMore(nodes, r, i, j - 1, LinksBefore(nodes, r, i, j - 1));
    } else if i > 0 {
      LinksBeforeListed(nodes, r, i - 1, |nodes[i - 1].parentRefs|);
      ListedRow(nodes, r, i - 1, LinksBefore(nodes, r, i - 1, |nodes[i - 1].parentRefs|));
    }
  }

  ghost predicate Before(l: Link, i: nat, j: nat) {
    l.child < i || (l.child == i && l.parent < j)
  }

  /** Every link to `r`, once each, in listing order. */
  ghost function Links(nodes: seq<Node>, r: ResourceRef): seq<Link> {
    LinksBefore(nodes, r, |nodes|, 0)
  }

  lemma LinksExact(nodes: seq<Node>, r: ResourceRef)
    ensures forall l :: l in Links(nodes, r) <==> IsLink(nodes, r, l)
    ensures Once(Links(nodes, r))
  {
    LinksBeforeListed(nodes, r, |nodes|, 0);
    forall l | IsLink(nodes, r, l)
      ensures l in Links(nodes, r)
    {
      assert Before(l, |nodes|, 0);
    }
  }

  ghost predicate Grown(nodes: seq<Node>, links: seq<Link>, children: seq<Tree>)
    decreases children
  {
    && |children| == |links|
    && forall k :: 0 <= k < |children| ==>
         && links[k].child < |nodes|
         && children[k].node == nodes[links[k].child]
         && children[k].sync == ""
         && Filled(nodes, children[k])
  }

  /** The children are the nodes that name this one as a parent, one child for every time they do, all the way down. */
  ghost predicate Filled(nodes: seq<Node>, t: Tree)
    decreases t
  {
    Grown(nodes, Links(nodes, t.node.ref), t.children)
  }

  ghost predicate Edge(nodes: seq<Node>, a: Id, b: Id) {
    exists l: Link ::
      && l.child < |nodes| && l.parent < |nodes[l.child].parentRefs|
      && IdOf(nodes[l.child].parentRefs[l.parent]) == a && IdOf(nodes[l.child].ref) == b
  }

  ghost predicate Walk(nodes: seq<Node>, w: seq<Id>) {
    w != [] && forall k :: 0 <= k < |w| - 1 ==> Edge(nodes, w[k], w[k + 1])
  }

  ghost predicate Distinct(w: seq<Id>) {
    forall a, b :: 0 <= a < b < |w| ==> w[a] != w[b]
  }

  /** No chain of references that starts at `id` ever comes back to a resource it already visited. */
  ghost predicate CycleFree(nodes: seq<Node>, id: Id) {
    forall w :: Walk(nodes, w) && w[0] == id ==> Distinct(w)
  }

  ghost function Ids(nodes: seq<Node>): set<Id> {
    set i | 0 <= i < |nodes| :: IdOf(nodes[i].ref)
  }

  ghost function Elements(w: seq<Id>): set<Id> {
    set x | x in w
  }

  lemma ChainGrows(nodes: seq<Node>, chain: seq<Id>, l: Link, r: ResourceRef)
    requires Walk(nodes, chain) && CycleFree(nodes, chain[0]) && chain[|chain| - 1] == IdOf(r) && IsLink(nodes, r, l)
    ensures var id := IdOf(nodes[l.child].ref);
            && Walk(nodes, chain + [id]) && id !in chain
            && Ids(nodes) - Elements(chain + [id]) < Ids(nodes) - Elements(chain)
  {
    var id := IdOf(nodes[l.child].ref);
    var longer := chain + [id];
    forall k | 0 <= k < |longer| - 1
      ensures Edge(nodes, longer[k], longer[k + 1])
    {
      if k < |chain| - 1 {
        assert Edge(nodes, chain[k], chain[k + 1]);
      }
    }
    assert Distinct(longer);
    assert forall a :: 0 <= a < |chain| ==> chain[a] == longer[a] != longer[|chain|];
    assert id !in chain;
    assert id in longer && id in Ids(nodes);
    assert forall x :: x in chain ==> x in longer;
    var before, after := Ids(nodes) - Elements(chain), Ids(nodes) - Elements(longer);
    assert after <= before && id in before && id !in after;
  }

  /** Unfolds one node. `chain` is how the node was reached; the recursion ends because a chain never repeats. */
  method FillTreeNodeChildren(node: Node, sync: string, nodes: seq<Node>, ghost chain: seq<Id>) returns (t: Tree)
    requires Walk(nodes, chain) && CycleFree(nodes, chain[0]) && chain[|chain| - 1] == IdOf(node.ref)
    ensures t.node == node && t.sync == sync && Filled(nodes, t)
    decreases Ids(nodes) - Elements(chain)
  {
    var children: seq<Tree> := [];
    for i := 0 to |nodes|
      invariant Grown(nodes, LinksBefore(nodes, node.ref, i, 0), children)
    {
      for j := 0 to |nodes[i].parentRefs|
        invariant Grown(nodes, LinksBefore(nodes, node.ref, i, j), children)
      {
        if IsSameResourceRef(nodes[i].parentRefs[j], node.ref) {
          ChainGrows(nodes, chain, Link(i, j), node.ref);
          var child := FillTreeNodeChildren(nodes[i], "", nodes, chain + [IdOf(nodes[i].ref)]);
          children := children + [child];
        }
      }
    }
    t := Tree(node, sync, children);
  }

  /** The trees so far, with their sync states. */
  ghost predicate Grove(nodes: seq<Node>, sync: ResourceRef -> string, i: nat, forest: seq<Tree>)
    requires i <= |nodes|
  {
    Rooted(nodes, RootsBefore(nodes, i), forest) && forall t :: t in forest ==> t.sync == sync(t.node.ref)
  }

  lemma GroveMore(nodes: seq<Node>, sync: ResourceRef -> string, i: nat, forest: seq<Tree>, t: Tree)
    requires i < |nodes| && Grove(nodes, sync, i, forest) && nodes[i].parentRefs == []
    requires t.node == nodes[i] && t.sync == sync(t.node.ref) && Filled(nodes, t)
    ensures Grove(nodes, sync, i + 1, forest + [t])
  {
    assert RootsBefore(nodes, i + 1) == RootsBefore(nodes, i) + [i];
  }

  lemma GroveSame(nodes: seq<Node>, sync: ResourceRef -> string, i: nat, forest: seq<Tree>)
    requires i < |nodes| && Grove(nodes, sync, i, forest) && nodes[i].parentRefs != []
    ensures Grove(nodes, sync, i + 1, forest)
  {
    assert RootsBefore(nodes, i + 1) == RootsBefore(nodes, i) + [];
  }

  lemma AllRoots(nodes: seq<Node>)
    ensures Parts(Roots(nodes), [], Roots(nodes))
  {
    RootsExact(nodes, |nodes|);
  }

  /** No cycle is reachable from a node without parents. */
  ghost predicate Unrolls(nodes: seq<Node>) {
    forall n :: n in nodes && n.parentRefs == [] ==> CycleFree(nodes, IdOf(n.ref))
  }

  lemma RootChain(nodes: seq<Node>, node: Node)
    requires Unrolls(nodes) && node in nodes && node.parentRefs == []
    ensures Walk(nodes, [IdOf(node.ref)]) && CycleFree(nodes, [IdOf(node.ref)][0])
  {
  }

  method GrowRoot(nodes: seq<Node>, node: Node, sync: string) returns (t: Tree)
    requires Unrolls(nodes) && node in nodes && node.parentRefs == []
    ensures t.node == node && t.sync == sync && Filled(nodes, t)
  {
    RootChain(nodes, node);
    t := FillTreeNodeChildren(node, sync, nodes, [IdOf(node.ref)]);
  }

  /** The loop over the nodes. */
  method GrowRoots(nodes: seq<Node>, sync: ResourceRef -> string) returns (forest: seq<Tree>)
    requires Unrolls(nodes)
    ensures Grove(nodes, sync, |nodes|, forest)
  {
    forest := [];
    for i := 0 to |nodes|
      invariant Grove(nodes, sync, i, forest)
    {
      var node := nodes[i];
      if |node.parentRefs| == 0 {
        var child := GrowRoot(nodes, node, sync(node.ref));
        GroveMore(nodes, sync, i, forest, child);
        forest := forest + [child];
      } else {
        GroveSame(nodes, sync, i, forest);
      }
    }
  }

  /** The trees of all nodes without parents. */
  method GetChildren(nodes: seq<Node>, sync: ResourceRef -> string) returns (forest: seq<Tree>)
    requires Unrolls(nodes)
    ensures Forest(nodes, forest)
    ensures forall t :: t in forest ==> t.sync == sync(t.node.ref)
  {
    forest := GrowRoots(nodes, sync);
    AllRoots(nodes);
    forest := SortNodes(nodes, forest, Roots(nodes));
  }

  /** Both lists together hold these roots, each once. */
  ghost predicate Parts(roots: seq<nat>, done: seq<nat>, left: seq<nat>) {
    && (forall r :: r in roots <==> r in done || r in left)
    && (forall a, b :: 0 <= a < b < |done| ==> done[a] != done[b])
    && (forall a, b :: 0 <= a < b < |left| ==> left[a] != left[b])
    && forall r :: r in done ==> r !in left
  }

  lemma PickRoot(roots: seq<nat>, done: seq<nat>, left: seq<nat>, i: nat)
    requires Parts(roots, done, left) && i < |left|
    ensures Parts(roots, done + [left[i]], left[..i] + left[i + 1..])
  {
    var more, less := done + [left[i]], left[..i] + left[i + 1..];
    assert left == left[..i] + [left[i]] + left[i + 1..];
    assert left[i] in left && left[i] !in done;
    forall r
      ensures r in less <==> r in left && r != left[i]
    {
      if r in left && r != left[i] {
        var j :| 0 <= j < |left| && left[j] == r;
        assert less[if j < i then j else j - 1] == r;
      }
    }
    forall a, b | 0 <= a < b < |more|
      ensures more[a] != more[b]
    {
      assert b == |done| ==> done[a] in done;
    }
  }

  /** Sorting the roots for display. The comparator of creation times is not a strict order, so all that is known of the
      result is that it holds the same trees. */
  method SortNodes(nodes: seq<Node>, trees: seq<Tree>, ghost roots: seq<nat>) returns (sorted: seq<Tree>)
    requires Rooted(nodes, roots, trees) && Parts(roots, [], roots)
    ensures roots == Roots(nodes) ==> Forest(nodes, sorted)
    ensures forall t :: t in sorted ==> t in trees
  {
    sorted := [];
    var rest := trees;
    ghost var done, left := [], roots;
    while rest != []
      invariant Rooted(nodes, done, sorted) && Rooted(nodes, left, rest) && Parts(roots, done, left)
      invariant forall t :: t in sorted || t in rest ==> t in trees
      decreases |rest|
    {
      var i :| 0 <= i < |rest|;
      PickRoot(roots, done, left, i);
      assert rest[i] in rest;
      sorted, rest := sorted + [rest[i]], rest[..i] + rest[i + 1..];
      done, left := done + [left[i]], left[..i] + left[i + 1..];
    }
    assert Parts(roots, done, []);
  }

  /** The indices below `n` of the nodes without parents. */
  ghost function RootsBefore(nodes: seq<Node>, n: nat): seq<nat>
    requires n <= |nodes|
  {
    if n == 0 then [] else RootsBefore(nodes, n - 1) + if nodes[n - 1].parentRefs == [] then [n - 1] else []
  }

  lemma {:induction false} RootsExact(nodes: seq<Node>, n: nat)
    requires n <= |nodes|
    ensures forall i :: i in RootsBefore(nodes, n) <==> 0 <= i < n && nodes[i].parentRefs == []
    ensures forall a, b :: 0 <= a < b < |RootsBefore(nodes, n)| ==>
              RootsBefore(nodes, n)[a] != RootsBefore(nodes, n)[b]
  {
    if n > 0 {
      RootsExact(nodes, n - 1);
      var less := RootsBefore(nodes, n - 1);
      assert forall a :: 0 <= a < |less| ==> less[a] in less;
    }
  }

  ghost function Roots(nodes: seq<Node>): seq<nat> {
    RootsBefore(nodes, |nodes|)
  }

  ghost predicate Rooted(nodes: seq<Node>, roots: seq<nat>, forest: seq<Tree>) {
    && |forest| == |roots|
    && forall k :: 0 <= k < |roots| ==>
         roots[k] < |nodes| && forest[k].node == nodes[roots[k]] && Filled(nodes, forest[k])
  }

  /** The trees of exactly the nodes without parents, in any order. */
  ghost predicate Forest(nodes: seq<Node>, forest: seq<Tree>) {
    exists roots :: Parts(Roots(nodes), roots, []) && Rooted(nodes, roots, forest)
  }

  // ---- When a tree exists ----

  ghost function Size(t: Tree): nat {
    1 + SizeAll(t.children)
  }

  ghost function SizeAll(ts: seq<Tree>): nat {
    if ts == [] then 0 else Size(ts[0]) + SizeAll(ts[1..])
  }

  lemma {:induction false} ChildSmaller(ts: seq<Tree>, k: nat)
    requires k < |ts|
    ensures Size(ts[k]) <= SizeAll(ts)
  {
    if k > 0 {
      ChildSmaller(ts[1..], k - 1);
    }
  }

  /** Below nodes with the same identity hang the same trees. */
  lemma {:induction false} SameChildren(nodes: seq<Node>, t: Tree, u: Tree)
    requires Filled(nodes, t) && Filled(nodes, u) && IdOf(t.node.ref) == IdOf(u.node.ref)
    ensures t.children == u.children
    decreases t
  {
    SameLinks(nodes, t.node.ref, u.node.ref, |nodes|, 0);
    forall k | 0 <= k < |t.children|
      ensures t.children[k] == u.children[k]
    {
      SameChildren(nodes, t.children[k], u.children[k]);
    }
  }

  lemma {:induction false} SameLinks(nodes: seq<Node>, r: ResourceRef, q: ResourceRef, i: nat, j: nat)
    requires IdOf(r) == IdOf(q)
    requires i <= |nodes| && (i < |nodes| ==> j <= |nodes[i].parentRefs|) && (i == |nodes| ==> j == 0)
    ensures LinksBefore(nodes, r, i, j) == LinksBefore(nodes, q, i, j)
    decreases i, j
  {
    if j > 0 {
      SameLinks(nodes, r, q, i, j - 1);
    } else if i > 0 {
      SameLinks(nodes, r, q, i - 1, |nodes[i - 1].parentRefs|);
    }
  }

  /** Every chain of references leaving a filled tree's node is followed inside the tree. */
  lemma {:induction false} Descend(nodes: seq<Node>, t: Tree, w: seq<Id>) returns (s: Tree)
    requires Filled(nodes, t) && Walk(nodes, w) && w[0] == IdOf(t.node.ref)
    ensures Filled(nodes, s) && IdOf(s.node.ref) == w[|w| - 1]
    ensures if |w| == 1 then s == t else Size(s) < Size(t)
    decreases |w|
  {
    if |w| == 1 {
      return t;
    }
    assert Edge(nodes, w[0], w[1]);
    var l: Link :|
      && l.child < |nodes| && l.parent < |nodes[l.child].parentRefs|
      && IdOf(nodes[l.child].parentRefs[l.parent]) == w[0] && IdOf(nodes[l.child].ref) == w[1];
    var links := Links(nodes, t.node.ref);
    LinksExact(nodes, t.node.ref);
    assert IsLink(nodes, t.node.ref, l);
    var k :| 0 <= k < |links| && links[k] == l;
    forall m | 0 <= m < |w[1..]| - 1
      ensures Edge(nodes, w[1..][m], w[1..][m + 1])
    {
      assert Edge(nodes, w[m + 1], w[m + 2]);
    }
    s := Descend(nodes, t.children[k], w[1..]);
    ChildSmaller(t.children, k);
  }

  lemma SameSize(nodes: seq<Node>, t: Tree, u: Tree)
    requires Filled(nodes, t) && Filled(nodes, u)
    ensures IdOf(t.node.ref) == IdOf(u.node.ref) ==> Size(t) == Size(u)
  {
    if IdOf(t.node.ref) == IdOf(u.node.ref) {
      SameChildren(nodes, t, u);
    }
  }

  /** A walk that came back to a resource would have to go on inside a tree of the same shape but smaller. */
  lemma NoReturn(nodes: seq<Node>, t: Tree, w: seq<Id>, a: nat, b: nat)
    requires Filled(nodes, t) && Walk(nodes, w) && w[0] == IdOf(t.node.ref) && a < b < |w|
    ensures w[a] != w[b]
  {
    SubWalk(nodes, w, 0, a + 1);
    SubWalk(nodes, w, a, b + 1);
    var s := Descend(nodes, t, w[..a + 1]);
    var u := Descend(nodes, s, w[a..b + 1]);
    SameSize(nodes, s, u);
  }

  /** A finite tree can only exist if no cycle is reachable from its node; with FillTreeNodeChildren, which builds the
      tree whenever none is, the two conditions coincide. */
  lemma FilledIsCycleFree(nodes: seq<Node>, t: Tree)
    requires Filled(nodes, t)
    ensures CycleFree(nodes, IdOf(t.node.ref))
  {
    forall w, a: nat, b: nat | Walk(nodes, w) && w[0] == IdOf(t.node.ref) && a < b < |w|
      ensures w[a] != w[b]
    {
      NoReturn(nodes, t, w, a, b);
    }
  }

  lemma SubWalk(nodes: seq<Node>, w: seq<Id>, lo: nat, hi: nat)
    requires Walk(nodes, w) && lo < hi <= |w|
    ensures Walk(nodes, w[lo..hi]) && w[lo..hi][0] == w[lo] && w[lo..hi][hi - lo - 1] == w[hi - 1]
  {
  }

  // ---- How often a node appears ----

  function Occurrences(t: Tree, x: Node): nat {
    (if t.node == x then 1 else 0) + OccurrencesIn(t.children, |t.children|, x)
  }

  function OccurrencesIn(ts: seq<Tree>, n: nat, x: Node): nat
    requires n <= |ts|
    decreases ts, n
  {
    if n == 0 then 0 else OccurrencesIn(ts, n - 1, x) + Occurrences(ts[n - 1], x)
  }

  /** A reference path from one node to another: every step follows a link from the node reached so far. */
  ghost predicate IsPath(nodes: seq<Node>, from: Node, p: seq<Link>, to: Node)
    decreases |p|
  {
    if p == [] then from == to
    else IsLink(nodes, from.ref, p[0]) && IsPath(nodes, nodes[p[0].child], p[1..], to)
  }

  /** The paths to `x` in a filled tree, gathered along the tree. */
  ghost function Paths(nodes: seq<Node>, t: Tree, x: Node): set<seq<Link>>
    requires Filled(nodes, t)
    decreases t
  {
    (if t.node == x then {[]} else {}) + PathsIn(nodes, Links(nodes, t.node.ref), t.children, |t.children|, x)
  }

  ghost function PathsIn(nodes: seq<Node>, links: seq<Link>, ts: seq<Tree>, n: nat, x: Node): set<seq<Link>>
    requires Grown(nodes, links, ts) && n <= |ts|
    decreases ts, n
  {
    if n == 0 then {}
    else PathsIn(nodes, links, ts, n - 1, x) + Prepend(links[n - 1], Paths(nodes, ts[n - 1], x))
  }

  ghost function Prepend(l: Link, paths: set<seq<Link>>): set<seq<Link>> {
    set p | p in paths :: [l] + p
  }

  lemma {:induction false} PrependSize(l: Link, paths: set<seq<Link>>)
    ensures |Prepend(l, paths)| == |paths|
  {
    if paths != {} {
      var p :| p in paths;
      PrependSize(l, paths - {p});
      forall q | q in paths && [l] + q == [l] + p
        ensures q == p
      {
        assert q == ([l] + q)[1..] == ([l] + p)[1..] == p;
      }
      assert Prepend(l, paths) == Prepend(l, paths - {p}) + {[l] + p};
    }
  }

  ghost predicate Once(links: seq<Link>) {
    forall a, b :: 0 <= a < b < |links| ==> links[a] != links[b]
  }

  lemma AddEmpty(below: set<seq<Link>>)
    requires forall p :: p in below ==> p != []
    ensures |{[]} + below| == 1 + |below| && {} + below == below
  {
    assert [] !in below;
  }

  lemma {:induction false} PathsCount(nodes: seq<Node>, t: Tree, x: Node)
    requires Filled(nodes, t)
    ensures |Paths(nodes, t, x)| == Occurrences(t, x)
    decreases t, 1
  {
    var links := Links(nodes, t.node.ref);
    LinksExact(nodes, t.node.ref);
    PathsInHeads(nodes, links, t.children, |t.children|, x);
    PathsInCount(nodes, links, t.children, |t.children|, x);
    AddEmpty(PathsIn(nodes, links, t.children, |t.children|, x));
  }

  lemma {:induction false} PathsInHeads(nodes: seq<Node>, links: seq<Link>, ts: seq<Tree>, n: nat, x: Node)
    requires Grown(nodes, links, ts) && n <= |ts|
    ensures forall p :: p in PathsIn(nodes, links, ts, n, x) ==> p != [] && p[0] in links[..n]
    decreases n
  {
    if n > 0 {
      PathsInHeads(nodes, links, ts, n - 1, x);
      assert links[..n] == links[..n - 1] + [links[n - 1]];
    }
  }

  lemma AddPaths(before: set<seq<Link>>, l: Link, below: set<seq<Link>>)
    requires forall p :: p in before ==> p != [] && p[0] != l
    ensures |before + Prepend(l, below)| == |before| + |below|
  {
    PrependSize(l, below);
    assert before !! Prepend(l, below);
  }

  lemma NewHead(nodes: seq<Node>, links: seq<Link>, ts: seq<Tree>, n: nat, x: Node)
    requires Grown(nodes, links, ts) && n < |ts| && Once(links)
    ensures forall p :: p in PathsIn(nodes, links, ts, n, x) ==> p != [] && p[0] != links[n]
  {
    PathsInHeads(nodes, links, ts, n, x);
    assert links[n] !in links[..n];
  }

  lemma PathsInMore(nodes: seq<Node>, links: seq<Link>, ts: seq<Tree>, n: nat, x: Node)
    requires Grown(nodes, links, ts) && 0 < n <= |ts|
    ensures Filled(nodes, ts[n - 1])
    ensures PathsIn(nodes, links, ts, n, x) ==
            PathsIn(nodes, links, ts, n - 1, x) + Prepend(links[n - 1], Paths(nodes, ts[n - 1], x))
    ensures OccurrencesIn(ts, n, x) == OccurrencesIn(ts, n - 1, x) + Occurrences(ts[n - 1], x)
  {
  }

  lemma PathsApart(nodes: seq<Node>, links: seq<Link>, ts: seq<Tree>, n: nat, x: Node)
    requires Grown(nodes, links, ts) && 0 < n <= |ts| && Once(links)
    ensures |PathsIn(nodes, links, ts, n - 1, x) + Prepend(links[n - 1], Paths(nodes, ts[n - 1], x))| ==
            |PathsIn(nodes, links, ts, n - 1, x)| + |Paths(nodes, ts[n - 1], x)|
  {
    NewHead(nodes, links, ts, n - 1, x);
    AddPaths(PathsIn(nodes, links, ts, n - 1, x), links[n - 1], Paths(nodes, ts[n - 1], x));
  }

  /** The paths through one more child are new ones. */
  lemma PathsInStep(nodes: seq<Node>, links: seq<Link>, ts: seq<Tree>, n: nat, x: Node)
    requires Grown(nodes, links, ts) && 0 < n <= |ts| && Once(links)
    requires |PathsIn(nodes, links, ts, n - 1, x)| == OccurrencesIn(ts, n - 1, x)
    requires |Paths(nodes, ts[n - 1], x)| == Occurrences(ts[n - 1], x)
    ensures |PathsIn(nodes, links, ts, n, x)| == OccurrencesIn(ts, n, x)
  {
    PathsInMore(nodes, links, ts, n, x);
    PathsApart(nodes, links, ts, n, x);
  }

  lemma {:induction false} PathsInCount(nodes: seq<Node>, links: seq<Link>, ts: seq<Tree>, n: nat, x: Node)
    requires Grown(nodes, links, ts) && n <= |ts| && Once(links)
    ensures |PathsIn(nodes, links, ts, n, x)| == OccurrencesIn(ts, n, x)
    decreases ts, n
  {
    if n > 0 {
      PathsInCount(nodes, links, ts, n - 1, x);
      PathsCount(nodes, ts[n - 1], x);
      PathsInStep(nodes, links, ts, n, x);
    }
  }

  lemma {:induction false} PathsExact(nodes: seq<Node>, t: Tree, x: Node, p: seq<Link>)
    requires Filled(nodes, t)
    ensures p in Paths(nodes, t, x) <==> IsPath(nodes, t.node, p, x)
    decreases t, 1
  {
    var links := Links(nodes, t.node.ref);
    PathsInExact(nodes, t.node.ref, links, t.children, |t.children|, x, p);
    LinksExact(nodes, t.node.ref);
  }

  lemma InPrepend(l: Link, below: set<seq<Link>>, p: seq<Link>)
    ensures p in Prepend(l, below) <==> p != [] && p[0] == l && p[1..] in below
  {
    if p != [] {
      assert p == [p[0]] + p[1..];
      forall q | q in below && p == [l] + q
        ensures q == p[1..]
      {
      }
    }
  }

  lemma {:induction false} PathsInExact(nodes: seq<Node>, r: ResourceRef, links: seq<Link>, ts: seq<Tree>, n: nat,
                                        x: Node, p: seq<Link>)
    requires Grown(nodes, links, ts) && n <= |ts| && links == Links(nodes, r)
    ensures p in PathsIn(nodes, links, ts, n, x) <==>
            p != [] && p[0] in links[..n] && IsPath(nodes, nodes[p[0].child], p[1..], x)
    decreases ts, n
  {
    if n > 0 {
      PathsInExact(nodes, r, links, ts, n - 1, x, p);
      assert links[..n] == links[..n - 1] + [links[n - 1]];
      var below, last := Paths(nodes, ts[n - 1], x), links[n - 1];
      InPrepend(last, below, p);
      if p != [] {
        PathsExact(nodes, ts[n - 1], x, p[1..]);
      }
    }
  }

  /** A node appears in the tree as often as there are reference paths to it from the tree's node: no more, no fewer,
      so in particular exactly when it is joined to it by a chain of references. */
  lemma OccurrencesArePaths(nodes: seq<Node>, t: Tree, x: Node) returns (paths: set<seq<Link>>)
    requires Filled(nodes, t)
    ensures forall p :: p in paths <==> IsPath(nodes, t.node, p, x)
    ensures |paths| == Occurrences(t, x)
  {
    paths := Paths(nodes, t, x);
    PathsCount(nodes, t, x);
    forall p
      ensures p in paths <==> IsPath(nodes, t.node, p, x)
    {
      PathsExact(nodes, t, x, p);
    }
  }

  // ---- Over the whole forest ----

  /** A path together with the root it starts from. */
  datatype RootPath = RootPath(root: nat, path: seq<Link>)

  ghost function From(root: nat, paths: set<seq<Link>>): set<RootPath> {
    set p | p in paths :: RootPath(root, p)
  }

  lemma {:induction false} FromSize(root: nat, paths: set<seq<Link>>)
    ensures |From(root, paths)| == |paths|
  {
    if paths != {} {
      var p :| p in paths;
      FromSize(root, paths - {p});
      assert From(root, paths) == From(root, paths - {p}) + {RootPath(root, p)};
    }
  }

  ghost function RootPaths(nodes: seq<Node>, roots: seq<nat>, forest: seq<Tree>, n: nat, x: Node): set<RootPath>
    requires Rooted(nodes, roots, forest) && n <= |forest|
  {
    if n == 0 then {}
    else RootPaths(nodes, roots, forest, n - 1, x) + From(roots[n - 1], Paths(nodes, forest[n - 1], x))
  }

  lemma {:induction false} RootPathsExact(nodes: seq<Node>, roots: seq<nat>, forest: seq<Tree>, n: nat, x: Node,
                                          p: RootPath)
    requires Rooted(nodes, roots, forest) && n <= |forest|
    ensures p in RootPaths(nodes, roots, forest, n, x) <==>
            p.root in roots[..n] && p.root < |nodes| && IsPath(nodes, nodes[p.root], p.path, x)
  {
    if n > 0 {
      RootPathsExact(nodes, roots, forest, n - 1, x, p);
      PathsExact(nodes, forest[n - 1], x, p.path);
      assert roots[..n] == roots[..n - 1] + [roots[n - 1]];
      assert p in From(roots[n - 1], Paths(nodes, forest[n - 1], x)) <==>
             p.root == roots[n - 1] && p.path in Paths(nodes, forest[n - 1], x);
    }
  }

  lemma OtherRoot(nodes: seq<Node>, roots: seq<nat>, forest: seq<Tree>, n: nat, x: Node, root: nat)
    requires Rooted(nodes, roots, forest) && n <= |forest| && root !in roots[..n]
    ensures forall p :: p in RootPaths(nodes, roots, forest, n, x) ==> p.root != root
  {
    forall p | p in RootPaths(nodes, roots, forest, n, x)
      ensures p.root != root
    {
      RootPathsExact(nodes, roots, forest, n, x, p);
    }
  }

  lemma RootPathsStep(nodes: seq<Node>, roots: seq<nat>, forest: seq<Tree>, n: nat, x: Node)
    requires Rooted(nodes, roots, forest) && 0 < n <= |forest| && roots[n - 1] !in roots[..n - 1]
    requires |RootPaths(nodes, roots, forest, n - 1, x)| == OccurrencesIn(forest, n - 1, x)
    requires |Paths(nodes, forest[n - 1], x)| == Occurrences(forest[n - 1], x)
    ensures |RootPaths(nodes, roots, forest, n, x)| == OccurrencesIn(forest, n, x)
  {
    OtherRoot(nodes, roots, forest, n - 1, x, roots[n - 1]);
    AddRoot(RootPaths(nodes, roots, forest, n - 1, x), roots[n - 1], Paths(nodes, forest[n - 1], x));
  }

  lemma AddRoot(before: set<RootPath>, root: nat, paths: set<seq<Link>>)
    requires forall p :: p in before ==> p.root != root
    ensures |before + From(root, paths)| == |before| + |paths|
  {
    FromSize(root, paths);
    assert before !! From(root, paths);
  }

  lemma NewRoot(roots: seq<nat>, n: nat)
    requires 0 < n <= |roots| && forall a, b :: 0 <= a < b < |roots| ==> roots[a] != roots[b]
    ensures roots[n - 1] !in roots[..n - 1]
  {
  }

  lemma {:induction false} RootPathsCount(nodes: seq<Node>, roots: seq<nat>, forest: seq<Tree>, n: nat, x: Node)
    requires Rooted(nodes, roots, forest) && n <= |forest|
    requires forall a, b :: 0 <= a < b < |roots| ==> roots[a] != roots[b]
    ensures |RootPaths(nodes, roots, forest, n, x)| == OccurrencesIn(forest, n, x)
    decreases n
  {
    if n > 0 {
      RootPathsCount(nodes, roots, forest, n - 1, x);
      PathsCount(nodes, forest[n - 1], x);
      NewRoot(roots, n);
      RootPathsStep(nodes, roots, forest, n, x);
    }
  }

  /** The roots of the trees are the nodes without parents, each once. */
  lemma ForestRoots(nodes: seq<Node>, forest: seq<Tree>) returns (roots: seq<nat>)
    requires Forest(nodes, forest)
    ensures Rooted(nodes, roots, forest)
    ensures forall r: nat :: r in roots <==> r < |nodes| && nodes[r].parentRefs == []
    ensures forall a, b :: 0 <= a < b < |roots| ==> roots[a] != roots[b]
  {
    roots :| Parts(Roots(nodes), roots, []) && Rooted(nodes, roots, forest);
    RootsExact(nodes, |nodes|);
    assert forall r :: r in Roots(nodes) <==> r in roots;
  }

  /** In the whole forest a node appears as often as there are reference paths to it from nodes without parents. */
  lemma ForestOccurrences(nodes: seq<Node>, forest: seq<Tree>, x: Node) returns (paths: set<RootPath>)
    requires Forest(nodes, forest)
    ensures forall p :: p in paths <==>
              p.root < |nodes| && nodes[p.root].parentRefs == [] && IsPath(nodes, nodes[p.root], p.path, x)
    ensures |paths| == OccurrencesIn(forest, |forest|, x)
  {
    var roots := ForestRoots(nodes, forest);
    paths := RootPaths(nodes, roots, forest, |forest|, x);
    RootPathsCount(nodes, roots, forest, |forest|, x);
    assert roots[..|forest|] == roots;
    forall p
      ensures p in paths <==>
                p.root < |nodes| && nodes[p.root].parentRefs == [] && IsPath(nodes, nodes[p.root], p.path, x)
    {
      RootPathsExact(nodes, roots, forest, |forest|, x, p);
    }
  }

  /** The condition under which the builder ends is also necessary: a forest of finite trees exists only if no cycle is
      reachable from a node without parents. */
  lemma ForestIsCycleFree(nodes: seq<Node>, forest: seq<Tree>)
    requires Forest(nodes, forest)
    ensures Unrolls(nodes)
  {
    var roots := ForestRoots(nodes, forest);
    forall i: nat | i < |nodes| && nodes[i].parentRefs == []
      ensures CycleFree(nodes, IdOf(nodes[i].ref))
    {
      assert i in roots;
      var k :| 0 <= k < |roots| && roots[k] == i;
      FilledIsCycleFree(nodes, forest[k]);
    }
  }
}
