/**
 * Forests from parent links: keys of any type, each with at most one parent, cycles allowed.
 * The diagnostics tree is the instance whose keys are resource ids.
 */
module Forest {
  import opened Seqs

  /** Each known key and its known parent; None marks a top. */
  type Parents<K> = map<K, Option<K>>

  /** A parent that is given is known as well. */
  ghost predicate Closed<K(!new)>(par: Parents<K>) {
    forall x :: x in par && par[x].Some? ==> par[x].value in par
  }

  // ---- Parent chains --------------------------------------------------------------

  /** The parent chain of x reaches a top after exactly n steps. */
  predicate AtDepth<K(==)>(par: Parents<K>, x: K, n: nat)
    decreases n
  {
    x in par && if n == 0 then par[x].None? else par[x].Some? && AtDepth(par, par[x].value, n - 1)
  }

  /** The parent chain of x ends. */
  ghost predicate Rooted<K>(par: Parents<K>, x: K) {
    exists n: nat :: AtDepth(par, x, n)
  }

  /** The m-th key up the chain, or the last one when the chain is shorter. */
  function Ancestor<K(==)>(par: Parents<K>, x: K, m: nat): K
    decreases m
  {
    if m == 0 || x !in par || par[x].None? then x else Ancestor(par, par[x].value, m - 1)
  }

  lemma {:induction false} DepthUnique<K>(par: Parents<K>, x: K, a: nat, b: nat)
    requires AtDepth(par, x, a) && AtDepth(par, x, b)
    ensures a == b
    decreases a
  {
    if a > 0 && b > 0 { DepthUnique(par, par[x].value, a - 1, b - 1); }
  }

  lemma {:induction false} AncestorDepth<K>(par: Parents<K>, x: K, n: nat, m: nat)
    requires AtDepth(par, x, n) && m <= n
    ensures AtDepth(par, Ancestor(par, x, m), n - m)
    decreases m
  {
    if m > 0 { AncestorDepth(par, par[x].value, n - 1, m - 1); }
  }

  lemma {:induction false} AncestorSucc<K>(par: Parents<K>, x: K, n: nat, m: nat)
    requires AtDepth(par, x, n) && m < n
    ensures var a := Ancestor(par, x, m); a in par && par[a] == Some(Ancestor(par, x, m + 1))
    decreases m
  {
    if m > 0 { AncestorSucc(par, par[x].value, n - 1, m - 1); }
  }

  /** A chain never repeats a key, so it is shorter than the number of known keys. */
  lemma {:induction false} DepthBounded<K>(par: Parents<K>, x: K, n: nat)
    requires AtDepth(par, x, n)
    ensures n < |par|
  {
    var chain := ChainSet(par, x, n);
    SubsetSize(chain, par.Keys);
  }

  ghost predicate DepthWithin<K>(par: Parents<K>, x: K, n: nat) {
    exists k: nat :: k <= n && AtDepth(par, x, k)
  }

  lemma {:induction false} ChainSet<K>(par: Parents<K>, x: K, n: nat) returns (s: set<K>)
    requires AtDepth(par, x, n)
    ensures s <= par.Keys && |s| == n + 1
    ensures forall y :: y in s ==> DepthWithin(par, y, n)
    decreases n
  {
    assert DepthWithin(par, x, n);
    if n == 0 {
      s := {x};
    } else {
      var t := ChainSet(par, par[x].value, n - 1);
      if x in t {
        var k: nat :| k <= n - 1 && AtDepth(par, x, k);
        DepthUnique(par, x, n, k);
      }
      s := t + {x};
      forall y | y in t ensures DepthWithin(par, y, n) {
        assert DepthWithin(par, y, n - 1);
      }
    }
  }

  /** An unrooted chain never gets away from the known keys: it must run in a cycle. */
  lemma {:induction false} UnrootedNeverEnds<K(!new)>(par: Parents<K>, x: K)
    requires Closed(par) && x in par
    ensures Rooted(par, x) <==> exists n: nat :: Ancestor(par, x, n) in par && par[Ancestor(par, x, n)].None?
  {
    if Rooted(par, x) {
      var n: nat :| AtDepth(par, x, n);
      AncestorDepth(par, x, n, n);
    }
    if exists n: nat :: Ancestor(par, x, n) in par && par[Ancestor(par, x, n)].None? {
      var n: nat :| Ancestor(par, x, n) in par && par[Ancestor(par, x, n)].None?;
      var d := EndsWithin(par, x, n);
    }
  }

  lemma {:induction false} AncestorKnown<K(!new)>(par: Parents<K>, x: K, n: nat)
    requires Closed(par) && x in par
    ensures Ancestor(par, x, n) in par
    decreases n
  {
    if n > 0 && par[x].Some? { AncestorKnown(par, par[x].value, n - 1); }
  }

  lemma {:induction false} EndsWithin<K(!new)>(par: Parents<K>, x: K, n: nat) returns (d: nat)
    requires Closed(par) && x in par
    requires Ancestor(par, x, n) in par && par[Ancestor(par, x, n)].None?
    ensures AtDepth(par, x, d)
    decreases n
  {
    if par[x].None? {
      d := 0;
    } else {
      d := EndsWithin(par, par[x].value, n - 1);
      d := d + 1;
    }
  }

  // ---- Adjacency -----------------------------------------------------------------------

  type Children<K> = map<K, seq<K>>

  function ChildrenOf<K(==)>(kids: Children<K>, x: K): seq<K> {
    if x in kids then kids[x] else []
  }

  /** The list holds, each once, the keys whose parent entry is exactly p. */
  ghost predicate Lists<K(!new)>(par: Parents<K>, list: seq<K>, p: Option<K>) {
    NoDuplicates(list) && forall x :: x in list <==> x in par && par[x] == p
  }

  ghost predicate IsAdjacency<K(!new)>(par: Parents<K>, kids: Children<K>) {
    forall p :: Lists(par, ChildrenOf(kids, p), Some(p))
  }

  // ---- Assembly --------------------------------------------------------------------------

  datatype Node<K> = Node(key: K, children: seq<Node<K>>)

  /** The recursive assembly. The ghost depth is what makes it terminate. */
  function BuildNode<K(!new, ==)>(ghost par: Parents<K>, kids: Children<K>, x: K, ghost depth: nat): Node<K>
    requires IsAdjacency(par, kids) && AtDepth(par, x, depth)
    decreases |par| - depth, 0
  {
    DepthBounded(par, x, depth);
    assert Lists(par, ChildrenOf(kids, x), Some(x));
    Node(x, BuildNodes(par, kids, ChildrenOf(kids, x), depth + 1))
  }

  function BuildNodes<K(!new, ==)>(ghost par: Parents<K>, kids: Children<K>, list: seq<K>, ghost depth: nat): (ns: seq<Node<K>>)
    requires IsAdjacency(par, kids) && forall x :: x in list ==> AtDepth(par, x, depth)
    ensures |ns| == |list| && forall i :: 0 <= i < |list| ==> ns[i].key == list[i]
    decreases |par| - depth, 1 + |list|
  {
    if list == [] then []
    else [BuildNode(par, kids, list[0], depth)] + BuildNodes(par, kids, list[1..], depth)
  }

  /** The keys of a tree in the order a depth-first reader meets them. */
  function Keys<K>(n: Node<K>): seq<K> {
    [n.key] + AllKeys(n.children)
  }

  function AllKeys<K>(ns: seq<Node<K>>): seq<K> {
    if ns == [] then [] else Keys(ns[0]) + AllKeys(ns[1..])
  }

  /** x hangs below (or is) the key top, which sits at this depth. */
  ghost predicate Below<K>(par: Parents<K>, x: K, top: K, depth: nat) {
    exists m: nat :: IsAncestorAt(par, x, top, depth, m)
  }

  ghost predicate IsAncestorAt<K>(par: Parents<K>, x: K, top: K, depth: nat, m: nat) {
    AtDepth(par, x, depth + m) && Ancestor(par, x, m) == top
  }

  ghost predicate BelowSome<K>(par: Parents<K>, x: K, list: seq<K>, depth: nat) {
    exists top :: top in list && Below(par, x, top, depth)
  }

  lemma {:induction false} BelowChildIsLower<K(!new)>(par: Parents<K>, list: seq<K>, y: K, depth: nat, x: K)
    requires AtDepth(par, y, depth) && Lists(par, list, Some(y)) && BelowSome(par, x, list, depth + 1)
    ensures Below(par, x, y, depth) && x != y
  {
    var child :| child in list && Below(par, x, child, depth + 1);
    var m: nat :| IsAncestorAt(par, x, child, depth + 1, m);
    AncestorSucc(par, x, depth + 1 + m, m);
    assert IsAncestorAt(par, x, y, depth, m + 1);
    if x == y { DepthUnique(par, x, depth, depth + 1 + m); }
  }

  /** What hangs below y, besides y itself, is what hangs below its children. */
  lemma {:induction false} BelowIsBelowChild<K(!new)>(par: Parents<K>, list: seq<K>, y: K, depth: nat, x: K)
    requires AtDepth(par, y, depth) && Lists(par, list, Some(y)) && Below(par, x, y, depth) && x != y
    ensures BelowSome(par, x, list, depth + 1)
  {
    var m: nat :| IsAncestorAt(par, x, y, depth, m);
    AncestorDepth(par, x, depth + m, m - 1);
    AncestorSucc(par, x, depth + m, m - 1);
    var child := Ancestor(par, x, m - 1);
    assert IsAncestorAt(par, x, child, depth + 1, m - 1);
    assert child in list && Below(par, x, child, depth + 1);
  }

  /** A subtree holds, each once, exactly the keys below its top. */
  lemma {:induction false} TreeKeys<K(!new)>(par: Parents<K>, kids: Children<K>, y: K, depth: nat)
    requires IsAdjacency(par, kids) && AtDepth(par, y, depth)
    ensures NoDuplicates(Keys(BuildNode(par, kids, y, depth)))
    ensures forall x :: x in Keys(BuildNode(par, kids, y, depth)) <==> Below(par, x, y, depth)
    decreases |par| - depth, 0
  {
    DepthBounded(par, y, depth);
    var list := ChildrenOf(kids, y);
    assert Lists(par, list, Some(y));
    ForestKeys(par, kids, list, depth + 1);
    var below := AllKeys(BuildNodes(par, kids, list, depth + 1));
    assert Keys(BuildNode(par, kids, y, depth)) == [y] + below;
    assert IsAncestorAt(par, y, y, depth, 0);
    forall x | x in below ensures Below(par, x, y, depth) && x != y {
      BelowChildIsLower(par, list, y, depth, x);
    }
    NoDuplicatesConcat([y], below);
    forall x | Below(par, x, y, depth) && x != y ensures x in below {
      BelowIsBelowChild(par, list, y, depth, x);
    }
  }

  lemma {:induction false} ForestKeys<K(!new)>(par: Parents<K>, kids: Children<K>, list: seq<K>, depth: nat)
    requires IsAdjacency(par, kids) && NoDuplicates(list) && forall x :: x in list ==> AtDepth(par, x, depth)
    ensures NoDuplicates(AllKeys(BuildNodes(par, kids, list, depth)))
    ensures forall x :: x in AllKeys(BuildNodes(par, kids, list, depth)) <==> BelowSome(par, x, list, depth)
    decreases |par| - depth, 1 + |list|
  {
    if list == [] { return; }
    var first, rest := list[0], list[1..];
    TreeKeys(par, kids, first, depth);
    ForestKeys(par, kids, rest, depth);
    var ns := BuildNodes(par, kids, list, depth);
    assert ns[1..] == BuildNodes(par, kids, rest, depth);
    var a, b := Keys(ns[0]), AllKeys(ns[1..]);
    assert AllKeys(ns) == a + b;
    forall x | Below(par, x, first, depth) ensures !BelowSome(par, x, rest, depth) {
      SubtreesDisjoint(par, first, rest, depth, x);
    }
    NoDuplicatesConcat(a, b);
    forall x ensures BelowSome(par, x, list, depth) <==> Below(par, x, first, depth) || BelowSome(par, x, rest, depth) {
      BelowSomeSplit(par, list, depth, x);
    }
  }

  lemma BelowSomeSplit<K(!new)>(par: Parents<K>, list: seq<K>, depth: nat, x: K)
    requires list != []
    ensures BelowSome(par, x, list, depth) <==> Below(par, x, list[0], depth) || BelowSome(par, x, list[1..], depth)
  {
    if BelowSome(par, x, list, depth) {
      var top :| top in list && Below(par, x, top, depth);
      assert top == list[0] || top in list[1..];
    }
  }

  lemma SubtreesDisjoint<K(!new)>(par: Parents<K>, first: K, rest: seq<K>, depth: nat, x: K)
    requires first !in rest && Below(par, x, first, depth)
    ensures !BelowSome(par, x, rest, depth)
  {
    if BelowSome(par, x, rest, depth) {
      var top :| top in rest && Below(par, x, top, depth);
      var m: nat :| IsAncestorAt(par, x, first, depth, m);
      var k: nat :| IsAncestorAt(par, x, top, depth, k);
      DepthUnique(par, x, depth + m, depth + k);
    }
  }

  /** The forest holds a key once if its parent chain ends, and not at all if it runs in a cycle. */
  lemma {:induction false} ForestHoldsRooted<K(!new)>(par: Parents<K>, kids: Children<K>, tops: seq<K>)
    requires IsAdjacency(par, kids) && Lists(par, tops, None)
    ensures forall x :: x in tops ==> AtDepth(par, x, 0)
    ensures NoDuplicates(AllKeys(BuildNodes(par, kids, tops, 0)))
    ensures forall x :: x in AllKeys(BuildNodes(par, kids, tops, 0)) <==> Rooted(par, x)
  {
    ForestKeys(par, kids, tops, 0);
    forall x ensures Rooted(par, x) <==> BelowSome(par, x, tops, 0) {
      if Rooted(par, x) {
        var n: nat :| AtDepth(par, x, n);
        AncestorDepth(par, x, n, n);
        var top := Ancestor(par, x, n);
        assert IsAncestorAt(par, x, top, 0, n);
        assert top in tops && Below(par, x, top, 0);
      }
      if BelowSome(par, x, tops, 0) {
        var top :| top in tops && Below(par, x, top, 0);
        var m: nat :| IsAncestorAt(par, x, top, 0, m);
      }
    }
  }

  // ---- Sibling order and links ------------------------------------------------------------

  ghost predicate Sorted<K>(list: seq<K>, rank: map<K, int>) {
    forall i, j :: 0 <= i < j < |list| && list[i] in rank && list[j] in rank ==> rank[list[i]] <= rank[list[j]]
  }

  /**
   * The library sort the source uses. It is not stable, so all that is used of it is that it permutes its
   * input into order.
   */
  method SortByRank<K(!new, ==)>(list: seq<K>, rank: map<K, int>) returns (sorted: seq<K>)
    requires NoDuplicates(list) && forall x :: x in list ==> x in rank
    ensures NoDuplicates(sorted) && (forall x :: x in sorted <==> x in list) && Sorted(sorted, rank)
  {
    sorted := [];
    for i := 0 to |list|
      invariant NoDuplicates(sorted) && Sorted(sorted, rank)
      invariant forall x :: x in sorted <==> x in list[..i]
    {
      assert forall y :: y in sorted ==> y in list && y in rank;
      var k := |sorted|;
      while k > 0 && rank[list[i]] < rank[sorted[k - 1]]
        invariant 0 <= k <= |sorted|
        invariant forall j :: k <= j < |sorted| ==> rank[list[i]] < rank[sorted[j]]
      {
        k := k - 1;
      }
      assert list[i] !in list[..i];
      InsertedElements(sorted, k, list[i]);
      InsertedSorted(sorted, k, list[i], rank);
      sorted := Inserted(sorted, k, list[i]);
      assert list[..i + 1] == list[..i] + [list[i]];
    }
    assert list[..|list|] == list;
  }

  function Inserted<K>(s: seq<K>, k: nat, x: K): seq<K>
    requires k <= |s|
  {
    s[..k] + [x] + s[k..]
  }

  lemma InsertedElements<K(!new)>(s: seq<K>, k: nat, x: K)
    requires k <= |s| && NoDuplicates(s) && x !in s
    ensures NoDuplicates(Inserted(s, k, x))
    ensures forall y :: y in Inserted(s, k, x) <==> y in s || y == x
  {
    var a, b := s[..k], s[k..];
    assert s == a + b;
    NoDuplicatesConcat(a, [x]);
    assert forall y :: y in a + [x] ==> y !in b;
    NoDuplicatesConcat(a + [x], b);
  }

  lemma InsertedSorted<K(!new)>(s: seq<K>, k: nat, x: K, rank: map<K, int>)
    requires k <= |s| && Sorted(s, rank)
    requires x in rank && forall y :: y in s ==> y in rank
    requires k > 0 ==> rank[s[k - 1]] <= rank[x]
    requires forall j :: k <= j < |s| ==> rank[x] < rank[s[j]]
    ensures Sorted(Inserted(s, k, x), rank)
  {
    var r := Inserted(s, k, x);
    assert forall j :: 0 <= j < |r| ==> r[j] == if j < k then s[j] else if j == k then x else s[j - 1];
    assert forall j :: 0 <= j < k ==> rank[s[j]] <= rank[s[k - 1]];
  }

  function Tops<K>(ns: seq<Node<K>>): seq<K> {
    seq(|ns|, i requires 0 <= i < |ns| => ns[i].key)
  }

  ghost predicate AllSorted<K(!new)>(kids: Children<K>, rank: map<K, int>) {
    forall p :: Sorted(ChildrenOf(kids, p), rank)
  }

  /** Siblings are in rank order at every level, and children sit under their own parent. */
  ghost predicate WellShaped<K>(par: Parents<K>, rank: map<K, int>, parent: Option<K>, ns: seq<Node<K>>)
    decreases ns, 1
  {
    Sorted(Tops(ns), rank) && forall i :: 0 <= i < |ns| ==> NodeShaped(par, rank, parent, ns[i])
  }

  ghost predicate NodeShaped<K>(par: Parents<K>, rank: map<K, int>, parent: Option<K>, n: Node<K>)
    decreases n, 0
  {
    n.key in par && par[n.key] == parent && WellShaped(par, rank, Some(n.key), n.children)
  }

  lemma {:induction false} BuildWellShaped<K(!new)>(par: Parents<K>, kids: Children<K>, rank: map<K, int>, list: seq<K>, parent: Option<K>, depth: nat)
    requires IsAdjacency(par, kids) && AllSorted(kids, rank)
    requires Lists(par, list, parent) && Sorted(list, rank) && forall x :: x in list ==> AtDepth(par, x, depth)
    ensures WellShaped(par, rank, parent, BuildNodes(par, kids, list, depth))
    decreases |par| - depth, 1
  {
    var ns := BuildNodes(par, kids, list, depth);
    assert Tops(ns) == list;
    hide BuildNodes, Sorted, Tops;
    forall i | 0 <= i < |ns| ensures NodeShaped(par, rank, parent, ns[i]) {
      assert list[i] in list;
      BuildNodesAt(par, kids, list, depth, i);
      NodeWellShaped(par, kids, rank, list[i], parent, depth);
    }
  }

  lemma {:induction false} NodeWellShaped<K(!new)>(par: Parents<K>, kids: Children<K>, rank: map<K, int>, x: K, parent: Option<K>, depth: nat)
    requires IsAdjacency(par, kids) && AllSorted(kids, rank) && AtDepth(par, x, depth) && par[x] == parent
    ensures NodeShaped(par, rank, parent, BuildNode(par, kids, x, depth))
    decreases |par| - depth, 0
  {
    ChildrenReady(par, kids, rank, x, depth);
    hide IsAdjacency, AllSorted, Sorted, Lists;
    BuildWellShaped(par, kids, rank, ChildrenOf(kids, x), Some(x), depth + 1);
  }

  /** The children of x are one list, in order, one level further down. */
  lemma ChildrenReady<K(!new)>(par: Parents<K>, kids: Children<K>, rank: map<K, int>, x: K, depth: nat)
    requires IsAdjacency(par, kids) && AllSorted(kids, rank) && AtDepth(par, x, depth)
    ensures depth < |par|
    ensures Lists(par, ChildrenOf(kids, x), Some(x)) && Sorted(ChildrenOf(kids, x), rank)
    ensures forall y :: y in ChildrenOf(kids, x) ==> AtDepth(par, y, depth + 1)
  {
    DepthBounded(par, x, depth);
    assert Lists(par, ChildrenOf(kids, x), Some(x));
  }

  lemma BuildNodesAt<K(!new)>(par: Parents<K>, kids: Children<K>, list: seq<K>, depth: nat, i: nat)
    requires IsAdjacency(par, kids) && (forall x :: x in list ==> AtDepth(par, x, depth)) && i < |list|
    ensures BuildNodes(par, kids, list, depth)[i] == BuildNode(par, kids, list[i], depth)
    decreases |list|
  {
    if i > 0 { BuildNodesAt(par, kids, list[1..], depth, i - 1); }
  }
}
