/** The plugin dependency graph: depth-first topological sort that survives cycles. */
module DependencyGraph {
  import opened Seqs

  /** Plugin name to the names it depends on, as discovered on disk. */
  type Graph = map<string, seq<string>>

  /** A Go map lookup: a plugin without an entry has no dependencies. */
  function Deps(g: Graph, n: string): seq<string> {
    if n in g then g[n] else []
  }

  ghost function Nodes(g: Graph): set<string> {
    g.Keys + (set k, d | k in g && d in g[k] :: d)
  }

  lemma DepsAreNodes(g: Graph, n: string)
    ensures forall d :: d in Deps(g, n) ==> d in Nodes(g)
  {
    forall d | d in Deps(g, n) ensures d in Nodes(g) {
      assert n in g && d in g[n];
    }
  }

  // ---- Reachability -------------------------------------------------------

  ghost predicate IsWalk(g: Graph, p: seq<string>) {
    |p| > 0 && forall i :: 0 <= i < |p| - 1 ==> p[i] in g && p[i + 1] in g[p[i]]
  }

  ghost predicate Reaches(g: Graph, u: string, v: string) {
    exists p :: IsWalk(g, p) && p[0] == u && p[|p| - 1] == v
  }

  ghost predicate ReachedFrom(g: Graph, from: seq<string>, v: string) {
    exists u :: u in from && Reaches(g, u, v)
  }

  /** No dependency leads back to its dependent. */
  ghost predicate Acyclic(g: Graph) {
    forall u, v :: u in g && v in g[u] ==> !Reaches(g, v, u)
  }

  lemma ReachesItself(g: Graph, u: string)
    ensures Reaches(g, u, u)
  {
    assert IsWalk(g, [u]);
  }

  lemma ReachesThenEdge(g: Graph, u: string, v: string, w: string)
    requires Reaches(g, u, v) && v in g && w in g[v]
    ensures Reaches(g, u, w)
  {
    var p :| IsWalk(g, p) && p[0] == u && p[|p| - 1] == v;
    assert IsWalk(g, p + [w]);
  }

  lemma EdgeThenReaches(g: Graph, u: string, v: string, w: string)
    requires u in g && v in g[u] && Reaches(g, v, w)
    ensures Reaches(g, u, w)
  {
    var p :| IsWalk(g, p) && p[0] == v && p[|p| - 1] == w;
    assert IsWalk(g, [u] + p);
  }

  /** A set closed under dependencies holds everything its members reach. */
  lemma ClosedHoldsReachable(g: Graph, closed: seq<string>, u: string, v: string)
    requires forall x, y :: x in closed && x in g && y in g[x] ==> y in closed
    requires u in closed && Reaches(g, u, v)
    ensures v in closed
  {
    var p :| IsWalk(g, p) && p[0] == u && p[|p| - 1] == v;
    var i := 0;
    while i < |p| - 1
      invariant 0 <= i < |p| && p[i] in closed
    {
      i := i + 1;
    }
  }

  // ---- The sort as a function of the marks and the output so far ------------

  function Visit(g: Graph, n: string, temp: set<string>, res: seq<string>): seq<string>
    requires n in Nodes(g)
    decreases Nodes(g) - temp, 0
  {
    if n in temp || n in res then res
    else VisitAll(g, Deps(g, n), temp + {n}, res) + [n]
  }

  function VisitAll(g: Graph, ns: seq<string>, temp: set<string>, res: seq<string>): seq<string>
    requires forall n :: n in ns ==> n in Nodes(g)
    decreases Nodes(g) - temp, |ns|
  {
    if ns == [] then res else VisitAll(g, ns[1..], temp, Visit(g, ns[0], temp, res))
  }

  /** One turn of a loop that visits ns one by one. */
  lemma VisitNext(g: Graph, ns: seq<string>, i: nat, temp: set<string>, res: seq<string>)
    requires i < |ns| && forall n :: n in ns ==> n in Nodes(g)
    ensures VisitAll(g, ns[i..], temp, res) == VisitAll(g, ns[i + 1..], temp, Visit(g, ns[i], temp, res))
  {
    assert ns[i..][1..] == ns[i + 1..];
  }

  lemma VisitNone(g: Graph, ns: seq<string>, temp: set<string>, res: seq<string>)
    requires ns == []
    ensures VisitAll(g, ns, temp, res) == res
  {
  }

  /** What holds between any two calls of the recursive visit: `temp` is the recursion stack. */
  ghost predicate Inv(g: Graph, temp: set<string>, res: seq<string>) {
    && NoDuplicates(res)
    && (forall x :: x in res ==> x !in temp)
    && (forall x, v :: x in res && v in Deps(g, x) ==> v in res || v in temp)
    && (forall i, v :: 0 <= i < |res| && v in Deps(g, res[i]) ==> v in res[..i] || Reaches(g, v, res[i]))
  }

  lemma {:induction false} VisitKeepsInv(g: Graph, n: string, temp: set<string>, res: seq<string>)
    requires n in Nodes(g) && Inv(g, temp, res)
    requires forall t :: t in temp ==> Reaches(g, t, n)
    ensures var r := Visit(g, n, temp, res);
            && Inv(g, temp, r) && res <= r
            && (n in r || n in temp)
            && (forall i :: |res| <= i < |r| ==> Reaches(g, n, r[i]))
    decreases Nodes(g) - temp, 0
  {
    if n in temp || n in res { return; }
    var r1 := VisitAll(g, Deps(g, n), temp + {n}, res);
    ReachesItself(g, n);
    hide Reaches;
    forall x, t | x in Deps(g, n) && t in temp + {n} ensures Reaches(g, t, x) {
      ReachesThenEdge(g, t, n, x);
    }
    VisitAllKeepsInv(g, Deps(g, n), temp + {n}, res);
    var r := r1 + [n];
    forall i | |res| <= i < |r1| ensures Reaches(g, n, r[i]) {
      assert r[i] == r1[i] && ReachedFrom(g, Deps(g, n), r1[i]);
      var x :| x in Deps(g, n) && Reaches(g, x, r1[i]);
      EdgeThenReaches(g, n, x, r1[i]);
    }
    assert forall i :: 0 <= i < |r1| ==> r[..i] == r1[..i];
    assert r[..|r1|] == r1;
  }

  lemma {:induction false} VisitAllKeepsInv(g: Graph, ns: seq<string>, temp: set<string>, res: seq<string>)
    requires (forall n :: n in ns ==> n in Nodes(g)) && Inv(g, temp, res)
    requires forall t, n :: t in temp && n in ns ==> Reaches(g, t, n)
    ensures var r := VisitAll(g, ns, temp, res);
            && Inv(g, temp, r) && res <= r
            && (forall n :: n in ns ==> n in r || n in temp)
            && (forall i :: |res| <= i < |r| ==> ReachedFrom(g, ns, r[i]))
    decreases Nodes(g) - temp, |ns|
  {
    if ns == [] { return; }
    VisitKeepsInv(g, ns[0], temp, res);
    var mid := Visit(g, ns[0], temp, res);
    VisitAllKeepsInv(g, ns[1..], temp, mid);
    var r := VisitAll(g, ns[1..], temp, mid);
    forall i | |res| <= i < |r| ensures ReachedFrom(g, ns, r[i]) {
      if i < |mid| {
        assert r[i] == mid[i] && ns[0] in ns;
      } else {
        assert ReachedFrom(g, ns[1..], r[i]);
      }
    }
  }

  // ---- What the sort promises ------------------------------------------------

  /** v has a place in r strictly before some place of u. */
  ghost predicate Before(r: seq<string>, v: string, u: string) {
    exists i, j :: 0 <= i < j < |r| && r[i] == v && r[j] == u
  }

  /** The order the manager builds plugins in, given the keys in the order they are visited. */
  ghost function BuildOrder(g: Graph, keys: seq<string>): seq<string>
    requires forall k :: k in keys ==> k in g
  {
    VisitAll(g, keys, {}, [])
  }

  lemma BuildOrderInv(g: Graph, keys: seq<string>)
    requires forall k :: k in keys ==> k in g
    ensures Inv(g, {}, BuildOrder(g, keys))
    ensures forall k :: k in keys ==> k in BuildOrder(g, keys)
    ensures forall x :: x in BuildOrder(g, keys) ==> ReachedFrom(g, keys, x)
  {
    VisitAllKeepsInv(g, keys, {}, []);
  }

  lemma InvHoldsReachable(g: Graph, keys: seq<string>, r: seq<string>, x: string)
    requires Inv(g, {}, r) && ReachedFrom(g, keys, x)
    requires forall k :: k in keys ==> k in r
    ensures x in r
  {
    var k :| k in keys && Reaches(g, k, x);
    ClosedHoldsReachable(g, r, k, x);
  }

  /** Every node the keys reach is listed, exactly once, and nothing else; cycles included. */
  lemma {:induction false} BuildOrderListsReachableOnce(g: Graph, keys: seq<string>)
    requires forall k :: k in keys ==> k in g
    ensures NoDuplicates(BuildOrder(g, keys))
    ensures forall x :: x in BuildOrder(g, keys) <==> ReachedFrom(g, keys, x)
  {
    BuildOrderInv(g, keys);
    forall x | ReachedFrom(g, keys, x) ensures x in BuildOrder(g, keys) {
      InvHoldsReachable(g, keys, BuildOrder(g, keys), x);
    }
  }

  /** A dependency precedes its dependent unless the two are on a common cycle. */
  lemma {:induction false} DependenciesFirst(g: Graph, keys: seq<string>, u: string, v: string)
    requires forall k :: k in keys ==> k in g
    requires u in BuildOrder(g, keys) && u in g && v in g[u]
    ensures Before(BuildOrder(g, keys), v, u) || Reaches(g, v, u)
  {
    BuildOrderInv(g, keys);
    var r := BuildOrder(g, keys);
    var j :| 0 <= j < |r| && r[j] == u;
    if !Reaches(g, v, u) {
      var i :| 0 <= i < |r[..j]| && r[..j][i] == v;
      assert r[i] == v;
    }
  }

  /** Without cycles every dependency is built strictly before, and never after, its dependent. */
  lemma {:induction false} AcyclicDependenciesFirst(g: Graph, keys: seq<string>, u: string, v: string)
    requires forall k :: k in keys ==> k in g
    requires Acyclic(g)
    requires u in BuildOrder(g, keys) && u in g && v in g[u]
    ensures Before(BuildOrder(g, keys), v, u) && !Before(BuildOrder(g, keys), u, v)
  {
    DependenciesFirst(g, keys, u, v);
    BuildOrderListsReachableOnce(g, keys);
  }

  // ---- The keys in sorted order ----------------------------------------------

  predicate StringLe(a: string, b: string) {
    a == [] || (b != [] && (a[0] < b[0] || (a[0] == b[0] && StringLe(a[1..], b[1..]))))
  }

  lemma StringLeTotal(a: string, b: string)
    ensures StringLe(a, b) || StringLe(b, a)
  {
  }

  lemma StringLeTransitive(a: string, b: string, c: string)
    requires StringLe(a, b) && StringLe(b, c)
    ensures StringLe(a, c)
  {
  }

  lemma StringLeAntisymmetric(a: string, b: string)
    requires StringLe(a, b) && StringLe(b, a)
    ensures a == b
  {
    if a != [] {
      StringLeAntisymmetric(a[1..], b[1..]);
      assert a == [a[0]] + a[1..] && b == [b[0]] + b[1..];
    }
  }

  ghost predicate Least(k: string, s: set<string>) {
    k in s && forall j :: j in s ==> StringLe(k, j)
  }

  lemma LeastExists(s: set<string>)
    requires s != {}
    ensures exists k :: Least(k, s)
  {
    var k :| k in s;
    StringLeTotal(k, k);
    if s - {k} == {} {
      assert s == {k};
      assert Least(k, s);
    } else {
      LeastExists(s - {k});
      var m :| Least(m, s - {k});
      StringLeTotal(k, m);
      if StringLe(k, m) {
        forall j | j in s ensures StringLe(k, j) {
          if j != k { StringLeTransitive(k, m, j); }
        }
        assert Least(k, s);
      } else {
        assert Least(m, s);
      }
    }
  }

  ghost predicate SortedKeys(keys: seq<string>, s: set<string>) {
    && NoDuplicates(keys)
    && (forall k :: k in keys <==> k in s)
    && (forall i, j :: 0 <= i < j < |keys| ==> StringLe(keys[i], keys[j]))
  }

  /** Only one sequence is the sorted list of a set, so the build order is a function of the graph. */
  lemma {:induction false} SortedKeysUnique(a: seq<string>, b: seq<string>, s: set<string>)
    requires SortedKeys(a, s) && SortedKeys(b, s)
    ensures a == b
    decreases |s|
  {
    if a != [] || b != [] {
      assert a != [] by { if b != [] { assert b[0] in a; } }
      assert a[0] in b && b[0] in a;
      var i :| 0 <= i < |b| && b[i] == a[0];
      var j :| 0 <= j < |a| && a[j] == b[0];
      StringLeTotal(a[0], a[0]);
      assert StringLe(a[0], b[0]) && StringLe(b[0], a[0]);
      StringLeAntisymmetric(a[0], b[0]);
      var t := s - {a[0]};
      assert SortedKeys(a[1..], t) by {
        forall k ensures k in a[1..] <==> k in t {
          if k in t { var m :| 0 <= m < |a| && a[m] == k; assert a[1..][m - 1] == k; }
        }
      }
      assert SortedKeys(b[1..], t) by {
        forall k ensures k in b[1..] <==> k in t {
          if k in t { var m :| 0 <= m < |b| && b[m] == k; assert b[1..][m - 1] == k; }
        }
      }
      SortedKeysUnique(a[1..], b[1..], t);
      assert a == [a[0]] + a[1..] && b == [b[0]] + b[1..];
    }
  }

  /** The order the manager builds a discovered graph in. */
  ghost predicate IsBuildOrder(g: Graph, order: seq<string>) {
    exists keys :: SortedKeys(keys, g.Keys) && order == BuildOrder(g, keys)
  }

  lemma BuildOrderUnique(g: Graph, a: seq<string>, b: seq<string>)
    requires IsBuildOrder(g, a) && IsBuildOrder(g, b)
    ensures a == b
  {
    var ka :| SortedKeys(ka, g.Keys) && a == BuildOrder(g, ka);
    var kb :| SortedKeys(kb, g.Keys) && b == BuildOrder(g, kb);
    SortedKeysUnique(ka, kb, g.Keys);
  }

  // ---- The sort as the source runs it ------------------------------------------

  /** The names a map of marks answers `true` for; an absent name reads as false. */
  function Marked(m: map<string, bool>): (s: set<string>)
    ensures forall x :: x in s <==> x in m && m[x]
  {
    set x | x in m && m[x]
  }

  lemma MarkIs(m: map<string, bool>, n: string)
    ensures Marked(m[n := true]) == Marked(m) + {n} && Marked(m[n := false]) == Marked(m) - {n}
  {
  }

  /** The state captured by the recursive closure of topologicalSort. */
  class Sorter {
    const deps: Graph
    var visited: map<string, bool>
    var tempMark: map<string, bool>
    var result: seq<string>

    constructor (deps: Graph)
      ensures this.deps == deps && visited == map[] && tempMark == map[] && result == []
    {
      this.deps := deps;
      visited, tempMark, result := map[], map[], [];
    }

    /** The visited marks are exactly the names already listed. */
    ghost predicate Valid()
      reads this
    {
      forall x :: x in Marked(visited) <==> x in result
    }

    method VisitNode(n: string)
      requires Valid() && n in Nodes(deps)
      modifies this
      ensures Valid()
      ensures Marked(tempMark) == old(Marked(tempMark))
      ensures result == Visit(deps, n, old(Marked(tempMark)), old(result))
      decreases Nodes(deps) - Marked(tempMark), 0
    {
      ghost var temp, res := Marked(tempMark), result;
      var ds := Deps(deps, n);
      DepsAreNodes(deps, n);
      assert Visit(deps, n, temp, res)
          == if n in temp || n in res then res else VisitAll(deps, ds, temp + {n}, res) + [n];
      hide Nodes, Visit, VisitAll, Marked;
      MarkIs(tempMark, n);
      MarkIs(visited, n);
      if n in tempMark && tempMark[n] {
        return;
      }
      if n in visited && visited[n] {
        return;
      }
      tempMark := tempMark[n := true];
      for i := 0 to |ds|
        invariant Valid() && Marked(tempMark) == temp + {n}
        invariant VisitAll(deps, ds[i..], temp + {n}, result) == VisitAll(deps, ds, temp + {n}, res)
      {
        VisitNext(deps, ds, i, temp + {n}, result);
        VisitNode(ds[i]);
      }
      VisitNone(deps, ds[|ds|..], temp + {n}, result);
      MarkIs(tempMark, n);
      MarkIs(visited, n);
      tempMark := tempMark[n := false];
      visited := visited[n := true];
      result := result + [n];
    }
  }

  /** The keys of a map, sorted. */
  method SortKeys(deps: Graph) returns (keys: seq<string>)
    ensures SortedKeys(keys, deps.Keys)
  {
    hide StringLe;
    var rest := deps.Keys;
    keys := [];
    while rest != {}
      invariant NoDuplicates(keys) && (forall k :: k in keys ==> k !in rest)
      invariant forall k :: k in deps.Keys <==> k in keys || k in rest
      invariant forall i, j :: 0 <= i < j < |keys| ==> StringLe(keys[i], keys[j])
      invariant forall k, j :: k in keys && j in rest ==> StringLe(k, j)
      decreases rest
    {
      LeastExists(rest);
      var k :| k in rest && forall j :: j in rest ==> StringLe(k, j);
      keys, rest := keys + [k], rest - {k};
    }
  }

  /** What a caller may rely on in a build order. */
  ghost predicate Ordered(deps: Graph, order: seq<string>) {
    && NoDuplicates(order)
    && (forall x :: x in order <==> exists k :: k in deps && Reaches(deps, k, x))
    && (forall u, v :: u in order && u in deps && v in deps[u] ==> Before(order, v, u) || Reaches(deps, v, u))
  }

  lemma BuildOrderOrdered(deps: Graph, keys: seq<string>)
    requires forall k :: k in keys <==> k in deps
    ensures Ordered(deps, BuildOrder(deps, keys))
  {
    var order := BuildOrder(deps, keys);
    BuildOrderListsReachableOnce(deps, keys);
    hide BuildOrder, Reaches, Before, Deps;
    forall x ensures x in order <==> exists k :: k in deps && Reaches(deps, k, x) {
      if x in order { assert ReachedFrom(deps, keys, x); }
    }
    forall u, v | u in order && u in deps && v in deps[u] ensures Before(order, v, u) || Reaches(deps, v, u) {
      DependenciesFirst(deps, keys, u, v);
    }
  }

  /** topologicalSort: visits the keys in sorted order from empty marks. */
  method TopologicalSort(deps: Graph) returns (order: seq<string>)
    ensures IsBuildOrder(deps, order)
    ensures Ordered(deps, order)
  {
    var keys := SortKeys(deps);
    var s := new Sorter(deps);
    assert BuildOrder(deps, keys) == VisitAll(deps, keys, {}, []);
    assert keys[0..] == keys && keys[|keys|..] == [];
    assert forall r :: VisitAll(deps, [], {}, r) == r;
    hide Ordered, Visit, VisitAll, BuildOrder;
    for i := 0 to |keys|
      invariant s.Valid() && s.deps == deps && Marked(s.tempMark) == {}
      invariant VisitAll(deps, keys[i..], {}, s.result) == BuildOrder(deps, keys)
    {
      VisitNext(deps, keys, i, {}, s.result);
      s.VisitNode(keys[i]);
    }
    order := s.result;
    BuildOrderOrdered(deps, keys);
  }
}
