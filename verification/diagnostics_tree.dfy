/** Rebuilding the diagnostics tree from a snapshot with arbitrary parent links. */
module DiagnosticsTree {
  import opened Seqs
  import opened Diagnostics
  import opened Forest

  // ---- Filtering a snapshot -------------------------------------------------------

  type FilterFunc = Resource -> bool

  /** The time gate: active resources pass; others need a window, and must not be older than it. */
  predicate InWindow(r: Resource, window: int, now: Time) {
    r.status == Active
    || (window != 0
        && (window > 0 && window != MAX_INT64 && r.finishedAt.Some? ==> Sub(now, r.finishedAt.value) <= window))
  }

  /** Saturating the age never decides: a resource passes if it is active or its true age is within the window. */
  lemma InWindowIff(r: Resource, window: int, now: Time)
    requires window <= MAX_INT64
    ensures InWindow(r, window, now) <==>
              || r.status == Active
              || window < 0
              || window == MAX_INT64
              || (0 < window && (r.finishedAt.None? || now - r.finishedAt.value <= window))
  {
    if r.finishedAt.Some? { SubIs(now, r.finishedAt.value); }
  }

  ghost predicate Keeps(r: Resource, window: int, now: Time, filters: seq<FilterFunc>) {
    InWindow(r, window, now) && forall j :: 0 <= j < |filters| ==> filters[j](r)
  }

  /** filterSnapshot: keeps the entries that pass the time gate and every filter, unchanged. */
  method FilterSnapshot(snapshot: Resources, window: int, now: Time, filters: seq<FilterFunc>) returns (keep: Resources)
    ensures forall id :: id in keep <==> id in snapshot && Keeps(snapshot[id], window, now, filters)
    ensures forall id :: id in keep ==> keep[id] == snapshot[id]
  {
    keep := map[];
    var rest := snapshot.Keys;
    while rest != {}
      invariant rest <= snapshot.Keys
      invariant forall id :: id in keep <==> id in snapshot && id !in rest && Keeps(snapshot[id], window, now, filters)
      invariant forall id :: id in keep ==> keep[id] == snapshot[id]
      decreases rest
    {
      var id :| id in rest;
      rest := rest - {id};
      var res := snapshot[id];
      if res.status != Active {
        if window == 0 { continue; }
        if window > 0 && window != MAX_INT64 {
          if res.finishedAt.Some? {
            var age := Sub(now, res.finishedAt.value);
            if age > window { continue; }
          }
        }
      }
      var pass := true;
      for i := 0 to |filters|
        invariant pass && forall j :: 0 <= j < i ==> filters[j](res)
      {
        if !filters[i](res) {
          pass := false;
          break;
        }
      }
      assert pass <==> forall j :: 0 <= j < |filters| ==> filters[j](res);
      if !pass { continue; }
      keep := keep[id := res];
    }
  }

  // ---- Parent links ------------------------------------------------------------------

  /** Kept resources with their parent; an empty parent or one that was not kept makes a root. */
  function Links(keep: Resources): Parents<string> {
    map id | id in keep :: ParentOf(keep, id)
  }

  function ParentOf(keep: Resources, id: string): Option<string>
    requires id in keep
  {
    var p := keep[id].parentId;
    if p == "" || p !in keep then None else Some(p)
  }

  function StartTimes(keep: Resources): map<string, int> {
    map id | id in keep :: keep[id].startedAt
  }

  /** A resource hangs below the kept resource its parent id names, if any, and ranks by its start. */
  lemma LinksAre(keep: Resources)
    ensures Links(keep).Keys == StartTimes(keep).Keys == keep.Keys
    ensures forall id :: id in keep ==>
              var r := keep[id];
              && StartTimes(keep)[id] == r.startedAt
              && Links(keep)[id] == if r.parentId != "" && r.parentId in keep then Some(r.parentId) else None
  {
  }

  // ---- Reconstruction -------------------------------------------------------------------

  /** The synthetic root: the size of the unfiltered snapshot, and the forest of resource ids. */
  datatype Tree = Tree(nodeCount: nat, children: seq<Node<string>>)

  /** The part of the adjacency map that the resources outside `rest` account for. */
  ghost predicate PartialLists(keep: Resources, rest: set<string>, list: seq<string>, p: Option<string>) {
    NoDuplicates(list) && forall x :: x in list <==> x in keep && x !in rest && ParentOf(keep, x) == p
  }

  ghost predicate PartialAdjacency(keep: Resources, rest: set<string>, kids: Children<string>, roots: seq<string>) {
    && PartialLists(keep, rest, roots, None)
    && forall p :: PartialLists(keep, rest, ChildrenOf(kids, p), Some(p))
  }

  lemma CollectOne(keep: Resources, rest: set<string>, kids: Children<string>, roots: seq<string>, id: string)
    requires PartialAdjacency(keep, rest, kids, roots) && id in rest && id in keep
    ensures match ParentOf(keep, id)
            case None => PartialAdjacency(keep, rest - {id}, kids, roots + [id])
            case Some(p) => PartialAdjacency(keep, rest - {id}, kids[p := ChildrenOf(kids, p) + [id]], roots)
  {
    match ParentOf(keep, id) {
      case None =>
        AppendOne(keep, rest, roots, None, id);
        forall q ensures PartialLists(keep, rest - {id}, ChildrenOf(kids, q), Some(q)) {
          AppendOne(keep, rest, ChildrenOf(kids, q), Some(q), id);
        }
      case Some(p) =>
        AppendOne(keep, rest, roots, None, id);
        var kids' := kids[p := ChildrenOf(kids, p) + [id]];
        forall q ensures PartialLists(keep, rest - {id}, ChildrenOf(kids', q), Some(q)) {
          AppendOne(keep, rest, ChildrenOf(kids, q), Some(q), id);
        }
    }
  }

  lemma AppendOne(keep: Resources, rest: set<string>, list: seq<string>, p: Option<string>, id: string)
    requires PartialLists(keep, rest, list, p) && id in rest && id in keep
    ensures PartialLists(keep, rest - {id}, if ParentOf(keep, id) == p then list + [id] else list, p)
  {
  }

  /** The adjacency phase, over the map in any order. */
  method CollectChildren(keep: Resources) returns (kids: Children<string>, roots: seq<string>)
    ensures IsAdjacency(Links(keep), kids) && Lists(Links(keep), roots, None)
  {
    kids, roots := map[], [];
    var rest := keep.Keys;
    while rest != {}
      invariant rest <= keep.Keys && PartialAdjacency(keep, rest, kids, roots)
      decreases rest
    {
      var id :| id in rest;
      CollectOne(keep, rest, kids, roots, id);
      rest := rest - {id};
      var parentId := keep[id].parentId;
      if parentId == "" {
        roots := roots + [id];
      } else if parentId in keep {
        kids := kids[parentId := ChildrenOf(kids, parentId) + [id]];
      } else {
        roots := roots + [id];
      }
    }
    forall p ensures Lists(Links(keep), ChildrenOf(kids, p), Some(p)) {
      assert PartialLists(keep, rest, ChildrenOf(kids, p), Some(p));
    }
  }

  /** The sorting phase: every sibling list is put in order. */
  method SortChildren(keep: Resources, kids: Children<string>) returns (sorted: Children<string>)
    requires IsAdjacency(Links(keep), kids)
    ensures IsAdjacency(Links(keep), sorted) && AllSorted(sorted, StartTimes(keep))
  {
    var starts := StartTimes(keep);
    sorted := kids;
    var rest := kids.Keys;
    while rest != {}
      invariant rest <= kids.Keys == sorted.Keys && IsAdjacency(Links(keep), sorted)
      invariant forall p :: p !in rest ==> Sorted(ChildrenOf(sorted, p), starts)
      decreases rest
    {
      var p :| p in rest;
      rest := rest - {p};
      assert Lists(Links(keep), ChildrenOf(sorted, p), Some(p));
      var list := SortByRank(sorted[p], starts);
      ghost var before := sorted;
      sorted := sorted[p := list];
      forall q ensures Lists(Links(keep), ChildrenOf(sorted, q), Some(q)) {
        assert Lists(Links(keep), ChildrenOf(before, q), Some(q));
      }
    }
  }

  /**
   * ReconstructTree. Its recursion ends for every snapshot, cycles and dangling parents included; each kept
   * resource shows up exactly once if its parent chain leaves the kept set or ends in the empty parent, and
   * not at all otherwise; siblings are ordered by start time.
   */
  method ReconstructTree(snapshot: Resources, window: int, now: Time, filters: seq<FilterFunc>)
    returns (tree: Tree, ghost keep: Resources)
    ensures forall id :: id in keep <==> id in snapshot && Keeps(snapshot[id], window, now, filters)
    ensures forall id :: id in keep ==> keep[id] == snapshot[id]
    ensures NoDuplicates(AllKeys(tree.children))
    ensures forall id :: id in AllKeys(tree.children) <==> Rooted(Links(keep), id)
    ensures WellShaped(Links(keep), StartTimes(keep), None, tree.children)
    ensures tree.nodeCount == |snapshot|
  {
    var kept := FilterSnapshot(snapshot, window, now, filters);
    keep := kept;
    var kids, roots := CollectChildren(kept);
    roots := SortByRank(roots, StartTimes(kept));
    kids := SortChildren(kept, kids);
    ForestHoldsRooted(Links(kept), kids, roots);
    BuildWellShaped(Links(kept), kids, StartTimes(kept), roots, None, 0);
    tree := Tree(|snapshot|, BuildNodes(Links(kept), kids, roots, 0));
  }

  /**
   * The source looks children up under the id a resource carries, the assembly here under its key in the snapshot.
   * For a snapshot of the engine's store, whatever was filtered out, the two find the same children.
   */
  lemma LookupById(trace: seq<Change>, code: ParseCode, keep: Resources, kids: Children<string>)
    requires forall id :: id in keep ==> id in Store(trace, code) && keep[id] == Store(trace, code)[id]
    ensures forall id :: id in keep ==> keep[id].id == id && ChildrenOf(kids, keep[id].id) == ChildrenOf(kids, id)
  {
    forall id | id in keep ensures keep[id].id == id {
      StoredUnderOwnId(trace, id, code);
    }
  }

  /** A resource is missing from the tree exactly when climbing from it never meets a root. */
  lemma {:induction false} MissingIffCyclic(keep: Resources, id: string)
    requires id in keep
    ensures !Rooted(Links(keep), id) <==> forall n: nat :: var a := Ancestor(Links(keep), id, n); a in keep && ParentOf(keep, a).Some?
  {
    var par := Links(keep);
    UnrootedNeverEnds(par, id);
    if !Rooted(par, id) {
      forall n: nat ensures Ancestor(par, id, n) in keep && ParentOf(keep, Ancestor(par, id, n)).Some? {
        AncestorKnown(par, id, n);
      }
    } else {
      var n: nat :| Ancestor(par, id, n) in par && par[Ancestor(par, id, n)].None?;
    }
  }
}
