/**
 * Unfolding a message graph, possibly cyclic, into finite schema trees, and looking types up in them.
 * N is the type of fully-qualified names.
 */
module Schema {
  import opened Seqs

  // ---- Message graphs and schemas -----------------------------------------------

  datatype Kind =
    | DoubleKind | FloatKind
    | Int32Kind | Sint32Kind | Sfixed32Kind
    | Int64Kind | Sint64Kind | Sfixed64Kind
    | Uint32Kind | Fixed32Kind | Uint64Kind | Fixed64Kind
    | BoolKind | StringKind | BytesKind | EnumKind | OtherKind

  /** Message and group fields refer to a message type by name; the rest only have a kind. */
  datatype FieldType<N> = Plain(kind: Kind) | MessageType(of: N)

  datatype Field<N> = Field(name: string, typ: FieldType<N>, repeated: bool)

  /** A message descriptor: its fields and the types declared inside it. */
  datatype Message<N> = Message(fields: seq<Field<N>>, nested: seq<N>)

  type Graph<N> = map<N, Message<N>>

  /** The message types the fields refer to, in field order. */
  function Refs<N>(fields: seq<Field<N>>): seq<N> {
    if fields == [] then []
    else (if fields[0].typ.MessageType? then [fields[0].typ.of] else []) + Refs(fields[1..])
  }

  /** The types whose schemas a message carries. */
  function Carried<N>(m: Message<N>): seq<N> {
    m.nested + Refs(m.fields)
  }

  /** Descriptors only refer to descriptors. */
  ghost predicate Closed<N(!new)>(g: Graph<N>) {
    forall n, c :: n in g && c in Carried(g[n]) ==> c in g
  }

  datatype MessageSchema<N> = MessageSchema(name: N, fields: seq<Field<N>>, messages: seq<MessageSchema<N>>)

  function Stub<N>(n: N): MessageSchema<N> {
    MessageSchema(n, [], [])
  }

  lemma {:induction false} RefsOfFields<N>(fields: seq<Field<N>>, f: Field<N>)
    requires f in fields && f.typ.MessageType?
    ensures f.typ.of in Refs(fields)
    decreases |fields|
  {
    if f != fields[0] { RefsOfFields(fields[1..], f); }
  }

  // ---- Unfolding over the recursion path -------------------------------------------

  /** The schema of n when the types in `path` are being unfolded already. */
  function Unfold<N(!new, ==)>(g: Graph<N>, n: N, path: set<N>): (s: MessageSchema<N>)
    requires Closed(g) && n in g
    ensures s.name == n
    decreases g.Keys - path, 0
  {
    if n in path then Stub(n)
    else MessageSchema(n, g[n].fields, UnfoldAll(g, Carried(g[n]), path + {n}))
  }

  function UnfoldAll<N(!new, ==)>(g: Graph<N>, ns: seq<N>, path: set<N>): (ss: seq<MessageSchema<N>>)
    requires Closed(g) && forall n :: n in ns ==> n in g
    ensures |ss| == |ns| && forall i :: 0 <= i < |ns| ==> ss[i].name == ns[i]
    decreases g.Keys - path, 1 + |ns|
  {
    if ns == [] then [] else [Unfold(g, ns[0], path)] + UnfoldAll(g, ns[1..], path)
  }

  lemma {:induction false} UnfoldAllAt<N(!new)>(g: Graph<N>, ns: seq<N>, path: set<N>, i: nat)
    requires Closed(g) && (forall n :: n in ns ==> n in g) && i < |ns|
    ensures UnfoldAll(g, ns, path)[i] == Unfold(g, ns[i], path)
    decreases |ns|
  {
    if i > 0 { UnfoldAllAt(g, ns[1..], path, i - 1); }
  }

  /** Adding a field adds its message type, if it has one, at the end. */
  lemma {:induction false} RefsSnoc<N>(fields: seq<Field<N>>, f: Field<N>)
    ensures Refs(fields + [f]) == Refs(fields) + if f.typ.MessageType? then [f.typ.of] else []
  {
    if fields == [] {
      assert [] + [f] == [f] && [f][1..] == [];
    } else {
      assert (fields + [f])[1..] == fields[1..] + [f] && (fields + [f])[0] == fields[0];
      RefsSnoc(fields[1..], f);
      var first, last := if fields[0].typ.MessageType? then [fields[0].typ.of] else [], if f.typ.MessageType? then [f.typ.of] else [];
      assert Refs(fields + [f]) == first + Refs((fields + [f])[1..]) && Refs(fields) == first + Refs(fields[1..]);
      hide Refs;
      Assoc(first, Refs(fields[1..]), last);
    }
  }

  /**
   * The schema of a type not being unfolded has the type's fields, and carries a schema for each type declared inside it,
   * in order, and then for the type of each message field, in order: the unfoldings one level down.
   */
  ghost predicate CarriesAll<N(!new)>(g: Graph<N>, n: N, path: set<N>, s: MessageSchema<N>)
    requires Closed(g) && n in g
  {
    var nested, refs := g[n].nested, Refs(g[n].fields);
    && s.name == n && s.fields == g[n].fields && |s.messages| == |nested| + |refs|
    && (forall i :: 0 <= i < |nested| ==> nested[i] in Carried(g[n]) && s.messages[i] == Unfold(g, nested[i], path + {n}))
    && (forall j :: 0 <= j < |refs| ==> refs[j] in Carried(g[n]) && s.messages[|nested| + j] == Unfold(g, refs[j], path + {n}))
  }

  lemma UnfoldCarriesAll<N(!new)>(g: Graph<N>, n: N, path: set<N>)
    requires Closed(g) && n in g
    ensures if n in path then Unfold(g, n, path) == MessageSchema(n, [], []) else CarriesAll(g, n, path, Unfold(g, n, path))
  {
    UnfoldOnce(g, n, path);
    CarriedIs(g[n]);
    if n !in path { CarriesFrom(g, n, path, Unfold(g, n, path)); }
    hide *;
  }

  lemma UnfoldOnce<N(!new)>(g: Graph<N>, n: N, path: set<N>)
    requires Closed(g) && n in g
    ensures Unfold(g, n, path)
         == if n in path then MessageSchema(n, [], []) else MessageSchema(n, g[n].fields, UnfoldAll(g, Carried(g[n]), path + {n}))
  {
  }

  lemma CarriesFrom<N(!new)>(g: Graph<N>, n: N, path: set<N>, s: MessageSchema<N>)
    requires Closed(g) && n in g && s == MessageSchema(n, g[n].fields, UnfoldAll(g, Carried(g[n]), path + {n}))
    ensures CarriesAll(g, n, path, s)
  {
    CarriedIs(g[n]);
    forall k | 0 <= k < |Carried(g[n])| ensures s.messages[k] == Unfold(g, Carried(g[n])[k], path + {n}) {
      UnfoldAllAt(g, Carried(g[n]), path + {n}, k);
    }
    hide Carried, Refs, UnfoldAll, Unfold;
  }

  lemma CarriedIs<N>(m: Message<N>)
    ensures var c, refs := Carried(m), Refs(m.fields);
            && |c| == |m.nested| + |refs|
            && (forall i :: 0 <= i < |m.nested| ==> c[i] == m.nested[i])
            && (forall j :: 0 <= j < |refs| ==> c[|m.nested| + j] == refs[j])
  {
  }

  /** One more schema moves from the rest to the part already built. */
  lemma {:induction false} UnfoldAllFrom<N(!new)>(g: Graph<N>, ns: seq<N>, i: nat, path: set<N>, built: seq<MessageSchema<N>>)
    requires Closed(g) && (forall n :: n in ns ==> n in g) && i < |ns|
    ensures built + UnfoldAll(g, ns[i..], path) == (built + [Unfold(g, ns[i], path)]) + UnfoldAll(g, ns[i + 1..], path)
  {
    assert ns[i..][1..] == ns[i + 1..];
  }

  /** The same step for the types that fields refer to. */
  lemma {:induction false} ReferencedFrom<N(!new)>(g: Graph<N>, fields: seq<Field<N>>, i: nat, path: set<N>, built: seq<MessageSchema<N>>)
    requires Closed(g) && i < |fields| && forall r :: r in Refs(fields[i..]) ==> r in g
    ensures forall r :: r in Refs(fields[i + 1..]) ==> r in g
    ensures fields[i].typ.MessageType? ==> fields[i].typ.of in g
    ensures var next := if fields[i].typ.MessageType? then built + [Unfold(g, fields[i].typ.of, path)] else built;
            built + UnfoldAll(g, Refs(fields[i..]), path) == next + UnfoldAll(g, Refs(fields[i + 1..]), path)
  {
    var rest := Refs(fields[i + 1..]);
    assert fields[i..][1..] == fields[i + 1..];
    if fields[i].typ.MessageType? {
      var t := fields[i].typ.of;
      assert Refs(fields[i..]) == [t] + rest;
      hide Refs;
      assert t in [t] + rest && ([t] + rest)[1..] == rest;
      assert UnfoldAll(g, [t] + rest, path) == [Unfold(g, t, path)] + UnfoldAll(g, rest, path);
      hide UnfoldAll;
      Assoc(built, [Unfold(g, t, path)], UnfoldAll(g, rest, path));
    } else {
      assert Refs(fields[i..]) == rest;
    }
  }

  lemma {:induction false} UnfoldAllConcat<N(!new)>(g: Graph<N>, a: seq<N>, b: seq<N>, path: set<N>)
    requires Closed(g) && forall n :: n in a + b ==> n in g
    ensures UnfoldAll(g, a + b, path) == UnfoldAll(g, a, path) + UnfoldAll(g, b, path)
    decreases |a|
  {
    if a == [] {
      assert a + b == b;
    } else {
      assert (a + b)[0] == a[0] && (a + b)[1..] == a[1..] + b;
      assert forall n :: n in a[1..] + b ==> n in a + b;
      hide Unfold;
      UnfoldAllConcat(g, a[1..], b, path);
      Assoc([Unfold(g, a[0], path)], UnfoldAll(g, a[1..], path), UnfoldAll(g, b, path));
    }
  }

  // ---- The two searches ----------------------------------------------------------------

  /** findNestedMessageInSchema: the parent itself first, then its messages, depth first. */
  function Find<N(==)>(s: MessageSchema<N>, t: N): (r: Option<MessageSchema<N>>)
    ensures r.Some? ==> r.value.name == t
    ensures r.Some? && s.name != t ==> r.value < s
    decreases s, 1
  {
    if s.name == t then Some(s) else FindIn(s, 0, t)
  }

  function FindIn<N(==)>(s: MessageSchema<N>, i: nat, t: N): (r: Option<MessageSchema<N>>)
    requires i <= |s.messages|
    ensures r.Some? ==> r.value.name == t && r.value < s
    ensures (exists j :: i <= j < |s.messages| && s.messages[j].name == t) ==> r.Some?
    decreases s, 0, |s.messages| - i
  {
    if i == |s.messages| then None
    else if s.messages[i].name == t then Some(s.messages[i])
    else
      var deep := Find(s.messages[i], t);
      if deep.Some? then deep else FindIn(s, i + 1, t)
  }

  /** findNestedMessage of the tool server: the messages first, the parent itself last. */
  function FindBelow<N(==)>(s: MessageSchema<N>, t: N): (r: Option<MessageSchema<N>>)
    ensures r.Some? ==> r.value.name == t
    decreases s, 1
  {
    var below := FindBelowIn(s, 0, t);
    if below.Some? then below else if s.name == t then Some(s) else None
  }

  function FindBelowIn<N(==)>(s: MessageSchema<N>, i: nat, t: N): (r: Option<MessageSchema<N>>)
    requires i <= |s.messages|
    ensures r.Some? ==> r.value.name == t && r.value < s
    ensures (exists j :: i <= j < |s.messages| && s.messages[j].name == t) ==> r.Some?
    decreases s, 0, |s.messages| - i
  {
    if i == |s.messages| then None
    else if s.messages[i].name == t then Some(s.messages[i])
    else
      var deep := FindBelow(s.messages[i], t);
      if deep.Some? then deep else FindBelowIn(s, i + 1, t)
  }

  /** r is a copy of type t unfolded somewhere below `path`, full exactly when t is not on that path. */
  ghost predicate IsCopy<N(!new)>(g: Graph<N>, t: N, path: set<N>, r: MessageSchema<N>)
    requires Closed(g)
  {
    t in g && exists p :: path <= p && r == Unfold(g, t, p) && (t in p <==> t in path)
  }

  lemma {:induction false} FindGivesCopy<N(!new)>(g: Graph<N>, n: N, path: set<N>, t: N)
    requires Closed(g) && n in g
    ensures var r := Find(Unfold(g, n, path), t); r.Some? ==> IsCopy(g, t, path, r.value)
    decreases g.Keys - path, 0
  {
    var s := Unfold(g, n, path);
    if n == t {
      assert IsCopy(g, t, path, s);
    } else if n !in path {
      assert s.messages[0..] == s.messages;
      FindInGivesCopy(g, s, 0, Carried(g[n]), path + {n}, t);
      var r := Find(s, t);
      if r.Some? {
        var p :| path + {n} <= p && r.value == Unfold(g, t, p) && (t in p <==> t in path + {n});
      }
    }
  }

  lemma {:induction false} FindInGivesCopy<N(!new)>(g: Graph<N>, s: MessageSchema<N>, i: nat, ns: seq<N>, path: set<N>, t: N)
    requires Closed(g) && (forall n :: n in ns ==> n in g)
    requires i <= |s.messages| && s.messages[i..] == UnfoldAll(g, ns, path)
    ensures var r := FindIn(s, i, t); r.Some? ==> IsCopy(g, t, path, r.value)
    decreases g.Keys - path, 1 + |ns|
  {
    if ns != [] {
      assert s.messages[i..][1..] == s.messages[i + 1..] == UnfoldAll(g, ns[1..], path);
      FindGivesCopy(g, ns[0], path, t);
      FindInGivesCopy(g, s, i + 1, ns[1..], path, t);
      if ns[0] == t { assert IsCopy(g, t, path, Unfold(g, t, path)); }
    }
  }

  /**
   * Looking a field's type up from the node that has the field always succeeds. It gives a stub exactly when
   * the type is already being unfolded above that node; the node's own type gives the node itself.
   */
  lemma {:induction false} LookupSucceeds<N(!new)>(g: Graph<N>, n: N, path: set<N>, t: N)
    requires Closed(g) && n in g && n !in path && t in Carried(g[n])
    ensures var r := Find(Unfold(g, n, path), t); r.Some? && IsCopy(g, t, path, r.value)
    ensures t == n ==> Find(Unfold(g, n, path), t) == Some(Unfold(g, n, path))
    ensures t in path ==> Find(Unfold(g, n, path), t) == Some(Stub(t))
    ensures t !in path ==> Find(Unfold(g, n, path), t).value.fields == g[t].fields
  {
    var s := Unfold(g, n, path);
    var i :| 0 <= i < |Carried(g[n])| && Carried(g[n])[i] == t;
    assert s.messages[i].name == t && s.messages[i] in s.messages;
    FindGivesCopy(g, n, path, t);
    var r := Find(s, t);
    var p :| path <= p && r.value == Unfold(g, t, p) && (t in p <==> t in path);
  }

  lemma {:induction false} FindBelowGivesCopy<N(!new)>(g: Graph<N>, n: N, path: set<N>, t: N)
    requires Closed(g) && n in g && n != t
    ensures var r := FindBelow(Unfold(g, n, path), t); r.Some? ==> IsCopy(g, t, path, r.value)
    decreases g.Keys - path, 0
  {
    if n !in path {
      var s := Unfold(g, n, path);
      assert s.messages[0..] == s.messages;
      FindBelowInGivesCopy(g, s, 0, Carried(g[n]), path + {n}, t);
      var r := FindBelow(s, t);
      if r.Some? {
        var p :| path + {n} <= p && r.value == Unfold(g, t, p) && (t in p <==> t in path + {n});
      }
    }
  }

  lemma {:induction false} FindBelowInGivesCopy<N(!new)>(g: Graph<N>, s: MessageSchema<N>, i: nat, ns: seq<N>, path: set<N>, t: N)
    requires Closed(g) && (forall n :: n in ns ==> n in g)
    requires i <= |s.messages| && s.messages[i..] == UnfoldAll(g, ns, path)
    ensures var r := FindBelowIn(s, i, t); r.Some? ==> IsCopy(g, t, path, r.value)
    decreases g.Keys - path, 1 + |ns|
  {
    if ns != [] {
      assert s.messages[i..][1..] == s.messages[i + 1..] == UnfoldAll(g, ns[1..], path);
      if ns[0] == t {
        assert IsCopy(g, t, path, Unfold(g, t, path));
      } else {
        FindBelowGivesCopy(g, ns[0], path, t);
        FindBelowInGivesCopy(g, s, i + 1, ns[1..], path, t);
      }
    }
  }

  /** The tool server's search differs in one case: a node's own type gives a stub, never the node. */
  lemma {:induction false} LookupBelowSucceeds<N(!new)>(g: Graph<N>, n: N, path: set<N>, t: N)
    requires Closed(g) && n in g && n !in path && t in Carried(g[n])
    ensures var r := FindBelow(Unfold(g, n, path), t);
            && r.Some? && r.value < Unfold(g, n, path)
            && IsCopy(g, t, path + {n}, r.value)
            && (t in path || t == n ==> r.value == Stub(t))
            && (t !in path && t != n ==> r.value.fields == g[t].fields)
  {
    var s := Unfold(g, n, path);
    var i :| 0 <= i < |Carried(g[n])| && Carried(g[n])[i] == t;
    assert s.messages[i].name == t && s.messages[i] in s.messages;
    assert s.messages[0..] == s.messages;
    FindBelowInGivesCopy(g, s, 0, Carried(g[n]), path + {n}, t);
    var r := FindBelow(s, t);
    var p :| path + {n} <= p && r.value == Unfold(g, t, p) && (t in p <==> t in path + {n});
  }

  // ---- Which copy is found --------------------------------------------------------------

  /** Walking from m through types not on the path meets t. */
  ghost predicate Meets<N(!new)>(g: Graph<N>, m: N, path: set<N>, t: N)
    requires Closed(g) && m in g
    decreases g.Keys - path
  {
    m == t || (m !in path && exists c :: c in Carried(g[m]) && Meets(g, c, path + {m}, t))
  }

  /** The search on the graph: the path on which the copy found was unfolded. */
  function FindPath<N(!new, ==)>(g: Graph<N>, m: N, path: set<N>, t: N): Option<set<N>>
    requires Closed(g) && m in g
    decreases g.Keys - path, 0
  {
    if m == t then Some(path) else if m in path then None else FindPathIn(g, Carried(g[m]), path + {m}, t)
  }

  function FindPathIn<N(!new, ==)>(g: Graph<N>, ns: seq<N>, path: set<N>, t: N): Option<set<N>>
    requires Closed(g) && forall n :: n in ns ==> n in g
    decreases g.Keys - path, 1 + |ns|
  {
    if ns == [] then None
    else
      var p := FindPath(g, ns[0], path, t);
      if p.Some? then p else FindPathIn(g, ns[1..], path, t)
  }

  function UnfoldFound<N(!new, ==)>(g: Graph<N>, t: N, p: Option<set<N>>): Option<MessageSchema<N>>
    requires Closed(g) && (p.Some? ==> t in g)
  {
    match p case None => None case Some(path) => Some(Unfold(g, t, path))
  }

  /** Searching an unfolding finds the copy that the search on the graph says. */
  lemma {:induction false} FindIsOnPath<N(!new)>(g: Graph<N>, m: N, path: set<N>, t: N)
    requires Closed(g) && m in g
    ensures FindPath(g, m, path, t).Some? ==> t in g
    ensures Find(Unfold(g, m, path), t) == UnfoldFound(g, t, FindPath(g, m, path, t))
    decreases g.Keys - path, 0
  {
    if m != t && m !in path {
      var s := Unfold(g, m, path);
      assert s.messages[0..] == s.messages;
      FindInIsOnPath(g, s, 0, Carried(g[m]), path + {m}, t);
    }
  }

  lemma {:induction false} FindInIsOnPath<N(!new)>(g: Graph<N>, s: MessageSchema<N>, i: nat, ns: seq<N>, path: set<N>, t: N)
    requires Closed(g) && (forall n :: n in ns ==> n in g)
    requires i <= |s.messages| && s.messages[i..] == UnfoldAll(g, ns, path)
    ensures FindPathIn(g, ns, path, t).Some? ==> t in g
    ensures FindIn(s, i, t) == UnfoldFound(g, t, FindPathIn(g, ns, path, t))
    decreases g.Keys - path, 1 + |ns|
  {
    if ns != [] {
      assert s.messages[i..][1..] == s.messages[i + 1..] == UnfoldAll(g, ns[1..], path);
      assert s.messages[i] == Unfold(g, ns[0], path);
      FindIsOnPath(g, ns[0], path, t);
      FindInIsOnPath(g, s, i + 1, ns[1..], path, t);
      hide Unfold, UnfoldAll;
    }
  }

  /** The search succeeds exactly when walking meets the type, and what it passed on the way carries something. */
  lemma {:induction false} FindPathIff<N(!new)>(g: Graph<N>, m: N, path: set<N>, t: N)
    requires Closed(g) && m in g
    ensures var p := FindPath(g, m, path, t);
            && (p.Some? <==> Meets(g, m, path, t))
            && (p.Some? ==> OnTheWay(g, path, t, p.value) && (m == t ==> p.value == path) && (m != t ==> m in p.value && m !in path))
    decreases g.Keys - path, 0
  {
    if m != t && m !in path {
      FindPathInIff(g, Carried(g[m]), path + {m}, t);
    }
  }

  /** The types between a path and one it was extended to: all carry some type, and t is none of them. */
  ghost predicate OnTheWay<N(!new)>(g: Graph<N>, path: set<N>, t: N, p: set<N>) {
    path <= p && forall x :: x in p && x !in path ==> x in g && Carried(g[x]) != [] && x != t
  }

  lemma {:induction false} FindPathInIff<N(!new)>(g: Graph<N>, ns: seq<N>, path: set<N>, t: N)
    requires Closed(g) && forall n :: n in ns ==> n in g
    ensures var p := FindPathIn(g, ns, path, t);
            && (p.Some? <==> exists c :: c in ns && Meets(g, c, path, t))
            && (p.Some? ==> OnTheWay(g, path, t, p.value))
    decreases g.Keys - path, 1 + |ns|
  {
    if ns != [] {
      FindPathIff(g, ns[0], path, t);
      FindPathInIff(g, ns[1..], path, t);
      assert forall c :: c in ns <==> c == ns[0] || c in ns[1..];
      hide Meets, OnTheWay, FindPath;
    }
  }

  /** The elements before the first t. */
  function Ahead<N(==)>(ns: seq<N>, t: N): seq<N> {
    if ns == [] || ns[0] == t then [] else [ns[0]] + Ahead(ns[1..], t)
  }

  /** The node's own child is the one found exactly when nothing it carries before that child meets the type. */
  lemma {:induction false} FindsOwnChildIff<N(!new)>(g: Graph<N>, n: N, path: set<N>, t: N)
    requires Closed(g) && n in g && n !in path && t in Carried(g[n]) && t != n
    ensures FindPath(g, n, path, t) == Some(path + {n})
            <==> forall c :: c in Ahead(Carried(g[n]), t) ==> c in g && !Meets(g, c, path + {n}, t)
  {
    OwnChildAmong(g, Carried(g[n]), path + {n}, t);
  }

  lemma {:induction false} OwnChildAmong<N(!new)>(g: Graph<N>, ns: seq<N>, path: set<N>, t: N)
    requires Closed(g) && t in ns && forall n :: n in ns ==> n in g
    ensures FindPathIn(g, ns, path, t) == Some(path) <==> forall c :: c in Ahead(ns, t) ==> c in g && !Meets(g, c, path, t)
    decreases |ns|
  {
    if ns[0] != t {
      FindPathIff(g, ns[0], path, t);
      OwnChildAmong(g, ns[1..], path, t);
      assert forall c :: c in Ahead(ns, t) <==> c == ns[0] || c in Ahead(ns[1..], t);
      hide Meets, FindPathIn, Ahead;
      UnfoldFindPathIn(g, ns, path, t);
    }
  }

  lemma UnfoldFindPathIn<N(!new)>(g: Graph<N>, ns: seq<N>, path: set<N>, t: N)
    requires Closed(g) && ns != [] && forall n :: n in ns ==> n in g
    ensures FindPathIn(g, ns, path, t)
         == if FindPath(g, ns[0], path, t).Some? then FindPath(g, ns[0], path, t) else FindPathIn(g, ns[1..], path, t)
  {
  }

  /** A longer path changes an unfolding exactly when walking from its type meets one of the types added. */
  lemma {:induction false} SameUnfoldIff<N(!new)>(g: Graph<N>, m: N, p: set<N>, q: set<N>)
    requires Closed(g) && m in g && p <= q && (m in q ==> m in p)
    requires forall x :: x in q && x !in p ==> x in g && Carried(g[x]) != []
    ensures Unfold(g, m, p) == Unfold(g, m, q) <==> forall x :: x in q && x !in p ==> !Meets(g, m, p, x)
    decreases g.Keys - p
  {
    if m !in p {
      var ns, p1, q1 := Carried(g[m]), p + {m}, q + {m};
      forall c | c in ns
        ensures Unfold(g, c, p1) == Unfold(g, c, q1) <==> forall x :: x in q && x !in p ==> !Meets(g, c, p1, x)
      {
        if c in q && c !in p {
          assert Meets(g, c, p1, c);
          assert Unfold(g, c, p1).messages != [] && Unfold(g, c, q1) == Stub(c);
        } else {
          SameUnfoldIff(g, c, p1, q1);
        }
      }
      UnfoldAllSame(g, ns, p1, q1);
      forall x | x in q && x !in p ensures Meets(g, m, p, x) <==> exists c :: c in ns && Meets(g, c, p1, x) {}
      hide Meets, UnfoldAll;
    }
  }

  lemma {:induction false} UnfoldAllSame<N(!new)>(g: Graph<N>, ns: seq<N>, p: set<N>, q: set<N>)
    requires Closed(g) && forall n :: n in ns ==> n in g
    ensures UnfoldAll(g, ns, p) == UnfoldAll(g, ns, q) <==> forall c :: c in ns ==> Unfold(g, c, p) == Unfold(g, c, q)
    decreases |ns|
  {
    if ns != [] {
      UnfoldAllSame(g, ns[1..], p, q);
      var a, b := UnfoldAll(g, ns, p), UnfoldAll(g, ns, q);
      assert a[0] == Unfold(g, ns[0], p) && b[0] == Unfold(g, ns[0], q);
      assert a[1..] == UnfoldAll(g, ns[1..], p) && b[1..] == UnfoldAll(g, ns[1..], q);
      hide Unfold, UnfoldAll;
      assert a == [a[0]] + a[1..] && b == [b[0]] + b[1..];
    }
  }

  /**
   * Looking a carried type up gives what the node's own child would give exactly when walking from that type meets
   * none of the types that the search had entered on its way to the copy.
   */
  lemma {:induction false} LookupGivesOwnChildIff<N(!new)>(g: Graph<N>, n: N, path: set<N>, t: N)
    requires Closed(g) && n in g && n !in path && t in Carried(g[n]) && t != n
    ensures FindPath(g, n, path, t).Some?
    ensures Find(Unfold(g, n, path), t) == Some(Unfold(g, t, path + {n}))
            <==> forall x :: x in FindPath(g, n, path, t).value && x !in path + {n} ==> !Meets(g, t, path + {n}, x)
  {
    assert Meets(g, t, path + {n}, t);
    FindPathIff(g, n, path, t);
    FindPathInIff(g, Carried(g[n]), path + {n}, t);
    FindIsOnPath(g, n, path, t);
    SameUnfoldIff(g, t, path + {n}, FindPath(g, n, path, t).value);
    hide Meets, Unfold;
  }

  /** From a copy found deeper, the types entered on the way look like stubs; from the node's own child they do not. */
  lemma DeeperCopyHasStubs<N(!new)>(g: Graph<N>, n: N, path: set<N>, t: N, x: N)
    requires Closed(g) && n in g && n !in path && t in Carried(g[n]) && t != n && t !in path
    requires x in Carried(g[t]) && x !in path + {n} && x != t
    ensures FindPath(g, n, path, t).Some?
    ensures var found, p := Find(Unfold(g, n, path), t).value, FindPath(g, n, path, t).value;
            && Find(Unfold(g, t, path + {n}), x).value.fields == g[x].fields
            && Find(found, x).Some? && (if x in p then Find(found, x).value == Stub(x) else Find(found, x).value.fields == g[x].fields)
  {
    FindPathIff(g, n, path, t);
    FindPathInIff(g, Carried(g[n]), path + {n}, t);
    assert Meets(g, t, path + {n}, t);
    FindIsOnPath(g, n, path, t);
    LookupSucceeds(g, t, path + {n}, x);
    LookupSucceeds(g, t, FindPath(g, n, path, t).value, x);
    hide Unfold, Meets;
  }

  /** The two searches part exactly on a node's own type. */
  lemma {:induction false} SearchesAgreeIff<N(!new)>(s: MessageSchema<N>, t: N)
    ensures FindBelow(s, t) == Find(s, t) <==> s.name != t || FindBelowIn(s, 0, t) == None
    decreases s, 1
  {
    if s.name != t { SearchesAgreeIn(s, 0, t); }
  }

  lemma {:induction false} SearchesAgreeIn<N(!new)>(s: MessageSchema<N>, i: nat, t: N)
    requires i <= |s.messages|
    ensures FindBelowIn(s, i, t) == FindIn(s, i, t)
    decreases s, 0, |s.messages| - i
  {
    if i < |s.messages| {
      SearchesAgreeIff(s.messages[i], t);
      SearchesAgreeIn(s, i + 1, t);
    }
  }

  /**
   * The search is depth first, so it can return a copy from inside an earlier sibling. Here root has fields of
   * types 1 and 2, which refer to each other: the copy of 2 found from the root sits inside 1, and looking 1
   * up from that copy gives a stub although 1 is not on the way root, 2.
   */
  lemma LookupFindsDeeperCopy()
    ensures var a, b := Field("a", MessageType(1), false), Field("b", MessageType(2), false);
            var g: Graph<int> := map[0 := Message([a, b], []), 1 := Message([b], []), 2 := Message([a], [])];
            Closed(g)
            && (var two := Find(Unfold(g, 0, {}), 2); two.Some? && two.value.fields == [a] && Find(two.value, 1) == Some(Stub(1)))
  {
    var a, b := Field("a", MessageType(1), false), Field("b", MessageType(2), false);
    var g: Graph<int> := map[0 := Message([a, b], []), 1 := Message([b], []), 2 := Message([a], [])];
    assert [a, b][1..] == [b] && [a][1..] == [] && [b][1..] == [];
    assert Refs([b]) == [2] && Refs([a]) == [1] && Refs([a, b]) == [1, 2];
    assert Carried(g[0]) == [1, 2] && Carried(g[1]) == [2] && Carried(g[2]) == [1];
    var inner := Unfold(g, 2, {0, 1});
    assert [1][1..] == [] && [2][1..] == [] && [1, 2][1..] == [2];
    assert UnfoldAll(g, [1], {0, 1, 2}) == [Stub(1)];
    assert {0, 1} + {2} == {0, 1, 2} && {0} + {1} == {0, 1} && {} + {0} == {0};
    assert inner == MessageSchema(2, [a], [Stub(1)]);
    assert UnfoldAll(g, [2], {0, 1}) == [inner];
    var one := Unfold(g, 1, {0});
    assert one == MessageSchema(1, [b], [inner]);
    var root := Unfold(g, 0, {});
    assert root.messages == UnfoldAll(g, [1, 2], {0});
    assert root.messages[0] == one;
    assert Find(one, 2) == Some(inner);
    assert Find(root, 2) == Some(inner);
    assert Find(inner, 1) == Some(Stub(1));
  }

  // ---- Unfolding as the source runs it ---------------------------------------------------

  class Unfolder<N(!new, ==)> {
    const g: Graph<N>
    var visited: map<N, bool>

    constructor (g: Graph<N>)
      ensures this.g == g && visited == map[]
    {
      this.g, visited := g, map[];
    }

    /** Marks are set on the way in and deleted on the way out, so none is ever false. */
    ghost predicate Valid()
      reads this
    {
      Closed(g) && forall x :: x in visited ==> visited[x]
    }

    method BuildMessageSchema(n: N) returns (s: MessageSchema<N>)
      requires Valid() && n in g
      modifies this`visited
      ensures visited == old(visited)
      ensures s == Unfold(g, n, visited.Keys)
      decreases g.Keys - visited.Keys, 1, 0
    {
      if n in visited && visited[n] {
        return Stub(n);
      }
      ghost var path := visited.Keys + {n};
      visited := visited[n := true];
      assert visited.Keys == path;
      var nested, fields := g[n].nested, g[n].fields;
      var declared := BuildNested(nested);
      var referenced := BuildReferenced(fields);
      UnfoldAllConcat(g, nested, Refs(fields), path);
      visited := visited - {n};
      s := MessageSchema(n, fields, declared + referenced);
    }

    /** The loop over the types declared inside n. */
    method BuildNested(nested: seq<N>) returns (messages: seq<MessageSchema<N>>)
      requires Valid() && forall c :: c in nested ==> c in g
      modifies this`visited
      ensures visited == old(visited)
      ensures messages == UnfoldAll(g, nested, visited.Keys)
      decreases g.Keys - visited.Keys, 2, 0
    {
      messages := [];
      for i := 0 to |nested|
        invariant visited == old(visited)
        invariant messages + UnfoldAll(g, nested[i..], visited.Keys) == UnfoldAll(g, nested, visited.Keys)
      {
        UnfoldAllFrom(g, nested, i, visited.Keys, messages);
        var m := BuildMessageSchema(nested[i]);
        messages := messages + [m];
      }
    }

    /** The loop over the fields of n, for the message types they refer to. */
    method BuildReferenced(fields: seq<Field<N>>) returns (messages: seq<MessageSchema<N>>)
      requires Valid() && forall r :: r in Refs(fields) ==> r in g
      modifies this`visited
      ensures visited == old(visited)
      ensures messages == UnfoldAll(g, Refs(fields), visited.Keys)
      decreases g.Keys - visited.Keys, 2, 0
    {
      messages := [];
      for i := 0 to |fields|
        invariant visited == old(visited)
        invariant forall r :: r in Refs(fields[i..]) ==> r in g
        invariant messages + UnfoldAll(g, Refs(fields[i..]), visited.Keys) == UnfoldAll(g, Refs(fields), visited.Keys)
      {
        ReferencedFrom(g, fields, i, visited.Keys, messages);
        if fields[i].typ.MessageType? {
          var m := BuildMessageSchema(fields[i].typ.of);
          messages := messages + [m];
        }
      }
    }
  }

  /** One method of a service: its request and response types. */
  datatype Method<N> = Method(input: N, output: N)

  /** The methods share one mark set, yet each schema is the one its types have on their own. */
  method BuildServiceSchema<N(!new, ==)>(g: Graph<N>, methods: seq<Method<N>>)
    returns (schemas: seq<(MessageSchema<N>, MessageSchema<N>)>)
    requires Closed(g) && forall m :: m in methods ==> m.input in g && m.output in g
    ensures |schemas| == |methods|
    ensures forall i :: 0 <= i < |methods| ==> schemas[i] == (Unfold(g, methods[i].input, {}), Unfold(g, methods[i].output, {}))
  {
    schemas := [];
    var u := new Unfolder(g);
    assert u.visited.Keys == {};
    for i := 0 to |methods|
      invariant u.Valid() && u.g == g && u.visited == map[] && |schemas| == i
      invariant forall j :: 0 <= j < i ==> schemas[j] == (Unfold(g, methods[j].input, {}), Unfold(g, methods[j].output, {}))
    {
      var request := u.BuildMessageSchema(methods[i].input);
      var response := u.BuildMessageSchema(methods[i].output);
      schemas := schemas + [(request, response)];
    }
  }
}
