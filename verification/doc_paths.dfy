/**
 * The documentation generator: messages indexed by qualified name, numeric paths found by name, and documentation
 * trees built over message types that may refer to each other in circles.
 */
module DocPaths {
  import opened Seqs
  import opened Text
  import Shell

  // ---- Path keys --------------------------------------------------------------------------

  /** pathKey: the numbers of a path, joined by dots. */
  function PathKey(path: seq<nat>): string {
    Join(Texts(path))
  }

  function Texts(path: seq<nat>): (texts: seq<string>)
    ensures |texts| == |path|
  {
    if path == [] then [] else [Shell.Itoa(path[0])] + Texts(path[1..])
  }

  lemma {:induction false} TextsBack(p: seq<nat>, q: seq<nat>)
    requires Texts(p) == Texts(q)
    ensures p == q
    decreases |p|
  {
    if p != [] {
      assert |p| == |q|;
      Shell.DigitsOfItoa(p[0]);
      Shell.DigitsOfItoa(q[0]);
      hide Shell.Itoa;
      assert Texts(p)[0] == Texts(q)[0] && Texts(p)[1..] == Texts(q)[1..];
      TextsBack(p[1..], q[1..]);
      assert p == [p[0]] + p[1..] && q == [q[0]] + q[1..];
    }
  }

  lemma {:induction false} TextsHaveNoDot(path: seq<nat>)
    ensures forall i :: 0 <= i < |path| ==> NoDot(Texts(path)[i])
  {
    if path != [] {
      assert forall i :: 0 <= i < |Shell.Itoa(path[0])| ==> Shell.IsDigit(Shell.Itoa(path[0])[i]);
      TextsHaveNoDot(path[1..]);
    }
  }

  /** Marks kept under path keys are marks kept under paths: different paths have different keys. */
  lemma KeysDiffer(p: seq<nat>, q: seq<nat>)
    requires p != [] && q != []
    ensures PathKey(p) == PathKey(q) <==> p == q
  {
    TextsHaveNoDot(p);
    TextsHaveNoDot(q);
    SplitOfJoin(Texts(p));
    SplitOfJoin(Texts(q));
    if PathKey(p) == PathKey(q) { TextsBack(p, q); }
  }

  // ---- Descriptors ------------------------------------------------------------------------------

  const FIELD_MESSAGE: nat := 4
  const FIELD_NESTED: nat := 3

  datatype FieldType = Other | Ref(typeName: string)

  datatype Msg = Msg(name: string, fields: seq<FieldType>, nested: seq<Msg>)

  datatype File = File(pkg: string, messages: seq<Msg>)

  /** Sibling names differ and have no dots, at every level. */
  ghost predicate GoodNames(ms: seq<Msg>) {
    && (forall i, j :: 0 <= i < j < |ms| ==> ms[i].name != ms[j].name)
    && (forall i :: 0 <= i < |ms| ==> NoDot(ms[i].name) && GoodNames(ms[i].nested))
  }

  /** A package and a chain of names below it. */
  function Qualified(pkg: string, parts: seq<string>): string {
    if parts == [] then pkg else pkg + ("." + Join(parts))
  }

  lemma {:induction false} JoinSnoc(parts: seq<string>, last: string)
    requires parts != []
    ensures Join(parts + [last]) == Join(parts) + ("." + last)
    decreases |parts|
  {
    if |parts| > 1 {
      assert (parts + [last])[1..] == parts[1..] + [last];
      JoinSnoc(parts[1..], last);
      var a, b := parts[0], Join(parts[1..]);
      assert a + ("." + (b + ("." + last))) == (a + ("." + b)) + ("." + last);
    } else {
      assert (parts + [last])[1..] == [last];
    }
  }

  lemma QualifiedSnoc(pkg: string, parts: seq<string>, last: string)
    ensures Qualified(pkg, parts + [last]) == Qualified(pkg, parts) + ("." + last)
  {
    if parts == [] {
      assert [] + [last] == [last];
    } else {
      JoinSnoc(parts, last);
      var j := Join(parts);
      assert pkg + ("." + (j + ("." + last))) == (pkg + ("." + j)) + ("." + last);
    }
  }

  // ---- Following names ----------------------------------------------------------------------------

  /** The first sibling of that name, or the number of siblings. */
  function Named(ms: seq<Msg>, name: string): (k: nat)
    ensures k <= |ms| && (k < |ms| ==> ms[k].name == name)
    ensures forall j :: 0 <= j < k ==> ms[j].name != name
  {
    if ms == [] || ms[0].name == name then 0 else 1 + Named(ms[1..], name)
  }

  /** The message a chain of names leads to. */
  function At(ms: seq<Msg>, parts: seq<string>): Option<Msg>
    requires parts != []
    decreases |parts|
  {
    var k := Named(ms, parts[0]);
    if k == |ms| then None
    else if |parts| == 1 then Some(ms[k])
    else At(ms[k].nested, parts[1..])
  }

  /** The numbers on the way there: an index, and the tag of nested messages before each further index. */
  function PathOf(ms: seq<Msg>, parts: seq<string>): seq<nat>
    requires parts != [] && At(ms, parts).Some?
    decreases |parts|
  {
    var k := Named(ms, parts[0]);
    if |parts| == 1 then [k] else [k, FIELD_NESTED] + PathOf(ms[k].nested, parts[1..])
  }

  /** The message a path of numbers leads to. */
  function Follow(ms: seq<Msg>, path: seq<nat>): Option<Msg>
    decreases |path|
  {
    if path == [] || path[0] >= |ms| then None
    else if |path| == 1 then Some(ms[path[0]])
    else if path[1] == FIELD_NESTED then Follow(ms[path[0]].nested, path[2..])
    else None
  }

  lemma {:induction false} PathOfLeadsThere(ms: seq<Msg>, parts: seq<string>)
    requires parts != [] && At(ms, parts).Some?
    ensures Follow(ms, PathOf(ms, parts)) == At(ms, parts) && PathOf(ms, parts) != []
    decreases |parts|
  {
    if |parts| > 1 {
      var k := Named(ms, parts[0]);
      var rest := PathOf(ms[k].nested, parts[1..]);
      PathOfLeadsThere(ms[k].nested, parts[1..]);
      assert ([k, FIELD_NESTED] + rest)[2..] == rest;
    }
  }

  lemma {:induction false} AtConcat(ms: seq<Msg>, parts: seq<string>, more: seq<string>)
    requires parts != [] && more != [] && At(ms, parts).Some?
    ensures At(ms, parts + more) == At(At(ms, parts).value.nested, more)
    decreases |parts|
  {
    var k := Named(ms, parts[0]);
    assert (parts + more)[0] == parts[0] && (parts + more)[1..] == parts[1..] + more;
    if |parts| > 1 {
      AtConcat(ms[k].nested, parts[1..], more);
    } else {
      assert parts[1..] + more == more;
    }
  }

  // ---- The search by name -------------------------------------------------------------------------

  /** findMsgPathRecursive from sibling i on: it tries further siblings when the search below one fails. */
  function FindFrom(ms: seq<Msg>, i: nat, parts: seq<string>, base: seq<nat>): Option<seq<nat>>
    requires parts != [] && i <= |ms|
    decreases |parts|, |ms| - i
  {
    if i == |ms| then None
    else if ms[i].name != parts[0] then FindFrom(ms, i + 1, parts, base)
    else if |parts| == 1 then Some(base + [i])
    else
      var nested := FindFrom(ms[i].nested, 0, parts[1..], base + [i, FIELD_NESTED]);
      if nested.Some? then nested else FindFrom(ms, i + 1, parts, base)
  }

  function TrimPrefix(s: string, prefix: string): string {
    if prefix <= s then s[|prefix|..] else s
  }

  lemma TrimPrefixIff(s: string, prefix: string, r: string)
    ensures TrimPrefix(s, prefix) == r <==> (s == prefix + r || (s == r && !(prefix <= s)))
  {
    if prefix <= s { assert s == prefix + s[|prefix|..]; }
    if s == prefix + r { assert s[|prefix|..] == r; }
  }

  function FindMsgPath(f: File, fqn: string): Option<seq<nat>> {
    FindFrom(f.messages, 0, Split(TrimPrefix(fqn, f.pkg + ".")), [FIELD_MESSAGE])
  }

  /** With different sibling names the search finds the path that the names lead along, or nothing. */
  lemma {:induction false} FindFromIsPathOf(ms: seq<Msg>, i: nat, parts: seq<string>, base: seq<nat>)
    requires GoodNames(ms) && parts != [] && i <= Named(ms, parts[0])
    ensures FindFrom(ms, i, parts, base) == if At(ms, parts).Some? then Some(base + PathOf(ms, parts)) else None
    decreases |parts|, |ms| - i
  {
    var k := Named(ms, parts[0]);
    if i < k {
      FindFromIsPathOf(ms, i + 1, parts, base);
    } else if k < |ms| && |parts| > 1 {
      FindFromIsPathOf(ms[k].nested, 0, parts[1..], base + [k, FIELD_NESTED]);
      NotFoundPast(ms, k + 1, parts, base);
      if At(ms, parts).Some? {
        Assoc(base, [k, FIELD_NESTED], PathOf(ms[k].nested, parts[1..]));
      }
    }
  }

  lemma {:induction false} NotFoundPast(ms: seq<Msg>, i: nat, parts: seq<string>, base: seq<nat>)
    requires parts != [] && i <= |ms| && forall j :: i <= j < |ms| ==> ms[j].name != parts[0]
    ensures FindFrom(ms, i, parts, base) == None
    decreases |ms| - i
  {
    if i < |ms| { NotFoundPast(ms, i + 1, parts, base); }
  }

  // ---- The index ---------------------------------------------------------------------------------------

  type Lookup = map<string, Msg>

  function IndexMsg(m: Msg, pkg: string, lookup: Lookup): Lookup
    decreases m, 1, 0
  {
    var fqn := pkg + ("." + m.name);
    IndexNested(m, 0, fqn, lookup[fqn := m])
  }

  /** The nested types of m from the i-th on. */
  function IndexNested(m: Msg, i: nat, fqn: string, lookup: Lookup): Lookup
    requires i <= |m.nested|
    decreases m, 0, |m.nested| - i
  {
    if i == |m.nested| then lookup else IndexNested(m, i + 1, fqn, IndexMsg(m.nested[i], fqn, lookup))
  }

  /** The first i messages of a file. */
  function IndexTop(f: File, i: nat): Lookup
    requires i <= |f.messages|
  {
    if i == 0 then map[] else IndexMsg(f.messages[i - 1], f.pkg, IndexTop(f, i - 1))
  }

  function Index(f: File): Lookup {
    IndexTop(f, |f.messages|)
  }

  /** A qualified name, and the message its chain of names leads to. */
  ghost predicate Leads(f: File, fqn: string, parts: seq<string>, m: Msg) {
    && parts != [] && (forall i :: 0 <= i < |parts| ==> NoDot(parts[i]))
    && fqn == Qualified(f.pkg, parts) && At(f.messages, parts) == Some(m)
  }

  ghost predicate Sound(f: File, lookup: Lookup) {
    forall fqn :: fqn in lookup ==> IsLed(f, fqn, lookup[fqn])
  }

  ghost predicate IsLed(f: File, fqn: string, m: Msg) {
    exists parts :: Leads(f, fqn, parts, m)
  }

  lemma {:induction false} IndexMsgSound(f: File, m: Msg, parts: seq<string>, pkg: string, lookup: Lookup)
    requires Sound(f, lookup) && GoodNames(m.nested)
    requires Leads(f, pkg + ("." + m.name), parts, m)
    ensures Sound(f, IndexMsg(m, pkg, lookup))
    decreases m, 1, 0
  {
    var fqn := pkg + ("." + m.name);
    IndexNestedSound(f, m, 0, parts, fqn, lookup[fqn := m]);
  }

  lemma {:induction false} IndexNestedSound(f: File, m: Msg, i: nat, parts: seq<string>, fqn: string, lookup: Lookup)
    requires Sound(f, lookup) && GoodNames(m.nested) && i <= |m.nested|
    requires Leads(f, fqn, parts, m)
    ensures Sound(f, IndexNested(m, i, fqn, lookup))
    decreases m, 0, |m.nested| - i
  {
    if i < |m.nested| {
      var c := m.nested[i];
      LeadsOn(f, fqn, parts, m, i);
      IndexMsgSound(f, c, parts + [c.name], fqn, lookup);
      IndexNestedSound(f, m, i + 1, parts, fqn, IndexMsg(c, fqn, lookup));
    }
  }

  lemma LeadsOn(f: File, fqn: string, parts: seq<string>, m: Msg, i: nat)
    requires Leads(f, fqn, parts, m) && GoodNames(m.nested) && i < |m.nested|
    ensures var c := m.nested[i]; Leads(f, fqn + ("." + c.name), parts + [c.name], c)
  {
    var c := m.nested[i];
    QualifiedSnoc(f.pkg, parts, c.name);
    AtConcat(f.messages, parts, [c.name]);
    OnlyNamed(m.nested, i);
  }

  lemma OnlyNamed(ms: seq<Msg>, i: nat)
    requires GoodNames(ms) && i < |ms|
    ensures Named(ms, ms[i].name) == i && At(ms, [ms[i].name]) == Some(ms[i])
  {
  }

  lemma {:induction false} IndexTopSound(f: File, i: nat)
    requires GoodNames(f.messages) && i <= |f.messages|
    ensures Sound(f, IndexTop(f, i))
  {
    if i > 0 {
      IndexTopSound(f, i - 1);
      TopLeads(f, i - 1);
      IndexMsgSound(f, f.messages[i - 1], [f.messages[i - 1].name], f.pkg, IndexTop(f, i - 1));
    }
  }

  lemma TopLeads(f: File, i: nat)
    requires GoodNames(f.messages) && i < |f.messages|
    ensures var m := f.messages[i]; Leads(f, f.pkg + ("." + m.name), [m.name], m)
  {
    OnlyNamed(f.messages, i);
    assert Join([f.messages[i].name]) == f.messages[i].name;
  }

  /** The names of a qualified name come back when the package is trimmed off. */
  lemma PartsBack(f: File, fqn: string, parts: seq<string>, m: Msg)
    requires Leads(f, fqn, parts, m)
    ensures Split(TrimPrefix(fqn, f.pkg + ".")) == parts
  {
    SplitOfJoin(parts);
    var j := Join(parts);
    assert f.pkg + ("." + j) == (f.pkg + ".") + j;
    assert ((f.pkg + ".") + j)[|f.pkg + "."|..] == j;
  }

  /**
   * For every indexed name, the path found by name is a message path, and following its numbers leads back to the
   * very message the index holds for the name.
   */
  lemma PathLeadsToIndexed(f: File, fqn: string)
    requires GoodNames(f.messages) && fqn in Index(f)
    ensures var path := FindMsgPath(f, fqn);
            && path.Some? && |path.value| > 1 && path.value[0] == FIELD_MESSAGE
            && Follow(f.messages, path.value[1..]) == Some(Index(f)[fqn])
  {
    IndexTopSound(f, |f.messages|);
    var m := Index(f)[fqn];
    assert IsLed(f, fqn, m);
    var parts :| Leads(f, fqn, parts, m);
    PathFound(f, fqn, parts, m);
  }

  lemma PathFound(f: File, fqn: string, parts: seq<string>, m: Msg)
    requires GoodNames(f.messages) && Leads(f, fqn, parts, m)
    ensures var path := FindMsgPath(f, fqn);
            && path.Some? && |path.value| > 1 && path.value[0] == FIELD_MESSAGE
            && Follow(f.messages, path.value[1..]) == Some(m)
  {
    PartsBack(f, fqn, parts, m);
    FindFromIsPathOf(f.messages, 0, parts, [FIELD_MESSAGE]);
    PathOfLeadsThere(f.messages, parts);
    var p := PathOf(f.messages, parts);
    assert ([FIELD_MESSAGE] + p)[1..] == p;
  }

  lemma {:induction false} MsgKeepsKeys(m: Msg, pkg: string, lookup: Lookup)
    ensures lookup.Keys + {pkg + ("." + m.name)} <= IndexMsg(m, pkg, lookup).Keys
    decreases m, 1, 0
  {
    var fqn := pkg + ("." + m.name);
    NestedKeepsKeys(m, 0, fqn, lookup[fqn := m]);
  }

  lemma {:induction false} NestedKeepsKeys(m: Msg, i: nat, fqn: string, lookup: Lookup)
    requires i <= |m.nested|
    ensures lookup.Keys <= IndexNested(m, i, fqn, lookup).Keys
    decreases m, 0, |m.nested| - i
  {
    if i < |m.nested| {
      MsgKeepsKeys(m.nested[i], fqn, lookup);
      NestedKeepsKeys(m, i + 1, fqn, IndexMsg(m.nested[i], fqn, lookup));
    }
  }

  lemma QualifiedCons(pkg: string, first: string, rest: seq<string>)
    ensures Qualified(pkg + ("." + first), rest) == Qualified(pkg, [first] + rest)
  {
    if rest == [] {
      assert [first] + [] == [first];
    } else {
      assert ([first] + rest)[1..] == rest;
      var j := Join(rest);
      assert (pkg + ("." + first)) + ("." + j) == pkg + ("." + (first + ("." + j)));
    }
  }

  lemma {:induction false} MsgIndexesBelow(m: Msg, pkg: string, lookup: Lookup, rest: seq<string>)
    requires rest != [] ==> At(m.nested, rest).Some?
    ensures Qualified(pkg, [m.name] + rest) in IndexMsg(m, pkg, lookup)
    decreases m, 1, 0
  {
    var fqn := pkg + ("." + m.name);
    QualifiedCons(pkg, m.name, rest);
    if rest == [] {
      MsgKeepsKeys(m, pkg, lookup);
    } else {
      NestedIndexesBelow(m, 0, fqn, lookup[fqn := m], rest);
    }
  }

  lemma {:induction false} NestedIndexesBelow(m: Msg, i: nat, fqn: string, lookup: Lookup, parts: seq<string>)
    requires parts != [] && At(m.nested, parts).Some? && i <= Named(m.nested, parts[0])
    ensures Qualified(fqn, parts) in IndexNested(m, i, fqn, lookup)
    decreases m, 0, |m.nested| - i
  {
    var c := m.nested[i];
    if i < Named(m.nested, parts[0]) {
      hide At, Qualified, IndexMsg;
      NestedIndexesBelow(m, i + 1, fqn, IndexMsg(c, fqn, lookup), parts);
    } else {
      assert [c.name] + parts[1..] == parts;
      assert parts[1..] != [] ==> At(c.nested, parts[1..]).Some?;
      hide Named, At, Qualified, IndexMsg;
      MsgIndexesBelow(c, fqn, lookup, parts[1..]);
      NestedKeepsKeys(m, i + 1, fqn, IndexMsg(c, fqn, lookup));
    }
  }

  lemma {:induction false} TopIndexesBelow(f: File, i: nat, parts: seq<string>)
    requires i <= |f.messages| && parts != [] && At(f.messages, parts).Some? && Named(f.messages, parts[0]) < i
    ensures Qualified(f.pkg, parts) in IndexTop(f, i)
  {
    var m := f.messages[i - 1];
    if Named(f.messages, parts[0]) < i - 1 {
      TopIndexesBelow(f, i - 1, parts);
      MsgKeepsKeys(m, f.pkg, IndexTop(f, i - 1));
    } else {
      assert [m.name] + parts[1..] == parts;
      MsgIndexesBelow(m, f.pkg, IndexTop(f, i - 1), parts[1..]);
    }
  }

  /** The index holds every message of the file, nested ones included, under its qualified name. */
  lemma EveryMessageIsIndexed(f: File, fqn: string, parts: seq<string>, m: Msg)
    requires GoodNames(f.messages) && Leads(f, fqn, parts, m)
    ensures fqn in Index(f) && Index(f)[fqn] == m
  {
    TopIndexesBelow(f, |f.messages|, parts);
    IndexTopSound(f, |f.messages|);
    assert IsLed(f, fqn, Index(f)[fqn]);
    var others :| Leads(f, fqn, others, Index(f)[fqn]);
    PartsBack(f, fqn, parts, m);
    PartsBack(f, fqn, others, Index(f)[fqn]);
  }

  // ---- Documentation trees ----------------------------------------------------------------------------

  /** A stub only has a name. A field has documentation when its type is a message of the file. */
  datatype Doc = Stub(name: string) | Doc(name: string, fields: seq<Option<Doc>>, nested: seq<Doc>)

  /** The paths of all messages from sibling i on. */
  function Paths(ms: seq<Msg>, i: nat, base: seq<nat>): set<seq<nat>>
    requires i <= |ms|
    decreases ms, |ms| - i
  {
    if i == |ms| then {}
    else {base + [i]} + Paths(ms[i].nested, 0, base + [i, FIELD_NESTED]) + Paths(ms, i + 1, base)
  }

  function AllPaths(f: File): set<seq<nat>> {
    Paths(f.messages, 0, [FIELD_MESSAGE])
  }

  lemma {:induction false} FollowedIsPath(ms: seq<Msg>, i: nat, base: seq<nat>, p: seq<nat>)
    requires i <= |ms| && Follow(ms, p).Some? && i <= p[0]
    ensures base + p in Paths(ms, i, base)
    decreases ms, |ms| - i
  {
    if i < p[0] {
      FollowedIsPath(ms, i + 1, base, p);
    } else if |p| > 1 {
      FollowedIsPath(ms[i].nested, 0, base + [i, FIELD_NESTED], p[2..]);
      assert (base + [i, FIELD_NESTED]) + p[2..] == base + p;
    } else {
      assert p == [i];
    }
  }

  /** path is the path of message m. */
  predicate IsPathOf(f: File, path: seq<nat>, m: Msg) {
    path != [] && path[0] == FIELD_MESSAGE && Follow(f.messages, path[1..]) == Some(m)
  }

  lemma PathOfMessage(f: File, path: seq<nat>, m: Msg)
    requires IsPathOf(f, path, m)
    ensures path in AllPaths(f)
  {
    FollowedIsPath(f.messages, 0, [FIELD_MESSAGE], path[1..]);
    assert [FIELD_MESSAGE] + path[1..] == path;
  }

  lemma {:induction false} FollowOn(ms: seq<Msg>, p: seq<nat>, m: Msg, j: nat)
    requires Follow(ms, p) == Some(m) && j < |m.nested|
    ensures Follow(ms, p + [FIELD_NESTED, j]) == Some(m.nested[j])
    decreases |p|
  {
    var q := p + [FIELD_NESTED, j];
    if |p| == 1 {
      assert q[2..] == [j];
    } else {
      FollowOn(ms[p[0]].nested, p[2..], m, j);
      assert q[2..] == p[2..] + [FIELD_NESTED, j];
    }
  }

  lemma NestedPath(f: File, path: seq<nat>, m: Msg, j: nat)
    requires IsPathOf(f, path, m) && j < |m.nested|
    ensures IsPathOf(f, path + [FIELD_NESTED, j], m.nested[j])
  {
    FollowOn(f.messages, path[1..], m, j);
    assert (path + [FIELD_NESTED, j])[1..] == path[1..] + [FIELD_NESTED, j];
  }

  /** The documentation of m while the messages at `visited` are being documented. */
  function BuildDoc(f: File, m: Msg, fqn: string, path: seq<nat>, visited: set<seq<nat>>): (d: Doc)
    requires GoodNames(f.messages) && IsPathOf(f, path, m)
    ensures d.name == fqn && (d.Stub? <==> path in visited)
    decreases AllPaths(f) - visited, 2, 0
  {
    if path in visited then Stub(fqn)
    else
      PathOfMessage(f, path, m);
      Doc(fqn, FieldDocs(f, m.fields, visited + {path}), NestedDocs(f, m, |m.nested|, fqn, path, visited + {path}))
  }

  function FieldDocs(f: File, fields: seq<FieldType>, visited: set<seq<nat>>): (docs: seq<Option<Doc>>)
    requires GoodNames(f.messages)
    ensures |docs| == |fields|
    decreases AllPaths(f) - visited, 3, |fields|
  {
    if fields == [] then []
    else FieldDocs(f, fields[..|fields| - 1], visited) + [FieldDoc(f, fields[|fields| - 1], visited)]
  }

  function FieldDoc(f: File, field: FieldType, visited: set<seq<nat>>): Option<Doc>
    requires GoodNames(f.messages)
    decreases AllPaths(f) - visited, 3, 0
  {
    match field
    case Other => None
    case Ref(typeName) =>
      var t := TrimPrefix(typeName, ".");
      if t !in Index(f) then None
      else
        PathLeadsToIndexed(f, t);
        Some(BuildDoc(f, Index(f)[t], t, FindMsgPath(f, t).value, visited))
  }

  /** The documentation of the first j nested messages. */
  function NestedDocs(f: File, m: Msg, j: nat, fqn: string, path: seq<nat>, visited: set<seq<nat>>): (docs: seq<Doc>)
    requires GoodNames(f.messages) && IsPathOf(f, path, m) && j <= |m.nested|
    ensures |docs| == j
    decreases AllPaths(f) - visited, 3, j
  {
    if j == 0 then []
    else
      NestedPath(f, path, m, j - 1);
      var c := m.nested[j - 1];
      NestedDocs(f, m, j - 1, fqn, path, visited)
      + [BuildDoc(f, c, fqn + ("." + c.name), path + [FIELD_NESTED, j - 1], visited)]
  }

  lemma {:induction false} FieldDocsAt(f: File, fields: seq<FieldType>, visited: set<seq<nat>>, i: nat)
    requires GoodNames(f.messages) && i < |fields|
    ensures FieldDocs(f, fields, visited)[i] == FieldDoc(f, fields[i], visited)
    decreases |fields|
  {
    if i < |fields| - 1 { FieldDocsAt(f, fields[..|fields| - 1], visited, i); }
  }

  /**
   * A field whose type is a message of the file is documented with that message, under its name; with a stub exactly
   * when that message is being documented already, so circular types end.
   */
  lemma FieldsAreDocumented(f: File, m: Msg, fqn: string, path: seq<nat>, visited: set<seq<nat>>, i: nat)
    requires GoodNames(f.messages) && IsPathOf(f, path, m) && path !in visited && i < |m.fields| && m.fields[i].Ref?
    ensures var d, t := BuildDoc(f, m, fqn, path, visited), TrimPrefix(m.fields[i].typeName, ".");
            && d.Doc? && |d.fields| == |m.fields|
            && (d.fields[i].Some? <==> t in Index(f))
            && (t in Index(f) ==>
                  var at := FindMsgPath(f, t);
                  at.Some? && IsPathOf(f, at.value, Index(f)[t])
                  && d.fields[i].value.name == t
                  && (d.fields[i].value.Stub? <==> at.value in visited + {path})
                  && (d.fields[i].value.Doc? ==> |d.fields[i].value.fields| == |Index(f)[t].fields|
                                                 && |d.fields[i].value.nested| == |Index(f)[t].nested|)
                  && d.fields[i].value == BuildDoc(f, Index(f)[t], t, at.value, visited + {path}))
  {
    var t := TrimPrefix(m.fields[i].typeName, ".");
    FieldDocsAt(f, m.fields, visited + {path}, i);
    if t in Index(f) { PathLeadsToIndexed(f, t); }
  }

  lemma {:induction false} NestedDocsAt(f: File, m: Msg, j: nat, fqn: string, path: seq<nat>, visited: set<seq<nat>>, i: nat)
    requires GoodNames(f.messages) && IsPathOf(f, path, m) && i < j <= |m.nested|
    ensures IsPathOf(f, path + [FIELD_NESTED, i], m.nested[i])
    ensures NestedDocs(f, m, j, fqn, path, visited)[i]
         == BuildDoc(f, m.nested[i], fqn + ("." + m.nested[i].name), path + [FIELD_NESTED, i], visited)
    decreases j
  {
    NestedPath(f, path, m, i);
    if i < j - 1 { NestedDocsAt(f, m, j - 1, fqn, path, visited, i); }
  }

  /**
   * A nested message is documented in its place, under its qualified name, with documentation for each of its fields and
   * nested messages; with a stub exactly when it is being documented already.
   */
  lemma NestedAreDocumented(f: File, m: Msg, fqn: string, path: seq<nat>, visited: set<seq<nat>>, i: nat)
    requires GoodNames(f.messages) && IsPathOf(f, path, m) && path !in visited && i < |m.nested|
    ensures var d, c, at := BuildDoc(f, m, fqn, path, visited), m.nested[i], path + [FIELD_NESTED, i];
            && d.Doc? && |d.nested| == |m.nested| && d.nested[i].name == fqn + ("." + c.name)
            && (d.nested[i].Stub? <==> at in visited + {path})
            && (d.nested[i].Doc? ==> |d.nested[i].fields| == |c.fields| && |d.nested[i].nested| == |c.nested|)
            && IsPathOf(f, at, c) && d.nested[i] == BuildDoc(f, c, fqn + ("." + c.name), at, visited + {path})
  {
    NestedDocsAt(f, m, |m.nested|, fqn, path, visited + {path}, i);
  }

  // ---- The generator as the source runs it ------------------------------------------------------------

  class Generator {
    const f: File
    var msgLookup: Lookup
    /** Marks are set to true on the way in and to false, not deleted, on the way out. */
    var visited: map<seq<nat>, bool>

    constructor (f: File)
      ensures this.f == f && msgLookup == map[] && Marked() == {}
    {
      this.f, msgLookup, visited := f, map[], map[];
    }

    ghost function Marked(): set<seq<nat>>
      reads this`visited
    {
      set p | p in visited && visited[p]
    }

    method IndexMessage(m: Msg, pkg: string)
      modifies this`msgLookup
      ensures msgLookup == IndexMsg(m, pkg, old(msgLookup))
      decreases m
    {
      var fqn := pkg + ("." + m.name);
      msgLookup := msgLookup[fqn := m];
      for i := 0 to |m.nested|
        invariant IndexNested(m, i, fqn, msgLookup) == IndexMsg(m, pkg, old(msgLookup))
      {
        IndexMessage(m.nested[i], fqn);
      }
    }

    method IndexFile()
      requires msgLookup == map[]
      modifies this`msgLookup
      ensures msgLookup == Index(f)
    {
      for i := 0 to |f.messages|
        invariant msgLookup == IndexTop(f, i)
      {
        IndexMessage(f.messages[i], f.pkg);
      }
    }

    /** Documentation is built to an end, circular types or not, and the marks are as they were. */
    method BuildMessageDoc(m: Msg, fqn: string, path: seq<nat>) returns (d: Doc)
      requires GoodNames(f.messages) && msgLookup == Index(f) && IsPathOf(f, path, m)
      modifies this`visited
      ensures Marked() == old(Marked())
      ensures d == BuildDoc(f, m, fqn, path, old(Marked()))
      decreases AllPaths(f) - Marked(), 2, 0
    {
      if path in visited && visited[path] {
        return Stub(fqn);
      }
      PathOfMessage(f, path, m);
      ghost var marked := Marked();
      visited := visited[path := true];
      assert Marked() == marked + {path};
      var fields := BuildFields(m.fields);
      var nested := BuildNested(m, fqn, path);
      visited := visited[path := false];
      assert Marked() == marked;
      d := Doc(fqn, fields, nested);
    }

    method BuildFields(fields: seq<FieldType>) returns (docs: seq<Option<Doc>>)
      requires GoodNames(f.messages) && msgLookup == Index(f)
      modifies this`visited
      ensures Marked() == old(Marked())
      ensures docs == FieldDocs(f, fields, old(Marked()))
      decreases AllPaths(f) - Marked(), 3, 0
    {
      docs := [];
      for i := 0 to |fields|
        invariant Marked() == old(Marked()) && docs == FieldDocs(f, fields[..i], old(Marked()))
      {
        assert fields[..i + 1][..i] == fields[..i];
        match fields[i] {
          case Other =>
            docs := docs + [None];
          case Ref(typeName) =>
            var t := TrimPrefix(typeName, ".");
            if t in msgLookup {
              PathLeadsToIndexed(f, t);
              var sub := BuildMessageDoc(msgLookup[t], t, FindMsgPath(f, t).value);
              docs := docs + [Some(sub)];
            } else {
              docs := docs + [None];
            }
        }
      }
      assert fields[..|fields|] == fields;
    }

    method BuildNested(m: Msg, fqn: string, path: seq<nat>) returns (docs: seq<Doc>)
      requires GoodNames(f.messages) && msgLookup == Index(f) && IsPathOf(f, path, m)
      modifies this`visited
      ensures Marked() == old(Marked())
      ensures docs == NestedDocs(f, m, |m.nested|, fqn, path, old(Marked()))
      decreases AllPaths(f) - Marked(), 3, 0
    {
      docs := [];
      for j := 0 to |m.nested|
        invariant Marked() == old(Marked()) && docs == NestedDocs(f, m, j, fqn, path, old(Marked()))
      {
        NestedPath(f, path, m, j);
        var d := BuildMessageDoc(m.nested[j], fqn + ("." + m.nested[j].name), path + [FIELD_NESTED, j]);
        docs := docs + [d];
      }
    }
  }
}
