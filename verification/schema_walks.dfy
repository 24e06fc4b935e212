/** The walkers over unfolded schemas: MCP tool schemas, command-line flags, and the JSON body. */
module SchemaWalks {
  import opened Seqs
  import opened Schema

  // ---- Schemas a walker can follow --------------------------------------------------

  /** At every node, each field's message type is among the node's own messages. */
  ghost predicate Navigable<N(!new)>(s: MessageSchema<N>) {
    && (forall i :: 0 <= i < |s.fields| && s.fields[i].typ.MessageType? ==> HasMessage(s, s.fields[i].typ.of))
    && (forall j :: 0 <= j < |s.messages| ==> Navigable(s.messages[j]))
  }

  ghost predicate HasMessage<N>(s: MessageSchema<N>, t: N) {
    exists j :: 0 <= j < |s.messages| && s.messages[j].name == t
  }

  lemma {:induction false} UnfoldNavigable<N(!new)>(g: Graph<N>, n: N, path: set<N>)
    requires Closed(g) && n in g
    ensures Navigable(Unfold(g, n, path))
    decreases g.Keys - path
  {
    if n !in path {
      var s, ns := Unfold(g, n, path), Carried(g[n]);
      forall i | 0 <= i < |s.fields| && s.fields[i].typ.MessageType? ensures HasMessage(s, s.fields[i].typ.of) {
        RefsOfFields(g[n].fields, s.fields[i]);
        assert s.fields[i].typ.of in ns;
        var j :| 0 <= j < |ns| && ns[j] == s.fields[i].typ.of;
        assert s.messages[j].name == ns[j];
      }
      forall j | 0 <= j < |s.messages| ensures Navigable(s.messages[j]) {
        UnfoldAllAt(g, ns, path + {n}, j);
        assert ns[j] in ns;
        UnfoldNavigable(g, ns[j], path + {n});
      }
    }
  }

  lemma {:induction false} FoundNavigable<N(!new)>(s: MessageSchema<N>, t: N)
    requires Navigable(s)
    ensures Find(s, t).Some? ==> Navigable(Find(s, t).value)
    ensures FindBelow(s, t).Some? ==> Navigable(FindBelow(s, t).value)
    decreases s, 1
  {
    FoundInNavigable(s, 0, t);
  }

  lemma {:induction false} FoundInNavigable<N(!new)>(s: MessageSchema<N>, i: nat, t: N)
    requires Navigable(s) && i <= |s.messages|
    ensures FindIn(s, i, t).Some? ==> Navigable(FindIn(s, i, t).value)
    ensures FindBelowIn(s, i, t).Some? ==> Navigable(FindBelowIn(s, i, t).value)
    decreases s, 0, |s.messages| - i
  {
    if i < |s.messages| {
      FoundNavigable(s.messages[i], t);
      FoundInNavigable(s, i + 1, t);
    }
  }

  // ---- MCP tool schemas -----------------------------------------------------------------

  datatype PlainType = StringType | NumberType | BooleanType

  datatype Prop = PlainProp(typ: PlainType) | ObjectProp(props: map<string, Prop>) | ArrayProp(items: Prop)

  function KindProp(k: Kind): PlainType {
    match k
    case BoolKind => BooleanType
    case StringKind | BytesKind | EnumKind | OtherKind => StringType
    case _ => NumberType
  }

  /** The properties of the first i fields; a later field of the same name wins. */
  function ToolProps<N(!new, ==)>(s: MessageSchema<N>, i: nat): map<string, Prop>
    requires Navigable(s) && i <= |s.fields|
    decreases s, 1, i
  {
    if i == 0 then map[]
    else ToolProps(s, i - 1)[s.fields[i - 1].name := FieldProp(s, i - 1)]
  }

  /** The property of one field. The recursion ends: what is looked up from s is strictly inside it. */
  function FieldProp<N(!new, ==)>(s: MessageSchema<N>, i: nat): Prop
    requires Navigable(s) && i < |s.fields|
    decreases s, 0
  {
    var f := s.fields[i];
    match f.typ
    case Plain(kind) => if f.repeated then ArrayProp(PlainProp(KindProp(kind))) else PlainProp(KindProp(kind))
    case MessageType(t) =>
      assert HasMessage(s, t);
      var nested := FindBelowIn(s, 0, t);
      FoundNavigable(s, t);
      var inner := ObjectProp(ToolProps(nested.value, |nested.value.fields|));
      if f.repeated then ArrayProp(inner) else inner
  }

  /** A repeated field is an array of what it would be on its own; a plain field is of the type of its kind. */
  lemma FieldPropIs<N(!new)>(s: MessageSchema<N>, i: nat)
    requires Navigable(s) && i < |s.fields|
    ensures var f, p := s.fields[i], FieldProp(s, i);
            && (f.repeated <==> p.ArrayProp?)
            && (f.typ.Plain? ==> (if f.repeated then p.items else p) == PlainProp(KindProp(f.typ.kind)))
            && (f.typ.MessageType? ==> (if f.repeated then p.items else p).ObjectProp?)
  {
  }

  /** With distinct names each field has its own property. */
  lemma {:induction false} ToolPropsAt<N(!new)>(s: MessageSchema<N>, i: nat, j: nat)
    requires Navigable(s) && DistinctFields(s.fields) && j < i <= |s.fields|
    ensures s.fields[j].name in ToolProps(s, i) && ToolProps(s, i)[s.fields[j].name] == FieldProp(s, j)
    decreases i
  {
    if j < i - 1 { ToolPropsAt(s, i - 1, j); }
  }

  /**
   * In the schema of a type, recursive or not, a message field becomes an object: an empty one when
   * its type is already being unfolded, and otherwise one with a property for each declared field. A repeated one
   * becomes an array of these.
   */
  lemma {:induction false} ToolFieldOfMessage<N(!new)>(g: Graph<N>, n: N, path: set<N>, i: nat)
    requires Closed(g) && n in g && n !in path
    requires i < |g[n].fields| && g[n].fields[i].typ.MessageType?
    ensures var t := g[n].fields[i].typ.of;
            && Navigable(Unfold(g, n, path)) && t in g
            && var p := FieldProp(Unfold(g, n, path), i);
               (g[n].fields[i].repeated <==> p.ArrayProp?)
               && var o := if p.ArrayProp? then p.items else p;
                  o.ObjectProp?
                  && (if t in path || t == n then o.props == map[]
                      else forall x :: x in o.props <==> exists j :: 0 <= j < |g[t].fields| && g[t].fields[j].name == x)
  {
    var s, t := Unfold(g, n, path), g[n].fields[i].typ.of;
    UnfoldNavigable(g, n, path);
    RefsOfFields(g[n].fields, g[n].fields[i]);
    LookupBelowSucceeds(g, n, path, t);
    FoundNavigable(s, t);
    assert HasMessage(s, t);
    var nested := FindBelowIn(s, 0, t).value;
    assert nested == FindBelow(s, t).value;
    ToolPropsNames(nested, |nested.fields|);
  }

  lemma {:induction false} ToolPropsNames<N(!new)>(s: MessageSchema<N>, i: nat)
    requires Navigable(s) && i <= |s.fields|
    ensures forall x :: x in ToolProps(s, i) <==> exists j :: 0 <= j < i && s.fields[j].name == x
    decreases i
  {
    if i > 0 { ToolPropsNames(s, i - 1); }
  }

  /** The loop of the source over the fields of a message. */
  method ProtoSchemaToToolSchema<N(!new, ==)>(s: MessageSchema<N>) returns (props: map<string, Prop>)
    requires Navigable(s)
    ensures props == ToolProps(s, |s.fields|)
  {
    props := map[];
    for i := 0 to |s.fields|
      invariant props == ToolProps(s, i)
    {
      props := props[s.fields[i].name := FieldProp(s, i)];
    }
  }

  // ---- Command-line flags ------------------------------------------------------------------

  datatype FlagType =
    | StringFlag | Int32Flag | Int64Flag | Uint32Flag | Uint64Flag | Float64Flag | BoolFlag
    | StringSliceFlag | Int64SliceFlag | Float64SliceFlag | StringToStringFlag

  function ScalarFlag(k: Kind): FlagType {
    match k
    case StringKind | BytesKind => StringFlag
    case Int32Kind | Sint32Kind | Sfixed32Kind => Int32Flag
    case Int64Kind | Sint64Kind | Sfixed64Kind => Int64Flag
    case Uint32Kind | Fixed32Kind => Uint32Flag
    case Uint64Kind | Fixed64Kind => Uint64Flag
    case DoubleKind | FloatKind => Float64Flag
    case BoolKind => BoolFlag
    case EnumKind => StringFlag
    case OtherKind => StringFlag
  }

  function RepeatedFlag(k: Kind): FlagType {
    match k
    case StringKind => StringSliceFlag
    case Int32Kind | Int64Kind | Sint32Kind | Sint64Kind | Uint32Kind | Uint64Kind
       | Fixed32Kind | Fixed64Kind | Sfixed32Kind | Sfixed64Kind => Int64SliceFlag
    case DoubleKind | FloatKind => Float64SliceFlag
    case _ => StringSliceFlag
  }

  /** The getter the JSON builder uses for a scalar; an unknown kind is not read at all. */
  function ScalarGetter(k: Kind): Option<FlagType> {
    match k
    case StringKind | BytesKind | EnumKind => Some(StringFlag)
    case Int32Kind | Sint32Kind | Sfixed32Kind => Some(Int32Flag)
    case Int64Kind | Sint64Kind | Sfixed64Kind => Some(Int64Flag)
    case Uint32Kind | Fixed32Kind => Some(Uint32Flag)
    case Uint64Kind | Fixed64Kind => Some(Uint64Flag)
    case DoubleKind | FloatKind => Some(Float64Flag)
    case BoolKind => Some(BoolFlag)
    case OtherKind => None
  }

  function RepeatedGetter(k: Kind): FlagType {
    match k
    case StringKind => StringSliceFlag
    case Int32Kind | Int64Kind | Sint32Kind | Sint64Kind | Uint32Kind | Uint64Kind
       | Fixed32Kind | Fixed64Kind | Sfixed32Kind | Sfixed64Kind => Int64SliceFlag
    case DoubleKind | FloatKind => Float64SliceFlag
    case _ => StringSliceFlag
  }

  predicate IsLower(c: char) { 'a' <= c <= 'z' }
  predicate IsUpper(c: char) { 'A' <= c <= 'Z' }

  /** What becomes of one character, which depends on its neighbours. */
  function KebabAt(s: string, i: nat): string
    requires i < |s|
  {
    var c := s[i];
    if c == '_' then "-"
    else if IsUpper(c) then
      var hyphen := i > 0 && (IsLower(s[i - 1]) || (i + 1 < |s| && IsLower(s[i + 1])));
      (if hyphen then "-" else "") + [(c as int + 32) as char]
    else [c]
  }

  function CamelToKebab(s: string, i: nat): string
    requires i <= |s|
    decreases |s| - i
  {
    if i == |s| then "" else KebabAt(s, i) + CamelToKebab(s, i + 1)
  }

  function FlagName(prefix: string, name: string): string {
    CamelToKebab(prefix + name, 0)
  }

  /** A singular message field is descended into; every other field is one flag. */
  predicate IsLeaf<N>(f: Field<N>) {
    f.repeated || f.typ.Plain?
  }

  function LeafFlag<N>(f: Field<N>): FlagType
    requires IsLeaf(f)
  {
    match f.typ
    case MessageType(_) => StringToStringFlag
    case Plain(kind) => if f.repeated then RepeatedFlag(kind) else ScalarFlag(kind)
  }

  function LeafGetter<N>(f: Field<N>): Option<FlagType>
    requires IsLeaf(f)
  {
    match f.typ
    case MessageType(_) => Some(StringToStringFlag)
    case Plain(kind) => if f.repeated then Some(RepeatedGetter(kind)) else ScalarGetter(kind)
  }

  datatype Registration = Registration(flag: string, typ: FlagType)

  /** The schema a message field leads to. */
  function Nested<N(!new, ==)>(s: MessageSchema<N>, i: nat): (r: MessageSchema<N>)
    requires Navigable(s) && i < |s.fields| && s.fields[i].typ.MessageType?
    ensures Find(s, s.fields[i].typ.of) == Some(r) && Navigable(r)
    ensures s.fields[i].typ.of != s.name ==> r < s
  {
    assert HasMessage(s, s.fields[i].typ.of);
    FoundNavigable(s, s.fields[i].typ.of);
    Find(s, s.fields[i].typ.of).value
  }

  /** addFlagsFromSchema over the first i fields. None means the recursion was still going after `fuel` descents. */
  function AddFlags<N(!new, ==)>(s: MessageSchema<N>, i: nat, prefix: string, fuel: nat): Option<seq<Registration>>
    requires Navigable(s) && i <= |s.fields|
    decreases fuel, i
  {
    if i == 0 then Some([])
    else
      var f, flag := s.fields[i - 1], FlagName(prefix, s.fields[i - 1].name);
      match AddFlags(s, i - 1, prefix, fuel)
      case None => None
      case Some(done) =>
        if IsLeaf(f) then Some(done + [Registration(flag, LeafFlag(f))])
        else if fuel == 0 then None
        else
          var nested := Nested(s, i - 1);
          match AddFlags(nested, |nested.fields|, flag + ".", fuel - 1)
          case None => None
          case Some(below) => Some(done + below)
  }

  ghost predicate FlagsTerminate<N(!new)>(s: MessageSchema<N>, prefix: string)
    requires Navigable(s)
  {
    exists fuel: nat :: AddFlags(s, |s.fields|, prefix, fuel).Some?
  }

  /** No message the walk visits has a singular field of its own type. */
  ghost predicate SelfFree<N(!new)>(s: MessageSchema<N>)
    requires Navigable(s)
    decreases s, 1
  {
    forall i :: 0 <= i < |s.fields| && !IsLeaf(s.fields[i]) ==> SelfFreeAt(s, i)
  }

  ghost predicate SelfFreeAt<N(!new)>(s: MessageSchema<N>, i: nat)
    requires Navigable(s) && i < |s.fields| && !IsLeaf(s.fields[i])
    decreases s, 0
  {
    s.fields[i].typ.of != s.name && SelfFree(Nested(s, i))
  }

  /** The flags of the first i fields of a schema on which the walk ends. */
  function Flags<N(!new, ==)>(s: MessageSchema<N>, i: nat, prefix: string): seq<Registration>
    requires Navigable(s) && SelfFree(s) && i <= |s.fields|
    decreases s, 1, i
  {
    if i == 0 then [] else Flags(s, i - 1, prefix) + FieldFlags(s, i - 1, prefix)
  }

  function FieldFlags<N(!new, ==)>(s: MessageSchema<N>, i: nat, prefix: string): seq<Registration>
    requires Navigable(s) && SelfFree(s) && i < |s.fields|
    decreases s, 0
  {
    var f, flag := s.fields[i], FlagName(prefix, s.fields[i].name);
    if IsLeaf(f) then [Registration(flag, LeafFlag(f))]
    else
      assert SelfFreeAt(s, i);
      Flags(Nested(s, i), |Nested(s, i).fields|, flag + ".")
  }

  lemma {:induction false} MoreFuel<N(!new)>(s: MessageSchema<N>, i: nat, prefix: string, fuel: nat, more: nat)
    requires Navigable(s) && i <= |s.fields| && fuel <= more && AddFlags(s, i, prefix, fuel).Some?
    ensures AddFlags(s, i, prefix, more) == AddFlags(s, i, prefix, fuel)
    decreases fuel, i
  {
    hide FlagName, LeafFlag, Schema.Find;
    if i > 0 {
      MoreFuel(s, i - 1, prefix, fuel, more);
      if !IsLeaf(s.fields[i - 1]) {
        var nested := Nested(s, i - 1);
        MoreFuel(nested, |nested.fields|, FlagName(prefix, s.fields[i - 1].name) + ".", fuel - 1, more - 1);
      }
    }
  }

  lemma {:induction false} EnoughFuel<N(!new)>(s: MessageSchema<N>, i: nat, prefix: string) returns (fuel: nat)
    requires Navigable(s) && SelfFree(s) && i <= |s.fields|
    ensures AddFlags(s, i, prefix, fuel) == Some(Flags(s, i, prefix))
    decreases s, i
  {
    hide FlagName, LeafFlag, Schema.Find;
    fuel := 0;
    if i > 0 {
      fuel := EnoughFuel(s, i - 1, prefix);
      if !IsLeaf(s.fields[i - 1]) {
        assert SelfFreeAt(s, i - 1);
        var nested, below := Nested(s, i - 1), FlagName(prefix, s.fields[i - 1].name) + ".";
        var deeper := EnoughFuel(nested, |nested.fields|, below);
        fuel := FuelForBoth(s, i, prefix, fuel, deeper);
      }
    }
  }

  lemma {:induction false} FuelForBoth<N(!new)>(s: MessageSchema<N>, i: nat, prefix: string, fuel: nat, deeper: nat) returns (both: nat)
    requires Navigable(s) && 0 < i <= |s.fields| && !IsLeaf(s.fields[i - 1])
    requires AddFlags(s, i - 1, prefix, fuel).Some?
    requires var nested := Nested(s, i - 1);
             AddFlags(nested, |nested.fields|, FlagName(prefix, s.fields[i - 1].name) + ".", deeper).Some?
    ensures var nested := Nested(s, i - 1);
            AddFlags(s, i, prefix, both) == Some(AddFlags(s, i - 1, prefix, fuel).value
              + AddFlags(nested, |nested.fields|, FlagName(prefix, s.fields[i - 1].name) + ".", deeper).value)
  {
    hide FlagName, LeafFlag, Schema.Find;
    var nested := Nested(s, i - 1);
    both := if fuel <= deeper then deeper + 1 else fuel;
    MoreFuel(s, i - 1, prefix, fuel, both);
    MoreFuel(nested, |nested.fields|, FlagName(prefix, s.fields[i - 1].name) + ".", deeper, both - 1);
  }

  lemma {:induction false} TerminatesOnlyIfSelfFree<N(!new)>(s: MessageSchema<N>, i: nat, prefix: string, fuel: nat)
    requires Navigable(s) && i <= |s.fields| && AddFlags(s, i, prefix, fuel).Some?
    ensures forall j :: 0 <= j < i && !IsLeaf(s.fields[j]) ==> SelfFreeAt(s, j)
    decreases fuel, i
  {
    hide FlagName, LeafFlag;
    if i > 0 {
      TerminatesOnlyIfSelfFree(s, i - 1, prefix, fuel);
      if !IsLeaf(s.fields[i - 1]) {
        var nested := Nested(s, i - 1);
        TerminatesOnlyIfSelfFree(nested, |nested.fields|, FlagName(prefix, s.fields[i - 1].name) + ".", fuel - 1);
      }
    }
  }

  /** Flag registration ends exactly when no visited message has a singular field of its own type. */
  lemma FlagsTerminateIff<N(!new)>(s: MessageSchema<N>, prefix: string)
    requires Navigable(s)
    ensures FlagsTerminate(s, prefix) <==> SelfFree(s)
    ensures forall fuel: nat :: AddFlags(s, |s.fields|, prefix, fuel).Some? ==>
              SelfFree(s) && AddFlags(s, |s.fields|, prefix, fuel).value == Flags(s, |s.fields|, prefix)
  {
    forall fuel: nat | AddFlags(s, |s.fields|, prefix, fuel).Some?
      ensures SelfFree(s) && AddFlags(s, |s.fields|, prefix, fuel).value == Flags(s, |s.fields|, prefix)
    {
      TerminatesOnlyIfSelfFree(s, |s.fields|, prefix, fuel);
      var enough := EnoughFuel(s, |s.fields|, prefix);
      var both := if fuel <= enough then enough else fuel;
      MoreFuel(s, |s.fields|, prefix, fuel, both);
      MoreFuel(s, |s.fields|, prefix, enough, both);
    }
    if SelfFree(s) {
      var fuel := EnoughFuel(s, |s.fields|, prefix);
    }
  }

  /** The smallest schema on which it does not end: one singular field of the message's own type. */
  lemma OwnTypeNeverEnds()
    ensures var s := MessageSchema("Node", [Field("next", MessageType("Node"), false)], [Stub("Node")]);
            Navigable(s) && !FlagsTerminate(s, "")
  {
    var s := MessageSchema("Node", [Field("next", MessageType("Node"), false)], [Stub("Node")]);
    assert s.messages[0] == Stub("Node") && HasMessage(s, "Node");
    assert !IsLeaf(s.fields[0]) && !SelfFreeAt(s, 0);
    FlagsTerminateIff(s, "");
  }

  /** It is enough that no message type of the graph has a singular field of its own type, recursive or not. */
  lemma {:induction false} UnfoldSelfFree<N(!new)>(g: Graph<N>, n: N, path: set<N>)
    requires Closed(g) && n in g
    requires forall t, f :: t in g && f in g[t].fields && !IsLeaf(f) ==> f.typ.of != t
    ensures Navigable(Unfold(g, n, path)) && SelfFree(Unfold(g, n, path))
    decreases Unfold(g, n, path)
  {
    var s := Unfold(g, n, path);
    UnfoldNavigable(g, n, path);
    forall i | 0 <= i < |s.fields| && !IsLeaf(s.fields[i]) ensures SelfFreeAt(s, i) {
      var t := s.fields[i].typ.of;
      RefsOfFields(g[n].fields, s.fields[i]);
      LookupSucceeds(g, n, path, t);
      var p :| path <= p && Find(s, t).value == Unfold(g, t, p) && (t in p <==> t in path);
      UnfoldSelfFree(g, t, p);
    }
  }

  /** The tool server and the command line agree on every scalar: text, number or truth value. */
  lemma WalkersAgreeOnScalars(k: Kind)
    ensures KindProp(k) == BooleanType <==> ScalarFlag(k) == BoolFlag
    ensures KindProp(k) == NumberType <==>
              (ScalarFlag(k) == Int32Flag || ScalarFlag(k) == Int64Flag || ScalarFlag(k) == Uint32Flag
               || ScalarFlag(k) == Uint64Flag || ScalarFlag(k) == Float64Flag)
    ensures RepeatedFlag(k) == StringSliceFlag <==> KindProp(k) != NumberType
    ensures RepeatedFlag(k) == Float64SliceFlag <==> ScalarFlag(k) == Float64Flag
    ensures ScalarFlag(k) == Float64Flag <==> k == DoubleKind || k == FloatKind
    ensures ScalarFlag(k) == Int32Flag || ScalarFlag(k) == Int64Flag <==>
              k in {Int32Kind, Sint32Kind, Sfixed32Kind, Int64Kind, Sint64Kind, Sfixed64Kind}
    ensures ScalarFlag(k) == Int32Flag || ScalarFlag(k) == Uint32Flag <==>
              k in {Int32Kind, Sint32Kind, Sfixed32Kind, Uint32Kind, Fixed32Kind}
    ensures KindProp(k) == BooleanType <==> k == BoolKind
  {
  }

  // ---- The JSON body ------------------------------------------------------------------------

  datatype Json<V> = Leaf(v: V) | Object(entries: map<string, Json<V>>)

  /**
   * buildJSONFromSchema over the first i fields. `changed` are the flags the user set; `read` turns the value of a
   * set flag into JSON, or fails.
   */
  function BuildJson<N(!new, ==), V>(s: MessageSchema<N>, i: nat, prefix: string, changed: set<string>,
                                     read: (Field<N>, string) -> Option<V>): Option<map<string, Json<V>>>
    requires Navigable(s) && SelfFree(s) && i <= |s.fields|
    decreases s, i
  {
    if i == 0 then Some(map[])
    else
      var f, flag := s.fields[i - 1], FlagName(prefix, s.fields[i - 1].name);
      match BuildJson(s, i - 1, prefix, changed, read)
      case None => None
      case Some(obj) =>
        if !IsLeaf(f) then
          assert SelfFreeAt(s, i - 1);
          match BuildJson(Nested(s, i - 1), |Nested(s, i - 1).fields|, flag + ".", changed, read)
          case None => None
          case Some(sub) => Some(if |sub| > 0 then obj[f.name := Object(sub)] else obj)
        else if flag !in changed then Some(obj)
        else
          match read(f, flag)
          case None => None
          case Some(v) => Some(obj[f.name := Leaf(v)])
  }

  /** How a walk with a bounded stack ends: out of stack, at a value that cannot be read, or with the object. */
  datatype Walk<V> = Deeper | Failed | Built(obj: map<string, Json<V>>)

  /** buildJSONFromSchema over the first i fields of any schema, with room for `fuel` descents. */
  function BuildWithin<N(!new, ==), V>(s: MessageSchema<N>, i: nat, prefix: string, changed: set<string>,
                                       read: (Field<N>, string) -> Option<V>, fuel: nat): Walk<V>
    requires Navigable(s) && i <= |s.fields|
    decreases fuel, i
  {
    if i == 0 then Built(map[])
    else
      match BuildWithin(s, i - 1, prefix, changed, read, fuel)
      case Deeper => Deeper
      case Failed => Failed
      case Built(obj) =>
        var f, flag := s.fields[i - 1], FlagName(prefix, s.fields[i - 1].name);
        if !IsLeaf(f) then
          if fuel == 0 then Deeper
          else
            match BuildWithin(Nested(s, i - 1), |Nested(s, i - 1).fields|, flag + ".", changed, read, fuel - 1)
            case Deeper => Deeper
            case Failed => Failed
            case Built(sub) => Built(if |sub| > 0 then obj[f.name := Object(sub)] else obj)
        else if flag !in changed then Built(obj)
        else
          match read(f, flag)
          case None => Failed
          case Some(v) => Built(obj[f.name := Leaf(v)])
  }

  /** A stack on which the flags could be registered is deep enough, and then the walk gives the object of the schema. */
  lemma {:induction false} BuildsWhatItRegistered<N(!new), V>(s: MessageSchema<N>, i: nat, prefix: string, changed: set<string>,
                                                              read: (Field<N>, string) -> Option<V>, fuel: nat)
    requires Navigable(s) && i <= |s.fields| && SelfFree(s) && AddFlags(s, i, prefix, fuel).Some?
    ensures BuildWithin(s, i, prefix, changed, read, fuel)
            == match BuildJson(s, i, prefix, changed, read) case None => Failed case Some(obj) => Built(obj)
    decreases fuel, i
  {
    hide FlagName, LeafFlag, Schema.Find;
    if i > 0 {
      BuildsWhatItRegistered(s, i - 1, prefix, changed, read, fuel);
      if !IsLeaf(s.fields[i - 1]) {
        assert SelfFreeAt(s, i - 1);
        var nested := Nested(s, i - 1);
        BuildsWhatItRegistered(nested, |nested.fields|, FlagName(prefix, s.fields[i - 1].name) + ".", changed, read, fuel - 1);
      }
    }
  }

  /** The flag and field at the end of a path of field names, if the path ends in a flag. */
  function LeafAt<N(!new, ==)>(s: MessageSchema<N>, i: nat, prefix: string, p: seq<string>): Option<(string, Field<N>)>
    requires Navigable(s) && SelfFree(s) && i <= |s.fields| && p != []
    decreases s, i
  {
    if i == 0 then None
    else
      var f, flag := s.fields[i - 1], FlagName(prefix, s.fields[i - 1].name);
      if f.name != p[0] then LeafAt(s, i - 1, prefix, p)
      else if IsLeaf(f) then (if |p| == 1 then Some((flag, f)) else None)
      else if |p| == 1 then None
      else
        assert SelfFreeAt(s, i - 1);
        LeafAt(Nested(s, i - 1), |Nested(s, i - 1).fields|, flag + ".", p[1..])
  }

  /** The leaf value of a built object at a path. */
  function Entry<V>(obj: map<string, Json<V>>, p: seq<string>): Option<V>
    requires p != []
    decreases |p|
  {
    if p[0] !in obj then None
    else
      match obj[p[0]]
      case Leaf(v) => if |p| == 1 then Some(v) else None
      case Object(sub) => if |p| == 1 then None else Entry(sub, p[1..])
  }

  /** The property holds of the fields of the message and of all it carries. */
  ghost predicate Throughout<N(!new)>(s: MessageSchema<N>, p: seq<Field<N>> -> bool) {
    p(s.fields) && forall j :: 0 <= j < |s.messages| ==> Throughout(s.messages[j], p)
  }

  lemma {:induction false} FoundThroughout<N(!new)>(s: MessageSchema<N>, t: N, p: seq<Field<N>> -> bool)
    requires Throughout(s, p)
    ensures Find(s, t).Some? ==> Throughout(Find(s, t).value, p)
    decreases s, 1
  {
    FoundInThroughout(s, 0, t, p);
  }

  lemma {:induction false} FoundInThroughout<N(!new)>(s: MessageSchema<N>, i: nat, t: N, p: seq<Field<N>> -> bool)
    requires Throughout(s, p) && i <= |s.messages|
    ensures FindIn(s, i, t).Some? ==> Throughout(FindIn(s, i, t).value, p)
    decreases s, 0, |s.messages| - i
  {
    if i < |s.messages| {
      FoundThroughout(s.messages[i], t, p);
      FoundInThroughout(s, i + 1, t, p);
    }
  }

  ghost predicate DistinctFields<N>(fields: seq<Field<N>>) {
    forall i, j :: 0 <= i < j < |fields| ==> fields[i].name != fields[j].name
  }

  /** Field names differ within every message, as protobuf requires. */
  ghost predicate DistinctNames<N(!new)>(s: MessageSchema<N>) {
    Throughout(s, DistinctFields)
  }

  lemma FoundDistinct<N(!new)>(s: MessageSchema<N>, t: N)
    requires DistinctNames(s)
    ensures Find(s, t).Some? ==> DistinctNames(Find(s, t).value)
  {
    FoundThroughout(s, t, DistinctFields);
  }

  /** What the flag at the end of a path contributes: its value if it was set. */
  function SetLeaf<N(!new, ==), V>(s: MessageSchema<N>, i: nat, prefix: string, changed: set<string>,
                                   read: (Field<N>, string) -> Option<V>, p: seq<string>): Option<V>
    requires Navigable(s) && SelfFree(s) && i <= |s.fields| && p != []
  {
    match LeafAt(s, i, prefix, p)
    case None => None
    case Some((flag, f)) => if flag in changed then read(f, flag) else None
  }

  lemma {:induction false} JsonNames<N(!new), V>(s: MessageSchema<N>, i: nat, prefix: string, changed: set<string>,
                                                 read: (Field<N>, string) -> Option<V>)
    requires Navigable(s) && SelfFree(s) && i <= |s.fields| && BuildJson(s, i, prefix, changed, read).Some?
    ensures forall x :: x in BuildJson(s, i, prefix, changed, read).value ==> exists j :: 0 <= j < i && s.fields[j].name == x
    decreases i
  {
    if i > 0 { JsonNames(s, i - 1, prefix, changed, read); }
  }

  /**
   * At every path the built object has a leaf exactly when the path ends in a flag that was set, and the leaf is
   * that flag's value.
   */
  lemma {:induction false} JsonHoldsSetFlags<N(!new), V>(s: MessageSchema<N>, i: nat, prefix: string, changed: set<string>,
                                                         read: (Field<N>, string) -> Option<V>, p: seq<string>)
    requires Navigable(s) && SelfFree(s) && DistinctNames(s) && i <= |s.fields| && p != []
    requires BuildJson(s, i, prefix, changed, read).Some?
    ensures Entry(BuildJson(s, i, prefix, changed, read).value, p) == SetLeaf(s, i, prefix, changed, read, p)
    decreases s, i
  {
    hide FlagName, LeafFlag, Schema.Find;
    if i > 0 {
      JsonHoldsSetFlags(s, i - 1, prefix, changed, read, p);
      JsonNames(s, i - 1, prefix, changed, read);
      var f, flag := s.fields[i - 1], FlagName(prefix, s.fields[i - 1].name);
      var before := BuildJson(s, i - 1, prefix, changed, read).value;
      assert f.name !in before;
      if f.name == p[0] && !IsLeaf(f) && |p| > 1 {
        assert SelfFreeAt(s, i - 1);
        FoundDistinct(s, f.typ.of);
        JsonHoldsSetFlags(Nested(s, i - 1), |Nested(s, i - 1).fields|, flag + ".", changed, read, p[1..]);
      }
    }
  }

  /** Objects appear only around set flags: none is empty. */
  ghost predicate Filled<V>(json: Json<V>) {
    match json
    case Leaf(_) => true
    case Object(obj) => |obj| > 0 && forall x :: x in obj ==> Filled(obj[x])
  }

  lemma {:induction false} JsonFilled<N(!new), V>(s: MessageSchema<N>, i: nat, prefix: string, changed: set<string>,
                                                  read: (Field<N>, string) -> Option<V>)
    requires Navigable(s) && SelfFree(s) && i <= |s.fields| && BuildJson(s, i, prefix, changed, read).Some?
    ensures var obj := BuildJson(s, i, prefix, changed, read).value;
            forall x :: x in obj ==> Filled(obj[x])
    decreases s, i
  {
    hide FlagName, LeafFlag, Schema.Find;
    if i > 0 {
      JsonFilled(s, i - 1, prefix, changed, read);
      if !IsLeaf(s.fields[i - 1]) {
        assert SelfFreeAt(s, i - 1);
        var nested := Nested(s, i - 1);
        JsonFilled(nested, |nested.fields|, FlagName(prefix, s.fields[i - 1].name) + ".", changed, read);
      }
    }
  }

  /** A path ends in a set flag whose value cannot be read. */
  ghost predicate Unreadable<N(!new), V>(s: MessageSchema<N>, i: nat, prefix: string, changed: set<string>,
                                         read: (Field<N>, string) -> Option<V>, p: seq<string>)
    requires Navigable(s) && SelfFree(s) && i <= |s.fields|
  {
    p != [] && var end := LeafAt(s, i, prefix, p); end.Some? && end.value.0 in changed && read(end.value.1, end.value.0).None?
  }

  /** Building fails exactly when the value of some set flag cannot be read. */
  lemma {:induction false} JsonFailsIff<N(!new), V>(s: MessageSchema<N>, i: nat, prefix: string, changed: set<string>,
                                                    read: (Field<N>, string) -> Option<V>)
    requires Navigable(s) && SelfFree(s) && DistinctNames(s) && i <= |s.fields|
    ensures BuildJson(s, i, prefix, changed, read).None? <==> exists p :: Unreadable(s, i, prefix, changed, read, p)
    decreases s, i
  {
    hide FlagName, LeafFlag, Schema.Find;
    if i > 0 {
      JsonFailsIff(s, i - 1, prefix, changed, read);
      UnreadableEarlier(s, i, prefix, changed, read);
      var f, flag := s.fields[i - 1], FlagName(prefix, s.fields[i - 1].name);
      if BuildJson(s, i - 1, prefix, changed, read).None? {
        var p :| Unreadable(s, i - 1, prefix, changed, read, p);
        EarlierField(s, i, prefix, p);
        assert Unreadable(s, i, prefix, changed, read, p);
      } else if IsLeaf(f) {
        assert LeafAt(s, i, prefix, [f.name]) == Some((flag, f));
        if flag in changed && read(f, flag).None? {
          assert Unreadable(s, i, prefix, changed, read, [f.name]);
        }
        forall p | Unreadable(s, i, prefix, changed, read, p) ensures flag in changed && read(f, flag).None? {}
      } else {
        assert SelfFreeAt(s, i - 1);
        var nested := Nested(s, i - 1);
        FoundDistinct(s, f.typ.of);
        JsonFailsIff(nested, |nested.fields|, flag + ".", changed, read);
        if q :| Unreadable(nested, |nested.fields|, flag + ".", changed, read, q) {
          assert ([f.name] + q)[1..] == q;
          assert Unreadable(s, i, prefix, changed, read, [f.name] + q);
        }
        forall p | Unreadable(s, i, prefix, changed, read, p)
          ensures Unreadable(nested, |nested.fields|, flag + ".", changed, read, p[1..])
        {}
      }
    }
  }

  lemma UnreadableEarlier<N(!new), V>(s: MessageSchema<N>, i: nat, prefix: string, changed: set<string>,
                                      read: (Field<N>, string) -> Option<V>)
    requires Navigable(s) && SelfFree(s) && 0 < i <= |s.fields|
    ensures forall p :: p != [] && p[0] != s.fields[i - 1].name ==>
              (Unreadable(s, i, prefix, changed, read, p) <==> Unreadable(s, i - 1, prefix, changed, read, p))
  {
  }

  /** A path through the first i - 1 fields does not go through field i - 1, whose name is different. */
  lemma {:induction false} EarlierField<N(!new)>(s: MessageSchema<N>, i: nat, prefix: string, p: seq<string>)
    requires Navigable(s) && SelfFree(s) && DistinctNames(s) && 0 < i <= |s.fields| && p != []
    requires LeafAt(s, i - 1, prefix, p).Some?
    ensures LeafAt(s, i, prefix, p) == LeafAt(s, i - 1, prefix, p)
  {
    LeafNames(s, i - 1, prefix, p);
  }

  lemma {:induction false} LeafNames<N(!new)>(s: MessageSchema<N>, i: nat, prefix: string, p: seq<string>)
    requires Navigable(s) && SelfFree(s) && i <= |s.fields| && p != [] && LeafAt(s, i, prefix, p).Some?
    ensures exists j :: 0 <= j < i && s.fields[j].name == p[0]
    decreases i
  {
    if s.fields[i - 1].name != p[0] { LeafNames(s, i - 1, prefix, p); }
  }

  /** r was registered for the flag at the end of p. */
  ghost predicate RegisteredFor<N(!new)>(s: MessageSchema<N>, i: nat, prefix: string, p: seq<string>, r: Registration)
    requires Navigable(s) && SelfFree(s) && i <= |s.fields|
  {
    p != [] && var end := LeafAt(s, i, prefix, p);
               end.Some? && IsLeaf(end.value.1) && r == Registration(end.value.0, LeafFlag(end.value.1))
  }

  lemma {:induction false} LeafIsLeaf<N(!new)>(s: MessageSchema<N>, i: nat, prefix: string, p: seq<string>)
    requires Navigable(s) && SelfFree(s) && i <= |s.fields| && p != [] && LeafAt(s, i, prefix, p).Some?
    ensures IsLeaf(LeafAt(s, i, prefix, p).value.1)
    decreases s, i
  {
    var f := s.fields[i - 1];
    if f.name != p[0] {
      LeafIsLeaf(s, i - 1, prefix, p);
    } else if !IsLeaf(f) {
      assert SelfFreeAt(s, i - 1);
      LeafIsLeaf(Nested(s, i - 1), |Nested(s, i - 1).fields|, FlagName(prefix, f.name) + ".", p[1..]);
    }
  }

  ghost predicate Registered<N(!new)>(s: MessageSchema<N>, i: nat, prefix: string, r: Registration)
    requires Navigable(s) && SelfFree(s) && i <= |s.fields|
  {
    exists p :: RegisteredFor(s, i, prefix, p, r)
  }

  /** The flags registered are exactly the ones the JSON builder may read. */
  lemma {:induction false} FlagsAreLeaves<N(!new)>(s: MessageSchema<N>, i: nat, prefix: string, r: Registration)
    requires Navigable(s) && SelfFree(s) && DistinctNames(s) && i <= |s.fields|
    ensures r in Flags(s, i, prefix) <==> Registered(s, i, prefix, r)
    decreases s, i
  {
    if i > 0 {
      FlagsAreLeaves(s, i - 1, prefix, r);
      if !IsLeaf(s.fields[i - 1]) {
        assert SelfFreeAt(s, i - 1);
        var nested := Nested(s, i - 1);
        FoundDistinct(s, s.fields[i - 1].typ.of);
        FlagsAreLeaves(nested, |nested.fields|, FlagName(prefix, s.fields[i - 1].name) + ".", r);
      }
      RegisteredAtField(s, i, prefix, r);
    }
  }

  /** A flag of the first i fields is one of the first i - 1, or it belongs to the last of them. */
  lemma RegisteredAtField<N(!new)>(s: MessageSchema<N>, i: nat, prefix: string, r: Registration)
    requires Navigable(s) && SelfFree(s) && DistinctNames(s) && 0 < i <= |s.fields|
    ensures IsLeaf(s.fields[i - 1]) || SelfFreeAt(s, i - 1)
    ensures Registered(s, i, prefix, r) <==>
              (Registered(s, i - 1, prefix, r)
               || var f, flag := s.fields[i - 1], FlagName(prefix, s.fields[i - 1].name);
                  if IsLeaf(f) then r == Registration(flag, LeafFlag(f))
                  else Registered(Nested(s, i - 1), |Nested(s, i - 1).fields|, flag + ".", r))
  {
    var f, flag := s.fields[i - 1], FlagName(prefix, s.fields[i - 1].name);
    var j := i - 1;
    assert IsLeaf(f) || SelfFreeAt(s, j);
    if Registered(s, j, prefix, r) {
      var q :| RegisteredFor(s, j, prefix, q, r);
      EarlierField(s, i, prefix, q);
      assert RegisteredFor(s, i, prefix, q, r);
    }
    if IsLeaf(f) {
      if r == Registration(flag, LeafFlag(f)) { assert RegisteredFor(s, i, prefix, [f.name], r); }
    } else if Registered(Nested(s, j), |Nested(s, j).fields|, flag + ".", r) {
      var nested := Nested(s, j);
      var q :| RegisteredFor(nested, |nested.fields|, flag + ".", q, r);
      assert ([f.name] + q)[1..] == q;
      assert RegisteredFor(s, i, prefix, [f.name] + q, r);
    }
    if Registered(s, i, prefix, r) {
      var p :| RegisteredFor(s, i, prefix, p, r);
      if p[0] != f.name {
        assert RegisteredFor(s, j, prefix, p, r);
      } else if !IsLeaf(f) {
        assert RegisteredFor(Nested(s, j), |Nested(s, j).fields|, flag + ".", p[1..], r);
      }
    }
  }

  /** Every flag the builder reads was registered, with the type of the getter that reads it. */
  lemma FlagReadWasRegistered<N(!new)>(s: MessageSchema<N>, prefix: string, p: seq<string>)
    requires Navigable(s) && SelfFree(s) && DistinctNames(s) && p != [] && LeafAt(s, |s.fields|, prefix, p).Some?
    ensures var (flag, f) := LeafAt(s, |s.fields|, prefix, p).value;
            && IsLeaf(f)
            && Registration(flag, LeafFlag(f)) in Flags(s, |s.fields|, prefix)
            && (LeafGetter(f) == Some(LeafFlag(f)) || (f.typ == Plain(OtherKind) && LeafGetter(f).None?))
  {
    LeafIsLeaf(s, |s.fields|, prefix, p);
    var end := LeafAt(s, |s.fields|, prefix, p).value;
    var r := Registration(end.0, LeafFlag(end.1));
    assert RegisteredFor(s, |s.fields|, prefix, p, r);
    FlagsAreLeaves(s, |s.fields|, prefix, r);
  }

  // ---- The walks as the source runs them ----------------------------------------------------

  class Command<N(!new, ==), V> {
    var flags: seq<Registration>
    var changed: set<string>
    const read: (Field<N>, string) -> Option<V>

    constructor (read: (Field<N>, string) -> Option<V>)
      ensures flags == [] && changed == {} && this.read == read
    {
      flags, changed, this.read := [], {}, read;
    }

    /** With a stack of so many frames. On a schema that is not self-free none is deep enough; on others some is. */
    method AddFlagsFromSchema(s: MessageSchema<N>, prefix: string, depth: nat) returns (ended: bool)
      requires Navigable(s)
      modifies this`flags
      ensures ended <==> AddFlags(s, |s.fields|, prefix, depth).Some?
      ensures ended ==> flags == old(flags) + AddFlags(s, |s.fields|, prefix, depth).value
      ensures ended ==> SelfFree(s) && flags == old(flags) + Flags(s, |s.fields|, prefix)
      decreases depth
    {
      hide FlagName, LeafFlag, Schema.Find, Flags, FlagsTerminate, SelfFree, Navigable;
      ghost var were := flags;
      for i := 0 to |s.fields|
        invariant AddFlags(s, i, prefix, depth).Some? && flags == were + AddFlags(s, i, prefix, depth).value
      {
        hide AddFlags;
        AddFlagsTurn(s, i, prefix, depth, were);
        var f, flag := s.fields[i], FlagName(prefix, s.fields[i].name);
        if IsLeaf(f) {
          flags := flags + [Registration(flag, LeafFlag(f))];
        } else {
          ended := false;
          if depth > 0 {
            ended := AddFlagsFromSchema(Nested(s, i), flag + ".", depth - 1);
          }
          if !ended {
            StillGoing(s, i + 1, |s.fields|, prefix, depth);
            return;
          }
        }
      }
      ended := true;
      FlagsTerminateIff(s, prefix);
    }

    method BuildJsonFromSchema(s: MessageSchema<N>, prefix: string, depth: nat) returns (r: Walk<V>)
      requires Navigable(s)
      ensures r == BuildWithin(s, |s.fields|, prefix, changed, read, depth)
      decreases depth
    {
      hide FlagName, LeafFlag, Schema.Find;
      var result: map<string, Json<V>> := map[];
      for i := 0 to |s.fields|
        invariant BuildWithin(s, i, prefix, changed, read, depth) == Built(result)
      {
        var f, flag := s.fields[i], FlagName(prefix, s.fields[i].name);
        if !IsLeaf(f) {
          var sub := Deeper;
          if depth > 0 {
            sub := BuildJsonFromSchema(Nested(s, i), flag + ".", depth - 1);
          }
          match sub {
            case Built(entries) =>
              if |entries| > 0 { result := result[f.name := Object(entries)]; }
            case _ =>
              EarlyEndLasts(s, i + 1, |s.fields|, prefix, changed, read, depth);
              return sub;
          }
        } else if flag in changed {
          match read(f, flag) {
            case None =>
              EarlyEndLasts(s, i + 1, |s.fields|, prefix, changed, read, depth);
              return Failed;
            case Some(v) => result := result[f.name := Leaf(v)];
          }
        }
      }
      r := Built(result);
    }
  }

  /** One turn of the loop, with the flags there were before it. */
  lemma AddFlagsTurn<N(!new)>(s: MessageSchema<N>, i: nat, prefix: string, fuel: nat, were: seq<Registration>)
    requires Navigable(s) && i < |s.fields| && AddFlags(s, i, prefix, fuel).Some?
    ensures var f, flag, done := s.fields[i], FlagName(prefix, s.fields[i].name), AddFlags(s, i, prefix, fuel).value;
            var next := AddFlags(s, i + 1, prefix, fuel);
            if IsLeaf(f) then next.Some? && were + next.value == were + done + [Registration(flag, LeafFlag(f))]
            else if fuel == 0 then next.None?
            else
              var below := AddFlags(Nested(s, i), |Nested(s, i).fields|, flag + ".", fuel - 1);
              (next.Some? <==> below.Some?) && (next.Some? ==> were + next.value == were + done + below.value)
  {
    hide FlagName, LeafFlag, Schema.Find;
  }

  /** A walk that has not come past one field does not come past the later ones. */
  lemma {:induction false} StillGoing<N(!new)>(s: MessageSchema<N>, i: nat, k: nat, prefix: string, fuel: nat)
    requires Navigable(s) && i <= k <= |s.fields| && AddFlags(s, i, prefix, fuel).None?
    ensures AddFlags(s, k, prefix, fuel).None?
    decreases k
  {
    hide FlagName, LeafFlag, Schema.Find;
    if i < k { StillGoing(s, i, k - 1, prefix, fuel); }
  }

  /** Once a field has failed, or gone too deep, that is the end of the walk. */
  lemma {:induction false} EarlyEndLasts<N(!new), V>(s: MessageSchema<N>, i: nat, k: nat, prefix: string, changed: set<string>,
                                                     read: (Field<N>, string) -> Option<V>, fuel: nat)
    requires Navigable(s) && i <= k <= |s.fields| && !BuildWithin(s, i, prefix, changed, read, fuel).Built?
    ensures BuildWithin(s, k, prefix, changed, read, fuel) == BuildWithin(s, i, prefix, changed, read, fuel)
    decreases k
  {
    hide FlagName, LeafFlag, Schema.Find;
    if i < k { EarlyEndLasts(s, i, k - 1, prefix, changed, read, fuel); }
  }
}
