/** Values of command-line flags: enum names with and without their prefix, and arrays of messages given field by field. */
module FlagValues {
  import opened Seqs
  import opened Text
  import opened Schema
  import opened SchemaWalks

  // ---- Enum names ---------------------------------------------------------------------------

  function ToUpper(c: char): char {
    if 'a' <= c <= 'z' then (c as int - 32) as char else c
  }

  /** CamelCase to UPPER_SNAKE_CASE, from character i on. */
  function UpperSnake(s: string, i: nat): string
    requires i <= |s|
    decreases |s| - i
  {
    if i == |s| then ""
    else (if IsUpper(s[i]) && i > 0 then "_" else "") + [ToUpper(s[i])] + UpperSnake(s, i + 1)
  }

  function EnumPrefix(shortName: string): (p: string)
    ensures p != ""
  {
    UpperSnake(shortName, 0) + "_"
  }

  function StripEnumPrefix(name: string, shortName: string): string {
    var p := EnumPrefix(shortName);
    if p <= name then name[|p|..] else name
  }

  /** A full name is kept; a stripped one gets the prefix of its enum back; anything else is kept. */
  function ResolveEnumValue(input: string, values: seq<string>, shortName: string): string {
    if input in values then input
    else
      var candidate := EnumPrefix(shortName) + input;
      if candidate in values then candidate else input
  }

  /** The choice shown for an enum value resolves back to it unless the choice is the full name of another value. */
  lemma ShownChoiceResolvesIff(name: string, values: seq<string>, shortName: string)
    requires name in values
    ensures var shown := StripEnumPrefix(name, shortName);
            ResolveEnumValue(shown, values, shortName) == name <==> shown == name || shown !in values
  {
    var p := EnumPrefix(shortName);
    hide EnumPrefix;
    if p <= name {
      assert p + name[|p|..] == name;
    }
  }

  /** Words of a capital and no further one, in upper case with underscores between them. */
  function UpperWords(words: seq<string>): string {
    if words == [] then ""
    else if |words| == 1 then Upper(words[0])
    else Upper(words[0]) + ("_" + UpperWords(words[1..]))
  }

  function Upper(s: string): (u: string)
    ensures |u| == |s| && forall i :: 0 <= i < |s| ==> u[i] == ToUpper(s[i])
  {
    seq(|s|, i requires 0 <= i < |s| => ToUpper(s[i]))
  }

  predicate IsCamelWord(w: string) {
    w != "" && IsUpper(w[0]) && forall i :: 0 < i < |w| ==> !IsUpper(w[i])
  }

  lemma UpperAt(s: string, i: nat)
    requires i < |s|
    ensures UpperSnake(s, i) == (if IsUpper(s[i]) && i > 0 then "_" else "") + [ToUpper(s[i])] + UpperSnake(s, i + 1)
  {
  }

  /** A stretch without capitals is only put in upper case. */
  lemma {:induction false} UpperStretch(s: string, i: nat, j: nat)
    requires i <= j <= |s| && forall k :: i <= k < j ==> !IsUpper(s[k])
    ensures UpperSnake(s, i) == Upper(s[i..j]) + UpperSnake(s, j)
    decreases j - i
  {
    hide UpperSnake;
    if i == j {
      assert Upper(s[i..j]) == "";
      EmptyLeft(UpperSnake(s, j));
    } else {
      UpperStretch(s, i + 1, j);
      UpperAt(s, i);
      assert Upper(s[i..j]) == [ToUpper(s[i])] + Upper(s[i + 1..j]);
      hide Upper;
      EmptyLeft([ToUpper(s[i])]);
      Assoc([ToUpper(s[i])], Upper(s[i + 1..j]), UpperSnake(s, j));
    }
  }

  /** One word behind others. */
  lemma UpperWord(s: string, i: nat, j: nat)
    requires i < j <= |s| && IsCamelWord(s[i..j])
    ensures UpperSnake(s, i) == (if i == 0 then "" else "_") + Upper(s[i..j]) + UpperSnake(s, j)
  {
    hide UpperSnake;
    var w, h := s[i..j], if i == 0 then "" else "_";
    assert forall k :: i <= k < j ==> s[k] == w[k - i];
    UpperStretch(s, i + 1, j);
    UpperAt(s, i);
    var c, tail := [ToUpper(w[0])], Upper(s[i + 1..j]);
    assert Upper(w) == c + tail;
    hide Upper, IsCamelWord;
    Assoc(h + c, tail, UpperSnake(s, j));
    Assoc(h, c, tail);
  }

  lemma {:induction false} UpperWordsFrom(s: string, i: nat, words: seq<string>)
    requires i <= |s| && s[i..] == Flat(words) && words != [] && forall w :: w in words ==> IsCamelWord(w)
    ensures UpperSnake(s, i) == (if i == 0 then "" else "_") + UpperWords(words)
    decreases |words|
  {
    assert UpperSnake(s, |s|) == "";
    hide UpperSnake, Upper;
    var w, rest, h := words[0], words[1..], if i == 0 then "" else "_";
    var j := i + |w|;
    assert w in words && s[i..j] == w && s[j..] == Flat(rest) && w != "";
    UpperWord(s, i, j);
    if rest == [] {
      assert h + Upper(w) + "" == h + Upper(w);
    } else {
      UpperWordsFrom(s, j, rest);
      assert UpperWords(words) == Upper(w) + ("_" + UpperWords(rest));
      hide UpperWords;
      Assoc(h, Upper(w), "_" + UpperWords(rest));
    }
  }

  /** The prefix of an enum named in camel case is its words in upper case, an underscore behind each. */
  lemma EnumPrefixOfWords(words: seq<string>)
    requires words != [] && forall w :: w in words ==> IsCamelWord(w)
    ensures EnumPrefix(Flat(words)) == UpperWords(words) + "_"
  {
    assert Flat(words)[0..] == Flat(words);
    UpperWordsFrom(Flat(words), 0, words);
    EmptyLeft(UpperWords(words));
  }

  /** A value is resolved to a known name if and only if it is one, or is one with the prefix in front; else it is kept. */
  lemma ResolvedIsKnownIff(input: string, values: seq<string>, shortName: string)
    ensures var r := ResolveEnumValue(input, values, shortName);
            && (r in values <==> input in values || EnumPrefix(shortName) + input in values)
            && (input in values || r !in values ==> r == input)
            && (input !in values && r in values ==> r == EnumPrefix(shortName) + input)
  {
  }

  /** An enum with a value named like another one without its prefix: the shorter name wins. */
  lemma ShownChoiceAmbiguous()
    ensures ResolveEnumValue(StripEnumPrefix("MODE_ON", "Mode"), ["MODE_ON", "ON"], "Mode") == "ON"
  {
    var s := "Mode";
    assert UpperSnake(s, 4) == "" && UpperSnake(s, 3) == "E" && UpperSnake(s, 2) == "DE";
    assert UpperSnake(s, 1) == "ODE" && UpperSnake(s, 0) == "MODE";
    assert "MODE_ON"[5..] == "ON" && "MODE_" <= "MODE_ON";
  }

  // ---- Setting one field by its path -------------------------------------------------------------

  /** Panic: a value that is not an object stands where the path goes on. */
  datatype SetResult<V> = Done(obj: map<string, Json<V>>) | Rejected | Panic

  /** The first field of that name, or the number of fields. */
  function FieldNamed<N>(fields: seq<Field<N>>, name: string): (k: nat)
    ensures k <= |fields| && (k < |fields| ==> fields[k].name == name)
    ensures forall j :: 0 <= j < k ==> fields[j].name != name
  {
    if fields == [] || fields[0].name == name then 0 else 1 + FieldNamed(fields[1..], name)
  }

  /** setNestedField: `read` turns the text of a value into JSON for the field it is for. */
  function SetNested<N(==), V>(obj: map<string, Json<V>>, parts: seq<string>, value: string, msg: MessageSchema<N>,
                               read: (Field<N>, string) -> Option<V>): SetResult<V>
    requires parts != []
    decreases |parts|
  {
    var k, part := FieldNamed(msg.fields, parts[0]), parts[0];
    if k == |msg.fields| then Rejected
    else if |parts| == 1 then
      match read(msg.fields[k], value)
      case None => Rejected
      case Some(v) => Done(obj[part := Leaf(v)])
    else if !msg.fields[k].typ.MessageType? then Rejected
    else
      match Schema.Find(msg, msg.fields[k].typ.of)
      case None => Rejected
      case Some(nested) =>
        if part in obj && obj[part].Leaf? then Panic
        else
          match SetNested(if part in obj then obj[part].entries else map[], parts[1..], value, nested, read)
          case Done(sub) => Done(obj[part := Object(sub)])
          case other => other
  }

  /** The field a path leads to: through message fields, each looked up from the schema of the one before it. */
  function FieldAt<N(==)>(msg: MessageSchema<N>, parts: seq<string>): Option<Field<N>>
    requires parts != []
    decreases |parts|
  {
    var k := FieldNamed(msg.fields, parts[0]);
    if k == |msg.fields| then None
    else if |parts| == 1 then Some(msg.fields[k])
    else if !msg.fields[k].typ.MessageType? then None
    else
      match Schema.Find(msg, msg.fields[k].typ.of)
      case None => None
      case Some(nested) => FieldAt(nested, parts[1..])
  }

  /** It is set exactly when the path leads to a field and the text can be read for it, and then to what it reads as. */
  lemma {:induction false} SetInEmptyIff<N, V>(parts: seq<string>, value: string, msg: MessageSchema<N>,
                                               read: (Field<N>, string) -> Option<V>)
    requires parts != []
    ensures var f, r := FieldAt(msg, parts), SetNested(map[], parts, value, msg, read);
            && (r.Done? <==> f.Some? && read(f.value, value).Some?)
            && (r.Done? ==> Entry(r.obj, parts) == read(f.value, value))
            && (!r.Done? ==> r == Rejected)
    decreases |parts|
  {
    var k := FieldNamed(msg.fields, parts[0]);
    if |parts| > 1 && k < |msg.fields| && msg.fields[k].typ.MessageType? && Schema.Find(msg, msg.fields[k].typ.of).Some? {
      SetInEmptyIff(parts[1..], value, Schema.Find(msg, msg.fields[k].typ.of).value, read);
    }
  }

  /** A path to a field meets a panic exactly when a value that is no object stands on the way. */
  lemma {:induction false} SetPanicsIff<N, V>(obj: map<string, Json<V>>, parts: seq<string>, value: string, msg: MessageSchema<N>,
                                              read: (Field<N>, string) -> Option<V>)
    requires parts != [] && FieldAt(msg, parts).Some?
    ensures SetNested(obj, parts, value, msg, read).Panic? <==> exists k :: 0 < k < |parts| && Entry(obj, parts[..k]).Some?
    decreases |parts|
  {
    if |parts| > 1 {
      var part, rest := parts[0], parts[1..];
      var nested := Schema.Find(msg, msg.fields[FieldNamed(msg.fields, part)].typ.of).value;
      assert parts[..1] == [part];
      if part in obj && obj[part].Leaf? {
        assert Entry(obj, parts[..1]).Some?;
      } else {
        var below := if part in obj then obj[part].entries else map[];
        SetPanicsIff(below, rest, value, nested, read);
        forall k | 1 < k < |parts| ensures Entry(obj, parts[..k]).Some? <==> Entry(below, rest[..k - 1]).Some? {
          assert parts[..k][0] == part && parts[..k][1..] == rest[..k - 1];
        }
        if k :| 0 < k < |rest| && Entry(below, rest[..k]).Some? { assert Entry(obj, parts[..k + 1]).Some?; }
        assert Entry(obj, parts[..1]).None?;
      }
    }
  }

  /** In an object that holds other entries, setting one path leaves the others as they are. */
  lemma {:induction false} SetKeepsOthers<N, V>(obj: map<string, Json<V>>, parts: seq<string>, value: string, msg: MessageSchema<N>,
                                                read: (Field<N>, string) -> Option<V>, q: seq<string>)
    requires parts != [] && q != [] && !(parts <= q) && !(q <= parts)
    ensures var r := SetNested(obj, parts, value, msg, read); r.Done? ==> Entry(r.obj, q) == Entry(obj, q)
    decreases |parts|
  {
    var k := FieldNamed(msg.fields, parts[0]);
    assert parts == [parts[0]] + parts[1..] && q == [q[0]] + q[1..];
    if |parts| > 1 && k < |msg.fields| && msg.fields[k].typ.MessageType? && Schema.Find(msg, msg.fields[k].typ.of).Some? {
      var nested := Schema.Find(msg, msg.fields[k].typ.of).value;
      if q[0] == parts[0] && !(parts[0] in obj && obj[parts[0]].Leaf?) {
        SetKeepsOthers(if parts[0] in obj then obj[parts[0]].entries else map[], parts[1..], value, nested, read, q[1..]);
      }
    }
  }

  /** Setting a field of an empty object never panics, and the object then holds that field and no other. */
  lemma {:induction false} SetInEmpty<N, V>(parts: seq<string>, value: string, msg: MessageSchema<N>,
                                            read: (Field<N>, string) -> Option<V>, q: seq<string>)
    requires parts != [] && q != []
    ensures !SetNested(map[], parts, value, msg, read).Panic?
    ensures SetNested(map[], parts, value, msg, read).Done? ==>
              (Entry(SetNested(map[], parts, value, msg, read).obj, q).Some? <==> q == parts)
    decreases |parts|
  {
    var k := FieldNamed(msg.fields, parts[0]);
    if |parts| == 1 {
      assert parts == [parts[0]];
      assert q == parts <==> |q| == 1 && q[0] == parts[0];
    } else if k < |msg.fields| && msg.fields[k].typ.MessageType? && Schema.Find(msg, msg.fields[k].typ.of).Some? {
      var nested := Schema.Find(msg, msg.fields[k].typ.of).value;
      SetInEmpty(parts[1..], value, nested, read, if |q| > 1 then q[1..] else q);
      assert parts == [parts[0]] + parts[1..] && q == [q[0]] + q[1..];
    }
  }

  // ---- Arrays of messages ---------------------------------------------------------------------------

  predicate NotBracket(c: char) { c != ']' }

  /** A key `[index].path`; `number` reads the index. */
  function ParseKey(key: string, number: string -> Option<nat>): Option<(nat, seq<string>)> {
    if key == "" || key[0] != '[' then None
    else
      var close := Span(NotBracket, key);
      if close == |key| || close + 1 >= |key| || key[close + 1] != '.' then None
      else
        match number(key[1..close])
        case None => None
        case Some(n) => Some((n, Split(key[close + 2..])))
  }

  /** A key is accepted exactly when it is an index in brackets, a dot, and a path, and the index is a number. */
  lemma ParseKeyIff(key: string, number: string -> Option<nat>, n: nat, parts: seq<string>)
    ensures ParseKey(key, number) == Some((n, parts)) <==> IsKey(key, number, n, parts)
  {
    if IsKey(key, number, n, parts) { KeyParses(key, number, n, parts); }
    if ParseKey(key, number) == Some((n, parts)) { ParsedIsKey(key, number); }
    hide IsKey, ParseKey;
  }

  lemma KeyParses(key: string, number: string -> Option<nat>, n: nat, parts: seq<string>)
    requires IsKey(key, number, n, parts)
    ensures ParseKey(key, number) == Some((n, parts))
  {
    var digits: string, path: string :|
      key == "[" + (digits + ("]." + path)) && ']' !in digits && number(digits) == Some(n) && parts == Split(path);
    KeyParts(key, digits, path);
    hide Split, Span;
  }

  lemma ParsedIsKey(key: string, number: string -> Option<nat>)
    requires ParseKey(key, number).Some?
    ensures IsKey(key, number, ParseKey(key, number).value.0, ParseKey(key, number).value.1)
  {
    var close := Span(NotBracket, key);
    var digits, path := key[1..close], key[close + 2..];
    assert forall i :: 0 <= i < |digits| ==> digits[i] == key[i + 1];
    hide Split, Span;
    assert key == "[" + (digits + ("]." + path));
  }

  ghost predicate IsKey(key: string, number: string -> Option<nat>, n: nat, parts: seq<string>) {
    exists digits: string, path: string ::
      key == "[" + (digits + ("]." + path)) && ']' !in digits && number(digits) == Some(n) && parts == Split(path)
  }

  lemma KeyParts(key: string, digits: string, path: string)
    requires key == "[" + (digits + ("]." + path)) && ']' !in digits
    ensures var close := Span(NotBracket, key);
            close + 1 < |key| && key[0] == '[' && key[close + 1] == '.' && key[1..close] == digits && key[close + 2..] == path
  {
    var head := "[" + digits;
    assert key == head + ("]." + path);
    SpanOf(NotBracket, head, "]." + path);
  }

  /** The object an entry of the flag stands for. */
  function ElementOf<N(==), V>(path: seq<string>, value: string, msg: MessageSchema<N>,
                               read: (Field<N>, string) -> Option<V>): SetResult<V>
    requires path != []
  {
    SetNested(map[], path, value, msg, read)
  }

  datatype Element = Element(idx: nat, path: seq<string>, value: string)

  /** The elements that well-formed keys stand for, in the order the flag's map is walked. */
  function ParseAll(raw: seq<(string, string)>, number: string -> Option<nat>): (r: Option<seq<Element>>)
    ensures r.Some? ==> |r.value| == |raw| && forall i :: 0 <= i < |raw| ==> r.value[i].path != []
  {
    if raw == [] then Some([])
    else
      match ParseAll(raw[..|raw| - 1], number)
      case None => None
      case Some(done) =>
        match ParseKey(raw[|raw| - 1].0, number)
        case None => None
        case Some((n, path)) => Some(done + [Element(n, path, raw[|raw| - 1].1)])
  }

  lemma {:induction false} ParsesIff(raw: seq<(string, string)>, number: string -> Option<nat>)
    ensures ParseAll(raw, number).Some? <==> forall i :: 0 <= i < |raw| ==> ParseKey(raw[i].0, number).Some?
  {
    hide ParseKey;
    if raw != [] {
      var n := |raw| - 1;
      ParsesIff(raw[..n], number);
      assert forall i :: 0 <= i < n ==> raw[..n][i] == raw[i];
    }
  }

  lemma {:induction false} ParseAllAt(raw: seq<(string, string)>, number: string -> Option<nat>, i: nat)
    requires i < |raw| && ParseAll(raw, number).Some?
    ensures var e := ParseAll(raw, number).value[i];
            ParseKey(raw[i].0, number) == Some((e.idx, e.path)) && e.value == raw[i].1
  {
    if i < |raw| - 1 { ParseAllAt(raw[..|raw| - 1], number, i); }
  }

  lemma {:induction false} ParseAllPrefix(raw: seq<(string, string)>, number: string -> Option<nat>, k: nat)
    requires k <= |raw| && ParseAll(raw, number).Some?
    ensures ParseAll(raw[..k], number) == Some(ParseAll(raw, number).value[..k])
  {
    if k < |raw| {
      var front := raw[..|raw| - 1];
      assert front[..k] == raw[..k];
      ParseAllPrefix(front, number, k);
      assert ParseAll(raw, number).value[..k] == ParseAll(front, number).value[..k];
    } else {
      assert raw[..k] == raw && ParseAll(raw, number).value[..k] == ParseAll(raw, number).value;
    }
  }

  ghost predicate DistinctIndices(es: seq<Element>) {
    forall i, j :: 0 <= i < j < |es| ==> es[i].idx != es[j].idx
  }

  ghost predicate Dense(es: seq<Element>) {
    forall i :: 0 <= i < |es| ==> es[i].idx < |es|
  }

  ghost predicate AllSet<N(!new), V(!new)>(es: seq<Element>, msg: MessageSchema<N>, read: (Field<N>, string) -> Option<V>)
    requires forall i :: 0 <= i < |es| ==> es[i].path != []
  {
    forall i :: 0 <= i < |es| ==> ElementOf(es[i].path, es[i].value, msg, read).Done?
  }

  /**
   * What the flag must be for an array to come out: well-formed keys, one for each index from 0 on and no second one,
   * and a path and value that fit the element type.
   */
  ghost predicate Accepted<N(!new), V(!new)>(raw: seq<(string, string)>, number: string -> Option<nat>, msg: MessageSchema<N>,
                                             read: (Field<N>, string) -> Option<V>) {
    var es := ParseAll(raw, number);
    es.Some? && DistinctIndices(es.value) && Dense(es.value) && AllSet(es.value, msg, read)
  }

  /** The same for the raw keys and values. */
  lemma AcceptedIff<N(!new), V(!new)>(raw: seq<(string, string)>, number: string -> Option<nat>, msg: MessageSchema<N>,
                                      read: (Field<N>, string) -> Option<V>)
    ensures Accepted(raw, number, msg, read) <==>
              && (forall i :: 0 <= i < |raw| ==>
                    match ParseKey(raw[i].0, number)
                    case None => false
                    case Some((n, path)) => n < |raw| && ElementOf(path, raw[i].1, msg, read).Done?)
              && (forall i, j :: 0 <= i < j < |raw| ==> ParseKey(raw[i].0, number).value.0 != ParseKey(raw[j].0, number).value.0)
  {
    hide ParseKey, ElementOf, ParseAll;
    ParsesIff(raw, number);
    if ParseAll(raw, number).Some? {
      var es := ParseAll(raw, number).value;
      forall i | 0 <= i < |raw| ensures ParseKey(raw[i].0, number) == Some((es[i].idx, es[i].path)) && es[i].value == raw[i].1 {
        ParseAllAt(raw, number, i);
      }
    }
  }

  /** Two fields of the same element are never accepted, in whatever order they are given. */
  lemma SecondFieldOfElementRejected<N(!new), V(!new)>(raw: seq<(string, string)>, number: string -> Option<nat>, msg: MessageSchema<N>,
                                                       read: (Field<N>, string) -> Option<V>, i: nat, j: nat)
    requires i < j < |raw| && ParseKey(raw[i].0, number).Some? && ParseKey(raw[j].0, number).Some?
    requires ParseKey(raw[i].0, number).value.0 == ParseKey(raw[j].0, number).value.0
    ensures !Accepted(raw, number, msg, read)
  {
    if ParseAll(raw, number).Some? {
      ParseAllAt(raw, number, i);
      ParseAllAt(raw, number, j);
    }
  }

  function Below(n: nat): (s: set<nat>)
    ensures forall k: nat :: k in s <==> k < n
  {
    if n == 0 then {} else Below(n - 1) + {n - 1}
  }

  lemma {:induction false} BelowSize(n: nat)
    ensures |Below(n)| == n
  {
    if n > 0 {
      BelowSize(n - 1);
      assert n - 1 !in Below(n - 1);
    }
  }

  function Indices(es: seq<Element>): set<nat> {
    set i | 0 <= i < |es| :: es[i].idx
  }

  lemma {:induction false} DistinctCount(es: seq<Element>)
    requires DistinctIndices(es)
    ensures |Indices(es)| == |es|
  {
    if es != [] {
      var front, last := es[..|es| - 1], es[|es| - 1].idx;
      DistinctCount(front);
      assert Indices(es) == Indices(front) + {last} by {
        forall x | x in Indices(es) ensures x in Indices(front) + {last} {
          var i :| 0 <= i < |es| && es[i].idx == x;
          if i < |front| { assert front[i].idx == x; }
        }
        forall x | x in Indices(front) ensures x in Indices(es) {
          var i :| 0 <= i < |front| && front[i].idx == x;
          assert es[i].idx == x;
        }
      }
      assert last !in Indices(front);
    }
  }

  /** Distinct indices are dense exactly when none up to the largest is missing. */
  lemma DenseIff(es: seq<Element>, maxIdx: int)
    requires DistinctIndices(es) && -1 <= maxIdx && (forall i :: 0 <= i < |es| ==> es[i].idx <= maxIdx)
    requires maxIdx >= 0 ==> maxIdx in Indices(es)
    ensures Dense(es) <==> Below(maxIdx + 1) <= Indices(es)
    ensures Dense(es) ==> maxIdx + 1 == |es| && Indices(es) == Below(|es|)
  {
    DistinctCount(es);
    BelowSize(maxIdx + 1);
    BelowSize(|es|);
    assert Indices(es) <= Below(maxIdx + 1);
    SubsetSize(Indices(es), Below(maxIdx + 1));
    if Dense(es) {
      assert Indices(es) <= Below(|es|);
      SubsetSize(Indices(es), Below(|es|));
    }
    if Below(maxIdx + 1) <= Indices(es) {
      SubsetSize(Below(maxIdx + 1), Indices(es));
      forall i | 0 <= i < |es| ensures es[i].idx < |es| {
        assert es[i].idx in Indices(es);
      }
    }
  }

  /** The entries of one index. */
  function GroupOf(es: seq<Element>, idx: nat): seq<Element> {
    if es == [] then []
    else GroupOf(es[..|es| - 1], idx) + if es[|es| - 1].idx == idx then [es[|es| - 1]] else []
  }

  lemma {:induction false} GroupOfOne(es: seq<Element>, i: nat)
    requires DistinctIndices(es) && i < |es|
    ensures GroupOf(es, es[i].idx) == [es[i]]
  {
    if i < |es| - 1 {
      GroupOfOne(es[..|es| - 1], i);
    } else {
      GroupOfNone(es[..|es| - 1], es[i].idx);
    }
  }

  lemma {:induction false} GroupOfNone(es: seq<Element>, idx: nat)
    requires forall i :: 0 <= i < |es| ==> es[i].idx != idx
    ensures GroupOf(es, idx) == []
  {
    if es != [] { GroupOfNone(es[..|es| - 1], idx); }
  }

  /** The first loop: parse the keys and refuse a second entry for an index. */
  method ParseEntries(raw: seq<(string, string)>, number: string -> Option<nat>)
    returns (r: Option<seq<Element>>, seen: set<nat>, maxIdx: int)
    ensures match r
            case None => ParseAll(raw, number).Some? ==> !DistinctIndices(ParseAll(raw, number).value)
            case Some(es) =>
              && ParseAll(raw, number) == Some(es) && DistinctIndices(es)
              && seen == Indices(es) && -1 <= maxIdx && (maxIdx >= 0 ==> maxIdx in seen)
              && forall i :: 0 <= i < |es| ==> es[i].idx <= maxIdx
  {
    hide ParseKey;
    var es: seq<Element> := [];
    seen, maxIdx := {}, -1;
    for i := 0 to |raw|
      invariant ParseAll(raw[..i], number) == Some(es) && DistinctIndices(es)
      invariant seen == Indices(es) && -1 <= maxIdx && (maxIdx >= 0 ==> maxIdx in seen)
      invariant forall j :: 0 <= j < i ==> es[j].idx <= maxIdx
    {
      assert raw[..i + 1][..i] == raw[..i];
      match ParseKey(raw[i].0, number) {
        case None =>
          PrefixRejected(raw, number, i + 1);
          return None, seen, maxIdx;
        case Some((n, path)) =>
          var e := Element(n, path, raw[i].1);
          if n in seen {
            RepeatedIndex(es, e);
            PrefixRejected(raw, number, i + 1);
            return None, seen, maxIdx;
          }
          IndicesSnoc(es, e);
          seen := seen + {n};
          if n > maxIdx { maxIdx := n; }
          es := es + [e];
      }
    }
    assert raw[..|raw|] == raw;
    r := Some(es);
  }

  lemma PrefixRejected(raw: seq<(string, string)>, number: string -> Option<nat>, k: nat)
    requires k <= |raw|
    requires ParseAll(raw[..k], number).Some? ==> !DistinctIndices(ParseAll(raw[..k], number).value)
    ensures ParseAll(raw, number).Some? ==> !DistinctIndices(ParseAll(raw, number).value)
  {
    if ParseAll(raw, number).Some? { ParseAllPrefix(raw, number, k); }
  }

  lemma RepeatedIndex(es: seq<Element>, e: Element)
    requires e.idx in Indices(es)
    ensures !DistinctIndices(es + [e])
  {
    var k :| 0 <= k < |es| && es[k].idx == e.idx;
    assert (es + [e])[k].idx == (es + [e])[|es|].idx;
  }

  lemma IndicesSnoc(es: seq<Element>, e: Element)
    ensures Indices(es + [e]) == Indices(es) + {e.idx}
    ensures DistinctIndices(es) && e.idx !in Indices(es) ==> DistinctIndices(es + [e])
  {
    var all := es + [e];
    forall x | x in Indices(es) ensures x in Indices(all) {
      var i :| 0 <= i < |es| && es[i].idx == x;
      assert all[i].idx == x;
    }
    assert all[|es|].idx == e.idx;
    forall i | 0 <= i < |es| ensures es[i].idx in Indices(es) { }
  }

  /** The entries of one index, set one after the other in a new object. */
  method SetGroup<N(==), V>(group: seq<Element>, msg: MessageSchema<N>, read: (Field<N>, string) -> Option<V>) returns (r: SetResult<V>)
    requires forall i :: 0 <= i < |group| ==> group[i].path != []
    ensures |group| == 1 ==> r == ElementOf(group[0].path, group[0].value, msg, read)
  {
    hide SetNested;
    r := Done(map[]);
    for i := 0 to |group|
      invariant r.Done? && (i == 0 ==> r.obj == map[])
      invariant |group| == 1 && i == 1 ==> r == ElementOf(group[0].path, group[0].value, msg, read)
    {
      r := SetNested(r.obj, group[i].path, group[i].value, msg, read);
      if !r.Done? {
        return;
      }
    }
  }

  /** The last loop: an object for each index. */
  method BuildElements<N(!new, ==), V(!new)>(es: seq<Element>, msg: MessageSchema<N>, read: (Field<N>, string) -> Option<V>)
    returns (r: Option<seq<map<string, Json<V>>>>)
    requires (forall i :: 0 <= i < |es| ==> es[i].path != []) && DistinctIndices(es) && Indices(es) == Below(|es|)
    ensures r.Some? <==> AllSet(es, msg, read)
    ensures r.Some? ==> |r.value| == |es| && Dense(es)
    ensures r.Some? ==>
              forall i :: 0 <= i < |es| ==> r.value[es[i].idx] == ElementOf(es[i].path, es[i].value, msg, read).obj
  {
    hide ElementOf;
    var result: seq<map<string, Json<V>>> := [];
    forall i | 0 <= i < |es| ensures es[i].idx < |es| { assert es[i].idx in Indices(es); }
    for k := 0 to |es|
      invariant |result| == k
      invariant forall i :: 0 <= i < |es| && es[i].idx < k ==>
                  ElementOf(es[i].path, es[i].value, msg, read) == Done(result[es[i].idx])
    {
      ghost var i := IndexAt(es, k);
      GroupOfOne(es, i);
      var obj := SetGroup(GroupOf(es, k), msg, read);
      if !obj.Done? {
        return None;
      }
      result := result + [obj.obj];
    }
    r := Some(result);
  }

  /** The array comes out exactly for accepted flags, each element in the place its key names. */
  method BuildRepeatedMessage<N(!new, ==), V(!new)>(raw: seq<(string, string)>, number: string -> Option<nat>, msg: MessageSchema<N>,
                                                    read: (Field<N>, string) -> Option<V>)
    returns (r: Option<seq<map<string, Json<V>>>>)
    ensures r.Some? <==> Accepted(raw, number, msg, read)
    ensures r.Some? ==> |r.value| == |raw|
    ensures r.Some? ==>
              var es := ParseAll(raw, number).value;
              forall i :: 0 <= i < |raw| ==> r.value[es[i].idx] == ElementOf(es[i].path, es[i].value, msg, read).obj
  {
    hide ParseKey, ElementOf;
    var entries, seen, maxIdx := ParseEntries(raw, number);
    if entries.None? {
      return None;
    }
    DenseIff(entries.value, maxIdx);
    for k := 0 to maxIdx + 1
      invariant forall j :: 0 <= j < k ==> j in seen
    {
      if k !in seen {
        assert k in Below(maxIdx + 1);
        return None;
      }
    }
    r := BuildElements(entries.value, msg, read);
  }

  lemma IndexAt(es: seq<Element>, k: nat) returns (i: nat)
    requires k in Indices(es)
    ensures i < |es| && es[i].idx == k
  {
    i :| 0 <= i < |es| && es[i].idx == k;
  }
}
