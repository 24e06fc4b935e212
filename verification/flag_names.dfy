/** The names of command-line flags: kebab case along a field path, and which fields share a flag. */
module FlagNames {
  import opened Seqs
  import opened Schema
  import opened SchemaWalks
  import Text

  // ---- Flag names ------------------------------------------------------------------------------

  predicate NoUpper(s: string) {
    forall i :: 0 <= i < |s| ==> !IsUpper(s[i])
  }

  /** Underscores become hyphens. */
  function Dashes(s: string): (r: string)
    ensures |r| == |s| && forall i :: 0 <= i < |s| ==> r[i] == if s[i] == '_' then '-' else s[i]
  {
    if s == "" then "" else [if s[0] == '_' then '-' else s[0]] + Dashes(s[1..])
  }

  lemma {:induction false} KebabIsDashes(s: string, i: nat)
    requires NoUpper(s) && i <= |s|
    ensures CamelToKebab(s, i) == Dashes(s)[i..]
    decreases |s| - i
  {
    if i < |s| {
      KebabIsDashes(s, i + 1);
      var d := Dashes(s);
      hide Dashes;
      assert d[i..] == [d[i]] + d[i + 1..];
    }
  }

  /** What a prefix looks like: converted already, and ending in a dot. */
  predicate Settled(prefix: string) {
    NoUpper(prefix) && '_' !in prefix && (prefix == "" || prefix[|prefix| - 1] == '.')
  }

  /** A capital and a small letter: after a prefix, such a start draws a hyphen. */
  predicate Capitalized(name: string) {
    |name| >= 2 && IsUpper(name[0]) && IsLower(name[1])
  }

  function KebabName(nested: bool, name: string): string {
    (if nested && Capitalized(name) then "-" else "") + CamelToKebab(name, 0)
  }

  /** The names of a path in kebab case, dots between them. */
  function KebabPath(nested: bool, p: seq<string>): string
    decreases |p|
  {
    if p == [] then ""
    else if |p| == 1 then KebabName(nested, p[0])
    else KebabName(nested, p[0]) + ("." + KebabPath(true, p[1..]))
  }

  lemma {:induction false} KebabSettles(s: string, i: nat)
    requires i <= |s|
    ensures NoUpper(CamelToKebab(s, i)) && '_' !in CamelToKebab(s, i)
    decreases |s| - i
  {
    if i < |s| {
      KebabSettles(s, i + 1);
      assert NoUpper(KebabAt(s, i)) && '_' !in KebabAt(s, i);
    }
  }

  /** Converting a prefix again leaves it alone. */
  lemma {:induction false} KebabPastPrefix(prefix: string, name: string, i: nat)
    requires NoUpper(prefix) && '_' !in prefix && i <= |prefix|
    ensures CamelToKebab(prefix + name, i) == prefix[i..] + CamelToKebab(prefix + name, |prefix|)
    decreases |prefix| - i
  {
    if i < |prefix| {
      KebabPastPrefix(prefix, name, i + 1);
      var s := prefix + name;
      assert s[i] == prefix[i] && prefix[i] in prefix;
      assert CamelToKebab(s, i) == [prefix[i]] + CamelToKebab(s, i + 1);
      assert prefix[i..] == [prefix[i]] + prefix[i + 1..];
      Assoc([prefix[i]], prefix[i + 1..], CamelToKebab(s, |prefix|));
    } else {
      EmptyLeft(CamelToKebab(prefix + name, i));
    }
  }

  /** Past its first character a name is converted as it would be on its own. */
  lemma {:induction false} KebabInName(prefix: string, name: string, i: nat)
    requires 0 < i <= |name|
    ensures CamelToKebab(prefix + name, |prefix| + i) == CamelToKebab(name, i)
    decreases |name| - i
  {
    hide CamelToKebab, KebabAt;
    UnfoldKebab(prefix + name, |prefix| + i);
    UnfoldKebab(name, i);
    if i < |name| {
      KebabInName(prefix, name, i + 1);
      KebabAtInName(prefix, name, i);
    }
  }

  lemma KebabAtInName(prefix: string, name: string, i: nat)
    requires 0 < i < |name|
    ensures KebabAt(prefix + name, |prefix| + i) == KebabAt(name, i)
  {
    var s, k := prefix + name, |prefix| + i;
    assert s[k] == name[i] && s[k - 1] == name[i - 1] && (i + 1 < |name| ==> s[k + 1] == name[i + 1]);
  }

  lemma UnfoldKebab(s: string, i: nat)
    requires i <= |s|
    ensures CamelToKebab(s, i) == if i == |s| then "" else KebabAt(s, i) + CamelToKebab(s, i + 1)
  {
  }

  /** After a prefix that ends in a dot, the first character of a name can draw a hyphen. */
  lemma KebabFirst(prefix: string, name: string)
    requires name != "" && Settled(prefix)
    ensures KebabAt(prefix + name, |prefix|) == (if prefix != "" && Capitalized(name) then "-" else "") + KebabAt(name, 0)
  {
    var s := prefix + name;
    assert s[|prefix|] == name[0] && (|name| >= 2 ==> s[|prefix| + 1] == name[1]);
    assert prefix != "" ==> s[|prefix| - 1] == '.';
  }

  lemma FlagNameIs(prefix: string, name: string)
    requires Settled(prefix)
    ensures FlagName(prefix, name) == prefix + KebabName(prefix != "", name)
    ensures Settled(FlagName(prefix, name) + ".")
  {
    KebabPastPrefix(prefix, name, 0);
    assert prefix[0..] == prefix;
    KebabAfterPrefix(prefix, name);
    KebabSettles(prefix + name, 0);
    hide CamelToKebab, KebabName;
    StillSettled(FlagName(prefix, name));
  }

  lemma StillSettled(flag: string)
    requires NoUpper(flag) && '_' !in flag
    ensures Settled(flag + ".")
  {
  }

  lemma KebabAfterPrefix(prefix: string, name: string)
    requires Settled(prefix)
    ensures CamelToKebab(prefix + name, |prefix|) == KebabName(prefix != "", name)
  {
    var s, h := prefix + name, if prefix != "" && Capitalized(name) then "-" else "";
    UnfoldKebab(s, |prefix|);
    UnfoldKebab(name, 0);
    if name != "" {
      KebabInName(prefix, name, 1);
      KebabFirst(prefix, name);
      hide CamelToKebab, KebabAt, Capitalized, Settled;
      Assoc(h, KebabAt(name, 0), CamelToKebab(name, 1));
    }
  }

  /** The flag of a field is its path, each name in kebab case, dots between the names. */
  lemma {:induction false} FlagIsKebabPath<N(!new)>(s: MessageSchema<N>, i: nat, prefix: string, p: seq<string>)
    requires Navigable(s) && SelfFree(s) && i <= |s.fields| && p != [] && LeafAt(s, i, prefix, p).Some?
    requires Settled(prefix)
    ensures LeafAt(s, i, prefix, p).value.0 == prefix + KebabPath(prefix != "", p)
    decreases s, i
  {
    hide Schema.Find, LeafFlag, FlagName, KebabName, Settled;
    var f := s.fields[i - 1];
    if f.name != p[0] {
      FlagIsKebabPath(s, i - 1, prefix, p);
    } else {
      FlagNameIs(prefix, f.name);
      if !IsLeaf(f) {
        assert SelfFreeAt(s, i - 1);
        var flag, below := FlagName(prefix, f.name), p[1..];
        FlagIsKebabPath(Nested(s, i - 1), |Nested(s, i - 1).fields|, flag + ".", below);
        var a, b := KebabName(prefix != "", p[0]), KebabPath(true, below);
        assert (prefix + a) + "." + b == prefix + (a + ("." + b));
      }
    }
  }

  // ---- Camel case -----------------------------------------------------------------------------------

  /** A capital and small letters behind it. */
  predicate IsCamelWord(w: string) {
    |w| >= 2 && IsUpper(w[0]) && forall i :: 0 < i < |w| ==> IsLower(w[i])
  }

  function Lower(s: string): (l: string)
    ensures |l| == |s| && forall i :: 0 <= i < |s| ==> l[i] == if IsUpper(s[i]) then (s[i] as int + 32) as char else s[i]
  {
    seq(|s|, i requires 0 <= i < |s| => if IsUpper(s[i]) then (s[i] as int + 32) as char else s[i])
  }

  function LowerWords(words: seq<string>): string {
    if words == [] then ""
    else if |words| == 1 then Lower(words[0])
    else Lower(words[0]) + ("-" + LowerWords(words[1..]))
  }

  lemma {:induction false} KebabStretch(s: string, i: nat, j: nat)
    requires i <= j <= |s| && forall k :: i <= k < j ==> IsLower(s[k])
    ensures CamelToKebab(s, i) == s[i..j] + CamelToKebab(s, j)
    decreases j - i
  {
    hide CamelToKebab;
    if i < j {
      KebabStretch(s, i + 1, j);
      UnfoldKebab(s, i);
      assert KebabAt(s, i) == [s[i]] && s[i..j] == [s[i]] + s[i + 1..j];
      Assoc([s[i]], s[i + 1..j], CamelToKebab(s, j));
    } else {
      EmptyLeft(CamelToKebab(s, j));
    }
  }

  lemma KebabWord(s: string, i: nat, j: nat)
    requires i < j <= |s| && IsCamelWord(s[i..j])
    ensures CamelToKebab(s, i) == (if i == 0 then "" else "-") + Lower(s[i..j]) + CamelToKebab(s, j)
  {
    var h, c, tail := if i == 0 then "" else "-", [(s[i] as int + 32) as char], s[i + 1..j];
    KebabHead(s, i, j);
    hide CamelToKebab, KebabAt, Lower, IsCamelWord;
    KebabStretch(s, i + 1, j);
    UnfoldKebab(s, i);
    Assoc(h + c, tail, CamelToKebab(s, j));
    Assoc(h, c, tail);
  }

  lemma KebabHead(s: string, i: nat, j: nat)
    requires i < j <= |s| && IsCamelWord(s[i..j])
    ensures KebabAt(s, i) == (if i == 0 then "" else "-") + [(s[i] as int + 32) as char]
    ensures Lower(s[i..j]) == [(s[i] as int + 32) as char] + s[i + 1..j] && forall k :: i + 1 <= k < j ==> IsLower(s[k])
  {
    var w := s[i..j];
    assert forall k :: i <= k < j ==> s[k] == w[k - i];
  }

  lemma {:induction false} KebabWordsFrom(s: string, i: nat, words: seq<string>)
    requires i <= |s| && s[i..] == Text.Flat(words) && words != [] && forall w :: w in words ==> IsCamelWord(w)
    ensures CamelToKebab(s, i) == (if i == 0 then "" else "-") + LowerWords(words)
    decreases |words|
  {
    hide CamelToKebab, Lower, IsCamelWord;
    var w, rest, h := words[0], words[1..], if i == 0 then "" else "-";
    var j := i + |w|;
    assert w in words && s[i..j] == w && s[j..] == Text.Flat(rest);
    WordNotEmpty(w);
    KebabWord(s, i, j);
    if rest == [] {
      UnfoldKebab(s, |s|);
      assert h + Lower(w) + "" == h + Lower(w);
    } else {
      KebabWordsFrom(s, j, rest);
      assert LowerWords(words) == Lower(w) + ("-" + LowerWords(rest));
      hide LowerWords;
      Assoc(h, Lower(w), "-" + LowerWords(rest));
    }
  }

  lemma WordNotEmpty(w: string)
    requires IsCamelWord(w)
    ensures w != ""
  {
  }

  /** A name in camel case becomes its words in lower case, hyphens between them. */
  lemma KebabOfCamel(words: seq<string>)
    requires words != [] && forall w :: w in words ==> IsCamelWord(w)
    ensures CamelToKebab(Text.Flat(words), 0) == LowerWords(words)
  {
    assert Text.Flat(words)[0..] == Text.Flat(words);
    KebabWordsFrom(Text.Flat(words), 0, words);
    EmptyLeft(LowerWords(words));
  }

  /** An acronym stays together, but for a last capital that starts the next word. */
  lemma AcronymStaysTogether()
    ensures CamelToKebab("ABC", 0) == "abc" && CamelToKebab("ABc", 0) == "a-bc"
  {
    var a, b := "ABC", "ABc";
    assert KebabAt(a, 0) == "a" && KebabAt(a, 1) == "b" && KebabAt(a, 2) == "c";
    assert KebabAt(b, 0) == "a" && KebabAt(b, 1) == "-b" && KebabAt(b, 2) == "c";
    hide KebabAt;
    assert CamelToKebab(a, 2) == "c" && CamelToKebab(a, 1) == "bc" && CamelToKebab(b, 2) == "c" && CamelToKebab(b, 1) == "-bc";
  }

  // ---- Which flags are registered twice -------------------------------------------------------------

  ghost predicate DistinctFlags(flags: seq<Registration>) {
    forall i, j :: 0 <= i < j < |flags| ==> flags[i].flag != flags[j].flag
  }

  /** The paths of the first i fields that end in a flag, in the order of registration. */
  function Paths<N(!new, ==)>(s: MessageSchema<N>, i: nat): seq<seq<string>>
    requires Navigable(s) && SelfFree(s) && i <= |s.fields|
    decreases s, 1, i
  {
    if i == 0 then [] else Paths(s, i - 1) + FieldPaths(s, i - 1)
  }

  function FieldPaths<N(!new, ==)>(s: MessageSchema<N>, i: nat): seq<seq<string>>
    requires Navigable(s) && SelfFree(s) && i < |s.fields|
    decreases s, 0
  {
    var f := s.fields[i];
    if IsLeaf(f) then [[f.name]]
    else
      assert SelfFreeAt(s, i);
      Under(f.name, Paths(Nested(s, i), |Nested(s, i).fields|))
  }

  function Under(name: string, paths: seq<seq<string>>): (under: seq<seq<string>>)
    ensures |under| == |paths| && forall k :: 0 <= k < |paths| ==> under[k] == [name] + paths[k]
  {
    seq(|paths|, k requires 0 <= k < |paths| => [name] + paths[k])
  }

  /** Flag number k belongs to path number k. */
  ghost predicate FlagsOfPaths(flags: seq<Registration>, prefix: string, paths: seq<seq<string>>) {
    |flags| == |paths| && forall k :: 0 <= k < |flags| ==> paths[k] != [] && flags[k].flag == prefix + KebabPath(prefix != "", paths[k])
  }

  lemma {:induction false} FlagsAreOfPaths<N(!new)>(s: MessageSchema<N>, i: nat, prefix: string)
    requires Navigable(s) && SelfFree(s) && i <= |s.fields| && Settled(prefix)
    ensures FlagsOfPaths(Flags(s, i, prefix), prefix, Paths(s, i))
    decreases s, 1, i
  {
    if i > 0 {
      FlagsAreOfPaths(s, i - 1, prefix);
      FieldFlagsAreOfPaths(s, i - 1, prefix);
      hide FlagsOfPaths, Settled, FieldFlags, FieldPaths;
      PathsConcat(Flags(s, i - 1, prefix), FieldFlags(s, i - 1, prefix), prefix, Paths(s, i - 1), FieldPaths(s, i - 1));
    }
  }

  lemma {:induction false} FieldFlagsAreOfPaths<N(!new)>(s: MessageSchema<N>, i: nat, prefix: string)
    requires Navigable(s) && SelfFree(s) && i < |s.fields| && Settled(prefix)
    ensures FlagsOfPaths(FieldFlags(s, i, prefix), prefix, FieldPaths(s, i))
    decreases s, 0
  {
    var f := s.fields[i];
    FlagNameIs(prefix, f.name);
    hide FlagName, KebabName, Settled, Schema.Find, LeafFlag;
    if !IsLeaf(f) {
      assert SelfFreeAt(s, i);
      var nested, below := Nested(s, i), FlagName(prefix, f.name) + ".";
      FlagsAreOfPaths(nested, |nested.fields|, below);
      hide FlagsOfPaths;
      FlagsBelow(prefix, f.name, Flags(nested, |nested.fields|, below), Paths(nested, |nested.fields|));
    }
  }

  lemma PathsConcat(a: seq<Registration>, b: seq<Registration>, prefix: string, p: seq<seq<string>>, q: seq<seq<string>>)
    requires FlagsOfPaths(a, prefix, p) && FlagsOfPaths(b, prefix, q)
    ensures FlagsOfPaths(a + b, prefix, p + q)
  {
    hide KebabPath;
  }

  lemma FlagsBelow(prefix: string, name: string, flags: seq<Registration>, paths: seq<seq<string>>)
    requires var own := prefix + KebabName(prefix != "", name); FlagsOfPaths(flags, own + ".", paths)
    ensures FlagsOfPaths(flags, prefix, Under(name, paths))
  {
    forall k | 0 <= k < |flags| ensures flags[k].flag == prefix + KebabPath(prefix != "", [name] + paths[k]) {
      assert paths[k] != [];
      PathBelow(prefix != "", name, paths[k]);
      hide KebabName, KebabPath, Under;
      Dotted(prefix, KebabName(prefix != "", name), KebabPath(true, paths[k]));
    }
  }

  lemma Dotted(prefix: string, a: string, b: string)
    ensures prefix + a + "." + b == prefix + (a + ("." + b))
  {
  }

  lemma PathBelow(nested: bool, name: string, p: seq<string>)
    requires p != []
    ensures KebabPath(nested, [name] + p) == KebabName(nested, name) + ("." + KebabPath(true, p))
  {
    assert ([name] + p)[1..] == p;
  }

  /** The listed paths are those that lead to a flag. */
  lemma {:induction false} PathsLead<N(!new)>(s: MessageSchema<N>, i: nat, prefix: string, p: seq<string>)
    requires Navigable(s) && SelfFree(s) && DistinctNames(s) && i <= |s.fields|
    ensures p in Paths(s, i) <==> p != [] && LeafAt(s, i, prefix, p).Some?
    decreases s, i
  {
    hide Schema.Find, LeafFlag, FlagName;
    if i > 0 {
      PathsLead(s, i - 1, prefix, p);
      if p == [] {
        PathsStart(s, i);
      } else {
        LeadAtField(s, i, prefix, p);
        var f := s.fields[i - 1];
        if !IsLeaf(f) && p[0] == f.name && |p| > 1 {
          assert SelfFreeAt(s, i - 1);
          FoundDistinct(s, f.typ.of);
          PathsLead(Nested(s, i - 1), |Nested(s, i - 1).fields|, FlagName(prefix, f.name) + ".", p[1..]);
        }
      }
    }
  }

  /** A path listed for the first i fields is listed for the first i - 1, or for the last of them; and so are its flags. */
  lemma LeadAtField<N(!new)>(s: MessageSchema<N>, i: nat, prefix: string, p: seq<string>)
    requires Navigable(s) && SelfFree(s) && DistinctNames(s) && 0 < i <= |s.fields| && p != []
    ensures IsLeaf(s.fields[i - 1]) || SelfFreeAt(s, i - 1)
    ensures p in Paths(s, i) <==>
              p in Paths(s, i - 1) || if IsLeaf(s.fields[i - 1]) then p == [s.fields[i - 1].name]
                                      else p[0] == s.fields[i - 1].name && |p| > 1
                                           && p[1..] in Paths(Nested(s, i - 1), |Nested(s, i - 1).fields|)
    ensures LeafAt(s, i, prefix, p).Some? <==>
              LeafAt(s, i - 1, prefix, p).Some?
              || if IsLeaf(s.fields[i - 1]) then p == [s.fields[i - 1].name]
                 else p[0] == s.fields[i - 1].name && |p| > 1
                      && LeafAt(Nested(s, i - 1), |Nested(s, i - 1).fields|, FlagName(prefix, s.fields[i - 1].name) + ".", p[1..]).Some?
  {
    var f, j := s.fields[i - 1], i - 1;
    assert IsLeaf(f) || SelfFreeAt(s, j);
    if LeafAt(s, j, prefix, p).Some? { EarlierField(s, i, prefix, p); }
    hide Schema.Find, LeafFlag, FlagName;
    if !IsLeaf(f) {
      var below := Paths(Nested(s, j), |Nested(s, j).fields|);
      InUnder(f.name, below, p);
      PathsStart(Nested(s, j), |Nested(s, j).fields|);
      assert |p| == 1 ==> p[1..] == [];
    }
  }

  lemma InUnder(name: string, paths: seq<seq<string>>, p: seq<string>)
    requires p != []
    ensures p in Under(name, paths) <==> p[0] == name && p[1..] in paths
  {
    if p[0] == name && p[1..] in paths {
      var k :| 0 <= k < |paths| && paths[k] == p[1..];
      assert p == [name] + p[1..] == Under(name, paths)[k];
    }
  }

  lemma {:induction false} PathsStart<N(!new)>(s: MessageSchema<N>, i: nat)
    requires Navigable(s) && SelfFree(s) && i <= |s.fields|
    ensures forall p :: p in Paths(s, i) ==> p != [] && exists j :: 0 <= j < i && s.fields[j].name == p[0]
    decreases i
  {
    if i > 0 {
      PathsStart(s, i - 1);
      hide Navigable, SelfFree;
      forall p | p in Paths(s, i) ensures p != [] && exists j :: 0 <= j < i && s.fields[j].name == p[0] {
        if p in FieldPaths(s, i - 1) { assert p[0] == s.fields[i - 1].name; }
      }
    }
  }

  lemma {:induction false} PathsOnce<N(!new)>(s: MessageSchema<N>, i: nat)
    requires Navigable(s) && SelfFree(s) && DistinctNames(s) && i <= |s.fields|
    ensures NoDuplicates(Paths(s, i))
    decreases s, i
  {
    if i > 0 {
      PathsOnce(s, i - 1);
      PathsStart(s, i - 1);
      var f := s.fields[i - 1];
      if !IsLeaf(f) {
        assert SelfFreeAt(s, i - 1);
        FoundDistinct(s, f.typ.of);
        PathsOnce(Nested(s, i - 1), |Nested(s, i - 1).fields|);
        UnderOnce(f.name, Paths(Nested(s, i - 1), |Nested(s, i - 1).fields|));
      }
      NoDuplicatesConcat(Paths(s, i - 1), FieldPaths(s, i - 1));
    }
  }

  lemma UnderOnce(name: string, paths: seq<seq<string>>)
    requires NoDuplicates(paths)
    ensures NoDuplicates(Under(name, paths))
  {
    forall k | 0 <= k < |paths| ensures Under(name, paths)[k][1..] == paths[k] {}
  }

  /** p leads to a flag of the first i fields. */
  ghost predicate Leads<N(!new)>(s: MessageSchema<N>, i: nat, prefix: string, p: seq<string>)
    requires Navigable(s) && SelfFree(s) && i <= |s.fields|
  {
    p != [] && LeafAt(s, i, prefix, p).Some?
  }

  /** No flag is registered twice exactly when different paths to flags differ in kebab case, too. */
  lemma FlagsDistinctIff<N(!new)>(s: MessageSchema<N>, i: nat, prefix: string)
    requires Navigable(s) && SelfFree(s) && DistinctNames(s) && i <= |s.fields| && Settled(prefix)
    ensures DistinctFlags(Flags(s, i, prefix)) <==>
              forall p, q :: Leads(s, i, prefix, p) && Leads(s, i, prefix, q) && p != q ==>
                KebabPath(prefix != "", p) != KebabPath(prefix != "", q)
  {
    var flags, paths := Flags(s, i, prefix), Paths(s, i);
    FlagsAreOfPaths(s, i, prefix);
    PathsOnce(s, i);
    forall p ensures p in paths <==> Leads(s, i, prefix, p) {
      PathsLead(s, i, prefix, p);
    }
    hide Leads, KebabPath, Flags, Paths;
    DistinctByPath(flags, prefix, paths);
  }

  lemma DistinctByPath(flags: seq<Registration>, prefix: string, paths: seq<seq<string>>)
    requires NoDuplicates(paths) && FlagsOfPaths(flags, prefix, paths)
    ensures DistinctFlags(flags) <==>
              forall p, q :: p in paths && q in paths && p != q ==> KebabPath(prefix != "", p) != KebabPath(prefix != "", q)
  {
    hide KebabPath;
    var nested := prefix != "";
    forall a, b | 0 <= a < |paths| && 0 <= b < |paths|
      ensures flags[a].flag == flags[b].flag <==> KebabPath(nested, paths[a]) == KebabPath(nested, paths[b])
    {
      SamePrefix(prefix, KebabPath(nested, paths[a]), KebabPath(nested, paths[b]));
    }
    if DistinctFlags(flags) {
      forall p, q | p in paths && q in paths && p != q ensures KebabPath(nested, p) != KebabPath(nested, q) {
        var a :| 0 <= a < |paths| && paths[a] == p;
        var b :| 0 <= b < |paths| && paths[b] == q;
        assert a < b || b < a;
      }
    }
    if forall p, q :: p in paths && q in paths && p != q ==> KebabPath(nested, p) != KebabPath(nested, q) {
      forall a, b | 0 <= a < b < |flags| ensures flags[a].flag != flags[b].flag {
        assert paths[a] in paths && paths[b] in paths && paths[a] != paths[b];
      }
    }
  }

  lemma SamePrefix(prefix: string, a: string, b: string)
    ensures prefix + a == prefix + b <==> a == b
  {
    if prefix + a == prefix + b {
      assert a == (prefix + a)[|prefix|..] && b == (prefix + b)[|prefix|..];
    }
  }

  /** Two siblings that give one flag: registering it a second time is fatal. */
  lemma CapitalsCollide()
    ensures var s := MessageSchema("M", [Field("aB", Plain(StringKind), false), Field("a_b", Plain(StringKind), false)], []);
            && Navigable(s) && SelfFree(s) && DistinctNames(s)
            && Flags(s, 2, "") == [Registration("a-b", StringFlag), Registration("a-b", StringFlag)]
  {
    var s := MessageSchema("M", [Field("aB", Plain(StringKind), false), Field("a_b", Plain(StringKind), false)], []);
    KebabsCollide();
    hide FlagName;
    TwoLeaves(s);
  }

  lemma TwoLeaves<N(!new)>(s: MessageSchema<N>)
    requires Navigable(s) && SelfFree(s) && |s.fields| == 2 && IsLeaf(s.fields[0]) && IsLeaf(s.fields[1])
    ensures var f, g := s.fields[0], s.fields[1];
            Flags(s, 2, "") == [Registration(FlagName("", f.name), LeafFlag(f)), Registration(FlagName("", g.name), LeafFlag(g))]
  {
    hide FlagName, LeafFlag, Navigable, SelfFree;
    assert Flags(s, 1, "") == Flags(s, 0, "") + FieldFlags(s, 0, "");
    assert Flags(s, 2, "") == Flags(s, 1, "") + FieldFlags(s, 1, "");
  }

  lemma KebabsCollide()
    ensures FlagName("", "aB") == FlagName("", "a_b") == "a-b"
  {
    var a, b := "aB", "a_b";
    assert "" + a == a && "" + b == b;
    assert KebabAt(a, 0) == KebabAt(b, 0) == "a" && KebabAt(a, 1) == "-b" && KebabAt(b, 1) == "-" && KebabAt(b, 2) == "b";
    hide KebabAt;
    assert CamelToKebab(a, 1) == "-b" + CamelToKebab(a, 2) == "-b";
    assert CamelToKebab(b, 1) == "-" + CamelToKebab(b, 2) && CamelToKebab(b, 2) == "b" + CamelToKebab(b, 3) == "b";
  }

  // ---- Siblings that stay apart ---------------------------------------------------------------------

  /** Two names that stay different in kebab case, at the top and below, and have no dots. */
  predicate StaysApart(a: string, b: string) {
    '.' !in a && '.' !in b && KebabName(false, a) != KebabName(false, b) && KebabName(true, a) != KebabName(true, b)
  }

  /** No two names of a message coincide or run into each other. */
  ghost predicate ApartFields<N>(fields: seq<Field<N>>) {
    forall i, j :: 0 <= i < j < |fields| ==> StaysApart(fields[i].name, fields[j].name)
  }

  /** The flag is that of the named field under the prefix, or of a field below it. */
  predicate FlagOf(flag: string, prefix: string, name: string) {
    var own := prefix + KebabName(prefix != "", name);
    flag == own || own + "." <= flag
  }

  lemma {:induction false} KebabHasNoDot(name: string, i: nat)
    requires '.' !in name && i <= |name|
    ensures '.' !in CamelToKebab(name, i)
    decreases |name| - i
  {
    if i < |name| {
      KebabHasNoDot(name, i + 1);
      assert name[i] in name && '.' !in KebabAt(name, i);
    }
  }

  /** What follows the prefix is the name, up to the first dot. */
  lemma CutAtDot(flag: string, prefix: string, own: string)
    requires '.' !in own && (flag == prefix + own || prefix + own + "." <= flag)
    ensures |prefix| + |own| <= |flag| && flag[|prefix|..|prefix| + |own|] == own
    ensures |prefix| + |own| < |flag| ==> flag[|prefix| + |own|] == '.'
    ensures forall k :: 0 <= k < |own| ==> flag[|prefix| + k] == own[k] && own[k] != '.'
  {
    var n := |prefix| + |own|;
    assert flag[..n] == prefix + own;
    if n < |flag| { assert flag[n] == (prefix + own + ".")[n]; }
    forall k | 0 <= k < |own| ensures flag[|prefix| + k] == own[k] && own[k] != '.' {
      assert flag[..n][|prefix| + k] == own[k] && own[k] in own;
    }
  }

  lemma FlagOfOneName(flag: string, prefix: string, a: string, b: string)
    requires FlagOf(flag, prefix, a) && FlagOf(flag, prefix, b) && '.' !in a && '.' !in b
    ensures KebabName(prefix != "", a) == KebabName(prefix != "", b)
  {
    KebabHasNoDot(a, 0);
    KebabHasNoDot(b, 0);
    var x, y := KebabName(prefix != "", a), KebabName(prefix != "", b);
    assert '.' !in x && '.' !in y;
    hide KebabName;
    CutAtDot(flag, prefix, x);
    CutAtDot(flag, prefix, y);
    assert |x| == |y|;
  }

  /** Every flag registered under a prefix extends it, by the name of a field. */
  lemma {:induction false} FlagsAreOfFields<N(!new)>(s: MessageSchema<N>, i: nat, prefix: string, r: Registration)
    requires Navigable(s) && SelfFree(s) && i <= |s.fields| && Settled(prefix)
    requires r in Flags(s, i, prefix)
    ensures prefix <= r.flag && exists j :: 0 <= j < i && FlagOf(r.flag, prefix, s.fields[j].name)
    decreases s, 1, i
  {
    if r in Flags(s, i - 1, prefix) {
      FlagsAreOfFields(s, i - 1, prefix, r);
    } else {
      FieldFlagsAreOfField(s, i - 1, prefix, r);
    }
  }

  lemma {:induction false} FieldFlagsAreOfField<N(!new)>(s: MessageSchema<N>, i: nat, prefix: string, r: Registration)
    requires Navigable(s) && SelfFree(s) && i < |s.fields| && Settled(prefix)
    requires r in FieldFlags(s, i, prefix)
    ensures prefix <= r.flag && FlagOf(r.flag, prefix, s.fields[i].name)
    decreases s, 0
  {
    var f := s.fields[i];
    FlagNameIs(prefix, f.name);
    hide FlagName, KebabName, Settled;
    if !IsLeaf(f) {
      assert SelfFreeAt(s, i);
      var nested := Nested(s, i);
      FlagsAreOfFields(nested, |nested.fields|, FlagName(prefix, f.name) + ".", r);
    }
  }

  /** If the names of every message stay apart, no flag is registered twice. */
  lemma {:induction false} FlagsDistinct<N(!new)>(s: MessageSchema<N>, i: nat, prefix: string)
    requires Navigable(s) && SelfFree(s) && Throughout(s, ApartFields)
    requires i <= |s.fields| && Settled(prefix)
    ensures DistinctFlags(Flags(s, i, prefix))
    decreases s, i
  {
    if i > 0 {
      FlagsDistinct(s, i - 1, prefix);
      var f := s.fields[i - 1];
      if !IsLeaf(f) {
        assert SelfFreeAt(s, i - 1);
        FoundThroughout(s, f.typ.of, ApartFields);
        FlagNameIs(prefix, f.name);
        FlagsDistinct(Nested(s, i - 1), |Nested(s, i - 1).fields|, FlagName(prefix, f.name) + ".");
      }
      FieldsApart(s, i, prefix);
    }
  }

  /** No flag of a field is one of an earlier field. */
  lemma FieldsApart<N(!new)>(s: MessageSchema<N>, i: nat, prefix: string)
    requires Navigable(s) && SelfFree(s) && Throughout(s, ApartFields)
    requires 0 < i <= |s.fields| && Settled(prefix)
    requires DistinctFlags(Flags(s, i - 1, prefix)) && DistinctFlags(FieldFlags(s, i - 1, prefix))
    ensures DistinctFlags(Flags(s, i, prefix))
  {
    var earlier, own := Flags(s, i - 1, prefix), FieldFlags(s, i - 1, prefix);
    hide Flags, FieldFlags, Throughout, Settled;
    forall a, b | 0 <= a < |earlier| && 0 <= b < |own| ensures earlier[a].flag != own[b].flag {
      EarlierFlagDiffers(s, i, prefix, earlier[a], own[b]);
    }
    DistinctConcat(earlier, own);
    UnfoldFlags(s, i, prefix);
  }

  lemma EarlierFlagDiffers<N(!new)>(s: MessageSchema<N>, i: nat, prefix: string, x: Registration, y: Registration)
    requires Navigable(s) && SelfFree(s) && Throughout(s, ApartFields)
    requires 0 < i <= |s.fields| && Settled(prefix) && x in Flags(s, i - 1, prefix) && y in FieldFlags(s, i - 1, prefix)
    ensures x.flag != y.flag
  {
    hide *;
    var last := s.fields[i - 1].name;
    FlagsAreOfFields(s, i - 1, prefix, x);
    FieldFlagsAreOfField(s, i - 1, prefix, y);
    var j :| 0 <= j < i - 1 && FlagOf(x.flag, prefix, s.fields[j].name);
    NamesApart(s, j, i - 1);
    TwoFlags(x.flag, y.flag, prefix, s.fields[j].name, last);
  }

  lemma NamesApart<N(!new)>(s: MessageSchema<N>, i: nat, j: nat)
    requires Throughout(s, ApartFields) && i < j < |s.fields|
    ensures StaysApart(s.fields[i].name, s.fields[j].name)
  {
    hide StaysApart;
  }

  lemma TwoFlags(x: string, y: string, prefix: string, a: string, b: string)
    requires FlagOf(x, prefix, a) && FlagOf(y, prefix, b) && StaysApart(a, b)
    ensures x != y
  {
    hide FlagOf;
    if x == y { FlagOfOneName(x, prefix, a, b); }
  }

  lemma UnfoldFlags<N(!new)>(s: MessageSchema<N>, i: nat, prefix: string)
    requires Navigable(s) && SelfFree(s) && 0 < i <= |s.fields|
    ensures Flags(s, i, prefix) == Flags(s, i - 1, prefix) + FieldFlags(s, i - 1, prefix)
  {
  }

  lemma DistinctConcat(a: seq<Registration>, b: seq<Registration>)
    requires DistinctFlags(a) && DistinctFlags(b)
    requires forall i, j :: 0 <= i < |a| && 0 <= j < |b| ==> a[i].flag != b[j].flag
    ensures DistinctFlags(a + b)
  {
  }

  // ---- Names that a caller may use ------------------------------------------------------------------

  /** A name in lower case and without underscores, by which proto3 tells the fields of a message apart. */
  function Squash(s: string): string {
    if s == "" then ""
    else (if s[0] == '_' then "" else if IsUpper(s[0]) then [(s[0] as int + 32) as char] else [s[0]]) + Squash(s[1..])
  }

  function DropHyphens(s: string): string {
    if s == "" then "" else (if s[0] == '-' then "" else [s[0]]) + DropHyphens(s[1..])
  }

  /** Different after squashing, without dots and hyphens; capitals are welcome. */
  ghost predicate SquashedApart<N>(fields: seq<Field<N>>) {
    && (forall i :: 0 <= i < |fields| ==> '.' !in fields[i].name && '-' !in fields[i].name)
    && (forall i, j :: 0 <= i < j < |fields| ==> Squash(fields[i].name) != Squash(fields[j].name))
  }

  /** In snake case, without dots and hyphens, and different. */
  ghost predicate SnakeApart<N>(fields: seq<Field<N>>) {
    && (forall i :: 0 <= i < |fields| ==> NoUpper(fields[i].name) && '.' !in fields[i].name && '-' !in fields[i].name)
    && (forall i, j :: 0 <= i < j < |fields| ==> fields[i].name != fields[j].name)
  }

  lemma {:induction false} DropHyphensConcat(a: string, b: string)
    ensures DropHyphens(a + b) == DropHyphens(a) + DropHyphens(b)
  {
    if a == "" {
      EmptyLeft(b);
    } else {
      DropHyphensConcat(a[1..], b);
      assert (a + b)[1..] == a[1..] + b && (a + b)[0] == a[0];
      Assoc(if a[0] == '-' then "" else [a[0]], DropHyphens(a[1..]), DropHyphens(b));
    }
  }

  /** Kebab case without its hyphens is the squashed name. */
  lemma {:induction false} KebabSquashes(s: string, i: nat)
    requires '-' !in s && i <= |s|
    ensures DropHyphens(CamelToKebab(s, i)) == Squash(s[i..])
    decreases |s| - i
  {
    if i < |s| {
      KebabSquashes(s, i + 1);
      var c, rest := s[i], CamelToKebab(s, i + 1);
      assert c in s && s[i..][0] == c && s[i..][1..] == s[i + 1..];
      DropHyphensConcat(KebabAt(s, i), rest);
      CharSquashes(s, i);
    }
  }

  lemma CharSquashes(s: string, i: nat)
    requires '-' !in s && i < |s|
    ensures var c := s[i];
            DropHyphens(KebabAt(s, i)) == if c == '_' then "" else if IsUpper(c) then [(c as int + 32) as char] else [c]
  {
    var c := s[i];
    assert c in s;
    if IsUpper(c) {
      var low := [(c as int + 32) as char];
      assert low[1..] == "" && DropHyphens(low) == low;
      assert ("-" + low)[1..] == low && DropHyphens("-" + low) == low;
    } else {
      assert [c][1..] == "" && "-"[1..] == "" && DropHyphens("-") == "";
    }
  }

  lemma NameSquashes(nested: bool, name: string)
    requires '-' !in name
    ensures DropHyphens(KebabName(nested, name)) == Squash(name)
  {
    KebabSquashes(name, 0);
    assert name[0..] == name;
    var h := if nested && Capitalized(name) then "-" else "";
    DropHyphensConcat(h, CamelToKebab(name, 0));
    assert "-"[1..] == "";
  }

  lemma SquashedAreApart<N>(fields: seq<Field<N>>)
    requires SquashedApart(fields)
    ensures ApartFields(fields)
  {
    forall i, nested | 0 <= i < |fields| ensures DropHyphens(KebabName(nested, fields[i].name)) == Squash(fields[i].name) {
      NameSquashes(nested, fields[i].name);
    }
    hide KebabName, Squash;
  }

  lemma KebabOfSnake(nested: bool, name: string)
    requires NoUpper(name)
    ensures KebabName(nested, name) == Dashes(name)
  {
    KebabIsDashes(name, 0);
    assert Dashes(name)[0..] == Dashes(name);
    EmptyLeft(Dashes(name));
  }

  lemma SnakesAreApart<N>(fields: seq<Field<N>>)
    requires SnakeApart(fields)
    ensures ApartFields(fields)
  {
    forall i, nested | 0 <= i < |fields| ensures KebabName(nested, fields[i].name) == Dashes(fields[i].name) {
      KebabOfSnake(nested, fields[i].name);
    }
    hide KebabName;
    forall i, j | 0 <= i < j < |fields| ensures Dashes(fields[i].name) != Dashes(fields[j].name) {
      if Dashes(fields[i].name) == Dashes(fields[j].name) { DashesDiffer(fields[i].name, fields[j].name); }
    }
  }

  lemma DashesDiffer(a: string, b: string)
    requires '-' !in a && '-' !in b && Dashes(a) == Dashes(b)
    ensures a == b
  {
    forall k | 0 <= k < |a| ensures a[k] == b[k] {
      assert a[k] in a && b[k] in b && Dashes(a)[k] == Dashes(b)[k];
    }
  }

  lemma {:induction false} ApartThroughout<N(!new)>(s: MessageSchema<N>, p: seq<Field<N>> -> bool)
    requires Throughout(s, p) && forall fields :: p(fields) ==> ApartFields(fields)
    ensures Throughout(s, ApartFields)
    decreases s
  {
    forall j | 0 <= j < |s.messages| ensures Throughout(s.messages[j], ApartFields) {
      ApartThroughout(s.messages[j], p);
    }
  }

  /** Field names that proto3 accepts side by side never share a flag, and neither do distinct ones in snake case. */
  lemma AcceptedNamesGiveDistinctFlags<N(!new)>(s: MessageSchema<N>, i: nat, prefix: string)
    requires Navigable(s) && SelfFree(s) && (Throughout(s, SquashedApart) || Throughout(s, SnakeApart))
    requires i <= |s.fields| && Settled(prefix)
    ensures DistinctFlags(Flags(s, i, prefix))
  {
    forall fields: seq<Field<N>>
      ensures (SquashedApart(fields) ==> ApartFields(fields)) && (SnakeApart(fields) ==> ApartFields(fields))
    {
      if SquashedApart(fields) { SquashedAreApart(fields); }
      if SnakeApart(fields) { SnakesAreApart(fields); }
    }
    if Throughout(s, SquashedApart) { ApartThroughout(s, SquashedApart); } else { ApartThroughout(s, SnakeApart); }
    FlagsDistinct(s, i, prefix);
  }
}
