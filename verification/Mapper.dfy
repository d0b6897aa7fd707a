/**
 services/transformer/internal/mapper/mapper.go: loading rules, selecting the rule of an envelope,
 and renaming the row images' fields.
 */
module Mapper {
  import opened Wrappers
  import opened JsonValues

  datatype FieldRule = FieldRule(kind: string, target: string)

  datatype Rule = Rule(source: string, target: string, fields: map<string, FieldRule>)

  type Rules = map<string, Rule>

  predicate IsSpace(c: char) {
    || '\t' <= c <= '\r' || c == ' ' || c == '\U{85}' || c == '\U{A0}' || c == '\U{1680}'
    || '\U{2000}' <= c <= '\U{200A}' || c == '\U{2028}' || c == '\U{2029}' || c == '\U{202F}'
    || c == '\U{205F}' || c == '\U{3000}'
  }

  function Trim(s: string): string {
    if s != "" && IsSpace(s[0]) then Trim(s[1..])
    else if s != "" && IsSpace(s[|s| - 1]) then Trim(s[..|s| - 1])
    else s
  }

  predicate AllSpace(s: string) {
    forall i :: 0 <= i < |s| ==> IsSpace(s[i])
  }

  /** Trimming takes away space at both ends, and all of it. */
  lemma {:induction false} TrimIs(s: string) returns (left: string, right: string)
    ensures s == left + Trim(s) + right && AllSpace(left) && AllSpace(right)
    ensures Trim(s) != "" ==> !IsSpace(Trim(s)[0]) && !IsSpace(Trim(s)[|Trim(s)| - 1])
    decreases |s|
  {
    hide IsSpace;
    left, right := "", "";
    if s != "" && IsSpace(s[0]) {
      var l;
      l, right := TrimIs(s[1..]);
      left := [s[0]] + l;
      assert s == [s[0]] + s[1..];
    } else if s != "" && IsSpace(s[|s| - 1]) {
      var r;
      left, r := TrimIs(s[..|s| - 1]);
      right := r + [s[|s| - 1]];
      assert s == s[..|s| - 1] + [s[|s| - 1]];
    }
  }

  /** The name a rule file is filed under; the empty name of an unusable file. */
  function SourceName(file: Option<Rule>): string {
    if file.Some? then Trim(file.value.source) else ""
  }

  /** The rule files are usable: each names a source, and no two the same one. */
  predicate Loadable(files: seq<Option<Rule>>) {
    && (forall i :: 0 <= i < |files| ==> SourceName(files[i]) != "")
    && forall i, j :: 0 <= i < j < |files| ==> SourceName(files[i]) != SourceName(files[j])
  }

  /** `rules` holds exactly these files, each under its source's name. */
  ghost predicate Filed(rules: Rules, files: seq<Option<Rule>>) {
    && (forall i :: 0 <= i < |files| ==> SourceName(files[i]) in rules && Some(rules[SourceName(files[i])]) == files[i])
    && forall k :: k in rules ==> exists i :: 0 <= i < |files| && SourceName(files[i]) == k
  }

  lemma FileOne(rules: Rules, files: seq<Option<Rule>>, file: Option<Rule>)
    requires Filed(rules, files) && Loadable(files) && file.Some? && SourceName(file) != ""
    ensures SourceName(file) !in rules ==>
      Loadable(files + [file]) && Filed(rules[SourceName(file) := file.value], files + [file])
    ensures SourceName(file) in rules ==> !Loadable(files + [file])
  {
    hide Trim;
    var all := files + [file];
    assert forall i :: 0 <= i < |files| ==> all[i] == files[i];
    if SourceName(file) in rules {
      var i :| 0 <= i < |files| && SourceName(files[i]) == SourceName(file);
      assert SourceName(all[i]) == SourceName(all[|files|]);
    } else {
      var more := rules[SourceName(file) := file.value];
      forall k | k in more ensures exists i :: 0 <= i < |all| && SourceName(all[i]) == k {
        if k in rules {
          var i :| 0 <= i < |files| && SourceName(files[i]) == k;
          assert SourceName(all[i]) == k;
        } else {
          assert SourceName(all[|files|]) == k;
        }
      }
    }
  }

  lemma PrefixUnloadable(files: seq<Option<Rule>>, n: nat)
    requires n <= |files| && !Loadable(files[..n])
    ensures !Loadable(files)
  {
  }

  /** `files` are the rule files in directory order, None for one that does not read or parse. */
  method Load(files: seq<Option<Rule>>) returns (r: Result<Rules>)
    ensures r.Ok? <==> Loadable(files)
    ensures r.Ok? ==> forall i | 0 <= i < |files| ::
      files[i].Some? && Trim(files[i].value.source) in r.value && r.value[Trim(files[i].value.source)] == files[i].value
    ensures r.Ok? ==> Filed(r.value, files)
  {
    var byQName: Rules := map[];
    for i := 0 to |files|
      invariant Loadable(files[..i]) && Filed(byQName, files[..i])
    {
      assert files[..i + 1] == files[..i] + [files[i]];
      if files[i].None? {
        assert SourceName(files[i]) == "";
        return Err;
      }
      var key := Trim(files[i].value.source);
      if key == "" {
        assert SourceName(files[i]) == "";
        return Err;
      }
      FileOne(byQName, files[..i], files[i]);
      if key in byQName {
        PrefixUnloadable(files, i + 1);
        return Err;
      }
      byQName := byQName[key := files[i].value];
    }
    assert files[..|files|] == files;
    return Ok(byQName);
  }

  function LastDot(s: string): (i: int)
    ensures -1 <= i < |s|
    ensures i >= 0 ==> s[i] == '.'
    ensures forall j :: i < j < |s| ==> s[j] != '.'
  {
    if s == "" then -1
    else if s[|s| - 1] == '.' then |s| - 1
    else LastDot(s[..|s| - 1])
  }

  function Tail(topic: string): string {
    topic[LastDot(topic) + 1..]
  }

  predicate HasSuffix(s: string, suffix: string) {
    |suffix| <= |s| && s[|s| - |suffix|..] == suffix
  }

  /** The first rule, in the order Go happens to iterate the map, whose name ends in the suffix. */
  function ScanSuffix(rules: Rules, order: seq<string>, suffix: string): Option<Rule> {
    if order == [] then None
    else if order[0] in rules && HasSuffix(order[0], suffix) then Some(rules[order[0]])
    else ScanSuffix(rules, order[1..], suffix)
  }

  function LookupByTopicTail(rules: Rules, order: seq<string>, topic: string): Option<Rule> {
    if topic == "" then None
    else if Tail(topic) in rules then Some(rules[Tail(topic)])
    else ScanSuffix(rules, order, "." + Tail(topic))
  }

  /** A map read of a string: anything else is the empty string. */
  function TextOf(fields: Fields, name: string): string {
    if name in fields && fields[name].Str? then fields[name].s else ""
  }

  function LookupForPayload(rules: Rules, order: seq<string>, payload: Fields, topic: string): Option<Rule> {
    if "source" in payload && payload["source"].Obj? then
      var src := payload["source"].fields;
      var schema, table := TextOf(src, "schema"), TextOf(src, "table");
      if table != "" && schema != "" && schema + "." + table in rules then Some(rules[schema + "." + table])
      else if table != "" && table in rules then Some(rules[table])
      else LookupByTopicTail(rules, order, topic)
    else LookupByTopicTail(rules, order, topic)
  }

  /** `order` lists each key of `keys` once: one way to iterate a map with these keys. */
  ghost predicate Enumerates(order: seq<string>, keys: set<string>) {
    && (forall i, j :: 0 <= i < j < |order| ==> order[i] != order[j])
    && (forall k :: k in order <==> k in keys)
  }

  /** The topic's last segment. */
  lemma TailIs(prefix: string, segment: string)
    requires '.' !in segment
    ensures Tail(prefix + "." + segment) == segment && Tail(segment) == segment
  {
    var topic := prefix + "." + segment;
    assert topic[|prefix|] == '.' && forall j :: |prefix| < j < |topic| ==> topic[j] == segment[j - |prefix| - 1];
    assert forall j :: 0 <= j < |segment| ==> segment[j] in segment;
    assert LastDot(topic) == |prefix| && LastDot(segment) == -1;
    assert topic[|prefix| + 1..] == segment;
  }

  /** Some rule that ends in a dot and the segment, if there is one. */
  ghost predicate SomeRuleEndingIn(rules: Rules, segment: string, r: Option<Rule>) {
    if r.Some? then exists schema: string :: schema + "." + segment in rules && r.value == rules[schema + "." + segment]
    else forall schema: string :: schema + "." + segment !in rules
  }

  lemma ScanIs(rules: Rules, order: seq<string>, segment: string)
    requires Enumerates(order, rules.Keys)
    ensures SomeRuleEndingIn(rules, segment, ScanSuffix(rules, order, "." + segment))
  {
    var suffix, r := "." + segment, ScanSuffix(rules, order, "." + segment);
    ScanFinds(rules, order, suffix);
    if r.Some? {
      var k :| k in order && k in rules && HasSuffix(k, suffix) && r.value == rules[k];
      var schema := k[..|k| - |suffix|];
      assert k == schema + "." + segment;
    } else {
      forall schema: string ensures schema + "." + segment !in rules {
        var k := schema + "." + segment;
        assert k[|k| - |suffix|..] == suffix && HasSuffix(k, suffix);
      }
    }
  }

  /** Where the topic is consulted: its last segment, then any schema's rule for that segment; no topic, no rule. */
  lemma TailLookupIs(rules: Rules, order: seq<string>, prefix: string, segment: string)
    requires Enumerates(order, rules.Keys) && '.' !in segment
    ensures LookupByTopicTail(rules, order, "") == None
    ensures var r := LookupByTopicTail(rules, order, prefix + "." + segment);
      if segment in rules then r == Some(rules[segment]) else SomeRuleEndingIn(rules, segment, r)
    ensures segment != "" ==>
      var r := LookupByTopicTail(rules, order, segment);
      if segment in rules then r == Some(rules[segment]) else SomeRuleEndingIn(rules, segment, r)
  {
    hide LastDot, Tail, ScanSuffix, SomeRuleEndingIn;
    TailIs(prefix, segment);
    ScanIs(rules, order, segment);
  }

  /** The source block of a payload, its schema and its table; "" for what is missing or no string. */
  ghost predicate NamesSource(payload: Fields, schema: string, table: string) {
    && "source" in payload && payload["source"].Obj?
    && var source := payload["source"].fields;
       && schema == (if "schema" in source && source["schema"].Str? then source["schema"].s else "")
       && table == (if "table" in source && source["table"].Str? then source["table"].s else "")
  }

  /** The rule of a payload: the qualified one, else the table's, else whatever the topic says. */
  lemma PayloadLookupIs(rules: Rules, order: seq<string>, payload: Fields, topic: string, schema: string, table: string)
    requires NamesSource(payload, schema, table)
    ensures LookupForPayload(rules, order, payload, topic)
         == if table != "" && schema != "" && schema + "." + table in rules then Some(rules[schema + "." + table])
            else if table != "" && table in rules then Some(rules[table])
            else LookupByTopicTail(rules, order, topic)
  {
    hide LookupByTopicTail;
  }

  lemma SourcelessLookupIs(rules: Rules, order: seq<string>, payload: Fields, topic: string)
    requires "source" !in payload || !payload["source"].Obj?
    ensures LookupForPayload(rules, order, payload, topic) == LookupByTopicTail(rules, order, topic)
  {
    hide LookupByTopicTail;
  }

  lemma {:induction false} ScanFinds(rules: Rules, order: seq<string>, suffix: string)
    ensures var r := ScanSuffix(rules, order, suffix);
      && (r.Some? <==> exists k :: k in order && k in rules && HasSuffix(k, suffix))
      && (r.Some? ==> exists k :: k in order && k in rules && HasSuffix(k, suffix) && r.value == rules[k])
  {
    if order != [] {
      assert order[0] in order && forall k :: k in order[1..] ==> k in order;
      assert forall k :: k in order ==> k == order[0] || k in order[1..];
      if !(order[0] in rules && HasSuffix(order[0], suffix)) {
        ScanFinds(rules, order[1..], suffix);
      }
    }
  }

  /** All the rules whose names end in the suffix are the same rule. */
  ghost predicate SuffixUnambiguous(rules: Rules, suffix: string) {
    forall a, b :: a in rules && b in rules && HasSuffix(a, suffix) && HasSuffix(b, suffix) ==> rules[a] == rules[b]
  }

  /** The fallback lookup is deterministic exactly when an exact name decides or the suffix is unambiguous. */
  lemma TailLookupDeterministicIff(rules: Rules, topic: string)
    ensures (forall o1, o2 :: Enumerates(o1, rules.Keys) && Enumerates(o2, rules.Keys)
               ==> LookupByTopicTail(rules, o1, topic) == LookupByTopicTail(rules, o2, topic))
       <==> topic == "" || Tail(topic) in rules || SuffixUnambiguous(rules, "." + Tail(topic))
  {
    var suffix := "." + Tail(topic);
    if topic != "" && Tail(topic) !in rules {
      if SuffixUnambiguous(rules, suffix) {
        forall o1, o2 | Enumerates(o1, rules.Keys) && Enumerates(o2, rules.Keys)
          ensures LookupByTopicTail(rules, o1, topic) == LookupByTopicTail(rules, o2, topic)
        {
          ScanFinds(rules, o1, suffix);
          ScanFinds(rules, o2, suffix);
        }
      } else {
        var a, b :| a in rules && b in rules && HasSuffix(a, suffix) && HasSuffix(b, suffix) && rules[a] != rules[b];
        var o1, o2 := StartingWith(rules.Keys, a), StartingWith(rules.Keys, b);
        assert LookupByTopicTail(rules, o1, topic) == Some(rules[a]);
        assert LookupByTopicTail(rules, o2, topic) == Some(rules[b]);
      }
    }
  }

  ghost function Listing(keys: set<string>): (order: seq<string>)
    ensures Enumerates(order, keys)
  {
    if keys == {} then []
    else
      var k :| k in keys;
      [k] + Listing(keys - {k})
  }

  ghost function StartingWith(keys: set<string>, k: string): (order: seq<string>)
    requires k in keys
    ensures Enumerates(order, keys) && |order| > 0 && order[0] == k
  {
    [k] + Listing(keys - {k})
  }

  /** The name a field gets. */
  function Target(fields: map<string, FieldRule>, name: string): string {
    if name in fields && fields[name].target != "" then fields[name].target else name
  }

  /** Rename in the given iteration order: a later field overwrites an earlier one of the same name. */
  function Renamed(src: Fields, fields: map<string, FieldRule>, order: seq<string>): Fields {
    if order == [] then map[]
    else
      var k := order[|order| - 1];
      var before := Renamed(src, fields, order[..|order| - 1]);
      if k in src then before[Target(fields, k) := src[k]] else before
  }

  /** The rule file gives field `f` the name `t`: its rule's target, or its own name if it has none. */
  ghost predicate Gives(fields: map<string, FieldRule>, f: string, t: string) {
    || (f in fields && fields[f].target != "" && t == fields[f].target)
    || ((f !in fields || fields[f].target == "") && t == f)
  }

  /** The only field of the row that is given the name `t` is `f`. */
  ghost predicate Alone(src: Fields, fields: map<string, FieldRule>, f: string, t: string) {
    forall g | g in src && Gives(fields, g, t) :: g == f
  }

  /** Every field of `src` is in `out` under the name it is given, with its value if no other shares it. */
  ghost predicate RenamesTo(src: Fields, fields: map<string, FieldRule>, out: Fields) {
    && (forall f, t | f in src && Gives(fields, f, t) :: t in out && (Alone(src, fields, f, t) ==> out[t] == src[f]))
    && (forall t | t in out :: exists f :: f in src && Gives(fields, f, t) && out[t] == src[f])
  }

  lemma TargetIsGiven(fields: map<string, FieldRule>, f: string, t: string)
    ensures Gives(fields, f, t) <==> t == Target(fields, f)
  {
  }

  lemma RenamedMeans(src: Fields, fields: map<string, FieldRule>, order: seq<string>)
    requires Enumerates(order, src.Keys)
    ensures RenamesTo(src, fields, Renamed(src, fields, order))
  {
    hide Target, Renamed, Gives;
    var out := Renamed(src, fields, order);
    forall f, t | f in src && Gives(fields, f, t) ensures t in out {
      TargetIsGiven(fields, f, t);
      var i :| 0 <= i < |order| && order[i] == f;
      assert Named(fields, order, i, t);
      RenamedEntry(src, fields, order, t);
    }
    forall t | t in out ensures exists f :: f in src && Gives(fields, f, t) && out[t] == src[f] {
      RenamedEntry(src, fields, order, t);
      var i :| Named(fields, order, i, t) && out[t] == src[order[i]];
      TargetIsGiven(fields, order[i], t);
      assert order[i] in order;
    }
  }

  method RenameKeys(src: Fields, fields: map<string, FieldRule>, order: seq<string>) returns (out: Fields)
    requires Enumerates(order, src.Keys)
    ensures RenamesTo(src, fields, out)
    ensures out == Renamed(src, fields, order)
  {
    RenamedMeans(src, fields, order);
    out := map[];
    for i := 0 to |order|
      invariant out == Renamed(src, fields, order[..i])
    {
      var k := order[i];
      var target := k;
      if k in fields && fields[k].target != "" {
        target := fields[k].target;
      }
      out := out[target := src[k]];
      assert order[..i + 1][..i] == order[..i];
    }
    assert order[..|order|] == order;
  }

  /** No two fields of the row are given the same name. */
  ghost predicate Injective(src: Fields, fields: map<string, FieldRule>) {
    forall a, b :: a in src && b in src && Target(fields, a) == Target(fields, b) ==> a == b
  }

  /** Each field of `src` sits in `out` under its new name, and `out` holds nothing else. */
  ghost predicate Carried(src: Fields, out: Fields, fields: map<string, FieldRule>) {
    && (forall a :: a in src ==> Target(fields, a) in out && out[Target(fields, a)] == src[a])
    && (forall t :: t in out ==> exists a :: a in src && Target(fields, a) == t)
  }

  ghost predicate Named(fields: map<string, FieldRule>, order: seq<string>, i: int, t: string) {
    0 <= i < |order| && Target(fields, order[i]) == t
  }

  lemma {:induction false} RenamedEntry(src: Fields, fields: map<string, FieldRule>, order: seq<string>, t: string)
    requires forall i :: 0 <= i < |order| ==> order[i] in src
    ensures t in Renamed(src, fields, order) <==> exists i :: Named(fields, order, i, t)
    ensures t in Renamed(src, fields, order)
      ==> exists i :: Named(fields, order, i, t) && Renamed(src, fields, order)[t] == src[order[i]]
  {
    hide Target;
    if order != [] {
      var n := |order| - 1;
      var prev := order[..n];
      RenamedEntry(src, fields, prev, t);
      if Target(fields, order[n]) == t {
        assert Named(fields, order, n, t);
      } else {
        assert forall i :: Named(fields, order, i, t) <==> Named(fields, prev, i, t);
      }
    }
  }

  /** The fields of the order all get different names. */
  ghost predicate DistinctTargets(fields: map<string, FieldRule>, order: seq<string>) {
    forall i, j :: 0 <= i < j < |order| ==> Target(fields, order[i]) != Target(fields, order[j])
  }

  lemma {:induction false} RenamedSize(src: Fields, fields: map<string, FieldRule>, order: seq<string>)
    requires forall i :: 0 <= i < |order| ==> order[i] in src
    ensures |Renamed(src, fields, order)| <= |order|
    ensures |Renamed(src, fields, order)| == |order| <==> DistinctTargets(fields, order)
  {
    hide Target;
    if order != [] {
      var n := |order| - 1;
      var prev, t := order[..n], Target(fields, order[n]);
      RenamedSize(src, fields, prev);
      RenamedEntry(src, fields, prev, t);
      if t in Renamed(src, fields, prev) {
        var i :| Named(fields, prev, i, t);
        assert Target(fields, order[i]) == Target(fields, order[n]);
      } else {
        assert forall i :: 0 <= i < n ==> order[i] == prev[i] && !Named(fields, prev, i, t);
        assert forall i :: 0 <= i < n ==> Target(fields, order[i]) == Target(fields, prev[i]) != t;
        assert order[n] == order[|order| - 1];
      }
    }
  }

  lemma {:induction false} EnumerationLength(order: seq<string>, keys: set<string>)
    requires Enumerates(order, keys)
    ensures |order| == |keys|
  {
    if order != [] {
      var n := |order| - 1;
      assert order == order[..n] + [order[n]];
      assert order[n] in order;
      assert order[n] !in order[..n];
      EnumerationLength(order[..n], keys - {order[n]});
    }
  }

  lemma DistinctIff(src: Fields, fields: map<string, FieldRule>, order: seq<string>)
    requires Enumerates(order, src.Keys)
    ensures DistinctTargets(fields, order) <==> Injective(src, fields)
  {
    hide Target;
    if !Injective(src, fields) {
      var a, b :| a in src && b in src && Target(fields, a) == Target(fields, b) && a != b;
      var i :| 0 <= i < |order| && order[i] == a;
      var j :| 0 <= j < |order| && order[j] == b;
      assert Target(fields, order[i]) == Target(fields, order[j]) && (i < j || j < i);
    } else {
      assert forall i :: 0 <= i < |order| ==> order[i] in order;
    }
  }

  lemma RenamedSizeIff(src: Fields, fields: map<string, FieldRule>, order: seq<string>)
    requires Enumerates(order, src.Keys)
    ensures |Renamed(src, fields, order)| == |src| <==> Injective(src, fields)
    ensures |Renamed(src, fields, order)| <= |src|
  {
    EnumerationLength(order, src.Keys);
    assert |src| == |src.Keys| && forall i :: 0 <= i < |order| ==> order[i] in order;
    RenamedSize(src, fields, order);
    DistinctIff(src, fields, order);
  }

  /**
   Renaming keeps every field, under its new name, exactly when the rename is injective on the row;
   otherwise it loses at least one field. When it is, the iteration order makes no difference.
   */
  lemma RenameLosslessIff(src: Fields, fields: map<string, FieldRule>, order: seq<string>)
    requires Enumerates(order, src.Keys)
    ensures |Renamed(src, fields, order)| == |src| <==> Injective(src, fields)
    ensures |Renamed(src, fields, order)| <= |src|
    ensures Injective(src, fields) ==> Carried(src, Renamed(src, fields, order), fields)
    ensures Injective(src, fields) ==>
      forall o | Enumerates(o, src.Keys) :: Renamed(src, fields, o) == Renamed(src, fields, order)
  {
    hide Target, Renamed, Injective, Enumerates, Carried;
    RenamedSizeIff(src, fields, order);
    if Injective(src, fields) {
      CarriedWhenInjective(src, fields, order);
      forall o | Enumerates(o, src.Keys) ensures Renamed(src, fields, o) == Renamed(src, fields, order) {
        CarriedWhenInjective(src, fields, o);
        CarriedIsUnique(src, Renamed(src, fields, o), Renamed(src, fields, order), fields);
      }
    }
  }

  lemma CarriedWhenInjective(src: Fields, fields: map<string, FieldRule>, order: seq<string>)
    requires Enumerates(order, src.Keys) && Injective(src, fields)
    ensures Carried(src, Renamed(src, fields, order), fields)
  {
    hide Target, Renamed;
    var out := Renamed(src, fields, order);
    forall a | a in src ensures Target(fields, a) in out && out[Target(fields, a)] == src[a] {
      var i :| 0 <= i < |order| && order[i] == a;
      assert Named(fields, order, i, Target(fields, a));
      RenamedEntry(src, fields, order, Target(fields, a));
    }
    forall t | t in out ensures exists a :: a in src && Target(fields, a) == t {
      RenamedEntry(src, fields, order, t);
    }
  }

  lemma CarriedIsUnique(src: Fields, x: Fields, y: Fields, fields: map<string, FieldRule>)
    requires Carried(src, x, fields) && Carried(src, y, fields)
    ensures x == y
  {
    assert x.Keys == y.Keys;
  }

  /** The rename can be undone: giving each field its old name back restores the row. */
  lemma RenameInverts(
      src: Fields, fields: map<string, FieldRule>, order: seq<string>,
      inverse: map<string, FieldRule>, back: seq<string>)
    requires Enumerates(order, src.Keys) && Injective(src, fields)
    requires forall a :: a in src ==> Target(inverse, Target(fields, a)) == a
    requires Enumerates(back, Renamed(src, fields, order).Keys)
    ensures Renamed(Renamed(src, fields, order), inverse, back) == src
  {
    hide Target, Renamed;
    var out := Renamed(src, fields, order);
    CarriedWhenInjective(src, fields, order);
    assert Injective(out, inverse) by {
      forall s, t | s in out && t in out && Target(inverse, s) == Target(inverse, t) ensures s == t {
        var a :| a in src && Target(fields, a) == s;
        var b :| b in src && Target(fields, b) == t;
      }
    }
    CarriedWhenInjective(out, inverse, back);
    CarriedBack(src, out, Renamed(out, inverse, back), fields, inverse);
  }

  lemma CarriedBack(
      src: Fields, out: Fields, restored: Fields, fields: map<string, FieldRule>, inverse: map<string, FieldRule>)
    requires Carried(src, out, fields) && Carried(out, restored, inverse)
    requires forall a :: a in src ==> Target(inverse, Target(fields, a)) == a
    ensures restored == src
  {
    hide Target;
    forall a | a in src ensures a in restored && restored[a] == src[a] {
      assert Target(fields, a) in out;
    }
    forall t | t in restored ensures t in src {
      var s :| s in out && Target(inverse, s) == t;
      var a :| a in src && Target(fields, a) == s;
    }
    assert restored.Keys == src.Keys;
  }

  /** Fields that are given the same name carry the same value. */
  ghost predicate Consistent(src: Fields, fields: map<string, FieldRule>) {
    forall a, b | a in src && b in src && Target(fields, a) == Target(fields, b) :: src[a] == src[b]
  }

  ghost function EndingWith(keys: set<string>, k: string): (order: seq<string>)
    requires k in keys
    ensures Enumerates(order, keys) && |order| > 0 && order[|order| - 1] == k
  {
    Listing(keys - {k}) + [k]
  }

  lemma ConsistentEntry(src: Fields, fields: map<string, FieldRule>, o1: seq<string>, o2: seq<string>, t: string)
    requires Enumerates(o1, src.Keys) && Enumerates(o2, src.Keys) && Consistent(src, fields)
    requires t in Renamed(src, fields, o1)
    ensures t in Renamed(src, fields, o2) && Renamed(src, fields, o1)[t] == Renamed(src, fields, o2)[t]
  {
    hide Target, Renamed;
    RenamedEntry(src, fields, o1, t);
    var i :| Named(fields, o1, i, t) && Renamed(src, fields, o1)[t] == src[o1[i]];
    var j :| 0 <= j < |o2| && o2[j] == o1[i];
    assert Named(fields, o2, j, t);
    RenamedEntry(src, fields, o2, t);
    var l :| Named(fields, o2, l, t) && Renamed(src, fields, o2)[t] == src[o2[l]];
  }

  lemma ConsistentRenamesAlike(src: Fields, fields: map<string, FieldRule>, o1: seq<string>, o2: seq<string>)
    requires Enumerates(o1, src.Keys) && Enumerates(o2, src.Keys) && Consistent(src, fields)
    ensures Renamed(src, fields, o1) == Renamed(src, fields, o2)
  {
    hide Renamed, Consistent, Enumerates;
    var x, y := Renamed(src, fields, o1), Renamed(src, fields, o2);
    forall t | t in x ensures t in y && x[t] == y[t] {
      ConsistentEntry(src, fields, o1, o2, t);
    }
    forall t | t in y ensures t in x {
      ConsistentEntry(src, fields, o2, o1, t);
    }
    assert x.Keys == y.Keys;
  }

  lemma LastWins(src: Fields, fields: map<string, FieldRule>, a: string)
    requires a in src
    ensures Target(fields, a) in Renamed(src, fields, EndingWith(src.Keys, a))
    ensures Renamed(src, fields, EndingWith(src.Keys, a))[Target(fields, a)] == src[a]
  {
    hide Target;
  }

  /** The renamed row is independent of Go's map iteration order exactly when colliding fields carry equal values. */
  lemma RenameOrderFreeIff(src: Fields, fields: map<string, FieldRule>)
    ensures (forall o1, o2 | Enumerates(o1, src.Keys) && Enumerates(o2, src.Keys) ::
               Renamed(src, fields, o1) == Renamed(src, fields, o2))
       <==> Consistent(src, fields)
  {
    hide Target, Renamed, EndingWith;
    if Consistent(src, fields) {
      forall o1, o2 | Enumerates(o1, src.Keys) && Enumerates(o2, src.Keys)
        ensures Renamed(src, fields, o1) == Renamed(src, fields, o2)
      {
        ConsistentRenamesAlike(src, fields, o1, o2);
      }
    } else {
      var a, b :| a in src && b in src && Target(fields, a) == Target(fields, b) && src[a] != src[b];
      LastWins(src, fields, a);
      LastWins(src, fields, b);
      var o1, o2 := EndingWith(src.Keys, a), EndingWith(src.Keys, b);
      assert Renamed(src, fields, o1) != Renamed(src, fields, o2);
    }
  }

  /** The iteration orders of the three maps one call ranges over. */
  datatype Orders = Orders(rules: seq<string>, after: seq<string>, before: seq<string>)

  /** Rewrite one row image of the payload, if it is an object. */
  function RenameImage(payload: Fields, name: string, rule: Rule, order: seq<string>): Fields {
    if name in payload && payload[name].Obj? then
      payload[name := Obj(Renamed(payload[name].fields, rule.fields, order))]
    else payload
  }

  function Rewritten(payload: Fields, rule: Rule, orders: Orders): Fields {
    RenameImage(RenameImage(payload, "after", rule, orders.after), "before", rule, orders.before)
  }

  predicate HasPayload(envelope: Wire) {
    envelope.Text? && envelope.json.Obj? && "payload" in envelope.json.fields && envelope.json.fields["payload"].Obj?
  }

  function PayloadOf(canon: string -> string, envelope: Wire): Fields
    requires HasPayload(envelope)
  {
    NormalFields(canon, envelope.json.fields["payload"].fields)
  }

  ghost predicate EnumeratesImage(order: seq<string>, payload: Fields, name: string) {
    name in payload && payload[name].Obj? ==> Enumerates(order, payload[name].fields.Keys)
  }

  /** The orders enumerate the maps they are for. */
  ghost predicate ValidOrders(rules: Rules, canon: string -> string, envelope: Wire, orders: Orders) {
    && Enumerates(orders.rules, rules.Keys)
    && (HasPayload(envelope) ==>
          && EnumeratesImage(orders.after, PayloadOf(canon, envelope), "after")
          && EnumeratesImage(orders.before, PayloadOf(canon, envelope), "before"))
  }

  /** Bytes that do not parse as an object are an error only if the topic has a rule. */
  function Transform(
      rules: Rules, canon: string -> string, topic: string, envelope: Wire, orders: Orders): Result<Wire>
  {
    if !envelope.Text? || !(envelope.json.Obj? || envelope.json.Null?) then
      if LookupByTopicTail(rules, orders.rules, topic).Some? then Err else Ok(envelope)
    else if !HasPayload(envelope) then Ok(envelope)
    else
      var env := NormalFields(canon, envelope.json.fields);
      var payload := env["payload"].fields;
      var rule := LookupForPayload(rules, orders.rules, payload, topic);
      if rule.None? then Ok(envelope) else Ok(Text(Obj(env["payload" := Obj(Rewritten(payload, rule.value, orders))])))
  }

  /** The payload's own source block names a rule, so that the topic is not consulted. */
  predicate SourceNamesRule(rules: Rules, payload: Fields) {
    "source" in payload && payload["source"].Obj? &&
    var schema, table := TextOf(payload["source"].fields, "schema"), TextOf(payload["source"].fields, "table");
    table != "" && ((schema != "" && schema + "." + table in rules) || table in rules)
  }

  /** The rule of a payload does not depend on the order in which Go iterates the rules. */
  ghost predicate RuleDetermined(rules: Rules, payload: Fields, topic: string) {
    || SourceNamesRule(rules, payload)
    || topic == "" || Tail(topic) in rules || SuffixUnambiguous(rules, "." + Tail(topic))
  }

  ghost predicate ConsistentImage(payload: Fields, name: string, rule: Rule) {
    name in payload && payload[name].Obj? ==> Consistent(payload[name].fields, rule.fields)
  }

  /** Some valid iteration orders for one call. */
  ghost function SomeOrders(rules: Rules, canon: string -> string, envelope: Wire): (orders: Orders)
    ensures ValidOrders(rules, canon, envelope, orders)
  {
    Orders(Listing(rules.Keys), SomeImageOrder(canon, envelope, "after"), SomeImageOrder(canon, envelope, "before"))
  }

  ghost function SomeImageOrder(canon: string -> string, envelope: Wire, name: string): seq<string> {
    if HasPayload(envelope) then
      var payload := PayloadOf(canon, envelope);
      if name in payload && payload[name].Obj? then Listing(payload[name].fields.Keys) else []
    else []
  }

  /** An envelope whose rule is determined, and whose images that rule renames without conflict. */
  ghost predicate Determined(rules: Rules, canon: string -> string, topic: string, envelope: Wire) {
    HasPayload(envelope) ==>
      var payload := PayloadOf(canon, envelope);
      var rule := LookupForPayload(rules, Listing(rules.Keys), payload, topic);
      && RuleDetermined(rules, payload, topic)
      && (rule.Some? ==>
            ConsistentImage(payload, "after", rule.value) && ConsistentImage(payload, "before", rule.value))
  }

  lemma LookupOrderFree(rules: Rules, o1: seq<string>, o2: seq<string>, payload: Fields, topic: string)
    requires Enumerates(o1, rules.Keys) && Enumerates(o2, rules.Keys) && RuleDetermined(rules, payload, topic)
    ensures LookupForPayload(rules, o1, payload, topic) == LookupForPayload(rules, o2, payload, topic)
  {
    hide LookupByTopicTail, Enumerates, SuffixUnambiguous, Tail;
    if !SourceNamesRule(rules, payload) {
      TailLookupDeterministicIff(rules, topic);
    }
  }

  lemma FoundOrderFree(rules: Rules, o1: seq<string>, o2: seq<string>, topic: string)
    requires Enumerates(o1, rules.Keys) && Enumerates(o2, rules.Keys)
    ensures LookupByTopicTail(rules, o1, topic).Some? <==> LookupByTopicTail(rules, o2, topic).Some?
  {
    ScanFinds(rules, o1, "." + Tail(topic));
    ScanFinds(rules, o2, "." + Tail(topic));
  }

  lemma RewrittenOrderFree(payload: Fields, rule: Rule, o1: Orders, o2: Orders)
    requires ConsistentImage(payload, "after", rule) && ConsistentImage(payload, "before", rule)
    requires EnumeratesImage(o1.after, payload, "after") && EnumeratesImage(o2.after, payload, "after")
    requires EnumeratesImage(o1.before, payload, "before") && EnumeratesImage(o2.before, payload, "before")
    ensures Rewritten(payload, rule, o1) == Rewritten(payload, rule, o2)
  {
    hide Renamed, Consistent, Enumerates;
    if "after" in payload && payload["after"].Obj? {
      ConsistentRenamesAlike(payload["after"].fields, rule.fields, o1.after, o2.after);
    }
    if "before" in payload && payload["before"].Obj? {
      ConsistentRenamesAlike(payload["before"].fields, rule.fields, o1.before, o2.before);
    }
  }

  /**
   Whether an envelope is forwarded never depends on map iteration order; what is forwarded does not
   either if the envelope is determined.
   */
  lemma TransformOrderFree(rules: Rules, canon: string -> string, topic: string, envelope: Wire, orders: Orders)
    requires ValidOrders(rules, canon, envelope, orders)
    ensures Transform(rules, canon, topic, envelope, orders).Ok?
       <==> Transform(rules, canon, topic, envelope, SomeOrders(rules, canon, envelope)).Ok?
    ensures Determined(rules, canon, topic, envelope) ==>
      Transform(rules, canon, topic, envelope, orders)
        == Transform(rules, canon, topic, envelope, SomeOrders(rules, canon, envelope))
  {
    hide LookupByTopicTail, LookupForPayload, Rewritten, RuleDetermined, ConsistentImage, EnumeratesImage, Normal;
    var some := SomeOrders(rules, canon, envelope);
    FoundOrderFree(rules, orders.rules, some.rules, topic);
    if HasPayload(envelope) {
      var payload := PayloadOf(canon, envelope);
      NormalPayload(canon, envelope.json.fields);
      if Determined(rules, canon, topic, envelope) {
        LookupOrderFree(rules, orders.rules, some.rules, payload, topic);
        var rule := LookupForPayload(rules, some.rules, payload, topic);
        if rule.Some? {
          RewrittenOrderFree(payload, rule.value, orders, some);
        }
      }
    }
  }

  lemma NormalPayload(canon: string -> string, fields: Fields)
    requires "payload" in fields && fields["payload"].Obj?
    ensures NormalFields(canon, fields)["payload"] == Obj(NormalFields(canon, fields["payload"].fields))
  {
  }

  /**
   What one call makes of a value. It fails only for bytes that are no JSON object or null on a topic
   that has a rule; it passes on unchanged other such bytes, an envelope without a payload object, and
   one that no rule is for.
   */
  lemma TransformIs(rules: Rules, canon: string -> string, topic: string, envelope: Wire, orders: Orders)
    ensures var r := Transform(rules, canon, topic, envelope, orders);
      if !envelope.Text? || !(envelope.json.Obj? || envelope.json == Null) then
        r == if LookupByTopicTail(rules, orders.rules, topic).Some? then Err else Ok(envelope)
      else if !HasPayload(envelope) then r == Ok(envelope)
      else
        var rule := LookupForPayload(rules, orders.rules, PayloadOf(canon, envelope), topic);
        if rule.None? then r == Ok(envelope)
        else r.Ok? && RewrittenEnvelope(canon, envelope, rule.value, orders, r.value)
  {
    hide LookupByTopicTail, LookupForPayload, Rewritten, RewrittenEnvelope, Normal;
    if HasPayload(envelope) {
      NormalPayload(canon, envelope.json.fields);
      var rule := LookupForPayload(rules, orders.rules, PayloadOf(canon, envelope), topic);
      if rule.Some? {
        EnvelopeIs(canon, envelope, rule.value, orders);
      }
    }
  }

  lemma EnvelopeIs(canon: string -> string, envelope: Wire, rule: Rule, orders: Orders)
    requires HasPayload(envelope)
    ensures var payload := Rewritten(PayloadOf(canon, envelope), rule, orders);
      var sent := Text(Obj(NormalFields(canon, envelope.json.fields)["payload" := Obj(payload)]));
      RewrittenEnvelope(canon, envelope, rule, orders, sent)
  {
    hide Renamed, Normal;
    var before, after := PayloadOf(canon, envelope), Rewritten(PayloadOf(canon, envelope), rule, orders);
    assert after.Keys == before.Keys;
    var sent := NormalFields(canon, envelope.json.fields)["payload" := Obj(after)];
    assert sent.Keys == envelope.json.fields.Keys;
  }

  /** One row image against what it was: renamed if it is an object, otherwise as it was. */
  ghost predicate ImageRewritten(before: Fields, after: Fields, name: string, rule: Rule, order: seq<string>) {
    && (name in after <==> name in before)
    && (name in before && before[name].Obj? ==> after[name] == Obj(Renamed(before[name].fields, rule.fields, order)))
    && (name in before && !before[name].Obj? ==> after[name] == before[name])
  }

  /** Only the two row images change, apart from numbers being printed anew. */
  ghost predicate RewrittenEnvelope(canon: string -> string, envelope: Wire, rule: Rule, orders: Orders, sent: Wire)
    requires HasPayload(envelope)
  {
    && HasPayload(sent)
    && sent.json.fields.Keys == envelope.json.fields.Keys
    && (forall m | m in envelope.json.fields && m != "payload" ::
          sent.json.fields[m] == Normal(canon, envelope.json.fields[m]))
    && var before, after := PayloadOf(canon, envelope), sent.json.fields["payload"].fields;
       && after.Keys == before.Keys
       && (forall m | m in before && m != "after" && m != "before" :: after[m] == before[m])
       && ImageRewritten(before, after, "after", rule, orders.after)
       && ImageRewritten(before, after, "before", rule, orders.before)
  }

  /** So each row image that is sent has its fields under the names the rule gives them. */
  lemma SentImageIs(
      rules: Rules, canon: string -> string, topic: string, envelope: Wire, orders: Orders, name: string)
    requires HasPayload(envelope) && (name == "after" || name == "before")
    requires ValidOrders(rules, canon, envelope, orders)
    requires LookupForPayload(rules, orders.rules, PayloadOf(canon, envelope), topic).Some?
    requires name in PayloadOf(canon, envelope) && PayloadOf(canon, envelope)[name].Obj?
    ensures var rule := LookupForPayload(rules, orders.rules, PayloadOf(canon, envelope), topic).value;
      var r := Transform(rules, canon, topic, envelope, orders);
      && r.Ok? && HasPayload(r.value)
      && name in r.value.json.fields["payload"].fields && r.value.json.fields["payload"].fields[name].Obj?
      && RenamesTo(
           PayloadOf(canon, envelope)[name].fields, rule.fields, r.value.json.fields["payload"].fields[name].fields)
  {
    hide Transform, LookupForPayload, Renamed, RenamesTo;
    TransformIs(rules, canon, topic, envelope, orders);
    var rule := LookupForPayload(rules, orders.rules, PayloadOf(canon, envelope), topic).value;
    var order := if name == "after" then orders.after else orders.before;
    RenamedMeans(PayloadOf(canon, envelope)[name].fields, rule.fields, order);
  }

  class RuleMapper {
    const byQName: Rules

    constructor (rules: Rules)
      ensures byQName == rules
    {
      byQName := rules;
    }

    method ApplyJSON(canon: string -> string, topic: string, envelope: Wire, orders: Orders) returns (r: Result<Wire>)
      requires ValidOrders(byQName, canon, envelope, orders)
      ensures r == Transform(byQName, canon, topic, envelope, orders)
    {
      if !envelope.Text? || !(envelope.json.Obj? || envelope.json.Null?) {
        var rule := LookupByTopicTail(byQName, orders.rules, topic);
        return if rule.Some? then Err else Ok(envelope);
      }
      if envelope.json.Null? {
        return Ok(envelope);
      }
      var env := NormalFields(canon, envelope.json.fields);
      if "payload" !in env || !env["payload"].Obj? {
        return Ok(envelope);
      }
      var payload := env["payload"].fields;
      var rule := LookupForPayload(byQName, orders.rules, payload, topic);
      if rule.None? {
        return Ok(envelope);
      }
      if "after" in payload && payload["after"].Obj? {
        var after := RenameKeys(payload["after"].fields, rule.value.fields, orders.after);
        payload := payload["after" := Obj(after)];
      }
      if "before" in payload && payload["before"].Obj? {
        var before := RenameKeys(payload["before"].fields, rule.value.fields, orders.before);
        payload := payload["before" := Obj(before)];
      }
      env := env["payload" := Obj(payload)];
      return Ok(Text(Obj(env)));
    }
  }
}
