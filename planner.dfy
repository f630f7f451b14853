/** The planner (python/omni_api/planner.py): flatten the source payload into leaf paths,
    pick a source path for every target property by three match tiers, break ties, and
    record ambiguity warnings, drops and the required list. */
module Planner {
  import opened Wrappers
  import opened Json
  import opened LexOrder
  import opened Text
  import opened PlanTypes

  // ---------------------------------------------------------------------------------------
  // Name normalization

  /** `_normalize`: drop every underscore, then lower-case. */
  function Normalize(s: string): (r: string)
    ensures '_' !in r
    ensures forall i :: 0 <= i < |r| ==> !IsAsciiUpper(r[i])
  {
    var r := Lower(Without(s, '_'));
    assert '_' !in r by {
      forall i | 0 <= i < |r| ensures r[i] != '_' {
        assert Without(s, '_')[i] in Without(s, '_');
      }
    }
    r
  }

  /** Normalizing twice is normalizing once. */
  lemma NormalizeIdempotent(s: string)
    ensures Normalize(Normalize(s)) == Normalize(s)
  {
    var n := Normalize(s);
    assert Without(n, '_') == n;
    LowerOfLower(n);
  }

  lemma LowerOfLower(s: string)
    requires forall i :: 0 <= i < |s| ==> !IsAsciiUpper(s[i])
    ensures Lower(s) == s
  {
  }

  // ---------------------------------------------------------------------------------------
  // Flattening

  /** `f"{prefix}.{key}" if prefix else key`. */
  function ChildPath(prefix: string, key: string): string
  {
    if prefix == "" then key else prefix + "." + key
  }

  /** The (path, value) leaves `_flatten_paths` returns for the dict `obj`: its keys in sorted
      order, a dict value expanded in place, any other value emitted as a leaf. */
  function FlattenObject(obj: Value, prefix: string): seq<(string, Value)>
    requires obj.Object?
    decreases obj, 1
  {
    FlattenKeys(obj, SortSet(obj.fields.Keys), prefix)
  }

  /** The leaves contributed by the given keys of `obj`, in the order of `keys`. */
  function FlattenKeys(obj: Value, keys: seq<string>, prefix: string): seq<(string, Value)>
    requires obj.Object? && forall i :: 0 <= i < |keys| ==> keys[i] in obj.fields
    decreases obj, 0, |keys|
  {
    if keys == [] then []
    else
      var key := keys[|keys| - 1];
      var child := obj.fields[key];
      var path := ChildPath(prefix, key);
      FlattenKeys(obj, keys[..|keys| - 1], prefix) +
      (if child.Object? then FlattenObject(child, path) else [(path, child)])
  }

  /** `_flatten_paths(payload, prefix)`: the loop over the sorted keys extends `paths` with
      the leaves of each nested dict and appends every other value. */
  method FlattenPaths(payload: map<string, Value>, prefix: string) returns (paths: seq<(string, Value)>)
    ensures paths == FlattenObject(Object(payload), prefix)
    decreases Object(payload)
  {
    ghost var obj := Object(payload);
    var keys := SortSet(payload.Keys);
    paths := [];
    for i := 0 to |keys|
      invariant paths == FlattenKeys(obj, keys[..i], prefix)
    {
      var key := keys[i];
      var path := ChildPath(prefix, key);
      var value := payload[key];
      FlattenKeysStep(obj, keys, i, prefix);
      if value.Object? {
        var nested := FlattenPaths(value.fields, path);
        paths := paths + nested;
      } else {
        paths := paths + [(path, value)];
      }
    }
    assert keys[..|keys|] == keys;
  }

  /** One more key extends the leaves by that key's own leaves. */
  lemma FlattenKeysStep(obj: Value, keys: seq<string>, i: nat, prefix: string)
    requires obj.Object? && i < |keys| && forall k :: 0 <= k < |keys| ==> keys[k] in obj.fields
    ensures var child := obj.fields[keys[i]];
      var path := ChildPath(prefix, keys[i]);
      FlattenKeys(obj, keys[..i + 1], prefix) ==
        FlattenKeys(obj, keys[..i], prefix) + (if child.Object? then FlattenObject(child, path) else [(path, child)])
  {
    assert keys[..i + 1][..i] == keys[..i];
  }

  /** Only leaves are emitted: no flattened value is a dict. */
  lemma {:induction false} FlattenLeavesOnly(obj: Value, prefix: string)
    requires obj.Object?
    ensures forall i :: 0 <= i < |FlattenObject(obj, prefix)| ==> !FlattenObject(obj, prefix)[i].1.Object?
    decreases obj, 1
  {
    FlattenKeysLeavesOnly(obj, SortSet(obj.fields.Keys), prefix);
  }

  lemma {:induction false} FlattenKeysLeavesOnly(obj: Value, keys: seq<string>, prefix: string)
    requires obj.Object? && forall i :: 0 <= i < |keys| ==> keys[i] in obj.fields
    ensures forall i :: 0 <= i < |FlattenKeys(obj, keys, prefix)| ==> !FlattenKeys(obj, keys, prefix)[i].1.Object?
    decreases obj, 0, |keys|
  {
    if keys != [] {
      var key := keys[|keys| - 1];
      var child := obj.fields[key];
      FlattenKeysLeavesOnly(obj, keys[..|keys| - 1], prefix);
      if child.Object? { FlattenLeavesOnly(child, ChildPath(prefix, key)); }
    }
  }

  /** A key whose value is an empty dict contributes no path; a key whose value is not a dict
      contributes exactly its own path. */
  lemma FlattenOneKey(key: string, v: Value, prefix: string)
    ensures FlattenObject(Object(map[key := v]), prefix) ==
      if v.Object? then FlattenObject(v, ChildPath(prefix, key)) else [(ChildPath(prefix, key), v)]
    ensures v == Object(map[]) ==> FlattenObject(Object(map[key := v]), prefix) == []
  {
    var obj := Object(map[key := v]);
    var keys := SortSet(obj.fields.Keys);
    assert keys == [key] by { assert |keys| == 1 && keys[0] in obj.fields.Keys; }
    assert keys[..0] == [];
    assert FlattenKeys(obj, keys, prefix) == FlattenKeys(obj, [], prefix) +
      (if v.Object? then FlattenObject(v, ChildPath(prefix, key)) else [(ChildPath(prefix, key), v)]);
    if v == Object(map[]) {
      assert SortSet(v.fields.Keys) == [];
    }
  }

  /** `[path for path, _ in flattened]`. */
  function PathsOf(leaves: seq<(string, Value)>): (r: seq<string>)
    ensures |r| == |leaves| && forall i :: 0 <= i < |r| ==> r[i] == leaves[i].0
  {
    seq(|leaves|, i requires 0 <= i < |leaves| => leaves[i].0)
  }

  // ---------------------------------------------------------------------------------------
  // Candidate selection

  /** The three match tiers of `_best_candidates`, in priority order. */
  datatype Tier = Exact | ShallowNormalized | NestedLeaf

  /** Whether `path` is a candidate for `target` in `tier`: the same string; a dot-free path
      with the same normalized form; a dotted path whose last segment normalizes to it. */
  predicate Matches(tier: Tier, target: string, path: string)
  {
    match tier
    case Exact => path == target
    case ShallowNormalized => '.' !in path && Normalize(path) == Normalize(target)
    case NestedLeaf => '.' in path && Normalize(LastPiece(path, '.')) == Normalize(target)
  }

  /** The list comprehension of one tier: the matching paths, in source order. */
  function Filter(tier: Tier, target: string, paths: seq<string>): (r: seq<string>)
    ensures forall p :: p in r <==> p in paths && Matches(tier, target, p)
    ensures forall i :: 0 <= i < |r| ==> Matches(tier, target, r[i])
  {
    if paths == [] then []
    else (if Matches(tier, target, paths[0]) then [paths[0]] else []) + Filter(tier, target, paths[1..])
  }

  /** The first tier, in priority order, in which some path matches; `None` when no tier does. */
  ghost function FirstTier(target: string, paths: seq<string>): Option<Tier>
  {
    if exists p :: p in paths && Matches(Exact, target, p) then Some(Exact)
    else if exists p :: p in paths && Matches(ShallowNormalized, target, p) then Some(ShallowNormalized)
    else if exists p :: p in paths && Matches(NestedLeaf, target, p) then Some(NestedLeaf)
    else None
  }

  /** `_best_candidates`: the candidates of the first tier that has any, with the ambiguity
      group that only the nested-leaf tier fills in (see BestCandidatesTiers). */
  function BestCandidates(target: string, paths: seq<string>): (r: (seq<string>, seq<string>))
    ensures forall c :: c in r.0 ==> c in paths
    ensures r.1 != [] ==> r.1 == r.0
  {
    var exact := Filter(Exact, target, paths);
    if exact != [] then (exact, [])
    else
      var direct := Filter(ShallowNormalized, target, paths);
      if direct != [] then (direct, [])
      else
        var nested := Filter(NestedLeaf, target, paths);
        if nested != [] then (nested, nested) else ([], [])
  }

  /** The candidates are exactly the matches of the first tier that has any: a later tier is
      never consulted once an earlier one matched, and only the nested-leaf tier returns an
      ambiguity group. */
  lemma BestCandidatesTiers(target: string, paths: seq<string>)
    ensures FirstTier(target, paths).None? <==> BestCandidates(target, paths).0 == []
    ensures FirstTier(target, paths).Some? ==>
      forall p :: p in BestCandidates(target, paths).0 <==>
        p in paths && Matches(FirstTier(target, paths).value, target, p)
    ensures BestCandidates(target, paths).1 != [] <==> FirstTier(target, paths) == Some(NestedLeaf)
  {
    var exact := Filter(Exact, target, paths);
    var direct := Filter(ShallowNormalized, target, paths);
    var nested := Filter(NestedLeaf, target, paths);
    if exact != [] {
      assert exact[0] in exact;
    } else if direct != [] {
      assert direct[0] in direct;
    } else if nested != [] {
      assert nested[0] in nested;
    }
  }

  /** An exact match wins: when the target itself is a source path, it is the only candidate
      and there is no ambiguity group, whatever the later tiers would have found. */
  lemma ExactMatchFirst(target: string, paths: seq<string>)
    requires target in paths
    ensures BestCandidates(target, paths).1 == []
    ensures forall c :: c in BestCandidates(target, paths).0 <==> c == target
  {
    assert Matches(Exact, target, target);
  }

  /** `_tie_break`: `sorted(candidates, key=lambda p: (len(p), p))[0]`. */
  function TieBreak(candidates: seq<string>): (r: string)
    requires candidates != []
    ensures r in candidates
    ensures forall c :: c in candidates ==> ShortLexLe(r, c)
  {
    if |candidates| == 1 then
      LexLeRefl(candidates[0]);
      candidates[0]
    else
      var rest := TieBreak(candidates[1..]);
      var head := candidates[0];
      assert candidates == [head] + candidates[1..];
      if ShortLexLe(head, rest) then
        LexLeRefl(head);
        forall c | c in candidates[1..] ensures ShortLexLe(head, c) { ShortLexTrans(head, rest, c); }
        head
      else
        LexLeTotal(head, rest);
        rest
  }

  lemma ShortLexTrans(a: string, b: string, c: string)
    requires ShortLexLe(a, b) && ShortLexLe(b, c)
    ensures ShortLexLe(a, c)
  {
    if |a| == |b| == |c| { LexLeTrans(a, b, c); }
  }

  /** The tie-break winner is the one least candidate: any candidate that is at most every
      other candidate is it. */
  lemma TieBreakUnique(candidates: seq<string>, x: string)
    requires x in candidates && forall c :: c in candidates ==> ShortLexLe(x, c)
    ensures TieBreak(candidates) == x
  {
    var r := TieBreak(candidates);
    assert ShortLexLe(x, r) && ShortLexLe(r, x);
    LexLeAntisym(x, r);
  }

  // ---------------------------------------------------------------------------------------
  // The plan

  /** The mapping `build_plan` records for one target property, if any candidate exists. */
  function Decide(target: string, paths: seq<string>): Option<Mapping>
  {
    var (candidates, _) := BestCandidates(target, paths);
    if candidates == [] then None else Some(Mapping(TieBreak(candidates), target, CopyOp))
  }

  /** The warning `build_plan` records for one target property: only for an ambiguity group
      of more than one nested-leaf candidate. */
  function WarningFor(target: string, paths: seq<string>): seq<PlanWarning>
  {
    var (candidates, group) := BestCandidates(target, paths);
    if |group| > 1 then [AmbiguousMapping(target, Sort(group), TieBreak(candidates))] else []
  }

  /** The mappings recorded for the targets, in target order. */
  function MappingsFor(paths: seq<string>, targets: seq<string>): seq<Mapping>
  {
    if targets == [] then []
    else
      MappingsFor(paths, targets[..|targets| - 1]) +
      (match Decide(targets[|targets| - 1], paths) case Some(m) => [m] case None => [])
  }

  /** The ambiguity warnings recorded for the targets, in target order. */
  function WarningsFor(paths: seq<string>, targets: seq<string>): seq<PlanWarning>
  {
    if targets == [] then []
    else WarningsFor(paths, targets[..|targets| - 1]) + WarningFor(targets[|targets| - 1], paths)
  }

  /** The source paths some mapping reads (`mapped_from`). */
  function ChosenPaths(mappings: seq<Mapping>): set<string>
  {
    set i | 0 <= i < |mappings| :: mappings[i].fromPath
  }

  /** `[path for path in source_paths if path not in mapped_from]`. */
  function Unconsumed(paths: seq<string>, chosen: set<string>): (r: seq<string>)
    ensures forall p :: p in r <==> p in paths && p !in chosen
  {
    if paths == [] then []
    else (if paths[0] in chosen then [] else [paths[0]]) + Unconsumed(paths[1..], chosen)
  }

  /** Each unchosen path is kept as often as it occurs, and a chosen one never. */
  lemma {:induction false} UnconsumedCounts(paths: seq<string>, chosen: set<string>)
    ensures forall p ::
      multiset(Unconsumed(paths, chosen))[p] == if p in chosen then 0 else multiset(paths)[p]
  {
    if paths != [] {
      assert paths == [paths[0]] + paths[1..];
      UnconsumedCounts(paths[1..], chosen);
    }
  }

  /** `[key for key in required if isinstance(key, str)]` for a list `required`. */
  function StringEntries(items: seq<Value>): (r: seq<string>)
    ensures forall s :: s in r <==> Str(s) in items
  {
    if items == [] then []
    else
      (if items[0].Str? then [items[0].s] else []) + StringEntries(items[1..])
  }

  /** Each string is kept as often as it occurs as an entry. */
  lemma {:induction false} StringEntriesCounts(items: seq<Value>)
    ensures forall s :: multiset(StringEntries(items))[s] == multiset(items)[Str(s)]
  {
    if items != [] {
      assert items == [items[0]] + items[1..];
      StringEntriesCounts(items[1..]);
    }
  }

  /** Keeping the string entries works piece by piece, so they stay in list order. */
  lemma {:induction false} StringEntriesConcat(a: seq<Value>, b: seq<Value>)
    ensures StringEntries(a + b) == StringEntries(a) + StringEntries(b)
  {
    if a == [] {
      assert a + b == b;
    } else {
      assert (a + b)[0] == a[0] && (a + b)[1..] == a[1..] + b;
      StringEntriesConcat(a[1..], b);
    }
  }

  /** A single entry is kept, as its string, exactly when it is a string. */
  lemma StringEntriesOne(v: Value)
    ensures StringEntries([v]) == if v.Str? then [v.s] else []
  {
    assert [v][1..] == [];
  }

  /** The schema's `required` entry as `build_plan` iterates it: absent is empty; a list keeps
      its strings in order; a string iterates its characters; a dict iterates its keys (in
      sorted order here); any other value is not iterable and raises. */
  function RequiredNames(entries: map<string, Value>): Option<seq<string>>
  {
    if "required" !in entries then Some([])
    else
      match entries["required"]
      case Array(items) => Some(StringEntries(items))
      case Str(s) => Some(seq(|s|, i requires 0 <= i < |s| => [s[i]]))
      case Object(fields) => Some(SortSet(fields.Keys))
      case _ => None
  }

  /** The plan `build_plan` returns for a source payload and a target schema. */
  function PlanOf(source: map<string, Value>, schema: TargetSchema): Result<TransformPlan, TransformError>
  {
    var paths := PathsOf(FlattenObject(Object(source), ""));
    var mappings := MappingsFor(paths, schema.propertyOrder);
    var warnings := WarningsFor(paths, schema.propertyOrder);
    var drops := Sort(Unconsumed(paths, ChosenPaths(mappings)));
    match RequiredNames(schema.entries)
    case None => Err(RequiredNotIterable)
    case Some(required) => Ok(TransformPlan(PlanVersion, mappings, [], drops, required, warnings))
  }

  lemma PlanStep(paths: seq<string>, targets: seq<string>, i: nat)
    requires i < |targets|
    ensures MappingsFor(paths, targets[..i + 1]) ==
      MappingsFor(paths, targets[..i]) + (match Decide(targets[i], paths) case Some(m) => [m] case None => [])
    ensures WarningsFor(paths, targets[..i + 1]) == WarningsFor(paths, targets[..i]) + WarningFor(targets[i], paths)
  {
    assert targets[..i + 1][..i] == targets[..i];
  }

  lemma ChosenPathsAppend(mappings: seq<Mapping>, m: Mapping)
    ensures ChosenPaths(mappings + [m]) == ChosenPaths(mappings) + {m.fromPath}
  {
    var ms := mappings + [m];
    assert ms[|mappings|] == m;
    forall p | p in ChosenPaths(mappings) ensures p in ChosenPaths(ms) {
      var i :| 0 <= i < |mappings| && mappings[i].fromPath == p;
      assert ms[i] == mappings[i];
    }
  }

  /** `build_plan`: one pass over the schema's properties, appending to `mappings` and
      `warnings` and adding each chosen path to `mapped_from`. */
  method BuildPlan(source: map<string, Value>, schema: TargetSchema) returns (r: Result<TransformPlan, TransformError>)
    requires schema.PropertiesUsable() && schema.Valid()
    ensures r == PlanOf(source, schema)
  {
    var flattened := FlattenPaths(source, "");
    var sourcePaths := PathsOf(flattened);
    var mappings: seq<Mapping> := [];
    var warnings: seq<PlanWarning> := [];
    var mappedFrom: set<string> := {};
    var properties := schema.propertyOrder;
    for i := 0 to |properties|
      invariant mappings == MappingsFor(sourcePaths, properties[..i])
      invariant warnings == WarningsFor(sourcePaths, properties[..i])
      invariant mappedFrom == ChosenPaths(mappings)
    {
      var targetKey := properties[i];
      PlanStep(sourcePaths, properties, i);
      var (candidates, ambiguousGroup) := BestCandidates(targetKey, sourcePaths);
      if candidates == [] {
        continue;
      }
      var chosen := TieBreak(candidates);
      ChosenPathsAppend(mappings, Mapping(chosen, targetKey, CopyOp));
      mappings := mappings + [Mapping(chosen, targetKey, CopyOp)];
      mappedFrom := mappedFrom + {chosen};
      if |ambiguousGroup| > 1 {
        warnings := warnings + [AmbiguousMapping(targetKey, Sort(ambiguousGroup), chosen)];
      }
    }
    assert properties[..|properties|] == properties;
    var drops := Sort(Unconsumed(sourcePaths, mappedFrom));
    var required := RequiredNames(schema.entries);
    if required.None? {
      return Err(RequiredNotIterable);
    }
    r := Ok(TransformPlan(PlanVersion, mappings, [], drops, required.value, warnings));
  }

  // ---------------------------------------------------------------------------------------
  // Properties of the plan

  /** The target keys of a list of mappings, in order. */
  function ToKeys(mappings: seq<Mapping>): (r: seq<string>)
    ensures |r| == |mappings| && forall i :: 0 <= i < |r| ==> r[i] == mappings[i].toKey
  {
    seq(|mappings|, i requires 0 <= i < |mappings| => mappings[i].toKey)
  }

  /** The targets for which some source path matches in some tier, in target order. */
  ghost function Matched(paths: seq<string>, targets: seq<string>): seq<string>
  {
    if targets == [] then []
    else
      Matched(paths, targets[..|targets| - 1]) +
      (if FirstTier(targets[|targets| - 1], paths).Some? then [targets[|targets| - 1]] else [])
  }

  /** Mappings follow the order of the schema's properties, one for each property that has a
      candidate and none for the others. */
  lemma {:induction false} MappingsFollowTargets(paths: seq<string>, targets: seq<string>)
    ensures ToKeys(MappingsFor(paths, targets)) == Matched(paths, targets)
  {
    if targets != [] {
      var init := targets[..|targets| - 1];
      var t := targets[|targets| - 1];
      MappingsFollowTargets(paths, init);
      BestCandidatesTiers(t, paths);
      var ms := MappingsFor(paths, init);
      var step := match Decide(t, paths) case Some(m) => [m] case None => [];
      assert MappingsFor(paths, targets) == ms + step;
      assert ToKeys(step) == if FirstTier(t, paths).Some? then [t] else [];
      assert ToKeys(ms + step) == ToKeys(ms) + ToKeys(step) by {
        assert |ToKeys(ms + step)| == |ToKeys(ms) + ToKeys(step)|;
      }
    }
  }

  /** A mapping the planner may emit for `targets`: it copies the tie-break winner among the
      property's best candidates, which is a flattened source path. */
  ghost predicate Planned(m: Mapping, paths: seq<string>, targets: seq<string>)
  {
    && m.toKey in targets
    && m.fromPath in paths
    && m.op == CopyOp
    && BestCandidates(m.toKey, paths).0 != []
    && m.fromPath == TieBreak(BestCandidates(m.toKey, paths).0)
  }

  /** Each mapping copies the tie-break winner among its property's candidates, which is a
      flattened source path. */
  lemma {:induction false} MappingsArePlanned(paths: seq<string>, targets: seq<string>)
    ensures forall m :: m in MappingsFor(paths, targets) ==> Planned(m, paths, targets)
  {
    if targets != [] {
      var init := targets[..|targets| - 1];
      var t := targets[|targets| - 1];
      MappingsArePlanned(paths, init);
      var ms := MappingsFor(paths, init);
      forall m | m in ms ensures Planned(m, paths, targets) {
        assert Planned(m, paths, init);
      }
      match Decide(t, paths)
      case None =>
      case Some(m) =>
        assert m.fromPath in BestCandidates(t, paths).0;
        assert Planned(m, paths, targets);
    }
  }

  /** With distinct property names, no property gets two mappings. */
  lemma AtMostOnePerTarget(paths: seq<string>, targets: seq<string>)
    requires forall i, j :: 0 <= i < j < |targets| ==> targets[i] != targets[j]
    ensures forall i, j :: 0 <= i < j < |MappingsFor(paths, targets)| ==>
      MappingsFor(paths, targets)[i].toKey != MappingsFor(paths, targets)[j].toKey
  {
    MappingsFollowTargets(paths, targets);
    MatchedDistinct(paths, targets);
  }

  lemma {:induction false} MatchedDistinct(paths: seq<string>, targets: seq<string>)
    requires forall i, j :: 0 <= i < j < |targets| ==> targets[i] != targets[j]
    ensures forall x :: x in Matched(paths, targets) ==> x in targets
    ensures forall i, j :: 0 <= i < j < |Matched(paths, targets)| ==>
      Matched(paths, targets)[i] != Matched(paths, targets)[j]
  {
    if targets != [] {
      var init := targets[..|targets| - 1];
      MatchedDistinct(paths, init);
      assert targets[|targets| - 1] !in init;
    }
  }

  /** Two properties may choose the same source path: `name` and `Name` both read `name`. */
  lemma SharedSourcePath()
    ensures MappingsFor(["name"], ["name", "Name"]) ==
      [Mapping("name", "name", CopyOp), Mapping("name", "Name", CopyOp)]
  {
    var paths := ["name"];
    assert Normalize("Name") == "name" && Normalize("name") == "name";
    assert Filter(Exact, "name", paths) == ["name"];
    assert Filter(Exact, "Name", paths) == [];
    assert Filter(ShallowNormalized, "Name", paths) == ["name"];
    assert ["name", "Name"][..1] == ["name"];
  }

  /** A dot-free path that keeps a character (not an underscore, not upper case) missing
      from the target's normalized form is no candidate for it in any tier. */
  lemma NoSharedNormal(tier: Tier, target: string, path: string, x: char)
    requires '.' !in path && x in path && x != '_' && !IsAsciiUpper(x) && x !in Normalize(target)
    ensures !Matches(tier, target, path)
  {
    NormalizeKeeps(path, x);
  }

  /** `full_name` is not a candidate for `name` in any tier: it normalizes to `fullname`,
      which keeps the `f` that `name` lacks. */
  lemma FullNameIsNotName(tier: Tier)
    ensures !Matches(tier, "name", "full_name")
  {
    LowerOfLower("name");
    assert Normalize("name") == "name";
    NoSharedNormal(tier, "name", "full_name", 'f');
  }

  /** A dotted path whose last segment keeps a character (not an underscore, not upper case)
      missing from the target's normalized form is no candidate for it in any tier. */
  lemma NoSharedLeaf(tier: Tier, target: string, prefix: string, leaf: string, x: char)
    requires '.' !in leaf && x in leaf && x != '_' && !IsAsciiUpper(x) && x !in Normalize(target)
    requires target != prefix + ['.'] + leaf
    ensures !Matches(tier, target, prefix + ['.'] + leaf)
  {
    var path := prefix + ['.'] + leaf;
    assert path[|prefix|] == '.';
    SplitConcat(prefix, leaf, '.');
    SplitNoSep(leaf, '.');
    assert LastPiece(path, '.') == leaf;
    NormalizeKeeps(leaf, x);
  }

  /** `name` is its own normalized form. */
  lemma NameIsNormal()
    ensures Normalize("name") == "name"
  {
    LowerOfLower("name");
  }

  /** `age` keeps the `g` that `name` lacks. */
  lemma AgeIsNotName(tier: Tier)
    ensures !Matches(tier, "name", "age")
  {
    NameIsNormal();
    NoSharedNormal(tier, "name", "age", 'g');
  }

  /** `extra_data` keeps the `x` that `name` lacks. */
  lemma ExtraDataIsNotName(tier: Tier)
    ensures !Matches(tier, "name", "extra_data")
  {
    NameIsNormal();
    NoSharedNormal(tier, "name", "extra_data", 'x');
  }

  /** The last segment of `contact.email` keeps the `i` that `name` lacks. */
  lemma ContactEmailIsNotName(tier: Tier)
    ensures !Matches(tier, "name", "contact.email")
  {
    NameIsNormal();
    assert "contact.email" == "contact" + ['.'] + "email";
    NoSharedLeaf(tier, "name", "contact", "email", 'i');
  }

  /** None of the flattened paths of the end-to-end example (`age`, `contact.email`,
      `extra_data`, `full_name`) is a candidate for `name` in any tier. */
  lemma ExamplePathsAreNotName(tier: Tier)
    ensures !Matches(tier, "name", "age")
    ensures !Matches(tier, "name", "contact.email")
    ensures !Matches(tier, "name", "extra_data")
    ensures !Matches(tier, "name", "full_name")
  {
    AgeIsNotName(tier);
    ContactEmailIsNotName(tier);
    ExtraDataIsNotName(tier);
    FullNameIsNotName(tier);
  }

  /** Normalizing keeps every character that is neither an underscore nor upper case. */
  lemma NormalizeKeeps(s: string, x: char)
    requires x in s && x != '_' && !IsAsciiUpper(x)
    ensures x in Normalize(s)
  {
    var w := Without(s, '_');
    var i :| 0 <= i < |w| && w[i] == x;
    assert Normalize(s)[i] == x;
  }

  /** An exact match is always taken: a property that is itself a flattened path copies that
      path, and gets no ambiguity warning. */
  lemma {:induction false} ExactMatchMapping(paths: seq<string>, targets: seq<string>, t: string)
    requires t in targets && t in paths
    ensures Mapping(t, t, CopyOp) in MappingsFor(paths, targets)
    ensures forall w :: w in WarningsFor(paths, targets) ==> w.target != t
  {
    var init := targets[..|targets| - 1];
    var last := targets[|targets| - 1];
    ExactMatchFirst(t, paths);
    var cands := BestCandidates(t, paths).0;
    TieBreakUnique(cands, t) by {
      forall c | c in cands ensures ShortLexLe(t, c) { LexLeRefl(t); }
    }
    if last != t {
      assert t in init;
      ExactMatchMapping(paths, init, t);
    }
    NoWarningWithoutGroup(paths, targets, t);
  }

  lemma {:induction false} NoWarningWithoutGroup(paths: seq<string>, targets: seq<string>, t: string)
    requires BestCandidates(t, paths).1 == []
    ensures forall w :: w in WarningsFor(paths, targets) ==> w.target != t
  {
    if targets != [] {
      NoWarningWithoutGroup(paths, targets[..|targets| - 1], t);
    }
  }

  /** Every ambiguity warning is about a property matched only in the nested-leaf tier, by more
      than one path; it lists those paths sorted and names the one the mapping copies.
      Conversely, every such property gets its warning. */
  lemma {:induction false} AmbiguityWarnings(paths: seq<string>, targets: seq<string>)
    ensures forall w :: w in WarningsFor(paths, targets) ==>
      && w.AmbiguousMapping?
      && w.target in targets
      && FirstTier(w.target, paths) == Some(NestedLeaf)
      && |w.candidates| > 1
      && Sorted(w.candidates)
      && multiset(w.candidates) == multiset(Filter(NestedLeaf, w.target, paths))
      && Decide(w.target, paths) == Some(Mapping(w.chosen, w.target, CopyOp))
    ensures forall t :: t in targets && |BestCandidates(t, paths).1| > 1 ==>
      exists w :: w in WarningsFor(paths, targets) && w.target == t
  {
    if targets != [] {
      var init := targets[..|targets| - 1];
      var last := targets[|targets| - 1];
      AmbiguityWarnings(paths, init);
      BestCandidatesTiers(last, paths);
      var ws := WarningsFor(paths, targets);
      forall w | w in ws
        ensures w.AmbiguousMapping? && w.target in targets && FirstTier(w.target, paths) == Some(NestedLeaf)
        ensures |w.candidates| > 1 && Sorted(w.candidates)
        ensures multiset(w.candidates) == multiset(Filter(NestedLeaf, w.target, paths))
        ensures Decide(w.target, paths) == Some(Mapping(w.chosen, w.target, CopyOp))
      {
        if w !in WarningsFor(paths, init) {
          var group := BestCandidates(last, paths).1;
          assert w == AmbiguousMapping(last, Sort(group), TieBreak(BestCandidates(last, paths).0));
          assert group == Filter(NestedLeaf, last, paths);
          assert |Sort(group)| == |group| by { assert |multiset(Sort(group))| == |multiset(group)|; }
        }
      }
      forall t | t in targets && |BestCandidates(t, paths).1| > 1
        ensures exists w :: w in ws && w.target == t
      {
        if t == last {
          assert WarningFor(last, paths)[0] in ws;
        } else {
          assert t in init;
        }
      }
    }
  }

  /** The chosen paths are flattened source paths. */
  lemma ChosenAreSourcePaths(paths: seq<string>, targets: seq<string>)
    ensures ChosenPaths(MappingsFor(paths, targets)) <= set p | p in paths
  {
    MappingsArePlanned(paths, targets);
    var ms := MappingsFor(paths, targets);
    forall p | p in ChosenPaths(ms) ensures p in paths {
      var i :| 0 <= i < |ms| && ms[i].fromPath == p;
      assert ms[i] in ms && Planned(ms[i], paths, targets);
    }
  }

  /** The drops are sorted; no drop is a chosen path; and drops and chosen paths together are
      exactly the flattened source paths; the drops are the unconsumed paths, rearranged. */
  lemma DropsPartitionPaths(source: map<string, Value>, schema: TargetSchema)
    requires PlanOf(source, schema).Ok?
    ensures var plan := PlanOf(source, schema).value;
      var paths := PathsOf(FlattenObject(Object(source), ""));
      var chosen := ChosenPaths(plan.mappings);
      && Sorted(plan.drops)
      && (forall p :: p in plan.drops ==> p !in chosen)
      && (set p | p in plan.drops) + chosen == set p | p in paths
      && multiset(plan.drops) == multiset(Unconsumed(paths, chosen))
  {
    var paths := PathsOf(FlattenObject(Object(source), ""));
    var mappings := MappingsFor(paths, schema.propertyOrder);
    ChosenAreSourcePaths(paths, schema.propertyOrder);
    Partition(paths, ChosenPaths(mappings));
  }

  /** Each flattened path that no mapping reads is dropped exactly as often as it occurs
      among the flattened paths; a chosen path is never dropped. */
  lemma DropCounts(source: map<string, Value>, schema: TargetSchema)
    requires PlanOf(source, schema).Ok?
    ensures var plan := PlanOf(source, schema).value;
      var paths := PathsOf(FlattenObject(Object(source), ""));
      forall p ::
        multiset(plan.drops)[p] == if p in ChosenPaths(plan.mappings) then 0 else multiset(paths)[p]
  {
    DropsPartitionPaths(source, schema);
    var plan := PlanOf(source, schema).value;
    UnconsumedCounts(PathsOf(FlattenObject(Object(source), "")), ChosenPaths(plan.mappings));
  }

  lemma Partition(paths: seq<string>, chosen: set<string>)
    requires chosen <= set p | p in paths
    ensures var drops := Sort(Unconsumed(paths, chosen));
      && (forall p :: p in drops ==> p !in chosen)
      && (set p | p in drops) + chosen == set p | p in paths
  {
    var u := Unconsumed(paths, chosen);
    var drops := Sort(u);
    forall p | p in drops ensures p in u {
      assert p in multiset(drops);
    }
    forall p | p in u ensures p in drops {
      assert p in multiset(u);
    }
  }
}
