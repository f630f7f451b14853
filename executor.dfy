/** The executor (python/omni_api/executor.py): resolve each mapping's dotted source path
    against the original payload and copy the value found into the output, recording a
    warning for every path that does not resolve. */
module Executor {
  import opened Wrappers
  import opened Json
  import opened LexOrder
  import opened Text
  import opened PlanTypes
  import opened Planner

  // ---------------------------------------------------------------------------------------
  // Path resolution

  /** The value reached by walking the segments `parts` down from `current`: each segment
      must be a key of the dict reached so far; `None` when the walk gets stuck. */
  function Resolve(current: Value, parts: seq<string>): Option<Value>
  {
    if parts == [] then Some(current)
    else if current.Object? && parts[0] in current.fields then Resolve(current.fields[parts[0]], parts[1..])
    else None
  }

  /** The walk is stuck at segment `i`: the first `i` segments reach a value that is not a
      dict, or a dict without segment `i` as a key. */
  predicate StuckAt(v: Value, parts: seq<string>, i: nat)
    requires i < |parts|
  {
    match Resolve(v, parts[..i])
    case Some(u) => !(u.Object? && parts[i] in u.fields)
    case None => false
  }

  /** A path fails to resolve exactly when the walk gets stuck at some segment. */
  lemma {:induction false} ResolveFailsIffStuck(v: Value, parts: seq<string>)
    ensures Resolve(v, parts).None? <==> exists i :: 0 <= i < |parts| && StuckAt(v, parts, i)
  {
    if parts != [] {
      assert parts[..0] == [];
      if v.Object? && parts[0] in v.fields {
        var child := v.fields[parts[0]];
        var rest := parts[1..];
        ResolveFailsIffStuck(child, rest);
        forall i | 1 <= i <= |parts|
          ensures Resolve(v, parts[..i]) == Resolve(child, rest[..i - 1])
        {
          assert parts[..i][1..] == rest[..i - 1];
        }
        if Resolve(v, parts).None? {
          var j :| 0 <= j < |rest| && StuckAt(child, rest, j);
          assert parts[j + 1] == rest[j];
          assert StuckAt(v, parts, j + 1);
        } else {
          forall i | 0 <= i < |parts| ensures !StuckAt(v, parts, i) {
            if i > 0 {
              assert parts[i] == rest[i - 1];
              assert !StuckAt(child, rest, i - 1);
            }
          }
        }
      } else {
        assert StuckAt(v, parts, 0);
      }
    }
  }

  /** `_get_by_path`: walk the dot-segments of `path`, reassigning `current`; `None` stands
      for the KeyError raised when a segment is missing or the value reached is not a dict. */
  method GetByPath(payload: map<string, Value>, path: string) returns (r: Option<Value>)
    ensures r == Resolve(Object(payload), Split(path, '.'))
  {
    var parts := Split(path, '.');
    var current := Object(payload);
    for i := 0 to |parts|
      invariant Resolve(Object(payload), parts) == Resolve(current, parts[i..])
    {
      var part := parts[i];
      assert parts[i..][1..] == parts[i + 1..];
      if !current.Object? || part !in current.fields {
        return None;
      }
      current := current.fields[part];
    }
    assert parts[|parts|..] == [];
    return Some(current);
  }

  // ---------------------------------------------------------------------------------------
  // Applying the plan

  /** What the loop of `apply_plan` has built: the output payload, the keys it populated in
      order, and the execution-time warnings. */
  datatype Applied = Applied(payload: map<string, Value>, mapped: seq<string>, warnings: seq<PlanWarning>)

  /** The mapping's source path resolves against the source payload. */
  predicate Resolves(source: map<string, Value>, m: Mapping)
  {
    Resolve(Object(source), Split(m.fromPath, '.')).Some?
  }

  /** The state after processing `mappings` in order: a mapping to a key outside `allowed`
      is skipped; one whose path does not resolve adds a warning; any other writes its
      value, overwriting an earlier one for the same key. */
  function ApplyMappings(source: map<string, Value>, allowed: set<string>, mappings: seq<Mapping>): Applied
  {
    if mappings == [] then Applied(map[], [], [])
    else
      var prev := ApplyMappings(source, allowed, mappings[..|mappings| - 1]);
      var m := mappings[|mappings| - 1];
      if m.toKey !in allowed then prev
      else
        match Resolve(Object(source), Split(m.fromPath, '.'))
        case None => prev.(warnings := prev.warnings + [MissingSourcePath(m.fromPath, m.toKey)])
        case Some(v) => prev.(payload := prev.payload[m.toKey := v], mapped := prev.mapped + [m.toKey])
  }

  /** The payload and report `apply_plan` returns. */
  function Execution(source: map<string, Value>, schema: TargetSchema, plan: TransformPlan): (map<string, Value>, TransformReport)
  {
    var a := ApplyMappings(source, schema.Properties().Keys, plan.mappings);
    (a.payload, TransformReport(SortSet(set k | k in a.mapped), Sort(plan.drops), [], plan.warnings + a.warnings))
  }

  lemma ApplyStep(source: map<string, Value>, allowed: set<string>, mappings: seq<Mapping>, i: nat)
    requires i < |mappings|
    ensures ApplyMappings(source, allowed, mappings[..i + 1]) ==
      var prev := ApplyMappings(source, allowed, mappings[..i]);
      var m := mappings[i];
      if m.toKey !in allowed then prev
      else
        match Resolve(Object(source), Split(m.fromPath, '.'))
        case None => prev.(warnings := prev.warnings + [MissingSourcePath(m.fromPath, m.toKey)])
        case Some(v) => prev.(payload := prev.payload[m.toKey := v], mapped := prev.mapped + [m.toKey])
  {
    assert mappings[..i + 1][..i] == mappings[..i];
  }

  /** `apply_plan`: one pass over the plan's mappings, filling `payload` and appending to
      `mapped` and `warnings` (which starts as a copy of the plan's warnings). */
  method ApplyPlan(source: map<string, Value>, schema: TargetSchema, plan: TransformPlan)
    returns (payload: map<string, Value>, report: TransformReport)
    requires schema.PropertiesUsable()
    ensures (payload, report) == Execution(source, schema, plan)
  {
    var allowed := schema.Properties().Keys;
    payload := map[];
    var mapped: seq<string> := [];
    var warnings := plan.warnings;
    for i := 0 to |plan.mappings|
      invariant |plan.warnings| <= |warnings| && warnings[..|plan.warnings|] == plan.warnings
      invariant ApplyMappings(source, allowed, plan.mappings[..i]) == Applied(payload, mapped, warnings[|plan.warnings|..])
    {
      var mapping := plan.mappings[i];
      ApplyStep(source, allowed, plan.mappings, i);
      if mapping.toKey !in allowed {
        continue;
      }
      var value := GetByPath(source, mapping.fromPath);
      if value.None? {
        warnings := warnings + [MissingSourcePath(mapping.fromPath, mapping.toKey)];
        continue;
      }
      payload := payload[mapping.toKey := value.value];
      mapped := mapped + [mapping.toKey];
    }
    assert plan.mappings[..|plan.mappings|] == plan.mappings;
    assert warnings == plan.warnings + warnings[|plan.warnings|..];
    var dropped := plan.drops;
    report := TransformReport(SortSet(set k | k in mapped), Sort(dropped), [], warnings);
  }

  // ---------------------------------------------------------------------------------------
  // Properties of the execution

  /** The output keys are allowed property names, and they are exactly the keys recorded as
      mapped. */
  lemma {:induction false} AppliedKeys(source: map<string, Value>, allowed: set<string>, mappings: seq<Mapping>)
    ensures ApplyMappings(source, allowed, mappings).payload.Keys <= allowed
    ensures forall k :: k in ApplyMappings(source, allowed, mappings).mapped <==>
      k in ApplyMappings(source, allowed, mappings).payload
  {
    if mappings != [] {
      AppliedKeys(source, allowed, mappings[..|mappings| - 1]);
    }
  }

  /** The mapping writes a value into the output: its key is allowed and its path resolves. */
  predicate Lands(source: map<string, Value>, allowed: set<string>, m: Mapping)
  {
    m.toKey in allowed && Resolves(source, m)
  }

  /** Some mapping to `k` lands. */
  ghost predicate Landed(source: map<string, Value>, allowed: set<string>, mappings: seq<Mapping>, k: string)
  {
    exists i :: 0 <= i < |mappings| && mappings[i].toKey == k && Lands(source, allowed, mappings[i])
  }

  /** A key is in the output exactly when some mapping to it lands. */
  lemma {:induction false} AppliedKeysLanded(source: map<string, Value>, allowed: set<string>, mappings: seq<Mapping>)
    ensures forall k :: k in ApplyMappings(source, allowed, mappings).payload <==> Landed(source, allowed, mappings, k)
  {
    if mappings != [] {
      var init := mappings[..|mappings| - 1];
      var n := |mappings| - 1;
      AppliedKeysLanded(source, allowed, init);
      forall k ensures Landed(source, allowed, mappings, k) <==>
        Landed(source, allowed, init, k) || (mappings[n].toKey == k && Lands(source, allowed, mappings[n]))
      {
        if Landed(source, allowed, init, k) {
          var i :| 0 <= i < |init| && init[i].toKey == k && Lands(source, allowed, init[i]);
          assert mappings[i] == init[i];
        }
        if Landed(source, allowed, mappings, k) {
          var i :| 0 <= i < |mappings| && mappings[i].toKey == k && Lands(source, allowed, mappings[i]);
          if i < n { assert init[i] == mappings[i]; }
        }
      }
    }
  }

  /** Mapping `i` lands and no later mapping to the same key does. */
  predicate LastLanding(source: map<string, Value>, allowed: set<string>, mappings: seq<Mapping>, i: nat)
    requires i < |mappings|
  {
    && Lands(source, allowed, mappings[i])
    && forall j :: i < j < |mappings| ==> !(mappings[j].toKey == mappings[i].toKey && Lands(source, allowed, mappings[j]))
  }

  /** The value under a key is the one the last mapping landing on that key reads, copied
      verbatim: a later mapping overwrites an earlier one. */
  lemma {:induction false} AppliedLastWins(source: map<string, Value>, allowed: set<string>, mappings: seq<Mapping>, i: nat)
    requires i < |mappings| && LastLanding(source, allowed, mappings, i)
    ensures mappings[i].toKey in ApplyMappings(source, allowed, mappings).payload
    ensures Some(ApplyMappings(source, allowed, mappings).payload[mappings[i].toKey]) ==
      Resolve(Object(source), Split(mappings[i].fromPath, '.'))
  {
    var n := |mappings| - 1;
    var init := mappings[..n];
    if i < n {
      assert init[i] == mappings[i];
      forall j | i < j < |init| ensures !(init[j].toKey == init[i].toKey && Lands(source, allowed, init[j])) {
        assert init[j] == mappings[j];
      }
      AppliedLastWins(source, allowed, init, i);
      assert !(mappings[n].toKey == mappings[i].toKey && Lands(source, allowed, mappings[n]));
    }
  }

  /** `w` is the warning for a mapping to an allowed key whose path does not resolve. */
  ghost predicate Reported(source: map<string, Value>, allowed: set<string>, mappings: seq<Mapping>, w: PlanWarning)
  {
    exists m :: m in mappings && m.toKey in allowed && !Resolves(source, m) && w == MissingSourcePath(m.fromPath, m.toKey)
  }

  /** Every execution warning reports an allowed mapping whose path does not resolve, every
      such mapping is reported, and a mapping to a key outside the schema is skipped without
      one. */
  lemma {:induction false} AppliedWarnings(source: map<string, Value>, allowed: set<string>, mappings: seq<Mapping>)
    ensures var ws := ApplyMappings(source, allowed, mappings).warnings;
      forall w :: w in ws <==> Reported(source, allowed, mappings, w)
    ensures var a := ApplyMappings(source, allowed, mappings);
      |a.mapped| + |a.warnings| <= |mappings|
    ensures (forall m :: m in mappings ==> Resolves(source, m)) ==>
      ApplyMappings(source, allowed, mappings).warnings == []
  {
    if mappings != [] {
      var init := mappings[..|mappings| - 1];
      var last := mappings[|mappings| - 1];
      AppliedWarnings(source, allowed, init);
      assert mappings == init + [last];
      var ws := ApplyMappings(source, allowed, mappings).warnings;
      forall w ensures w in ws <==> Reported(source, allowed, mappings, w)
      {
        if Reported(source, allowed, mappings, w) {
          var m :| m in mappings && m.toKey in allowed && !Resolves(source, m) && w == MissingSourcePath(m.fromPath, m.toKey);
          if m != last { assert m in init; assert Reported(source, allowed, init, w); }
        }
        if w in ApplyMappings(source, allowed, init).warnings {
          var m :| m in init && m.toKey in allowed && !Resolves(source, m) && w == MissingSourcePath(m.fromPath, m.toKey);
          assert m in mappings;
        }
      }
      if forall m :: m in mappings ==> Resolves(source, m) {
        forall m | m in init ensures Resolves(source, m) { assert m in mappings; }
        assert last in mappings;
      }
    }
  }

  /** The report of `apply_plan`: the planner's warnings come first, then the execution
      warnings; `mapped` lists the populated keys sorted without repetition; `dropped` is the
      plan's drops sorted; `missing_required` is empty; and the output holds only property
      names. */
  lemma ReportShape(source: map<string, Value>, schema: TargetSchema, plan: TransformPlan)
    ensures var (payload, report) := Execution(source, schema, plan);
      && payload.Keys <= schema.Properties().Keys
      && |plan.warnings| <= |report.warnings|
      && report.warnings[..|plan.warnings|] == plan.warnings
      && StrictlySorted(report.mapped)
      && (forall k :: k in report.mapped <==> k in payload)
      && Sorted(report.dropped)
      && multiset(report.dropped) == multiset(plan.drops)
      && report.missingRequired == []
  {
    var allowed := schema.Properties().Keys;
    AppliedKeys(source, allowed, plan.mappings);
    var a := ApplyMappings(source, allowed, plan.mappings);
    assert (plan.warnings + a.warnings)[..|plan.warnings|] == plan.warnings;
  }

  // ---------------------------------------------------------------------------------------
  // Planned paths resolve

  /** Every key of every dict in the payload is non-empty and free of dots, so that the
      dotted path of a leaf names it unambiguously. */
  ghost predicate WellKeyed(v: Value)
  {
    match v
    case Object(fields) => forall k :: k in fields ==> k != "" && '.' !in k && WellKeyed(fields[k])
    case _ => true
  }

  /** The segments of a path prefix; the empty prefix has none. */
  function Parts(prefix: string): seq<string>
  {
    if prefix == "" then [] else Split(prefix, '.')
  }

  lemma PartsChild(prefix: string, key: string)
    requires key != "" && '.' !in key
    ensures ChildPath(prefix, key) != ""
    ensures Parts(ChildPath(prefix, key)) == Parts(prefix) + [key]
  {
    SplitNoSep(key, '.');
    if prefix != "" {
      SplitConcat(prefix, key, '.');
      assert ChildPath(prefix, key) == prefix + ['.'] + key;
    }
  }

  /** The leaf's path extends `prefix`, and the remaining segments lead from `obj` to the
      leaf's value. */
  ghost predicate Reaches(obj: Value, prefix: string, leaf: (string, Value))
  {
    var parts := Parts(leaf.0);
    var n := |Parts(prefix)|;
    && leaf.0 != ""
    && n <= |parts|
    && parts[..n] == Parts(prefix)
    && Resolve(obj, parts[n..]) == Some(leaf.1)
  }

  /** Flattening and resolving agree: in a payload whose keys are non-empty and dot-free,
      every flattened leaf's path resolves to that leaf's value. */
  lemma {:induction false} FlattenResolves(obj: Value, prefix: string)
    requires obj.Object? && WellKeyed(obj)
    ensures forall leaf :: leaf in FlattenObject(obj, prefix) ==> Reaches(obj, prefix, leaf)
    decreases obj, 1
  {
    FlattenKeysResolve(obj, SortSet(obj.fields.Keys), prefix);
  }

  lemma {:induction false} FlattenKeysResolve(obj: Value, keys: seq<string>, prefix: string)
    requires obj.Object? && WellKeyed(obj) && forall i :: 0 <= i < |keys| ==> keys[i] in obj.fields
    ensures forall leaf :: leaf in FlattenKeys(obj, keys, prefix) ==> Reaches(obj, prefix, leaf)
    decreases obj, 0, |keys|
  {
    if keys != [] {
      var key := keys[|keys| - 1];
      var child := obj.fields[key];
      var path := ChildPath(prefix, key);
      FlattenKeysResolve(obj, keys[..|keys| - 1], prefix);
      PartsChild(prefix, key);
      var n := |Parts(prefix)|;
      if child.Object? {
        FlattenResolves(child, path);
        forall leaf | leaf in FlattenObject(child, path) ensures Reaches(obj, prefix, leaf) {
          ReachesThrough(obj, prefix, key, leaf);
        }
      } else {
        var parts := Parts(path);
        assert parts == Parts(prefix) + [key];
        assert parts[..n] == Parts(prefix);
        assert parts[n..] == [key];
        assert [key][1..] == [];
        assert Resolve(obj, [key]) == Resolve(child, []);
        assert Reaches(obj, prefix, (path, child));
      }
    }
  }

  lemma ReachesThrough(obj: Value, prefix: string, key: string, leaf: (string, Value))
    requires obj.Object? && key in obj.fields && key != "" && '.' !in key
    requires Reaches(obj.fields[key], ChildPath(prefix, key), leaf)
    ensures Reaches(obj, prefix, leaf)
  {
    PartsChild(prefix, key);
    var parts := Parts(leaf.0);
    var n := |Parts(prefix)|;
    assert parts[..n + 1] == Parts(prefix) + [key];
    assert parts[..n] == parts[..n + 1][..n];
    assert parts[n] == key;
    assert parts[n..][1..] == parts[n + 1..];
  }

  /** In a payload whose keys are non-empty and dot-free, every flattened path resolves to
      its leaf's value. */
  lemma LeafResolves(source: map<string, Value>, leaf: (string, Value))
    requires WellKeyed(Object(source)) && leaf in FlattenObject(Object(source), "")
    ensures Resolve(Object(source), Split(leaf.0, '.')) == Some(leaf.1)
  {
    FlattenResolves(Object(source), "");
    assert Reaches(Object(source), "", leaf);
    assert Parts(leaf.0)[0..] == Split(leaf.0, '.');
  }

  /** In a payload whose keys are non-empty and dot-free, every path the planner maps from
      resolves. */
  lemma PlannedPathsResolve(source: map<string, Value>, schema: TargetSchema)
    requires WellKeyed(Object(source)) && PlanOf(source, schema).Ok?
    ensures forall m :: m in PlanOf(source, schema).value.mappings ==> Resolves(source, m)
  {
    var leaves := FlattenObject(Object(source), "");
    var paths := PathsOf(leaves);
    var plan := PlanOf(source, schema).value;
    MappingsArePlanned(paths, schema.propertyOrder);
    forall m | m in plan.mappings ensures Resolves(source, m) {
      assert Planned(m, paths, schema.propertyOrder);
      var i :| 0 <= i < |paths| && paths[i] == m.fromPath;
      assert leaves[i] in leaves;
      LeafResolves(source, leaves[i]);
    }
  }

  /** Hence executing a plan built from the same well-keyed payload produces no missing-path
      warning. */
  lemma NoMissingPathWarnings(source: map<string, Value>, schema: TargetSchema)
    requires WellKeyed(Object(source)) && PlanOf(source, schema).Ok?
    ensures ApplyMappings(source, schema.Properties().Keys, PlanOf(source, schema).value.mappings).warnings == []
  {
    var plan := PlanOf(source, schema).value;
    var allowed := schema.Properties().Keys;
    PlannedPathsResolve(source, schema);
    AppliedWarnings(source, allowed, plan.mappings);
  }

  /** A source key containing a dot can break the round trip. For example, `{"a.b": 1}`
      flattens to the path `a.b`, which the executor reads as the two segments `a` and `b`
      and cannot resolve. */
  lemma DottedKeyUnresolvable()
    ensures PathsOf(FlattenObject(Object(map["a.b" := Number(1.0)]), "")) == ["a.b"]
    ensures ApplyMappings(map["a.b" := Number(1.0)], {"a.b"}, [Mapping("a.b", "a.b", CopyOp)]) ==
      Applied(map[], [], [MissingSourcePath("a.b", "a.b")])
  {
    FlattenOneKey("a.b", Number(1.0), "");
    SplitNoSep("a", '.');
    SplitNoSep("b", '.');
    SplitConcat("a", "b", '.');
    assert "a" + ['.'] + "b" == "a.b";
    var ms := [Mapping("a.b", "a.b", CopyOp)];
    assert ms[..0] == [];
  }

  /** A dotted key that collides with a nested one is read through the nested dict: with
      `{"a.b": 1, "a": {"b": 2}}`, copying path `a.b` lands the nested `2`, not the dotted
      key's `1`, and no warning is raised. */
  lemma DottedKeyCollision()
    ensures var source := map["a.b" := Number(1.0), "a" := Object(map["b" := Number(2.0)])];
      ApplyMappings(source, {"a.b"}, [Mapping("a.b", "a.b", CopyOp)]) ==
        Applied(map["a.b" := Number(2.0)], ["a.b"], [])
  {
    SplitNoSep("a", '.');
    SplitNoSep("b", '.');
    SplitConcat("a", "b", '.');
    assert "a" + ['.'] + "b" == "a.b";
    var source := map["a.b" := Number(1.0), "a" := Object(map["b" := Number(2.0)])];
    var parts := Split("a.b", '.');
    assert parts == ["a", "b"];
    assert "a" in source && source["a"] == Object(map["b" := Number(2.0)]);
    assert parts[1..] == ["b"] && parts[1..][1..] == [];
    assert Resolve(Object(source), parts) == Some(Number(2.0));
    var ms := [Mapping("a.b", "a.b", CopyOp)];
    assert ms[..0] == [];
  }
}
