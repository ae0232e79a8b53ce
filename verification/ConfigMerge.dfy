/**
 * Settings merged from three places: the preset of a scale, an environment's overrides and a
 * site's. The connection budget merges them one way round and the deploy the other.
 */
module ConfigMerge {
  import opened Basics

  /** A setting: an object, or anything else; a key may be there with nothing under it. */
  datatype Tree = Undefined | Null | Leaf(value: string) | Obj(fields: map<string, Tree>)

  /** `o` laid onto `b`: objects merge key by key, anything else replaces. */
  function Merge(b: Tree, o: Tree): Tree
    decreases o
  {
    if b.Obj? && o.Obj? then
      Obj(map k | k in b.fields.Keys + o.fields.Keys ::
        if k !in o.fields then b.fields[k] else if k !in b.fields then o.fields[k] else Merge(b.fields[k], o.fields[k]))
    else o
  }

  /** The same in place, a key at a time: a key that is there with the value undefined still overrides. */
  method DeepMerge(base: map<string, Tree>, override: Option<map<string, Tree>>) returns (result: map<string, Tree>)
    ensures Obj(result) == if override.None? then Obj(base) else Merge(Obj(base), Obj(override.value))
    decreases if override.None? then Undefined else Obj(override.value)
  {
    if override.None? { return base; }
    result := base;
    var over := override.value;
    var keys := over.Keys;
    while keys != {}
      invariant keys <= over.Keys && result.Keys == base.Keys + (over.Keys - keys)
      invariant forall k :: k in keys && k in base ==> result[k] == base[k]
      invariant forall k :: k in result && k !in keys ==> result[k] == Merge(Obj(base), Obj(over)).fields[k]
      decreases keys
    {
      var key :| key in keys;
      var o := over[key];
      if o.Obj? && key in base && base[key].Obj? {
        var merged := DeepMerge(base[key].fields, Some(o.fields));
        result := result[key := Obj(merged)];
      } else {
        result := result[key := o];
      }
      keys := keys - {key};
    }
    assert result == Merge(Obj(base), Obj(over)).fields;
  }

  // ---- does the grouping matter? ----

  /** `o` already names everything `b` would bring. */
  predicate Covers(o: Tree, b: Tree)
    decreases o
  {
    b.Obj? && o.Obj? ==> forall k :: k in b.fields ==> k in o.fields && Covers(o.fields[k], b.fields[k])
  }

  lemma {:induction false} CoveredAddsNothing(b: Tree, o: Tree)
    ensures Merge(b, o) == o <==> Covers(o, b)
    decreases o
  {
    if b.Obj? && o.Obj? {
      forall k | k in b.fields && k in o.fields
        ensures Merge(b.fields[k], o.fields[k]) == o.fields[k] <==> Covers(o.fields[k], b.fields[k])
      {
        CoveredAddsNothing(b.fields[k], o.fields[k]);
      }
      var m := Merge(b, o).fields;
      if Covers(o, b) {
        assert m == o.fields;
      } else if m == o.fields {
        forall k | k in b.fields ensures k in o.fields && Covers(o.fields[k], b.fields[k]) {
          assert k in m;
        }
      }
    }
  }

  /**
   * Along every path that is in all three: where it goes from an object to something else and
   * back to an object, the last already names everything the first would bring.
   */
  predicate Groups(a: Tree, b: Tree, c: Tree)
    decreases a
  {
    if a.Obj? && b.Obj? && c.Obj? then
      forall k :: k in a.fields && k in b.fields && k in c.fields ==> Groups(a.fields[k], b.fields[k], c.fields[k])
    else a.Obj? && c.Obj? ==> Covers(c, a)
  }

  /** No path goes from an object to something else and back to an object. */
  predicate NeverReturns(a: Tree, b: Tree, c: Tree)
    decreases a
  {
    if a.Obj? && b.Obj? && c.Obj? then
      forall k :: k in a.fields && k in b.fields && k in c.fields ==> NeverReturns(a.fields[k], b.fields[k], c.fields[k])
    else !(a.Obj? && c.Obj?)
  }

  /** Merging groups either way exactly where the paths that return to an object bring nothing. */
  lemma {:induction false} MergeGroups(a: Tree, b: Tree, c: Tree)
    ensures Merge(Merge(a, b), c) == Merge(a, Merge(b, c)) <==> Groups(a, b, c)
    decreases a
  {
    if a.Obj? && b.Obj? && c.Obj? {
      var left, right := Merge(Merge(a, b), c).fields, Merge(a, Merge(b, c)).fields;
      assert left.Keys == right.Keys;
      forall k | k in left
        ensures left[k] == right[k] <==>
          (k in a.fields && k in b.fields && k in c.fields ==> Groups(a.fields[k], b.fields[k], c.fields[k]))
      {
        if k in a.fields && k in b.fields && k in c.fields {
          MergeGroups(a.fields[k], b.fields[k], c.fields[k]);
        }
      }
      if Groups(a, b, c) {
        assert left == right;
      } else if left == right {
        forall k | k in a.fields && k in b.fields && k in c.fields
          ensures Groups(a.fields[k], b.fields[k], c.fields[k])
        {
          assert k in left;
        }
      }
    } else if a.Obj? && c.Obj? {
      CoveredAddsNothing(a, c);
    }
  }

  lemma {:induction false} NeverReturnsGroups(a: Tree, b: Tree, c: Tree)
    requires NeverReturns(a, b, c)
    ensures Groups(a, b, c)
    decreases a
  {
    if a.Obj? && b.Obj? && c.Obj? {
      forall k | k in a.fields && k in b.fields && k in c.fields
        ensures Groups(a.fields[k], b.fields[k], c.fields[k])
      {
        NeverReturnsGroups(a.fields[k], b.fields[k], c.fields[k]);
      }
    }
  }

  /** What stands at the end of a path of keys, if the path leads anywhere. */
  function Under(t: Tree, path: seq<string>): Option<Tree> {
    if path == [] then Some(t)
    else if t.Obj? && path[0] in t.fields then Under(t.fields[path[0]], path[1..])
    else None
  }

  /** Along this path, which all three have, it goes from an object to something else and back to an object. */
  predicate ReturnsAt(a: Tree, b: Tree, c: Tree, path: seq<string>) {
    && Under(a, path).Some? && Under(b, path).Some? && Under(c, path).Some?
    && Under(a, path).value.Obj? && !Under(b, path).value.Obj? && Under(c, path).value.Obj?
  }

  lemma {:induction false} ReturnsSomewhere(a: Tree, b: Tree, c: Tree)
    ensures NeverReturns(a, b, c) <==> forall path :: !ReturnsAt(a, b, c, path)
    decreases a
  {
    if a.Obj? && b.Obj? && c.Obj? {
      forall k | k in a.fields && k in b.fields && k in c.fields
        ensures NeverReturns(a.fields[k], b.fields[k], c.fields[k])
          <==> forall path :: !ReturnsAt(a.fields[k], b.fields[k], c.fields[k], path)
      {
        ReturnsSomewhere(a.fields[k], b.fields[k], c.fields[k]);
      }
      if !NeverReturns(a, b, c) {
        var k :| k in a.fields && k in b.fields && k in c.fields && !NeverReturns(a.fields[k], b.fields[k], c.fields[k]);
        var path :| ReturnsAt(a.fields[k], b.fields[k], c.fields[k], path);
        assert ([k] + path)[0] == k && ([k] + path)[1..] == path;
        assert ReturnsAt(a, b, c, [k] + path);
      } else {
        forall path ensures !ReturnsAt(a, b, c, path) {
          if path != [] && path[0] in a.fields && path[0] in b.fields && path[0] in c.fields {
            var k := path[0];
            assert !ReturnsAt(a.fields[k], b.fields[k], c.fields[k], path[1..]);
          }
        }
      }
    } else if a.Obj? && c.Obj? {
      assert ReturnsAt(a, b, c, []);
    } else {
      forall path ensures !ReturnsAt(a, b, c, path) {
        if path != [] { assert Under(a, path).Some? && Under(c, path).Some? ==> a.Obj? && c.Obj?; }
      }
    }
  }

  /** An environment that unsets a whole section which a site then sets in part. */
  lemma UnsetSectionMatters()
    ensures var preset := Obj(map["web" := Obj(map["minSize" := Leaf("1"), "maxSize" := Leaf("5")])]);
      var env := Obj(map["web" := Undefined]);
      var site := Obj(map["web" := Obj(map["minSize" := Leaf("2")])]);
      Merge(Merge(preset, env), site) != Merge(preset, Merge(env, site))
  {
    var web := Obj(map["minSize" := Leaf("1"), "maxSize" := Leaf("5")]);
    var part := Obj(map["minSize" := Leaf("2")]);
    var preset, env, site := Obj(map["web" := web]), Obj(map["web" := Undefined]), Obj(map["web" := part]);
    assert "maxSize" in web.fields && "maxSize" !in part.fields;
    assert !Covers(part, web);
    assert !Groups(web, Undefined, part);
    assert "web" in preset.fields && "web" in env.fields && "web" in site.fields;
    assert !Groups(preset, env, site);
    MergeGroups(preset, env, site);
  }

  // ---- the sizes budgeted and the sizes deployed ----

  const DB := "db"

  function Field(t: Tree, k: string): Tree { if t.Obj? && k in t.fields then t.fields[k] else Undefined }

  function Fields(t: Tree): map<string, Tree> { if t.Obj? then t.fields else map[] }

  /** There, and neither undefined nor null. */
  predicate Given(t: Tree, k: string) { !Field(t, k).Undefined? && !Field(t, k).Null? }

  const RDS_DEFAULT_INSTANCE_CLASS := "db.t4g.micro"

  /** The database section: its engine, and what that engine wants where it is not given. */
  function ResolveDb(db: Tree, engine: Option<string>): Tree {
    var engine' := if engine.Some? then Leaf(engine.value) else Field(db, "engine");
    var base := Fields(db)["engine" := engine'];
    if engine' == Leaf("aurora") && !Given(Obj(base), "minAcu") then
      Obj(base["minAcu" := Leaf("0")]["maxAcu" := Leaf("2")])
    else if engine' == Leaf("rds") && !Given(Obj(base), "instanceClass") then
      Obj(base["instanceClass" := Leaf(RDS_DEFAULT_INSTANCE_CLASS)])
    else Obj(base)
  }

  /**
   * A resolved database section has its engine, the one asked for or its own; an Aurora without
   * a minimum capacity gets both capacities; one by instance gets a class if it has none; and
   * all else that was given stays.
   */
  lemma DbIsResolved(db: Tree, engine: Option<string>)
    ensures var r := ResolveDb(db, engine);
      && r.Obj? && Field(r, "engine") == (if engine.Some? then Leaf(engine.value) else Field(db, "engine"))
      && (Field(r, "engine") == Leaf("aurora") ==>
            && Field(r, "minAcu") != Undefined && Field(r, "minAcu") != Null
            && (if Field(db, "minAcu") != Undefined && Field(db, "minAcu") != Null then Field(r, "minAcu") == Field(db, "minAcu") && Field(r, "maxAcu") == Field(db, "maxAcu")
                else Field(r, "minAcu") == Leaf("0") && Field(r, "maxAcu") == Leaf("2")))
      && (Field(r, "engine") == Leaf("rds") ==>
            && Field(r, "instanceClass") != Undefined && Field(r, "instanceClass") != Null
            && (Field(db, "instanceClass") != Undefined && Field(db, "instanceClass") != Null ==> Field(r, "instanceClass") == Field(db, "instanceClass")))
      && (forall k :: k != "engine" && k != "minAcu" && k != "maxAcu" && k != "instanceClass" ==> Field(r, k) == Field(db, k))
      && ResolveDb(r, engine) == r
  {
  }

  function ComputeScaled(preset: Tree, engine: Option<string>, overrides: Tree): Tree {
    var computed := Merge(preset, overrides);
    Obj(Fields(computed)[DB := ResolveDb(Field(computed, DB), engine)])
  }

  /** What the budget counts for a site: the environment's settings, with the site's merged on. */
  function Budgeted(preset: Tree, engine: Option<string>, env: Tree, site: Tree): Tree {
    Merge(ComputeScaled(preset, engine, env), site)
  }

  /** What the site's stack is deployed with: the overrides merged first. */
  function Deployed(preset: Tree, engine: Option<string>, env: Tree, site: Tree): Tree {
    ComputeScaled(preset, engine, Merge(env, site))
  }

  lemma MergedField(b: Tree, o: Tree, k: string)
    requires b.Obj? && o.Obj?
    ensures k in Merge(b, o).fields <==> k in b.fields || k in o.fields
    ensures k in b.fields && k !in o.fields ==> Merge(b, o).fields[k] == b.fields[k]
    ensures k !in b.fields && k in o.fields ==> Merge(b, o).fields[k] == o.fields[k]
    ensures k in b.fields && k in o.fields ==> Merge(b, o).fields[k] == Merge(b.fields[k], o.fields[k])
  {
  }

  predicate SameAt(x: Tree, y: Tree, k: string) {
    (k in Fields(x) <==> k in Fields(y)) && Field(x, k) == Field(y, k)
  }

  lemma SameEverywhere(x: Tree, y: Tree)
    requires x.Obj? && y.Obj?
    ensures x == y <==> forall k :: SameAt(x, y, k)
  {
    if forall k :: SameAt(x, y, k) {
      forall k | k in x.fields || k in y.fields
        ensures k in x.fields && k in y.fields && x.fields[k] == y.fields[k]
      {
        assert SameAt(x, y, k);
      }
      assert x.fields == y.fields;
    }
  }

  /** A section is budgeted as deployed just when merging groups either way for it. */
  lemma SectionCounts(preset: Tree, engine: Option<string>, env: Tree, site: Tree, k: string)
    requires preset.Obj? && env.Obj? && site.Obj? && DB !in site.fields
    ensures SameAt(Budgeted(preset, engine, env, site), Deployed(preset, engine, env, site), k) <==>
      SameAt(Merge(Merge(preset, env), site), Merge(preset, Merge(env, site)), k)
  {
    var once, both := Merge(preset, env), Merge(env, site);
    var scaled := ComputeScaled(preset, engine, env);
    MergedField(preset, env, k);
    MergedField(env, site, k);
    MergedField(once, site, k);
    MergedField(scaled, site, k);
    MergedField(preset, both, k);
    hide Merge, ResolveDb;
  }

  /**
   * The budget counts what is deployed, exactly when the grouping does not matter: the two
   * agree on every section, for a site that leaves the database alone.
   */
  lemma BudgetCountsDeployed(preset: Tree, engine: Option<string>, env: Tree, site: Tree)
    requires preset.Obj? && env.Obj? && site.Obj? && DB !in site.fields
    ensures Budgeted(preset, engine, env, site) == Deployed(preset, engine, env, site) <==> Groups(preset, env, site)
    ensures NeverReturns(preset, env, site) ==>
      Budgeted(preset, engine, env, site) == Deployed(preset, engine, env, site)
  {
    MergeGroups(preset, env, site);
    if NeverReturns(preset, env, site) { NeverReturnsGroups(preset, env, site); }
    var left, right := Merge(Merge(preset, env), site), Merge(preset, Merge(env, site));
    var budgeted, deployed := Budgeted(preset, engine, env, site), Deployed(preset, engine, env, site);
    assert left.Obj? && right.Obj? && budgeted.Obj? && deployed.Obj?;
    hide Merge, Groups, NeverReturns, Budgeted, Deployed, SameAt;
    SameEverywhere(left, right);
    SameEverywhere(budgeted, deployed);
    forall k ensures SameAt(budgeted, deployed, k) <==> SameAt(left, right, k) {
      SectionCounts(preset, engine, env, site, k);
    }
  }
}
