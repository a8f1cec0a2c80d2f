/**
 * The device counts page: the stock materials whose names carry a device
 * keyword, under three categories (Pacemaker, ICD, CRT) and, inside each,
 * one model group per material name, names compared ignoring case.
 * Rebuilding keeps the category and model groups already on the page, with
 * their expansion state; a group created by the rebuild starts expanded.
 */
module DeviceCounts {
  import opened Wrappers
  import opened Text
  import opened Models
  import opened Collections
  import opened Groups
  import opened Database

  // ---------------------------------------------------------------------------
  // The keyword table
  // ---------------------------------------------------------------------------

  const PacemakerTitle: string := "Pacemaker"
  const IcdTitle: string := "ICD"
  const CrtTitle: string := "CRT"

  /** The table's keys, in the order the dictionary lists them. */
  const CategoryTitles: seq<string> := [PacemakerTitle, IcdTitle, CrtTitle]

  const PacemakerModels: seq<string> := ["amvia sky", "endicos", "enitra", "edora"]
  const IcdModels: seq<string> := ["vr-t", "dr-t", "rivacor"]
  const CrtModels: seq<string> := ["hf-t"]

  /** The keywords of a category title, looked up ignoring case; a title
      outside the table has none. */
  function KeywordsOf(title: string): seq<string>
  {
    if EqIC(title, PacemakerTitle) then PacemakerModels
    else if EqIC(title, IcdTitle) then IcdModels
    else if EqIC(title, CrtTitle) then CrtModels
    else []
  }

  // ---------------------------------------------------------------------------
  // Matching and grouping
  // ---------------------------------------------------------------------------

  /** The material's name contains one of the keywords, ignoring case. */
  predicate HasKeyword(m: Material, keywords: seq<string>)
  {
    exists k :: k in keywords && ContainsIC(m.name, k)
  }

  /** The materials of a category, in listing order. */
  function Matching(ms: seq<Material>, keywords: seq<string>): seq<Material>
  {
    if ms == [] then []
    else (if HasKeyword(ms[0], keywords) then [ms[0]] else []) + Matching(ms[1..], keywords)
  }

  /** A category holds each material with a keyword as often as the listing
      does, and nothing else. */
  lemma {:induction false} MatchingSpec(ms: seq<Material>, keywords: seq<string>)
    ensures forall m :: multiset(Matching(ms, keywords))[m] == if HasKeyword(m, keywords) then multiset(ms)[m] else 0
  {
    if ms != [] {
      MatchingSpec(ms[1..], keywords);
      assert ms == [ms[0]] + ms[1..];
    }
  }

  function NamesOf(ms: seq<Material>): seq<string>
  {
    seq(|ms|, i requires 0 <= i < |ms| => ms[i].name)
  }

  /** The keys of GroupBy on the name with an ignore-case comparer: the first
      spelling of each name, in order of first occurrence. */
  function ModelKeys(ms: seq<Material>): seq<string>
  {
    DedupIC([], NamesOf(ms))
  }

  /** Every material falls under exactly one key, and every key is the name
      of some material. */
  lemma {:induction false} ModelKeysSpec(ms: seq<Material>)
    ensures DistinctIC(ModelKeys(ms))
    ensures forall m :: m in ms ==> SeenIC(ModelKeys(ms), m.name)
    ensures forall k :: k in ModelKeys(ms) ==> exists m :: m in ms && m.name == k
  {
    var names := NamesOf(ms);
    var keys := ModelKeys(ms);
    DedupICDistinct([], names);
    DedupICCovers([], names);
    DedupICFrom([], names);
    forall m | m in ms ensures SeenIC(keys, m.name) {
      var i :| 0 <= i < |ms| && ms[i] == m;
      assert names[i] == m.name;
    }
    forall k | k in keys ensures exists m :: m in ms && m.name == k {
      var i :| 0 <= i < |keys| && keys[i] == k;
      var j :| 0 <= j < |names| && names[j] == k;
      assert ms[j] in ms && ms[j].name == k;
    }
  }

  /** The elements of one group: the materials named like the key, ignoring
      case, in order. */
  function ModelItems(ms: seq<Material>, key: string): seq<Material>
  {
    if ms == [] then []
    else (if EqIC(ms[0].name, key) then [ms[0]] else []) + ModelItems(ms[1..], key)
  }

  /** A group holds each material named like its key as often as the list
      does, and nothing else. */
  lemma {:induction false} ModelItemsSpec(ms: seq<Material>, key: string)
    ensures forall m :: multiset(ModelItems(ms, key))[m] == if EqIC(m.name, key) then multiset(ms)[m] else 0
  {
    if ms != [] {
      ModelItemsSpec(ms[1..], key);
      assert ms == [ms[0]] + ms[1..];
    }
  }

  /** Two spellings of one name select the same group. */
  lemma {:induction false} ModelItemsIC(ms: seq<Material>, a: string, b: string)
    requires EqIC(a, b)
    ensures ModelItems(ms, a) == ModelItems(ms, b)
  {
    if ms != [] {
      ModelItemsIC(ms[1..], a, b);
    }
  }

  // ---------------------------------------------------------------------------
  // Model groups of one category
  // ---------------------------------------------------------------------------

  /** No two models share a name, ignoring case. */
  predicate ModelNamesDistinct(ms: seq<DeviceModelGroup>)
  {
    forall i, j :: 0 <= i < j < |ms| ==> !EqIC(ms[i].modelName, ms[j].modelName)
  }

  /** Models.FirstOrDefault(m => m.ModelName equals the name ignoring case). */
  function FindModel(ms: seq<DeviceModelGroup>, name: string): (r: Option<DeviceModelGroup>)
    ensures r.Some? ==> r.value in ms && EqIC(r.value.modelName, name)
    ensures r.None? ==> forall m :: m in ms ==> !EqIC(m.modelName, name)
  {
    if ms == [] then None
    else if EqIC(ms[0].modelName, name) then Some(ms[0])
    else FindModel(ms[1..], name)
  }

  /** Some category of the list has the title, ignoring case. */
  ghost predicate TitledIn(cs: seq<DeviceCategoryGroup>, title: string)
  {
    exists c :: c in cs && EqIC(c.title, title)
  }

  /** Some model of the list has the name, ignoring case. */
  predicate NamedIn(ms: seq<DeviceModelGroup>, name: string)
  {
    exists m :: m in ms && EqIC(m.modelName, name)
  }

  /** In a list of distinct names, a name picks out one model. */
  lemma {:induction false} SameNameSameModel(ms: seq<DeviceModelGroup>, a: DeviceModelGroup, b: DeviceModelGroup)
    requires ModelNamesDistinct(ms) && a in ms && b in ms
    requires EqIC(a.modelName, b.modelName)
    ensures a == b
  {
    var i :| 0 <= i < |ms| && ms[i] == a;
    var j :| 0 <= j < |ms| && ms[j] == b;
  }

  /** Models taken one per key of a repetition-free key list have distinct
      names. */
  lemma {:induction false} NamesDistinctByKeys(ms: seq<DeviceModelGroup>, desired: seq<DeviceModelGroup>, keys: seq<string>)
    requires NoDuplicates(ms) && DistinctIC(keys) && |desired| == |keys|
    requires forall m :: m in ms ==> m in desired
    requires forall t :: 0 <= t < |desired| ==> EqIC(desired[t].modelName, keys[t])
    ensures ModelNamesDistinct(ms)
  {
    forall i, j | 0 <= i < j < |ms| ensures !EqIC(ms[i].modelName, ms[j].modelName) {
      assert ms[i] in ms && ms[j] in ms;
      var s :| 0 <= s < |desired| && desired[s] == ms[i];
      var t :| 0 <= t < |desired| && desired[t] == ms[j];
      assert ms[i] != ms[j];
      if s < t {
        assert !EqIC(keys[s], keys[t]);
      } else {
        assert !EqIC(keys[t], keys[s]);
      }
    }
  }

  /** A dictionary lookup with `true` for a missing key. */
  function StoredOr<K>(states: map<K, bool>, key: K): bool
  {
    if key in states then states[key] else true
  }

  /** A category after its rebuild from `materials`, given the models it had
      (`prior`) and their items and expansion before: one model per group of
      its matching materials; an old model stays exactly when its group is
      still there; each model holds exactly its group, since the page gives
      it rows of a listing just read; old models keep their expansion and new
      ones, named after their group, are expanded. */
  ghost predicate Rebuilt(c: DeviceCategoryGroup, prior: seq<DeviceModelGroup>,
                          expanded: map<DeviceModelGroup, bool>, materials: seq<Material>)
    reads c, set m | m in c.models
  {
    var matches := Matching(materials, KeywordsOf(c.title));
    var keys := ModelKeys(matches);
    ModelNamesDistinct(c.models)
    && (forall m :: m in c.models ==> SeenIC(keys, m.modelName))
    && (forall t :: 0 <= t < |keys| ==> NamedIn(c.models, keys[t]))
    && (forall m :: m in prior ==> (m in c.models <==> SeenIC(keys, m.modelName)))
    && (forall m :: m in c.models && m !in prior ==> m.modelName in keys)
    && (forall m :: m in c.models ==> m.items == ModelItems(matches, m.modelName))
    && (forall m :: m in c.models ==> m.isExpanded == (if m in prior && m in expanded then expanded[m] else true))
  }

  /** One pass of the inner loop of BuildCategories: the category's model
      of that name is reused, or a new one is created with the stored
      expansion state (expanded without one); either way it is given the
      group's materials. */
  method ModelFor(models: seq<DeviceModelGroup>, key: string, group: seq<Material>,
                  modelStates: map<(string, string), bool>, title: string)
    returns (model: DeviceModelGroup)
    modifies set m | m in models
    ensures model in models ==>
              EqIC(model.modelName, key) && model.items == group
              && model.isExpanded == old(model.isExpanded)
    ensures model !in models ==>
              fresh(model) && model.modelName == key && (forall m :: m in models ==> !EqIC(m.modelName, key))
              && model.items == group
              && model.isExpanded == StoredOr(modelStates, (UpperStr(title), UpperStr(key)))
    ensures forall m :: m in models && m != model ==> unchanged(m)
  {
    var found := FindModel(models, key);
    if found.Some? {
      model := found.value;
    } else {
      model := new DeviceModelGroup(key);
      model.SetExpanded(StoredOr(modelStates, (UpperStr(title), UpperStr(key))));
    }
    model.ReplaceItems(group);
  }

  /** The state the inner loop of BuildCategories leaves: one model per key,
      each named like its key, an old one exactly when the category had a
      model of that name, holding its target items, with its expansion kept
      when old and expanded when new. */
  ghost predicate Filled(prior: seq<DeviceModelGroup>, desired: seq<DeviceModelGroup>, keys: seq<string>,
                         targets: seq<seq<Material>>, expanded: map<DeviceModelGroup, bool>)
    reads set m | m in desired
  {
    |desired| == |keys| == |targets|
    && (forall t :: 0 <= t < |desired| ==> EqIC(desired[t].modelName, keys[t]))
    && (forall t :: 0 <= t < |desired| && desired[t] !in prior ==>
          desired[t].modelName == keys[t] && forall m :: m in prior ==> !EqIC(m.modelName, keys[t]))
    && (forall t :: 0 <= t < |desired| ==> desired[t].items == targets[t])
    && (forall t :: 0 <= t < |desired| ==>
          desired[t].isExpanded == if desired[t] in prior && desired[t] in expanded then expanded[desired[t]] else true)
  }

  /** The items each model of the list is to hold: its key's group. */
  ghost predicate Aimed(prior: seq<DeviceModelGroup>, desired: seq<DeviceModelGroup>, keys: seq<string>,
                        targets: seq<seq<Material>>, matches: seq<Material>)
  {
    |desired| == |keys| == |targets|
    && forall t :: 0 <= t < |targets| ==>
         targets[t] == ModelItems(matches, keys[t])
  }

  /** One more key's model extends a filled list. */
  lemma {:induction false} FilledSnoc(prior: seq<DeviceModelGroup>, desired: seq<DeviceModelGroup>, keys: seq<string>, j: nat,
                                      model: DeviceModelGroup, targets: seq<seq<Material>>, expanded: map<DeviceModelGroup, bool>)
    requires j < |keys| && Filled(prior, desired, keys[..j], targets, expanded)
    requires EqIC(model.modelName, keys[j])
    requires model !in prior ==> model.modelName == keys[j] && forall m :: m in prior ==> !EqIC(m.modelName, keys[j])
    requires model.isExpanded == if model in prior && model in expanded then expanded[model] else true
    ensures Filled(prior, desired + [model], keys[..j + 1], targets + [model.items], expanded)
  {
    var d, ks, ts := desired + [model], keys[..j + 1], targets + [model.items];
    assert forall t :: 0 <= t < j ==> d[t] == desired[t] && ks[t] == keys[..j][t] && ts[t] == targets[t];
    assert d[j] == model && ks[j] == keys[j] && ts[j] == model.items;
  }

  /** One more target extends the list of targets. */
  lemma {:induction false} AimedSnoc(prior: seq<DeviceModelGroup>, desired: seq<DeviceModelGroup>, keys: seq<string>, j: nat,
                                     model: DeviceModelGroup, targets: seq<seq<Material>>, target: seq<Material>,
                                     matches: seq<Material>)
    requires j < |keys| && Aimed(prior, desired, keys[..j], targets, matches)
    requires target == ModelItems(matches, keys[j])
    ensures Aimed(prior, desired + [model], keys[..j + 1], targets + [target], matches)
  {
    var d, ks, ts := desired + [model], keys[..j + 1], targets + [target];
    forall t | 0 <= t < |ts|
      ensures ts[t] == ModelItems(matches, ks[t])
    {
      if t < j {
        assert d[t] == desired[t] && ks[t] == keys[..j][t] && ts[t] == targets[t];
      } else {
        assert d[t] == model && ks[t] == keys[j] && ts[t] == target;
      }
    }
  }

  /** Each model of a list holding the filled models is one of them, with
      its key's name, items and expansion. */
  lemma {:induction false} FilledModels(models: seq<DeviceModelGroup>, prior: seq<DeviceModelGroup>, desired: seq<DeviceModelGroup>,
                                        keys: seq<string>, targets: seq<seq<Material>>, matches: seq<Material>,
                                        expanded: map<DeviceModelGroup, bool>)
    requires forall m :: m in models <==> m in desired
    requires Filled(prior, desired, keys, targets, expanded) && Aimed(prior, desired, keys, targets, matches)
    ensures forall m :: m in models ==>
              SeenIC(keys, m.modelName)
              && (m !in prior ==> m.modelName in keys)
              && m.items == ModelItems(matches, m.modelName)
              && m.isExpanded == (if m in prior && m in expanded then expanded[m] else true)
  {
    forall m | m in models
      ensures SeenIC(keys, m.modelName)
      ensures m !in prior ==> m.modelName in keys
      ensures m.items == ModelItems(matches, m.modelName)
      ensures m.isExpanded == (if m in prior && m in expanded then expanded[m] else true)
    {
      var t :| 0 <= t < |desired| && desired[t] == m;
      ModelItemsIC(matches, keys[t], m.modelName);
    }
  }

  /** Every key has a model in the list. */
  lemma {:induction false} FilledCovers(models: seq<DeviceModelGroup>, prior: seq<DeviceModelGroup>, desired: seq<DeviceModelGroup>,
                                        keys: seq<string>, targets: seq<seq<Material>>, expanded: map<DeviceModelGroup, bool>)
    requires forall m :: m in models <==> m in desired
    requires Filled(prior, desired, keys, targets, expanded)
    ensures forall t :: 0 <= t < |keys| ==> NamedIn(models, keys[t])
  {
    forall t | 0 <= t < |keys| ensures NamedIn(models, keys[t]) {
      assert desired[t] in models;
    }
  }

  /** An old model is in the list exactly when some key names it. */
  lemma {:induction false} FilledKeeps(models: seq<DeviceModelGroup>, prior: seq<DeviceModelGroup>, desired: seq<DeviceModelGroup>,
                                       keys: seq<string>, targets: seq<seq<Material>>, expanded: map<DeviceModelGroup, bool>)
    requires ModelNamesDistinct(prior)
    requires forall m :: m in models <==> m in desired
    requires Filled(prior, desired, keys, targets, expanded)
    ensures forall m :: m in prior ==> (m in models <==> SeenIC(keys, m.modelName))
  {
    forall m | m in prior ensures m in models <==> SeenIC(keys, m.modelName) {
      if SeenIC(keys, m.modelName) {
        var t :| 0 <= t < |keys| && EqIC(keys[t], m.modelName);
        SameNameSameModel(prior, desired[t], m);
        assert desired[t] in models;
      }
    }
  }

  /** Reconciling the category's models with a filled list rebuilds it. */
  lemma {:induction false} FilledRebuilt(c: DeviceCategoryGroup, prior: seq<DeviceModelGroup>, desired: seq<DeviceModelGroup>,
                                         targets: seq<seq<Material>>, materials: seq<Material>,
                                         expanded: map<DeviceModelGroup, bool>)
    requires ModelNamesDistinct(prior)
    requires c.models == Reconciled(prior, desired)
    requires Filled(prior, desired, ModelKeys(Matching(materials, KeywordsOf(c.title))), targets, expanded)
    requires Aimed(prior, desired, ModelKeys(Matching(materials, KeywordsOf(c.title))), targets,
                   Matching(materials, KeywordsOf(c.title)))
    ensures Rebuilt(c, prior, expanded, materials)
  {
    var matches := Matching(materials, KeywordsOf(c.title));
    var keys := ModelKeys(matches);
    ModelKeysSpec(matches);
    ReconciledMembers(prior, desired);
    ReconciledDistinct(prior, desired);
    NamesDistinctByKeys(c.models, desired, keys);
    FilledModels(c.models, prior, desired, keys, targets, matches, expanded);
    FilledCovers(c.models, prior, desired, keys, targets, expanded);
    FilledKeeps(c.models, prior, desired, keys, targets, expanded);
  }

  /** One pass of the inner loop of BuildCategories, with what it does to
      the list of models built so far: the model for the next key extends the
      filled list, and the category's other models keep their items and
      expansion. */
  method FillStep(prior: seq<DeviceModelGroup>, title: string, keys: seq<string>, j: nat, matches: seq<Material>,
                  modelStates: map<(string, string), bool>, desired: seq<DeviceModelGroup>,
                  ghost targets: seq<seq<Material>>, ghost items: map<DeviceModelGroup, seq<Material>>,
                  ghost expanded: map<DeviceModelGroup, bool>)
    returns (model: DeviceModelGroup)
    requires j < |keys| && DistinctIC(keys)
    requires forall k :: k in modelStates && k.0 == UpperStr(title) ==>
               exists m :: m in prior && UpperStr(m.modelName) == k.1
    requires Filled(prior, desired, keys[..j], targets, expanded)
    requires Aimed(prior, desired, keys[..j], targets, matches)
    requires forall m :: m in prior && m !in desired ==> m in items && m.items == items[m] && m in expanded && m.isExpanded == expanded[m]
    modifies set m | m in prior
    ensures model !in desired && (model in prior || fresh(model))
    ensures Filled(prior, desired + [model], keys[..j + 1], targets + [model.items], expanded)
    ensures Aimed(prior, desired + [model], keys[..j + 1], targets + [model.items], matches)
    ensures forall m :: m in prior && m !in desired + [model] ==> m.items == items[m] && m.isExpanded == expanded[m]
  {
    var key := keys[j];
    model := ModelFor(prior, key, ModelItems(matches, key), modelStates, title);
    if model !in prior {
      assert (UpperStr(title), UpperStr(key)) !in modelStates;
    }
    assert Filled(prior, desired, keys[..j], targets, expanded);
    FilledSnoc(prior, desired, keys, j, model, targets, expanded);
    AimedSnoc(prior, desired, keys, j, model, targets, model.items, matches);
  }

  /** The inner loop of BuildCategories for one category: for each group of
      its matching materials, the model of that name is reused or created,
      and then the category's models are reconciled with the list built.
      `modelStates` holds, for this title, only names of the category's own
      models. */
  method FillCategory(c: DeviceCategoryGroup, materials: seq<Material>, modelStates: map<(string, string), bool>,
                      ghost items: map<DeviceModelGroup, seq<Material>>, ghost expanded: map<DeviceModelGroup, bool>)
    requires ModelNamesDistinct(c.models)
    requires forall m :: m in c.models ==> m in items && items[m] == m.items && m in expanded && expanded[m] == m.isExpanded
    requires forall k :: k in modelStates && k.0 == UpperStr(c.title) ==>
               exists m :: m in c.models && UpperStr(m.modelName) == k.1
    modifies c`models, set m | m in c.models
    ensures Rebuilt(c, old(c.models), expanded, materials)
    ensures forall m :: m in c.models ==> m in old(c.models) || fresh(m)
  {
    var matches := Matching(materials, KeywordsOf(c.title));
    var keys := ModelKeys(matches);
    ModelKeysSpec(matches);
    var desired: seq<DeviceModelGroup> := [];
    ghost var targets: seq<seq<Material>> := [];
    var j := 0;
    while j < |keys|
      invariant 0 <= j <= |keys| && c.models == old(c.models)
      invariant Filled(c.models, desired, keys[..j], targets, expanded)
      invariant Aimed(c.models, desired, keys[..j], targets, matches)
      invariant forall m :: m in desired ==> m in c.models || fresh(m)
      invariant forall m :: m in c.models && m !in desired ==> m.items == items[m] && m.isExpanded == expanded[m]
    {
      var model := FillStep(c.models, c.title, keys, j, matches, modelStates, desired, targets, items, expanded);
      desired := desired + [model];
      targets := targets + [model.items];
      j := j + 1;
    }
    assert keys[..j] == keys;
    ghost var prior := c.models;
    c.ReplaceModels(desired);
    ReconciledMembers(prior, desired);
    FilledRebuilt(c, prior, desired, targets, materials, expanded);
  }

  // ---------------------------------------------------------------------------
  // The expansion dictionaries
  // ---------------------------------------------------------------------------

  /** Categories.ToDictionary(Title, IsExpanded) with an ignore-case
      comparer. */
  function CategoryStatesOf(cs: seq<DeviceCategoryGroup>): map<string, bool>
    reads set c | c in cs
  {
    if cs == [] then map[]
    else
      var n := |cs| - 1;
      CategoryStatesOf(cs[..n])[UpperStr(cs[n].title) := cs[n].isExpanded]
  }

  /** With titles distinct ignoring case, the dictionary holds each
      category's expansion under its title, and nothing else. */
  lemma {:induction false} CategoryStatesSpec(cs: seq<DeviceCategoryGroup>)
    requires forall i, j :: 0 <= i < j < |cs| ==> !EqIC(cs[i].title, cs[j].title)
    ensures forall c :: c in cs ==>
              UpperStr(c.title) in CategoryStatesOf(cs) && CategoryStatesOf(cs)[UpperStr(c.title)] == c.isExpanded
    ensures forall k :: k in CategoryStatesOf(cs) ==> exists c :: c in cs && k == UpperStr(c.title)
  {
    if cs != [] {
      var n := |cs| - 1;
      var front := cs[..n];
      CategoryStatesSpec(front);
      forall c | c in cs
        ensures UpperStr(c.title) in CategoryStatesOf(cs) && CategoryStatesOf(cs)[UpperStr(c.title)] == c.isExpanded
      {
        if c != cs[n] {
          var i :| 0 <= i < |cs| && cs[i] == c;
          assert i < n && front[i] == c && !EqIC(cs[i].title, cs[n].title);
        }
      }
      forall k | k in CategoryStatesOf(cs) ensures exists c :: c in cs && k == UpperStr(c.title) {
        if k == UpperStr(cs[n].title) {
          assert cs[n] in cs;
        } else {
          assert CategoryStatesOf(cs) == CategoryStatesOf(front)[UpperStr(cs[n].title) := cs[n].isExpanded];
          assert k in CategoryStatesOf(front);
          var c :| c in front && k == UpperStr(c.title);
          assert c in cs;
        }
      }
    }
  }

  /** One category's part of the model dictionary. */
  function ModelStatesIn(title: string, ms: seq<DeviceModelGroup>): map<(string, string), bool>
    reads set m | m in ms
  {
    if ms == [] then map[]
    else
      var n := |ms| - 1;
      ModelStatesIn(title, ms[..n])[(UpperStr(title), UpperStr(ms[n].modelName)) := ms[n].isExpanded]
  }

  /** The SelectMany over the categories' models, then ToDictionary on the
      title and the name, both ignoring case. */
  function ModelStatesOf(cs: seq<DeviceCategoryGroup>): map<(string, string), bool>
    reads set c | c in cs, set c, m | c in cs && m in c.models :: m
  {
    if cs == [] then map[]
    else
      var n := |cs| - 1;
      ModelStatesOf(cs[..n]) + ModelStatesIn(cs[n].title, cs[n].models)
  }

  lemma {:induction false} ModelStatesInKeys(title: string, ms: seq<DeviceModelGroup>)
    ensures forall k :: k in ModelStatesIn(title, ms) ==> exists m :: m in ms && k == (UpperStr(title), UpperStr(m.modelName))
  {
    if ms != [] {
      var n := |ms| - 1;
      ModelStatesInKeys(title, ms[..n]);
      forall k | k in ModelStatesIn(title, ms) ensures exists m :: m in ms && k == (UpperStr(title), UpperStr(m.modelName)) {
        if k == (UpperStr(title), UpperStr(ms[n].modelName)) {
          assert ms[n] in ms;
        } else {
          assert ModelStatesIn(title, ms) == ModelStatesIn(title, ms[..n])[(UpperStr(title), UpperStr(ms[n].modelName)) := ms[n].isExpanded];
          assert k in ModelStatesIn(title, ms[..n]);
          var m :| m in ms[..n] && k == (UpperStr(title), UpperStr(m.modelName));
          assert m in ms;
        }
      }
    }
  }

  /** Every key of the model dictionary is a category's title paired with
      one of its models' names. */
  lemma {:induction false} ModelStatesKeys(cs: seq<DeviceCategoryGroup>)
    ensures forall k :: k in ModelStatesOf(cs) ==>
              exists c, m :: c in cs && m in c.models && k == (UpperStr(c.title), UpperStr(m.modelName))
  {
    if cs != [] {
      var n := |cs| - 1;
      ModelStatesKeys(cs[..n]);
      ModelStatesInKeys(cs[n].title, cs[n].models);
      forall k | k in ModelStatesOf(cs)
        ensures exists c, m :: c in cs && m in c.models && k == (UpperStr(c.title), UpperStr(m.modelName))
      {
        if k in ModelStatesIn(cs[n].title, cs[n].models) {
          var m :| m in cs[n].models && k == (UpperStr(cs[n].title), UpperStr(m.modelName));
          assert cs[n] in cs;
        } else {
          assert ModelStatesOf(cs) == ModelStatesOf(cs[..n]) + ModelStatesIn(cs[n].title, cs[n].models);
          assert k in ModelStatesOf(cs[..n]);
          var c, m :| c in cs[..n] && m in c.models && k == (UpperStr(c.title), UpperStr(m.modelName));
          assert c in cs;
        }
      }
    }
  }

  /** Titles distinct ignoring case pick out one category. */
  lemma {:induction false} SameTitleSame(cs: seq<DeviceCategoryGroup>, a: DeviceCategoryGroup, b: DeviceCategoryGroup)
    requires forall i, j :: 0 <= i < j < |cs| ==> !EqIC(cs[i].title, cs[j].title)
    requires a in cs && b in cs && EqIC(a.title, b.title)
    ensures a == b
  {
    var i :| 0 <= i < |cs| && cs[i] == a;
    var j :| 0 <= j < |cs| && cs[j] == b;
  }

  /** A category added to the page has a title no stored category had. */
  lemma {:induction false} NewTitleNotStored(states: map<string, bool>, before: seq<DeviceCategoryGroup>,
                                             cs: seq<DeviceCategoryGroup>, c: DeviceCategoryGroup)
    requires forall k :: k in states ==> exists d :: d in before && k == UpperStr(d.title)
    requires before <= cs && c in cs && c !in before
    requires forall i, j :: 0 <= i < j < |cs| ==> !EqIC(cs[i].title, cs[j].title)
    ensures UpperStr(c.title) !in states
  {
  }

  /** Category titles are distinct ignoring case, so are model names within
      a category, and no model belongs to two categories. */
  ghost predicate CategoriesValid(cs: seq<DeviceCategoryGroup>)
    reads set c | c in cs
  {
    (forall i, j :: 0 <= i < j < |cs| ==> !EqIC(cs[i].title, cs[j].title))
    && (forall c :: c in cs ==> ModelNamesDistinct(c.models))
    && (forall i, j, m :: 0 <= i < |cs| && 0 <= j < |cs| && i != j && m in cs[i].models ==> m !in cs[j].models)
  }

  /** What BuildCategories read before its first loop, as it bears on the
      rebuild: the stored expansion of each category (none for an added one,
      which is expanded), the model keys stored, and each model's items and
      expansion. */
  ghost predicate Snapshot(cs: seq<DeviceCategoryGroup>, categoryStates: map<string, bool>,
                           modelStates: map<(string, string), bool>,
                           items: map<DeviceModelGroup, seq<Material>>, expanded: map<DeviceModelGroup, bool>)
    reads set c | c in cs, set c, m | c in cs && m in c.models :: m
  {
    (forall c :: c in cs ==> StoredOr(categoryStates, UpperStr(c.title)) == c.isExpanded)
    && (forall k :: k in categoryStates ==> exists c :: c in cs && k == UpperStr(c.title))
    && (forall k :: k in modelStates ==>
          exists c, m :: c in cs && m in c.models && k == (UpperStr(c.title), UpperStr(m.modelName)))
    && (forall c, m :: c in cs && m in c.models ==>
          m in items && items[m] == m.items && m in expanded && expanded[m] == m.isExpanded)
  }

  /** Adding an expanded category without models under a new title keeps
      both. */
  lemma {:induction false} AppendKeeps(cs: seq<DeviceCategoryGroup>, g: DeviceCategoryGroup,
                                       categoryStates: map<string, bool>, modelStates: map<(string, string), bool>,
                                       items: map<DeviceModelGroup, seq<Material>>, expanded: map<DeviceModelGroup, bool>)
    requires CategoriesValid(cs) && Snapshot(cs, categoryStates, modelStates, items, expanded)
    requires g.models == [] && g.isExpanded && forall c :: c in cs ==> !EqIC(c.title, g.title)
    ensures CategoriesValid(cs + [g]) && Snapshot(cs + [g], categoryStates, modelStates, items, expanded)
  {
    var cs' := cs + [g];
    assert forall c :: c in cs' ==> c in cs || c == g;
    assert forall i :: 0 <= i < |cs| ==> cs'[i] == cs[i];
    assert cs'[|cs|] == g;
  }


  /** Each category's models, as a value. */
  ghost function ModelsOf(cs: seq<DeviceCategoryGroup>): (r: seq<seq<DeviceModelGroup>>)
    reads set c | c in cs
    ensures |r| == |cs| && forall k :: 0 <= k < |cs| ==> r[k] == cs[k].models
  {
    if cs == [] then [] else ModelsOf(cs[..|cs| - 1]) + [cs[|cs| - 1].models]
  }

  /** No model is in two rows. */
  ghost predicate RowsDisjoint(olds: seq<seq<DeviceModelGroup>>)
  {
    forall a, b, m :: 0 <= a < |olds| && 0 <= b < |olds| && a != b && m in olds[a] ==> m !in olds[b]
  }

  /** Every model key names a category's title and one of the models it
      had before the rebuild. */
  ghost predicate KeysFrom(modelStates: map<(string, string), bool>, cs: seq<DeviceCategoryGroup>,
                           olds: seq<seq<DeviceModelGroup>>)
    requires |olds| == |cs|
  {
    forall key :: key in modelStates ==>
      exists k, m :: 0 <= k < |cs| && m in olds[k] && key == (UpperStr(cs[k].title), UpperStr(m.modelName))
  }

  /** The state of the second loop of BuildCategories before category i:
      the ones before it are rebuilt, with models that are their old ones or
      new; the ones from it on keep their models, items and expansions. */
  ghost predicate Progress(cs: seq<DeviceCategoryGroup>, i: nat, olds: seq<seq<DeviceModelGroup>>,
                           categoryStates: map<string, bool>,
                           items: map<DeviceModelGroup, seq<Material>>, expanded: map<DeviceModelGroup, bool>,
                           materials: seq<Material>)
    reads set c | c in cs, set c, m | c in cs && m in c.models :: m
  {
    i <= |cs| && Shaped(cs, olds, categoryStates) && Pending(cs, i, olds, items, expanded)
    && Done(cs, i, olds, items, expanded, materials)
  }

  /** What holds of every category throughout the second loop. */
  ghost predicate Shaped(cs: seq<DeviceCategoryGroup>, olds: seq<seq<DeviceModelGroup>>, categoryStates: map<string, bool>)
    reads set c | c in cs
  {
    |olds| == |cs| && RowsDisjoint(olds) && CategoriesValid(cs)
    && (forall k :: 0 <= k < |cs| ==> cs[k].isExpanded == StoredOr(categoryStates, UpperStr(cs[k].title)))
  }

  /** The categories from i on are as they were. */
  ghost predicate Pending(cs: seq<DeviceCategoryGroup>, i: nat, olds: seq<seq<DeviceModelGroup>>,
                          items: map<DeviceModelGroup, seq<Material>>, expanded: map<DeviceModelGroup, bool>)
    reads set c | c in cs, set c, m | c in cs && m in c.models :: m
  {
    |olds| == |cs|
    && (forall k :: i <= k < |cs| ==> cs[k].models == olds[k])
    && (forall k, m :: i <= k < |cs| && m in cs[k].models ==>
          m in items && items[m] == m.items && m in expanded && expanded[m] == m.isExpanded)
  }

  /** The categories before i are rebuilt, with models that are their old
      ones or new. */
  ghost predicate Done(cs: seq<DeviceCategoryGroup>, i: nat, olds: seq<seq<DeviceModelGroup>>,
                       items: map<DeviceModelGroup, seq<Material>>, expanded: map<DeviceModelGroup, bool>,
                       materials: seq<Material>)
    reads set c | c in cs, set c, m | c in cs && m in c.models :: m
  {
    |olds| == |cs| && i <= |cs|
    && (forall k :: 0 <= k < i ==> Rebuilt(cs[k], olds[k], expanded, materials))
    && (forall k, m :: 0 <= k < i && m in cs[k].models ==>
          m in olds[k] || forall j :: 0 <= j < |olds| ==> m !in olds[j])
  }

  /** The snapshot taken by BuildCategories starts the second loop. */
  lemma StartFill(cs: seq<DeviceCategoryGroup>, olds: seq<seq<DeviceModelGroup>>,
                  categoryStates: map<string, bool>, modelStates: map<(string, string), bool>,
                  items: map<DeviceModelGroup, seq<Material>>, expanded: map<DeviceModelGroup, bool>,
                  materials: seq<Material>)
    requires CategoriesValid(cs) && Snapshot(cs, categoryStates, modelStates, items, expanded)
    requires |olds| == |cs| && forall k :: 0 <= k < |cs| ==> olds[k] == cs[k].models
    ensures Progress(cs, 0, olds, categoryStates, items, expanded, materials)
    ensures KeysFrom(modelStates, cs, olds)
  {
    forall key | key in modelStates
      ensures exists k, m :: 0 <= k < |cs| && m in olds[k] && key == (UpperStr(cs[k].title), UpperStr(m.modelName))
    {
      var c, m :| c in cs && m in c.models && key == (UpperStr(c.title), UpperStr(m.modelName));
      var k :| 0 <= k < |cs| && cs[k] == c;
      assert m in olds[k];
    }
  }

  /** The second loop of BuildCategories, once it is through. */
  lemma EndFill(cs: seq<DeviceCategoryGroup>, olds: seq<seq<DeviceModelGroup>>, categoryStates: map<string, bool>,
                items: map<DeviceModelGroup, seq<Material>>, expanded: map<DeviceModelGroup, bool>,
                materials: seq<Material>)
    requires Progress(cs, |cs|, olds, categoryStates, items, expanded, materials)
    ensures CategoriesValid(cs)
    ensures forall k :: 0 <= k < |cs| ==> Rebuilt(cs[k], olds[k], expanded, materials)
  {
  }

  /** A model key naming this category's title names one of its old
      models. */
  lemma KeysOfCategory(modelStates: map<(string, string), bool>, cs: seq<DeviceCategoryGroup>,
                       olds: seq<seq<DeviceModelGroup>>, i: nat)
    requires |olds| == |cs| && i < |cs| && KeysFrom(modelStates, cs, olds)
    requires forall a, b :: 0 <= a < b < |cs| ==> !EqIC(cs[a].title, cs[b].title)
    ensures forall key :: key in modelStates && key.0 == UpperStr(cs[i].title) ==>
              exists m :: m in olds[i] && UpperStr(m.modelName) == key.1
  {
    forall key | key in modelStates && key.0 == UpperStr(cs[i].title)
      ensures exists m :: m in olds[i] && UpperStr(m.modelName) == key.1
    {
      var k, m :| 0 <= k < |cs| && m in olds[k] && key == (UpperStr(cs[k].title), UpperStr(m.modelName));
    }
  }

  /** One pass of the second loop of BuildCategories: category i takes its
      stored expansion and is rebuilt; the others are left alone. */
  method RebuildAt(cs: seq<DeviceCategoryGroup>, i: nat, ghost olds: seq<seq<DeviceModelGroup>>, materials: seq<Material>,
                   categoryStates: map<string, bool>, modelStates: map<(string, string), bool>,
                   ghost items: map<DeviceModelGroup, seq<Material>>, ghost expanded: map<DeviceModelGroup, bool>)
    requires i < |cs| && Progress(cs, i, olds, categoryStates, items, expanded, materials)
    requires KeysFrom(modelStates, cs, olds)
    modifies cs[i], set m | m in cs[i].models
    ensures forall k :: 0 <= k < |cs| && k != i ==> unchanged(cs[k])
    ensures forall k, m :: 0 <= k < |cs| && k != i && m in cs[k].models ==> unchanged(m)
    ensures cs[i].isExpanded == StoredOr(categoryStates, UpperStr(cs[i].title))
    ensures Rebuilt(cs[i], olds[i], expanded, materials)
    ensures forall m :: m in cs[i].models ==> m in olds[i] || fresh(m)
  {
    var c := cs[i];
    c.SetExpanded(StoredOr(categoryStates, UpperStr(c.title)));
    KeysOfCategory(modelStates, cs, olds, i);
    FillCategory(c, materials, modelStates, items, expanded);
    forall k | 0 <= k < |cs| && k != i
      ensures cs[k] != c
    {
      if k < i {
        assert !EqIC(cs[k].title, cs[i].title);
      } else {
        assert !EqIC(cs[i].title, cs[k].title);
      }
    }
  }

  /** RebuildAt, and what holds of every category after it. */
  method ShapedAt(cs: seq<DeviceCategoryGroup>, i: nat, ghost olds: seq<seq<DeviceModelGroup>>, materials: seq<Material>,
                  categoryStates: map<string, bool>, modelStates: map<(string, string), bool>,
                  ghost items: map<DeviceModelGroup, seq<Material>>, ghost expanded: map<DeviceModelGroup, bool>)
    requires i < |cs| && Progress(cs, i, olds, categoryStates, items, expanded, materials)
    requires KeysFrom(modelStates, cs, olds)
    modifies cs[i], set m | m in cs[i].models
    ensures Shaped(cs, olds, categoryStates)
    ensures forall k :: 0 <= k < |cs| && k != i ==> unchanged(cs[k])
    ensures forall k, m :: 0 <= k < |cs| && k != i && m in cs[k].models ==> unchanged(m)
    ensures Rebuilt(cs[i], olds[i], expanded, materials)
    ensures forall m :: m in cs[i].models ==> m in olds[i] || fresh(m)
  {
    RebuildAt(cs, i, olds, materials, categoryStates, modelStates, items, expanded);
  }

  /** One pass of the second loop of BuildCategories, as it carries the
      loop's state from category i to the next. */
  method FillOne(cs: seq<DeviceCategoryGroup>, i: nat, ghost olds: seq<seq<DeviceModelGroup>>, materials: seq<Material>,
                 categoryStates: map<string, bool>, modelStates: map<(string, string), bool>,
                 ghost items: map<DeviceModelGroup, seq<Material>>, ghost expanded: map<DeviceModelGroup, bool>)
    requires i < |cs| && Progress(cs, i, olds, categoryStates, items, expanded, materials)
    requires KeysFrom(modelStates, cs, olds)
    modifies cs[i], set m | m in cs[i].models
    ensures Progress(cs, i + 1, olds, categoryStates, items, expanded, materials)
    ensures forall k :: 0 <= k < |cs| ==> cs[k].isExpanded == old(cs[k].isExpanded)
  {
    ShapedAt(cs, i, olds, materials, categoryStates, modelStates, items, expanded);
  }

  /** A new category with the title, expanded as the page creates it. */
  method NewExpanded(title: string) returns (g: DeviceCategoryGroup)
    ensures fresh(g) && g.title == title && g.models == [] && g.isExpanded
  {
    g := new DeviceCategoryGroup(title);
    g.SetExpanded(true);
  }

  /** The categories with a new expanded one under a title none of them
      has. */
  method Appended(cs: seq<DeviceCategoryGroup>, title: string,
                  ghost categoryStates: map<string, bool>, ghost modelStates: map<(string, string), bool>,
                  ghost items: map<DeviceModelGroup, seq<Material>>, ghost expanded: map<DeviceModelGroup, bool>)
    returns (r: seq<DeviceCategoryGroup>)
    requires CategoriesValid(cs) && Snapshot(cs, categoryStates, modelStates, items, expanded)
    requires forall c :: c in cs ==> !EqIC(c.title, title)
    ensures CategoriesValid(r) && Snapshot(r, categoryStates, modelStates, items, expanded)
    ensures |r| == |cs| + 1 && cs <= r && fresh(r[|cs|]) && r[|cs|].title == title
    ensures r[|cs|].models == [] && r[|cs|].isExpanded
  {
    var g := NewExpanded(title);
    assert CategoriesValid(cs) && Snapshot(cs, categoryStates, modelStates, items, expanded);
    AppendKeeps(cs, g, categoryStates, modelStates, items, expanded);
    r := cs + [g];
  }

  // ---------------------------------------------------------------------------
  // The page
  // ---------------------------------------------------------------------------

  class DeviceCountsPage {
    var categories: seq<DeviceCategoryGroup>

    /** Category titles are distinct ignoring case, so are model names within
        a category, and no model belongs to two categories. */
    ghost predicate Valid()
      reads this, set c | c in categories
    {
      CategoriesValid(categories)
    }

    constructor ()
      ensures Valid() && categories == []
    {
      categories := [];
    }

    /** The two dictionaries BuildCategories reads before rebuilding, with
        each model's items and expansion as they were then. */
    method ReadStates(ghost items: map<DeviceModelGroup, seq<Material>>, ghost expanded: map<DeviceModelGroup, bool>)
      returns (categoryStates: map<string, bool>, modelStates: map<(string, string), bool>)
      requires Valid() && items == ItemsOf() && expanded == ExpansionOf()
      ensures forall c :: c in categories ==>
                UpperStr(c.title) in categoryStates && categoryStates[UpperStr(c.title)] == c.isExpanded
      ensures forall k :: k in categoryStates ==> exists c :: c in categories && k == UpperStr(c.title)
      ensures forall k :: k in modelStates ==>
                exists c, m :: c in categories && m in c.models && k == (UpperStr(c.title), UpperStr(m.modelName))
      ensures Snapshot(categories, categoryStates, modelStates, items, expanded)
    {
      categoryStates := CategoryStatesOf(categories);
      modelStates := ModelStatesOf(categories);
      CategoryStatesSpec(categories);
      ModelStatesKeys(categories);
    }

    /** Each model's items, for stating what a rebuild keeps. */
    ghost function ItemsOf(): (r: map<DeviceModelGroup, seq<Material>>)
      reads this, set c | c in categories, set c, m | c in categories && m in c.models :: m
      ensures forall c, m :: c in categories && m in c.models ==> m in r && r[m] == m.items
    {
      map c, m | c in categories && m in c.models :: m := m.items
    }

    /** Each model's expansion, for stating what a rebuild keeps. */
    ghost function ExpansionOf(): (r: map<DeviceModelGroup, bool>)
      reads this, set c | c in categories, set c, m | c in categories && m in c.models :: m
      ensures forall c, m :: c in categories && m in c.models ==> m in r && r[m] == m.isExpanded
    {
      map c, m | c in categories && m in c.models :: m := m.isExpanded
    }

    /** One pass of the first loop of BuildCategories: a category with the
        title is added, expanded, unless one is there already (ignoring case). */
    method AddIfMissing(title: string, ghost categoryStates: map<string, bool>, ghost modelStates: map<(string, string), bool>,
                        ghost items: map<DeviceModelGroup, seq<Material>>, ghost expanded: map<DeviceModelGroup, bool>)
      requires Valid() && Snapshot(categories, categoryStates, modelStates, items, expanded)
      modifies this`categories
      ensures Valid() && Snapshot(categories, categoryStates, modelStates, items, expanded)
      ensures old(categories) <= categories && TitledIn(categories, title)
      ensures forall i :: |old(categories)| <= i < |categories| ==>
                fresh(categories[i]) && categories[i].title == title
                && categories[i].models == [] && categories[i].isExpanded
    {
      if forall c :: c in categories ==> !EqIC(c.title, title) {
        categories := Appended(categories, title, categoryStates, modelStates, items, expanded);
      }
    }

    /** The first loop of BuildCategories: each keyword category not on the
        page yet (ignoring case) is added, expanded, after the others; the
        categories already there keep their models and expansion. */
    method AddMissingCategories(ghost categoryStates: map<string, bool>, ghost modelStates: map<(string, string), bool>,
                                ghost items: map<DeviceModelGroup, seq<Material>>, ghost expanded: map<DeviceModelGroup, bool>)
      requires Valid() && Snapshot(categories, categoryStates, modelStates, items, expanded)
      modifies this`categories
      ensures Valid() && Snapshot(categories, categoryStates, modelStates, items, expanded)
      ensures old(categories) <= categories
      ensures forall t :: t in CategoryTitles ==> TitledIn(categories, t)
      ensures forall i :: |old(categories)| <= i < |categories| ==>
                fresh(categories[i]) && categories[i].title in CategoryTitles
                && categories[i].models == [] && categories[i].isExpanded
      ensures forall c :: c in categories ==>
                c.models == (if c in old(categories) then old(c.models) else [])
                && c.isExpanded == (if c in old(categories) then old(c.isExpanded) else true)
    {
      AddEachMissing(categoryStates, modelStates, items, expanded);
    }

    /** The loop of AddMissingCategories: each keyword category missing is
        appended after the others. */
    method AddEachMissing(ghost categoryStates: map<string, bool>, ghost modelStates: map<(string, string), bool>,
                          ghost items: map<DeviceModelGroup, seq<Material>>, ghost expanded: map<DeviceModelGroup, bool>)
      requires Valid() && Snapshot(categories, categoryStates, modelStates, items, expanded)
      modifies this`categories
      ensures Valid() && Snapshot(categories, categoryStates, modelStates, items, expanded)
      ensures old(categories) <= categories
      ensures forall t :: t in CategoryTitles ==> TitledIn(categories, t)
      ensures forall i :: |old(categories)| <= i < |categories| ==>
                fresh(categories[i]) && categories[i].title in CategoryTitles
                && categories[i].models == [] && categories[i].isExpanded
    {
      var k := 0;
      while k < |CategoryTitles|
        invariant 0 <= k <= |CategoryTitles|
        invariant Valid() && Snapshot(categories, categoryStates, modelStates, items, expanded)
        invariant old(categories) <= categories
        invariant forall t :: t in CategoryTitles[..k] ==> TitledIn(categories, t)
        invariant forall i :: |old(categories)| <= i < |categories| ==>
                    fresh(categories[i]) && categories[i].title in CategoryTitles
                    && categories[i].models == [] && categories[i].isExpanded
      {
        var title := CategoryTitles[k];
        AddIfMissing(title, categoryStates, modelStates, items, expanded);
        assert CategoryTitles[..k + 1] == CategoryTitles[..k] + [title];
        k := k + 1;
      }
      assert CategoryTitles[..k] == CategoryTitles;
    }

    /** The second loop of BuildCategories: each category takes its stored
        expansion and is rebuilt from the materials. */
    method FillAll(materials: seq<Material>, categoryStates: map<string, bool>, modelStates: map<(string, string), bool>,
                   ghost items: map<DeviceModelGroup, seq<Material>>, ghost expanded: map<DeviceModelGroup, bool>)
      requires Valid() && Snapshot(categories, categoryStates, modelStates, items, expanded)
      modifies set c | c in categories, set c, m | c in categories && m in c.models :: m
      ensures Valid()
      ensures forall c :: c in categories ==>
                c.isExpanded == old(c.isExpanded) && Rebuilt(c, old(c.models), expanded, materials)
    {
      var cs := categories;
      ghost var olds := ModelsOf(cs);
      StartFill(cs, olds, categoryStates, modelStates, items, expanded, materials);
      var i := 0;
      while i < |cs|
        invariant 0 <= i <= |cs|
        invariant Progress(cs, i, olds, categoryStates, items, expanded, materials)
        invariant forall k :: 0 <= k < |cs| ==> cs[k].isExpanded == old(cs[k].isExpanded)
      {
        FillOne(cs, i, olds, materials, categoryStates, modelStates, items, expanded);
        i := i + 1;
      }
      EndFill(cs, olds, categoryStates, items, expanded, materials);
    }

    /** BuildCategories: every keyword category is on the page once; each
        category keeps its expansion (a new one is expanded) and is rebuilt
        from the materials carrying its keywords. */
    method BuildCategories(materials: seq<Material>)
      requires Valid()
      modifies this`categories, set c | c in categories, set c, m | c in categories && m in c.models :: m
      ensures Valid() && old(categories) <= categories
      ensures forall t :: t in CategoryTitles ==> TitledIn(categories, t)
      ensures forall i :: |old(categories)| <= i < |categories| ==>
                fresh(categories[i]) && categories[i].title in CategoryTitles
      ensures forall c :: c in categories ==> c.isExpanded == if c in old(categories) then old(c.isExpanded) else true
      ensures forall c :: c in categories ==>
                Rebuilt(c, if c in old(categories) then old(c.models) else [], old(ExpansionOf()), materials)
    {
      ghost var items, expanded := ItemsOf(), ExpansionOf();
      var categoryStates, modelStates := ReadStates(items, expanded);
      AddMissingCategories(categoryStates, modelStates, items, expanded);
      FillAll(materials, categoryStates, modelStates, items, expanded);
    }

    /** LoadAsync: the categories are rebuilt from the stored materials in
        their listing order. */
    method Load(store: Store)
      requires Valid()
      modifies this`categories, set c | c in categories, set c, m | c in categories && m in c.models :: m
      ensures Valid() && old(categories) <= categories
      ensures forall t :: t in CategoryTitles ==> TitledIn(categories, t)
      ensures forall c :: c in categories ==>
                Rebuilt(c, if c in old(categories) then old(c.models) else [], old(ExpansionOf()),
                        MaterialsByName(store.materials))
    {
      BuildCategories(MaterialsByName(store.materials));
    }

    /** OnToggleCategory. */
    method ToggleCategory(c: DeviceCategoryGroup)
      modifies c`isExpanded
      ensures c.isExpanded == !old(c.isExpanded)
    {
      c.SetExpanded(!c.isExpanded);
    }

    /** OnToggleModel. */
    method ToggleModel(m: DeviceModelGroup)
      modifies m`isExpanded
      ensures m.isExpanded == !old(m.isExpanded)
    {
      m.SetExpanded(!m.isExpanded);
    }
  }
}
