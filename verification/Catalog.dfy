/**
 The catalog of deployable images: its validation, the store's operations, what
 they leave on disk, and the public view. Strings are byte strings.
 */
module Catalog {
  import opened Common

  datatype Preset = Preset(
    id: string, name: string, image: string, description: string, categoryId: string, defaultTier: string,
    tags: seq<string>, enabled: bool, sortOrder: int)

  datatype Category = Category(id: string, caption: string, enabled: bool, sortOrder: int)

  datatype Tier = Tier(
    id: string, name: string, description: string, cpu: string, memory: string, storage: string, monthly: int,
    enabled: bool, popular: bool, sortOrder: int)

  datatype Catalog = Catalog(presets: seq<Preset>, categories: seq<Category>, tiers: seq<Tier>, version: int)

  // ---------------------------------------------------------------- what is valid

  predicate IdCharOk(ch: char) {
    'a' <= ch <= 'z' || '0' <= ch <= '9' || ch == '-' || ch == '_'
  }

  predicate IdOk(id: string) {
    0 < |id| <= 64 && forall i :: 0 <= i < |id| ==> IdCharOk(id[i])
  }

  predicate TagsOk(tags: seq<string>) {
    |tags| <= 20 && forall i :: 0 <= i < |tags| ==> |tags[i]| <= 64
  }

  predicate PresetOk(p: Preset) {
    IdOk(p.id) && 0 < |p.name| <= 128 && 0 < |p.image| <= 256 && |p.description| <= 512 && TagsOk(p.tags)
  }

  predicate CategoryOk(c: Category) {
    IdOk(c.id) && 0 < |c.caption| <= 128
  }

  predicate TierOk(t: Tier) {
    && IdOk(t.id) && 0 < |t.name| <= 128 && |t.description| <= 256
    && |t.cpu| <= 64 && |t.memory| <= 64 && |t.storage| <= 64 && t.monthly >= 0
  }

  const MAX_PRESETS: nat := 200
  const MAX_CATEGORIES: nat := 50
  const MAX_TIERS: nat := 20

  function PresetIds(ps: seq<Preset>): (ids: seq<string>)
    ensures |ids| == |ps| && forall i :: 0 <= i < |ps| ==> ids[i] == ps[i].id
  {
    seq(|ps|, i requires 0 <= i < |ps| => ps[i].id)
  }

  function CategoryIds(cs: seq<Category>): (ids: seq<string>)
    ensures |ids| == |cs| && forall i :: 0 <= i < |cs| ==> ids[i] == cs[i].id
  {
    seq(|cs|, i requires 0 <= i < |cs| => cs[i].id)
  }

  function TierIds(ts: seq<Tier>): (ids: seq<string>)
    ensures |ids| == |ts| && forall i :: 0 <= i < |ts| ==> ids[i] == ts[i].id
  {
    seq(|ts|, i requires 0 <= i < |ts| => ts[i].id)
  }

  predicate Distinct(ids: seq<string>) {
    forall i, j :: 0 <= i < j < |ids| ==> ids[i] != ids[j]
  }

  predicate RefersWithin(p: Preset, categoryIds: seq<string>, tierIds: seq<string>) {
    p.categoryId in categoryIds && (p.defaultTier != "" ==> p.defaultTier in tierIds)
  }

  predicate CategoriesOk(cs: seq<Category>) {
    (forall i :: 0 <= i < |cs| ==> CategoryOk(cs[i])) && Distinct(CategoryIds(cs))
  }

  predicate TiersOk(ts: seq<Tier>) {
    (forall i :: 0 <= i < |ts| ==> TierOk(ts[i])) && Distinct(TierIds(ts))
  }

  predicate PresetsOk(ps: seq<Preset>, categoryIds: seq<string>, tierIds: seq<string>) {
    && (forall i :: 0 <= i < |ps| ==> PresetOk(ps[i]))
    && (forall i :: 0 <= i < |ps| ==> RefersWithin(ps[i], categoryIds, tierIds))
    && Distinct(PresetIds(ps))
  }

  /** Bounded, well-formed items; no id twice; every preset's category and tier exist. */
  predicate Valid(c: Catalog) {
    && |c.presets| <= MAX_PRESETS && |c.categories| <= MAX_CATEGORIES && |c.tiers| <= MAX_TIERS
    && CategoriesOk(c.categories) && TiersOk(c.tiers)
    && PresetsOk(c.presets, CategoryIds(c.categories), TierIds(c.tiers))
  }

  // ---------------------------------------------------------------- validation as the code runs it

  method ValidateId(id: string) returns (ok: bool)
    ensures ok <==> IdOk(id)
  {
    if |id| == 0 || |id| > 64 {
      return false;
    }
    for i := 0 to |id|
      invariant forall k :: 0 <= k < i ==> IdCharOk(id[k])
    {
      if !(('a' <= id[i] <= 'z') || ('0' <= id[i] <= '9') || id[i] == '-' || id[i] == '_') {
        assert !IdCharOk(id[i]);
        return false;
      }
    }
    ok := true;
  }

  method ValidatePreset(p: Preset) returns (ok: bool)
    ensures ok <==> PresetOk(p)
  {
    var idOk := ValidateId(p.id);
    if !idOk || |p.name| == 0 || |p.name| > 128 || |p.image| == 0 || |p.image| > 256 || |p.description| > 512 || |p.tags| > 20 {
      return false;
    }
    for i := 0 to |p.tags|
      invariant forall k :: 0 <= k < i ==> |p.tags[k]| <= 64
    {
      if |p.tags[i]| > 64 {
        return false;
      }
    }
    ok := true;
  }

  method ValidateCategory(c: Category) returns (ok: bool)
    ensures ok <==> CategoryOk(c)
  {
    ok := ValidateId(c.id);
    ok := ok && |c.caption| != 0 && |c.caption| <= 128;
  }

  method ValidateTier(t: Tier) returns (ok: bool)
    ensures ok <==> TierOk(t)
  {
    ok := ValidateId(t.id);
    if |t.name| == 0 || |t.name| > 128 || |t.description| > 256 || |t.cpu| > 64 || |t.memory| > 64 || |t.storage| > 64 {
      return false;
    }
    ok := ok && t.monthly >= 0;
  }

  /** An id seen before is a duplicate exactly if it is among the ids so far. */
  lemma DistinctSnoc(ids: seq<string>, id: string)
    ensures Distinct(ids + [id]) <==> Distinct(ids) && id !in ids
  {
    var longer := ids + [id];
    if Distinct(longer) {
      forall i, j | 0 <= i < j < |ids|
        ensures ids[i] != ids[j]
      {
        assert longer[i] != longer[j];
      }
      forall i | 0 <= i < |ids|
        ensures ids[i] != id
      {
        assert longer[i] != longer[|ids|];
      }
    }
  }

  lemma DistinctPrefix(ids: seq<string>, n: nat)
    requires n <= |ids| && Distinct(ids)
    ensures Distinct(ids[..n])
  {
  }

  method ValidateCategories(cs: seq<Category>) returns (ok: bool, seen: set<string>)
    ensures ok <==> CategoriesOk(cs)
    ensures ok ==> seen == set id | id in CategoryIds(cs)
  {
    seen := {};
    for i := 0 to |cs|
      invariant forall k :: 0 <= k < i ==> CategoryOk(cs[k])
      invariant Distinct(CategoryIds(cs[..i])) && seen == set id | id in CategoryIds(cs[..i])
    {
      var itemOk := ValidateCategory(cs[i]);
      assert CategoryIds(cs[..i + 1]) == CategoryIds(cs[..i]) + [cs[i].id];
      DistinctSnoc(CategoryIds(cs[..i]), cs[i].id);
      if !itemOk || cs[i].id in seen {
        if Distinct(CategoryIds(cs)) {
          DistinctPrefix(CategoryIds(cs), i + 1);
          assert CategoryIds(cs)[..i + 1] == CategoryIds(cs[..i + 1]);
        }
        return false, seen;
      }
      seen := seen + {cs[i].id};
    }
    assert cs[..|cs|] == cs;
    ok := true;
  }

  method ValidateTiers(ts: seq<Tier>) returns (ok: bool, seen: set<string>)
    ensures ok <==> TiersOk(ts)
    ensures ok ==> seen == set id | id in TierIds(ts)
  {
    seen := {};
    for i := 0 to |ts|
      invariant forall k :: 0 <= k < i ==> TierOk(ts[k])
      invariant Distinct(TierIds(ts[..i])) && seen == set id | id in TierIds(ts[..i])
    {
      var itemOk := ValidateTier(ts[i]);
      assert TierIds(ts[..i + 1]) == TierIds(ts[..i]) + [ts[i].id];
      DistinctSnoc(TierIds(ts[..i]), ts[i].id);
      if !itemOk || ts[i].id in seen {
        if Distinct(TierIds(ts)) {
          DistinctPrefix(TierIds(ts), i + 1);
          assert TierIds(ts)[..i + 1] == TierIds(ts[..i + 1]);
        }
        return false, seen;
      }
      seen := seen + {ts[i].id};
    }
    assert ts[..|ts|] == ts;
    ok := true;
  }

  method ValidatePresets(ps: seq<Preset>, categoryIds: seq<string>, tierIds: seq<string>, catSeen: set<string>, tierSeen: set<string>)
    returns (ok: bool)
    requires catSeen == (set id | id in categoryIds) && tierSeen == set id | id in tierIds
    ensures ok <==> PresetsOk(ps, categoryIds, tierIds)
  {
    var seen: set<string> := {};
    for i := 0 to |ps|
      invariant forall k :: 0 <= k < i ==> PresetOk(ps[k])
      invariant forall k :: 0 <= k < i ==> RefersWithin(ps[k], categoryIds, tierIds)
      invariant Distinct(PresetIds(ps[..i])) && seen == set id | id in PresetIds(ps[..i])
    {
      var itemOk := ValidatePreset(ps[i]);
      assert PresetIds(ps[..i + 1]) == PresetIds(ps[..i]) + [ps[i].id];
      DistinctSnoc(PresetIds(ps[..i]), ps[i].id);
      if !itemOk || ps[i].id in seen {
        if Distinct(PresetIds(ps)) {
          DistinctPrefix(PresetIds(ps), i + 1);
          assert PresetIds(ps)[..i + 1] == PresetIds(ps[..i + 1]);
        }
        return false;
      }
      seen := seen + {ps[i].id};
      if ps[i].categoryId !in catSeen || (ps[i].defaultTier != "" && ps[i].defaultTier !in tierSeen) {
        assert !RefersWithin(ps[i], categoryIds, tierIds);
        return false;
      }
    }
    assert ps[..|ps|] == ps;
    ok := true;
  }

  method ValidateCatalog(c: Catalog) returns (ok: bool)
    ensures ok <==> Valid(c)
  {
    if |c.presets| > MAX_PRESETS || |c.categories| > MAX_CATEGORIES || |c.tiers| > MAX_TIERS {
      return false;
    }
    var catsOk, catSeen := ValidateCategories(c.categories);
    if !catsOk {
      return false;
    }
    var tiersOk, tierSeen := ValidateTiers(c.tiers);
    if !tiersOk {
      return false;
    }
    ok := ValidatePresets(c.presets, CategoryIds(c.categories), TierIds(c.tiers), catSeen, tierSeen);
  }

  // ---------------------------------------------------------------- the operations

  datatype Op =
    | Replace(catalog: Catalog)
    | AddPreset(preset: Preset)
    | UpdatePreset(id: string, preset: Preset)
    | DeletePreset(id: string)
    | AddCategory(category: Category)
    | UpdateCategory(id: string, category: Category)
    | DeleteCategory(id: string)
    | UpdateTier(id: string, tier: Tier)

  /** The first place of an id, or the length if it is absent. */
  function IndexOf(ids: seq<string>, id: string): (i: nat)
    ensures i <= |ids| && (i < |ids| <==> id in ids) && (i < |ids| ==> ids[i] == id)
  {
    if ids == [] then 0 else if ids[0] == id then 0 else 1 + IndexOf(ids[1..], id)
  }

  function Without<T>(xs: seq<T>, i: nat): seq<T>
    requires i < |xs|
  {
    xs[..i] + xs[i + 1..]
  }

  /** The edit an operation asks for, None if the item it names is missing; the version goes up by one. */
  function Edited(c: Catalog, op: Op): Option<Catalog> {
    var next := c.(version := c.version + 1);
    match op
    case Replace(catalog) => Some(catalog.(version := c.version + 1))
    case AddPreset(preset) => Some(next.(presets := c.presets + [preset]))
    case UpdatePreset(id, preset) =>
      var i := IndexOf(PresetIds(c.presets), id);
      if i < |c.presets| then Some(next.(presets := c.presets[i := preset.(id := id)])) else None
    case DeletePreset(id) =>
      var i := IndexOf(PresetIds(c.presets), id);
      if i < |c.presets| then Some(next.(presets := Without(c.presets, i))) else None
    case AddCategory(category) => Some(next.(categories := c.categories + [category]))
    case UpdateCategory(id, category) =>
      var i := IndexOf(CategoryIds(c.categories), id);
      if i < |c.categories| then Some(next.(categories := c.categories[i := category.(id := id)])) else None
    case DeleteCategory(id) =>
      var i := IndexOf(CategoryIds(c.categories), id);
      if i < |c.categories| then Some(next.(categories := Without(c.categories, i))) else None
    case UpdateTier(id, tier) =>
      var i := IndexOf(TierIds(c.tiers), id);
      if i < |c.tiers| then Some(next.(tiers := c.tiers[i := tier.(id := id)])) else None
  }

  predicate Unreferenced(ps: seq<Preset>, categoryId: string) {
    forall i :: 0 <= i < |ps| ==> ps[i].categoryId != categoryId
  }

  /** The checks the operation makes on its own argument and the items it touches. */
  predicate Checks(c: Catalog, op: Op) {
    match op
    case Replace(catalog) => Valid(catalog)
    case AddPreset(preset) =>
      && PresetOk(preset) && preset.id !in PresetIds(c.presets) && |c.presets| < MAX_PRESETS
      && RefersWithin(preset, CategoryIds(c.categories), TierIds(c.tiers))
    case UpdatePreset(_, preset) => PresetOk(preset) && RefersWithin(preset, CategoryIds(c.categories), TierIds(c.tiers))
    case DeletePreset(_) => true
    case AddCategory(category) =>
      CategoryOk(category) && category.id !in CategoryIds(c.categories) && |c.categories| < MAX_CATEGORIES
    case UpdateCategory(_, category) => CategoryOk(category)
    case DeleteCategory(id) => Unreferenced(c.presets, id)
    case UpdateTier(_, tier) => TierOk(tier)
  }

  function Apply(c: Catalog, op: Op): Option<Catalog> {
    if Checks(c, op) then Edited(c, op) else None
  }

  /** An update validates the id in its body although the id in its path replaces it. */
  predicate BodyIdOk(op: Op) {
    match op
    case UpdatePreset(_, preset) => IdOk(preset.id)
    case UpdateCategory(_, category) => IdOk(category.id)
    case UpdateTier(_, tier) => IdOk(tier.id)
    case _ => true
  }

  ghost predicate AcceptedIffValid(c: Catalog, op: Op) {
    Apply(c, op).Some? <==> Edited(c, op).Some? && Valid(Edited(c, op).value) && BodyIdOk(op)
  }

  // ---------------------------------------------------------------- local checks are as good as validating everything

  lemma SameIdsUpdated(ps: seq<Preset>, i: nat, p: Preset)
    requires i < |ps| && p.id == ps[i].id
    ensures PresetIds(ps[i := p]) == PresetIds(ps)
  {
  }

  lemma AddPresetIff(c: Catalog, p: Preset)
    requires Valid(c)
    ensures AcceptedIffValid(c, AddPreset(p))
  {
    var ps := c.presets + [p];
    assert PresetIds(ps) == PresetIds(c.presets) + [p.id];
    DistinctSnoc(PresetIds(c.presets), p.id);
    assert ps[|c.presets|] == p;
    assert forall i :: 0 <= i < |c.presets| ==> ps[i] == c.presets[i];
  }

  lemma UpdatePresetIff(c: Catalog, id: string, p: Preset)
    requires Valid(c)
    ensures AcceptedIffValid(c, UpdatePreset(id, p))
  {
    var i := IndexOf(PresetIds(c.presets), id);
    if i < |c.presets| {
      var q := p.(id := id);
      var ps := c.presets[i := q];
      SameIdsUpdated(c.presets, i, q);
      assert PresetOk(c.presets[i]) && IdOk(id);
      assert ps[i] == q;
      assert forall k :: 0 <= k < |ps| && k != i ==> ps[k] == c.presets[k];
    }
  }

  lemma WithoutStaysDistinct(ids: seq<string>, i: nat)
    requires i < |ids| && Distinct(ids)
    ensures Distinct(Without(ids, i))
    ensures forall id :: id in Without(ids, i) <==> id in ids && id != ids[i]
  {
    var rest := Without(ids, i);
    forall id
      ensures id in rest <==> id in ids && id != ids[i]
    {
      assert ids == ids[..i] + [ids[i]] + ids[i + 1..];
    }
  }

  /** Any presets may go. */
  lemma WithoutStaysOk(ps: seq<Preset>, i: nat, categoryIds: seq<string>, tierIds: seq<string>)
    requires i < |ps| && PresetsOk(ps, categoryIds, tierIds)
    ensures PresetsOk(Without(ps, i), categoryIds, tierIds)
  {
    var rest := Without(ps, i);
    assert PresetIds(rest) == Without(PresetIds(ps), i);
    WithoutStaysDistinct(PresetIds(ps), i);
    assert forall k :: 0 <= k < |rest| ==> rest[k] == ps[if k < i then k else k + 1];
  }

  lemma DeletePresetIff(c: Catalog, id: string)
    requires Valid(c)
    ensures AcceptedIffValid(c, DeletePreset(id))
  {
    var i := IndexOf(PresetIds(c.presets), id);
    if i < |c.presets| {
      WithoutStaysOk(c.presets, i, CategoryIds(c.categories), TierIds(c.tiers));
      hide PresetsOk, CategoriesOk, TiersOk;
      assert |Without(c.presets, i)| == |c.presets| - 1;
    }
  }

  lemma AddCategoryIff(c: Catalog, category: Category)
    requires Valid(c)
    ensures AcceptedIffValid(c, AddCategory(category))
  {
    var cs := c.categories + [category];
    assert CategoryIds(cs) == CategoryIds(c.categories) + [category.id];
    DistinctSnoc(CategoryIds(c.categories), category.id);
    assert cs[|c.categories|] == category;
    assert forall i :: 0 <= i < |c.categories| ==> cs[i] == c.categories[i];
    assert forall i :: 0 <= i < |c.presets| ==> RefersWithin(c.presets[i], CategoryIds(c.categories), TierIds(c.tiers));
  }

  lemma UpdateCategoryIff(c: Catalog, id: string, category: Category)
    requires Valid(c)
    ensures AcceptedIffValid(c, UpdateCategory(id, category))
  {
    var i := IndexOf(CategoryIds(c.categories), id);
    if i < |c.categories| {
      var updated := category.(id := id);
      var cs := c.categories[i := updated];
      assert CategoryIds(cs) == CategoryIds(c.categories);
      assert CategoryOk(c.categories[i]) && IdOk(id);
      assert cs[i] == updated;
      assert forall k :: 0 <= k < |cs| && k != i ==> cs[k] == c.categories[k];
    }
  }

  lemma DeleteCategoryIff(c: Catalog, id: string)
    requires Valid(c)
    ensures AcceptedIffValid(c, DeleteCategory(id))
  {
    var i := IndexOf(CategoryIds(c.categories), id);
    if i < |c.categories| {
      var cs := Without(c.categories, i);
      assert CategoryIds(cs) == Without(CategoryIds(c.categories), i);
      WithoutStaysDistinct(CategoryIds(c.categories), i);
      assert forall k :: 0 <= k < |cs| ==> cs[k] == c.categories[if k < i then k else k + 1];
      ReferencesWithout(c.presets, CategoryIds(c.categories), CategoryIds(cs), TierIds(c.tiers), id);
    }
  }

  lemma ReferencesWithout(ps: seq<Preset>, before: seq<string>, after: seq<string>, tierIds: seq<string>, id: string)
    requires PresetsOk(ps, before, tierIds)
    requires forall x :: x in after <==> x in before && x != id
    ensures PresetsOk(ps, after, tierIds) <==> Unreferenced(ps, id)
  {
    assert forall i :: 0 <= i < |ps| ==> RefersWithin(ps[i], before, tierIds);
    if PresetsOk(ps, after, tierIds) {
      assert forall i :: 0 <= i < |ps| ==> RefersWithin(ps[i], after, tierIds);
    }
  }

  lemma UpdateTierIff(c: Catalog, id: string, tier: Tier)
    requires Valid(c)
    ensures AcceptedIffValid(c, UpdateTier(id, tier))
  {
    var i := IndexOf(TierIds(c.tiers), id);
    if i < |c.tiers| {
      var updated := tier.(id := id);
      var ts := c.tiers[i := updated];
      assert TierIds(ts) == TierIds(c.tiers);
      assert TierOk(c.tiers[i]) && IdOk(id);
      assert ts[i] == updated;
      assert forall k :: 0 <= k < |ts| && k != i ==> ts[k] == c.tiers[k];
    }
  }

  /**
   On a valid catalog every operation is accepted exactly if the item it names
   exists, the whole catalog it would produce is valid, and the id in its body is well formed.
   */
  lemma LocalChecksSuffice(c: Catalog, op: Op)
    requires Valid(c)
    ensures AcceptedIffValid(c, op)
    ensures Apply(c, op).Some? ==> Valid(Apply(c, op).value) && Apply(c, op).value.version == c.version + 1
  {
    match op
    case Replace(catalog) =>
      assert Valid(catalog.(version := c.version + 1)) <==> Valid(catalog);
    case AddPreset(preset) => AddPresetIff(c, preset);
    case UpdatePreset(id, preset) => UpdatePresetIff(c, id, preset);
    case DeletePreset(id) => DeletePresetIff(c, id);
    case AddCategory(category) => AddCategoryIff(c, category);
    case UpdateCategory(id, category) => UpdateCategoryIff(c, id, category);
    case DeleteCategory(id) => DeleteCategoryIff(c, id);
    case UpdateTier(id, tier) => UpdateTierIff(c, id, tier);
  }

  /** An update that would leave a valid catalog is refused over an id it does not use. */
  lemma UnusedIdIsRefused(c: Catalog, id: string)
    requires Valid(c) && id in CategoryIds(c.categories)
    ensures var op := UpdateCategory(id, Category("", "x", true, 0));
            Apply(c, op).None? && Edited(c, op).Some? && Valid(Edited(c, op).value)
  {
    var op := UpdateCategory(id, Category("", "x", true, 0));
    UpdateCategoryIff(c, id, Category("a", "x", true, 0));
    assert IdOk("a");
    assert Edited(c, UpdateCategory(id, Category("a", "x", true, 0))) == Edited(c, op);
  }

  // ---------------------------------------------------------------- what an accepted operation leaves

  lemma {:induction false} FilterAll<T>(xs: seq<T>, keep: T -> bool)
    requires forall x :: x in xs ==> keep(x)
    ensures Filter(xs, keep) == xs
  {
    if xs != [] {
      FilterAll(xs[..|xs| - 1], keep);
      assert xs == xs[..|xs| - 1] + [xs[|xs| - 1]];
    }
  }

  lemma RemovesOne<T>(a: seq<T>, x: T, b: seq<T>, keep: T -> bool)
    requires (forall y :: y in a ==> keep(y)) && (forall y :: y in b ==> keep(y)) && !keep(x)
    ensures Filter(a + [x] + b, keep) == a + b
  {
    FilterAll(a, keep);
    FilterAll(b, keep);
    DropsLast(a, x, keep);
    FilterJoins(a + [x], b, keep);
  }

  lemma WithoutIsFilter<T>(xs: seq<T>, i: nat, keep: T -> bool)
    requires i < |xs| && !keep(xs[i])
    requires (forall y :: y in xs[..i] ==> keep(y)) && (forall y :: y in xs[i + 1..] ==> keep(y))
    ensures Without(xs, i) == Filter(xs, keep)
  {
    hide Filter;
    Around(xs, i);
    RemovesOne(xs[..i], xs[i], xs[i + 1..], keep);
  }

  lemma Around<T>(xs: seq<T>, i: nat)
    requires i < |xs|
    ensures xs[..i] + [xs[i]] + xs[i + 1..] == xs
  {
  }

  lemma DropsLast<T>(xs: seq<T>, x: T, keep: T -> bool)
    requires !keep(x)
    ensures Filter(xs + [x], keep) == Filter(xs, keep)
  {
    assert (xs + [x])[..|xs|] == xs;
  }

  /** The one item under the id is replaced, the others stay as they are. */
  predicate PresetReplaced(before: seq<Preset>, after: seq<Preset>, id: string, body: Preset) {
    && id in PresetIds(before) && |after| == |before|
    && forall i :: 0 <= i < |before| ==> after[i] == if before[i].id == id then body.(id := id) else before[i]
  }

  predicate CategoryReplaced(before: seq<Category>, after: seq<Category>, id: string, body: Category) {
    && id in CategoryIds(before) && |after| == |before|
    && forall i :: 0 <= i < |before| ==> after[i] == if before[i].id == id then body.(id := id) else before[i]
  }

  predicate TierReplaced(before: seq<Tier>, after: seq<Tier>, id: string, body: Tier) {
    && id in TierIds(before) && |after| == |before|
    && forall i :: 0 <= i < |before| ==> after[i] == if before[i].id == id then body.(id := id) else before[i]
  }

  /** What each operation is for. */
  ghost predicate Means(c: Catalog, op: Op, after: Catalog) {
    && (op.Replace? ==> after.presets == op.catalog.presets && after.categories == op.catalog.categories && after.tiers == op.catalog.tiers)
    && (op.AddPreset? ==> after.presets == c.presets + [op.preset])
    && (op.UpdatePreset? ==> PresetReplaced(c.presets, after.presets, op.id, op.preset))
    && (op.DeletePreset? ==> op.id in PresetIds(c.presets) && after.presets == Filter(c.presets, (p: Preset) => p.id != op.id))
    && (op.AddCategory? ==> after.categories == c.categories + [op.category])
    && (op.UpdateCategory? ==> CategoryReplaced(c.categories, after.categories, op.id, op.category))
    && (op.DeleteCategory? ==>
          op.id in CategoryIds(c.categories) && after.categories == Filter(c.categories, (x: Category) => x.id != op.id))
    && (op.UpdateTier? ==> TierReplaced(c.tiers, after.tiers, op.id, op.tier))
    && (!op.Replace? && !op.AddPreset? && !op.UpdatePreset? && !op.DeletePreset? ==> after.presets == c.presets)
    && (!op.Replace? && !op.AddCategory? && !op.UpdateCategory? && !op.DeleteCategory? ==> after.categories == c.categories)
    && (!op.Replace? && !op.UpdateTier? ==> after.tiers == c.tiers)
  }

  lemma OnlyOneHas(ids: seq<string>, i: nat)
    requires Distinct(ids) && i < |ids|
    ensures forall j :: 0 <= j < |ids| ==> (ids[j] == ids[i] <==> j == i)
  {
  }

  lemma DeletePresetMeans(c: Catalog, id: string)
    requires Valid(c) && Apply(c, DeletePreset(id)).Some?
    ensures Means(c, DeletePreset(id), Apply(c, DeletePreset(id)).value)
  {
    var i := IndexOf(PresetIds(c.presets), id);
    OnlyOneHas(PresetIds(c.presets), i);
    forall j | 0 <= j < |c.presets|
      ensures c.presets[j].id != id <==> j != i
    {
      assert PresetIds(c.presets)[j] == c.presets[j].id;
    }
    WithoutIsFilter(c.presets, i, (p: Preset) => p.id != DeletePreset(id).id);
  }

  lemma DeleteCategoryMeans(c: Catalog, id: string)
    requires Valid(c) && Apply(c, DeleteCategory(id)).Some?
    ensures Means(c, DeleteCategory(id), Apply(c, DeleteCategory(id)).value)
  {
    var i := IndexOf(CategoryIds(c.categories), id);
    OnlyOneHas(CategoryIds(c.categories), i);
    forall j | 0 <= j < |c.categories|
      ensures c.categories[j].id != id <==> j != i
    {
      assert CategoryIds(c.categories)[j] == c.categories[j].id;
    }
    WithoutIsFilter(c.categories, i, (x: Category) => x.id != DeleteCategory(id).id);
  }

  lemma UpdateMeans(c: Catalog, op: Op)
    requires Valid(c) && (op.UpdatePreset? || op.UpdateCategory? || op.UpdateTier?) && Apply(c, op).Some?
    ensures Means(c, op, Apply(c, op).value)
  {
    if op.UpdatePreset? {
      OnlyOneHas(PresetIds(c.presets), IndexOf(PresetIds(c.presets), op.id));
    } else if op.UpdateCategory? {
      OnlyOneHas(CategoryIds(c.categories), IndexOf(CategoryIds(c.categories), op.id));
    } else {
      OnlyOneHas(TierIds(c.tiers), IndexOf(TierIds(c.tiers), op.id));
    }
  }

  /** Every accepted operation on a valid catalog does what it is for, and nothing else. */
  lemma AppliedMeans(c: Catalog, op: Op)
    requires Valid(c) && Apply(c, op).Some?
    ensures Means(c, op, Apply(c, op).value)
  {
    if op.DeletePreset? {
      DeletePresetMeans(c, op.id);
    } else if op.DeleteCategory? {
      DeleteCategoryMeans(c, op.id);
    } else if op.UpdatePreset? || op.UpdateCategory? || op.UpdateTier? {
      UpdateMeans(c, op);
    }
  }

  lemma MeantDeleteIsAccepted(c: Catalog, id: string, after: Catalog)
    requires Valid(c) && Valid(after) && Means(c, DeleteCategory(id), after)
    ensures Apply(c, DeleteCategory(id)).Some?
  {
    var at := FilterPicks(c.categories, (x: Category) => x.id != DeleteCategory(id).id);
    forall i | 0 <= i < |c.presets|
      ensures c.presets[i].categoryId != id
    {
      assert RefersWithin(after.presets[i], CategoryIds(after.categories), TierIds(after.tiers));
      var k :| 0 <= k < |after.categories| && CategoryIds(after.categories)[k] == c.presets[i].categoryId;
      assert after.categories[k].id != id;
    }
  }

  lemma MeantPresetIsAccepted(c: Catalog, op: Op, after: Catalog)
    requires Valid(c) && Valid(after) && Means(c, op, after) && BodyIdOk(op)
    requires op.AddPreset? || op.UpdatePreset?
    ensures Apply(c, op).Some?
  {
    var ids := PresetIds(c.presets);
    if op.AddPreset? {
      var n := |c.presets|;
      assert after.presets[n] == op.preset;
      assert forall i :: 0 <= i < n ==> PresetIds(after.presets)[i] == ids[i];
      assert RefersWithin(after.presets[n], CategoryIds(c.categories), TierIds(c.tiers));
    } else {
      var i := IndexOf(ids, op.id);
      assert after.presets[i] == op.preset.(id := op.id) && PresetOk(after.presets[i]);
      assert RefersWithin(after.presets[i], CategoryIds(c.categories), TierIds(c.tiers));
    }
  }

  lemma MeantOtherIsAccepted(c: Catalog, op: Op, after: Catalog)
    requires Valid(c) && Valid(after) && Means(c, op, after) && BodyIdOk(op)
    requires op.AddCategory? || op.UpdateCategory? || op.UpdateTier?
    ensures Apply(c, op).Some?
  {
    if op.AddCategory? {
      var n := |c.categories|;
      assert after.categories[n] == op.category;
      assert forall i :: 0 <= i < n ==> CategoryIds(after.categories)[i] == CategoryIds(c.categories)[i];
    } else if op.UpdateCategory? {
      assert CategoryOk(after.categories[IndexOf(CategoryIds(c.categories), op.id)]);
    } else {
      assert TierOk(after.tiers[IndexOf(TierIds(c.tiers), op.id)]);
    }
  }

  lemma MeantIsAccepted(c: Catalog, op: Op, after: Catalog)
    requires Valid(c) && Valid(after) && Means(c, op, after) && BodyIdOk(op)
    ensures Apply(c, op).Some?
  {
    if op.DeleteCategory? {
      MeantDeleteIsAccepted(c, op.id, after);
    } else if op.AddPreset? || op.UpdatePreset? {
      MeantPresetIsAccepted(c, op, after);
    } else if op.AddCategory? || op.UpdateCategory? || op.UpdateTier? {
      MeantOtherIsAccepted(c, op, after);
    }
  }

  /** An operation is accepted exactly if it can be carried out with a valid catalog as the result, and the id in its body is one. */
  lemma AcceptedIffPossible(c: Catalog, op: Op)
    requires Valid(c)
    ensures Apply(c, op).Some? <==> BodyIdOk(op) && exists after :: Means(c, op, after) && Valid(after)
  {
    if Apply(c, op).Some? {
      LocalChecksSuffice(c, op);
      AppliedMeans(c, op);
    }
    if BodyIdOk(op) && exists after :: Means(c, op, after) && Valid(after) {
      hide Means, Valid;
      var after :| Means(c, op, after) && Valid(after);
      MeantIsAccepted(c, op, after);
    }
  }
}
