/** The store around the catalog: operations, the file behind it, restarts, and the public view. */
module CatalogStore {
  import opened Common
  import opened Catalog

  /** What the file holds. */
  datatype Disk = Missing | Unreadable | Stored(catalog: Catalog)

  /** How a write of the file ends: complete, failed before it began, or failed half-way. */
  datatype Write = Saved | Untouched | Torn

  datatype State = State(catalog: Catalog, disk: Disk)

  datatype Event = Do(op: Op, write: Write) | Restart

  function Written(disk: Disk, c: Catalog, write: Write): Disk {
    match write
    case Saved => Stored(c)
    case Untouched => disk
    case Torn => Unreadable
  }

  function Loaded(disk: Disk, builtin: Catalog): Catalog {
    if disk.Stored? then disk.catalog else builtin
  }

  /** A refused operation changes nothing; an accepted one changes the memory first and then the file. */
  function Step(s: State, e: Event, builtin: Catalog): State {
    match e
    case Do(op, write) =>
      (match Apply(s.catalog, op)
       case None => s
       case Some(c) => State(c, Written(s.disk, c, write)))
    case Restart => s.(catalog := Loaded(s.disk, builtin))
  }

  function Run(s: State, es: seq<Event>, builtin: Catalog): State
    decreases es
  {
    if es == [] then s else Run(Step(s, es[0], builtin), es[1..], builtin)
  }

  // ---------------------------------------------------------------- every run

  predicate Sound(s: State) {
    Valid(s.catalog) && (s.disk.Stored? ==> Valid(s.disk.catalog))
  }

  /** Catalog and file stay valid under every sequence of operations, failing writes and restarts. */
  lemma {:induction false} RunStaysSound(s: State, es: seq<Event>, builtin: Catalog)
    requires Sound(s) && Valid(builtin)
    ensures Sound(Run(s, es, builtin))
    decreases es
  {
    if es != [] {
      if es[0].Do? {
        LocalChecksSuffice(s.catalog, es[0].op);
      }
      hide Apply, Valid;
      RunStaysSound(Step(s, es[0], builtin), es[1..], builtin);
    }
  }

  function Accepted(s: State, es: seq<Event>, builtin: Catalog): nat
    decreases es
  {
    if es == [] then 0
    else (if es[0].Do? && Apply(s.catalog, es[0].op).Some? then 1 else 0) + Accepted(Step(s, es[0], builtin), es[1..], builtin)
  }

  predicate NoRestart(es: seq<Event>) {
    forall i :: 0 <= i < |es| ==> es[i].Do?
  }

  /** Between restarts the version counts the accepted operations, whether or not their writes succeeded. */
  lemma {:induction false} VersionCountsChanges(s: State, es: seq<Event>, builtin: Catalog)
    requires Valid(s.catalog) && NoRestart(es)
    ensures Run(s, es, builtin).catalog.version == s.catalog.version + Accepted(s, es, builtin)
    decreases es
  {
    if es != [] {
      assert es[0].Do?;
      LocalChecksSuffice(s.catalog, es[0].op);
      hide Apply, Valid;
      VersionCountsChanges(Step(s, es[0], builtin), es[1..], builtin);
    }
  }

  /** A restart would come back with the very catalog in memory. */
  predicate Durable(s: State, builtin: Catalog) {
    Loaded(s.disk, builtin) == s.catalog
  }

  predicate AllSaved(es: seq<Event>) {
    forall i :: 0 <= i < |es| && es[i].Do? ==> es[i].write.Saved?
  }

  /** As long as every write succeeds, nothing is lost on a restart. */
  lemma {:induction false} SavedChangesSurvive(s: State, es: seq<Event>, builtin: Catalog)
    requires Durable(s, builtin) && AllSaved(es)
    ensures Durable(Run(s, es, builtin), builtin)
    decreases es
  {
    if es != [] {
      hide Apply;
      assert es[0].Do? ==> es[0].write.Saved?;
      SavedChangesSurvive(Step(s, es[0], builtin), es[1..], builtin);
    }
  }

  /** How the last accepted operation's write ended, and how the last write that touched the file did. */
  datatype Writes = Writes(last: Option<Write>, touched: Option<Write>)

  function Noted(ws: Writes, s: State, e: Event): Writes
    requires e.Do?
  {
    if Apply(s.catalog, e.op).None? then ws
    else Writes(Some(e.write), if e.write.Untouched? then ws.touched else Some(e.write))
  }

  function WritesOf(ws: Writes, s: State, es: seq<Event>, builtin: Catalog): Writes
    requires NoRestart(es)
    decreases es
  {
    if es == [] then ws else WritesOf(Noted(ws, s, es[0]), Step(s, es[0], builtin), es[1..], builtin)
  }

  const NO_WRITES := Writes(None, None)

  /** What the writes since `start` tell about the file, compared with the catalog in memory. */
  predicate Reflects(start: State, s: State, ws: Writes) {
    && Valid(s.catalog)
    && (if ws.last.None? then s == start else s.catalog.version > start.catalog.version)
    && (ws.last.Some? && !ws.last.value.Untouched? ==> ws.touched == ws.last)
    && match ws.touched
       case None => s.disk == start.disk
       case Some(Untouched) => false
       case Some(Torn) => s.disk == Unreadable
       case Some(Saved) =>
         && s.disk.Stored?
         && (if ws.last == Some(Saved) then s.disk.catalog == s.catalog else s.disk.catalog.version < s.catalog.version)
  }

  lemma StepReflects(start: State, s: State, ws: Writes, e: Event, builtin: Catalog)
    requires Reflects(start, s, ws) && e.Do?
    ensures Reflects(start, Step(s, e, builtin), Noted(ws, s, e))
  {
    LocalChecksSuffice(s.catalog, e.op);
    hide Apply, Valid;
  }

  lemma {:induction false} RunReflects(start: State, s: State, ws: Writes, es: seq<Event>, builtin: Catalog)
    requires Reflects(start, s, ws) && NoRestart(es)
    ensures Reflects(start, Run(s, es, builtin), WritesOf(ws, s, es, builtin))
    decreases es
  {
    if es != [] {
      assert es[0].Do?;
      StepReflects(start, s, ws, es[0], builtin);
      hide Reflects, Noted, Step;
      RunReflects(start, Step(s, es[0], builtin), Noted(ws, s, es[0]), es[1..], builtin);
    }
  }

  lemma ReflectsDurably(start: State, s: State, ws: Writes, builtin: Catalog)
    requires Durable(start, builtin) && Reflects(start, s, ws)
    ensures Durable(s, builtin) <==> ws.last.None? || ws.last == Some(Saved) || (ws.touched == Some(Torn) && s.catalog == builtin)
  {
    hide Valid;
  }

  /**
   Durability, exactly: since the last restart nothing would be lost by another one
   if and only if no operation was accepted, or the last accepted one was saved, or
   the file was last torn and the catalog happens to be the built-in one.
   */
  lemma DurableIff(s: State, es: seq<Event>, builtin: Catalog)
    requires Valid(s.catalog) && Durable(s, builtin) && NoRestart(es)
    ensures var ws := WritesOf(NO_WRITES, s, es, builtin);
            var end := Run(s, es, builtin);
            Durable(end, builtin) <==>
              || ws.last.None?
              || ws.last == Some(Saved)
              || (ws.touched == Some(Torn) && end.catalog == builtin)
  {
    hide Run, WritesOf, Valid;
    RunReflects(s, s, NO_WRITES, es, builtin);
    ReflectsDurably(s, Run(s, es, builtin), WritesOf(NO_WRITES, s, es, builtin), builtin);
  }

  /** Every restart leaves a durable state. */
  lemma RestartIsDurable(s: State, builtin: Catalog)
    ensures Durable(Step(s, Restart, builtin), builtin)
  {
  }

  /** A change whose write fails is in memory although an error is reported; a restart undoes it or falls back to the built-in catalog. */
  lemma FailedWriteIsNotDurable(s: State, op: Op, write: Write, builtin: Catalog)
    requires Valid(s.catalog) && Durable(s, builtin) && Apply(s.catalog, op).Some? && !write.Saved?
    ensures var s' := Step(s, Do(op, write), builtin);
            && s'.catalog.version == s.catalog.version + 1
            && Step(s', Restart, builtin).catalog == (if write.Untouched? then s.catalog else builtin)
            && (Durable(s', builtin) <==> write.Torn? && s'.catalog == builtin)
  {
    LocalChecksSuffice(s.catalog, op);
  }

  // ---------------------------------------------------------------- the public view

  function EnabledCategories(cs: seq<Category>): seq<Category> {
    if cs == [] then []
    else EnabledCategories(cs[..|cs| - 1]) + if cs[|cs| - 1].enabled then [cs[|cs| - 1]] else []
  }

  function EnabledTiers(ts: seq<Tier>): seq<Tier> {
    if ts == [] then []
    else EnabledTiers(ts[..|ts| - 1]) + if ts[|ts| - 1].enabled then [ts[|ts| - 1]] else []
  }

  function VisiblePresets(ps: seq<Preset>, categoryIds: set<string>): seq<Preset> {
    if ps == [] then []
    else
      var last := ps[|ps| - 1];
      VisiblePresets(ps[..|ps| - 1], categoryIds) + if last.enabled && last.categoryId in categoryIds then [last] else []
  }

  function EnabledIds(cs: seq<Category>): set<string> {
    set c | c in cs && c.enabled :: c.id
  }

  function Public(c: Catalog): Catalog {
    Catalog(VisiblePresets(c.presets, EnabledIds(c.categories)), EnabledCategories(c.categories), EnabledTiers(c.tiers), c.version)
  }

  method GetPublic(full: Catalog) returns (public: Catalog)
    ensures public == Public(full)
  {
    var enabledCats: set<string>, categories := {}, [];
    for i := 0 to |full.categories|
      invariant categories == EnabledCategories(full.categories[..i])
      invariant enabledCats == EnabledIds(full.categories[..i])
    {
      var c := full.categories[i];
      assert full.categories[..i + 1] == full.categories[..i] + [c];
      if c.enabled {
        categories := categories + [c];
        enabledCats := enabledCats + {c.id};
      }
    }
    assert full.categories[..|full.categories|] == full.categories;
    var presets := [];
    for i := 0 to |full.presets|
      invariant presets == VisiblePresets(full.presets[..i], enabledCats)
    {
      var p := full.presets[i];
      assert full.presets[..i + 1][..i] == full.presets[..i];
      if p.enabled && p.categoryId in enabledCats {
        presets := presets + [p];
      }
    }
    assert full.presets[..|full.presets|] == full.presets;
    var tiers := [];
    for i := 0 to |full.tiers|
      invariant tiers == EnabledTiers(full.tiers[..i])
    {
      var t := full.tiers[i];
      assert full.tiers[..i + 1][..i] == full.tiers[..i];
      if t.enabled {
        tiers := tiers + [t];
      }
    }
    assert full.tiers[..|full.tiers|] == full.tiers;
    public := Catalog(presets, categories, tiers, full.version);
  }

  lemma {:induction false} VisibleInOrder(ps: seq<Preset>, categoryIds: set<string>)
    ensures VisiblePresets(ps, categoryIds) == Filter(ps, (p: Preset) => p.enabled && p.categoryId in categoryIds)
  {
    if ps != [] {
      VisibleInOrder(ps[..|ps| - 1], categoryIds);
    }
  }

  lemma {:induction false} CategoriesInOrder(cs: seq<Category>)
    ensures EnabledCategories(cs) == Filter(cs, (c: Category) => c.enabled)
  {
    if cs != [] {
      CategoriesInOrder(cs[..|cs| - 1]);
    }
  }

  lemma {:induction false} TiersInOrder(ts: seq<Tier>)
    ensures EnabledTiers(ts) == Filter(ts, (t: Tier) => t.enabled)
  {
    if ts != [] {
      TiersInOrder(ts[..|ts| - 1]);
    }
  }

  /** The public view is the enabled part of each list, in the catalog's own order, under the same version. */
  lemma PublicIsFiltered(c: Catalog)
    ensures Public(c).categories == Filter(c.categories, (x: Category) => x.enabled)
    ensures Public(c).tiers == Filter(c.tiers, (t: Tier) => t.enabled)
    ensures Public(c).presets == Filter(c.presets, (p: Preset) => p.enabled && p.categoryId in EnabledIds(c.categories))
    ensures Public(c).version == c.version
  {
    VisibleInOrder(c.presets, EnabledIds(c.categories));
    CategoriesInOrder(c.categories);
    TiersInOrder(c.tiers);
  }

  /** In a valid catalog a preset is shown exactly if it is enabled and the category it names is, and that one is shown too. */
  lemma ShownIffEnabled(c: Catalog, p: Preset, category: Category)
    requires Valid(c) && p in c.presets && category in c.categories && category.id == p.categoryId
    ensures p in Public(c).presets <==> p.enabled && category.enabled
    ensures p in Public(c).presets ==> category in Public(c).categories
  {
    PublicIsFiltered(c);
    FilterHas(c.presets, (p: Preset) => p.enabled && p.categoryId in EnabledIds(c.categories));
    FilterHas(c.categories, (x: Category) => x.enabled);
    if p.categoryId in EnabledIds(c.categories) {
      var other :| other in c.categories && other.enabled && other.id == p.categoryId;
      OneCategoryPerId(c, category, other);
    }
  }

  lemma OneCategoryPerId(c: Catalog, a: Category, b: Category)
    requires Valid(c) && a in c.categories && b in c.categories && a.id == b.id
    ensures a == b
  {
    var i :| 0 <= i < |c.categories| && c.categories[i] == a;
    var j :| 0 <= j < |c.categories| && c.categories[j] == b;
    assert CategoryIds(c.categories)[i] == CategoryIds(c.categories)[j];
  }

  lemma OneTierPerId(c: Catalog, a: Tier, b: Tier)
    requires Valid(c) && a in c.tiers && b in c.tiers && a.id == b.id
    ensures a == b
  {
    var i :| 0 <= i < |c.tiers| && c.tiers[i] == a;
    var j :| 0 <= j < |c.tiers| && c.tiers[j] == b;
    assert TierIds(c.tiers)[i] == TierIds(c.tiers)[j];
  }

  /** A shown preset's default tier is on the shown list exactly if that tier is enabled. */
  lemma TierShownIffEnabled(c: Catalog, p: Preset, tier: Tier)
    requires Valid(c) && p in Public(c).presets && tier in c.tiers && tier.id == p.defaultTier
    ensures (exists t :: t in Public(c).tiers && t.id == p.defaultTier) <==> tier.enabled
  {
    PublicIsFiltered(c);
    FilterHas(c.tiers, (t: Tier) => t.enabled);
    if t :| t in Public(c).tiers && t.id == p.defaultTier {
      OneTierPerId(c, t, tier);
    }
  }

  /** So disabling a tier leaves public presets that point to a tier nobody is shown. */
  lemma PublicTierCanDangle()
    ensures var p := Preset("p", "p", "i", "", "c", "t", [], true, 0);
            var c := Catalog([p], [Category("c", "c", true, 0)], [Tier("t", "t", "", "", "", "", 0, false, false, 0)], 1);
            Valid(c) && Public(c).presets == [p] && Public(c).tiers == []
  {
    var p := Preset("p", "p", "i", "", "c", "t", [], true, 0);
    var category, tier := Category("c", "c", true, 0), Tier("t", "t", "", "", "", "", 0, false, false, 0);
    var c := Catalog([p], [category], [tier], 1);
    assert IdOk("p") && IdOk("c") && IdOk("t");
    assert CategoryIds(c.categories)[0] == "c" && TierIds(c.tiers)[0] == "t";
    assert category in c.categories;
    assert [p][..0] == [] && [tier][..0] == [];
  }

  // ---------------------------------------------------------------- the store object

  datatype Outcome = Rejected | Applied(saved: bool)

  lemma Explained(c: Catalog, op: Op)
    ensures Valid(c) && Apply(c, op).Some? ==> Means(c, op, Apply(c, op).value)
  {
    if Valid(c) && Apply(c, op).Some? {
      AppliedMeans(c, op);
    }
  }

  class Store {
    var catalog: Catalog
    var disk: Disk

    function Abs(): State
      reads this
    {
      State(catalog, disk)
    }

    constructor (disk: Disk, builtin: Catalog)
      ensures Abs() == State(Loaded(disk, builtin), disk)
    {
      this.disk := disk;
      catalog := if disk.Stored? then disk.catalog else builtin;
    }

    /** Bumps the version and writes the file. */
    method Commit(next: Catalog, write: Write) returns (outcome: Outcome)
      modifies this
      ensures catalog == next.(version := old(catalog.version) + 1)
      ensures disk == Written(old(disk), catalog, write) && outcome == Applied(write.Saved?)
    {
      catalog := next.(version := catalog.version + 1);
      match write {
        case Saved => disk := Stored(catalog);
        case Untouched =>
        case Torn => disk := Unreadable;
      }
      outcome := Applied(write.Saved?);
    }

    ghost predicate Did(before: State, op: Op, write: Write, outcome: Outcome)
      reads this
    {
      && outcome == (if Apply(before.catalog, op).Some? then Applied(write.Saved?) else Rejected)
      && (forall builtin :: Abs() == Step(before, Do(op, write), builtin))
      && (outcome.Applied? && Valid(before.catalog) ==> Means(before.catalog, op, catalog))
    }

    method FindPreset(id: string) returns (i: nat)
      ensures i == IndexOf(PresetIds(catalog.presets), id)
    {
      ghost var ids := PresetIds(catalog.presets);
      for k := 0 to |catalog.presets|
        invariant IndexOf(ids, id) == k + IndexOf(ids[k..], id)
      {
        if catalog.presets[k].id == id {
          return k;
        }
        assert ids[k..][1..] == ids[k + 1..];
      }
      i := |catalog.presets|;
    }

    method FindCategory(id: string) returns (i: nat)
      ensures i == IndexOf(CategoryIds(catalog.categories), id)
    {
      ghost var ids := CategoryIds(catalog.categories);
      for k := 0 to |catalog.categories|
        invariant IndexOf(ids, id) == k + IndexOf(ids[k..], id)
      {
        if catalog.categories[k].id == id {
          return k;
        }
        assert ids[k..][1..] == ids[k + 1..];
      }
      i := |catalog.categories|;
    }

    method FindTier(id: string) returns (i: nat)
      ensures i == IndexOf(TierIds(catalog.tiers), id)
    {
      ghost var ids := TierIds(catalog.tiers);
      for k := 0 to |catalog.tiers|
        invariant IndexOf(ids, id) == k + IndexOf(ids[k..], id)
      {
        if catalog.tiers[k].id == id {
          return k;
        }
        assert ids[k..][1..] == ids[k + 1..];
      }
      i := |catalog.tiers|;
    }

    /** The category exists, and so does the default tier if one is named. */
    method CheckReferences(p: Preset) returns (ok: bool)
      ensures ok <==> RefersWithin(p, CategoryIds(catalog.categories), TierIds(catalog.tiers))
    {
      var category := FindCategory(p.categoryId);
      if category == |catalog.categories| {
        return false;
      }
      if p.defaultTier != "" {
        var tier := FindTier(p.defaultTier);
        if tier == |catalog.tiers| {
          return false;
        }
      }
      ok := true;
    }

    method Replace(next: Catalog, write: Write) returns (outcome: Outcome)
      modifies this
      ensures Did(old(Abs()), Op.Replace(next), write, outcome)
    {
      hide Means;
      Explained(catalog, Op.Replace(next));
      var ok := ValidateCatalog(next);
      if !ok {
        return Rejected;
      }
      outcome := Commit(next, write);
    }

    method AddPreset(preset: Preset, write: Write) returns (outcome: Outcome)
      modifies this
      ensures Did(old(Abs()), Op.AddPreset(preset), write, outcome)
    {
      hide Means;
      Explained(catalog, Op.AddPreset(preset));
      var ok := ValidatePreset(preset);
      if !ok {
        return Rejected;
      }
      var i := FindPreset(preset.id);
      if i < |catalog.presets| {
        return Rejected;
      }
      if |catalog.presets| >= MAX_PRESETS {
        return Rejected;
      }
      ok := CheckReferences(preset);
      if !ok {
        return Rejected;
      }
      outcome := Commit(catalog.(presets := catalog.presets + [preset]), write);
    }

    method UpdatePreset(id: string, preset: Preset, write: Write) returns (outcome: Outcome)
      modifies this
      ensures Did(old(Abs()), Op.UpdatePreset(id, preset), write, outcome)
    {
      hide Means, Valid;
      Explained(catalog, Op.UpdatePreset(id, preset));
      var ok := ValidatePreset(preset);
      if !ok {
        return Rejected;
      }
      ok := CheckReferences(preset);
      if !ok {
        return Rejected;
      }
      var i := FindPreset(id);
      if i == |catalog.presets| {
        return Rejected;
      }
      outcome := Commit(catalog.(presets := catalog.presets[i := preset.(id := id)]), write);
    }

    method DeletePreset(id: string, write: Write) returns (outcome: Outcome)
      modifies this
      ensures Did(old(Abs()), Op.DeletePreset(id), write, outcome)
    {
      hide Means;
      Explained(catalog, Op.DeletePreset(id));
      var i := FindPreset(id);
      if i == |catalog.presets| {
        return Rejected;
      }
      outcome := Commit(catalog.(presets := catalog.presets[..i] + catalog.presets[i + 1..]), write);
    }

    method AddCategory(category: Category, write: Write) returns (outcome: Outcome)
      modifies this
      ensures Did(old(Abs()), Op.AddCategory(category), write, outcome)
    {
      hide Means;
      Explained(catalog, Op.AddCategory(category));
      var ok := ValidateCategory(category);
      if !ok {
        return Rejected;
      }
      var i := FindCategory(category.id);
      if i < |catalog.categories| || |catalog.categories| >= MAX_CATEGORIES {
        return Rejected;
      }
      outcome := Commit(catalog.(categories := catalog.categories + [category]), write);
    }

    method UpdateCategory(id: string, category: Category, write: Write) returns (outcome: Outcome)
      modifies this
      ensures Did(old(Abs()), Op.UpdateCategory(id, category), write, outcome)
    {
      hide Means;
      Explained(catalog, Op.UpdateCategory(id, category));
      var ok := ValidateCategory(category);
      if !ok {
        return Rejected;
      }
      var i := FindCategory(id);
      if i == |catalog.categories| {
        return Rejected;
      }
      outcome := Commit(catalog.(categories := catalog.categories[i := category.(id := id)]), write);
    }

    method DeleteCategory(id: string, write: Write) returns (outcome: Outcome)
      modifies this
      ensures Did(old(Abs()), Op.DeleteCategory(id), write, outcome)
    {
      hide Means;
      Explained(catalog, Op.DeleteCategory(id));
      for k := 0 to |catalog.presets|
        invariant Abs() == old(Abs())
        invariant forall i :: 0 <= i < k ==> catalog.presets[i].categoryId != id
      {
        if catalog.presets[k].categoryId == id {
          assert !Unreferenced(catalog.presets, id);
          return Rejected;
        }
      }
      var i := FindCategory(id);
      if i == |catalog.categories| {
        return Rejected;
      }
      outcome := Commit(catalog.(categories := catalog.categories[..i] + catalog.categories[i + 1..]), write);
    }

    method UpdateTier(id: string, tier: Tier, write: Write) returns (outcome: Outcome)
      modifies this
      ensures Did(old(Abs()), Op.UpdateTier(id, tier), write, outcome)
    {
      hide Means;
      Explained(catalog, Op.UpdateTier(id, tier));
      var ok := ValidateTier(tier);
      if !ok {
        return Rejected;
      }
      var i := FindTier(id);
      if i == |catalog.tiers| {
        return Rejected;
      }
      outcome := Commit(catalog.(tiers := catalog.tiers[i := tier.(id := id)]), write);
    }
  }
}
