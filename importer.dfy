/** The translation step of `main`: for each region and locale, build the four
    mappings and write `v[1]` of every entry into the locale's column of the
    region's table. */
module Importer {
  import opened Errors
  import opened Localization
  import opened Resolver
  import opened Catalog
  import opened Mapping

  /** The entries of `m` whose keys are in `keys`. */
  function Part(m: TranslationMapping, keys: set<int>): (r: TranslationMapping)
    ensures WellShaped(m) ==> WellShaped(r)
  {
    map k | k in m && k in keys :: m[k]
  }

  /** The rows after `update_item_translation(k, v[1], ...)` for every entry
      `(k, v)` of `m`: each row whose entity id is a key of `m` holds that key's
      `v[1]` in `column`. */
  function Applied(rows: seq<Row>, m: TranslationMapping, column: string): seq<Row>
    requires WellShaped(m)
  {
    seq(|rows|, i requires 0 <= i < |rows| =>
      if rows[i].entityId in m then rows[i].(titles := rows[i].titles[column := m[rows[i].entityId][1]])
      else rows[i])
  }

  /** Writing one more entry after a set of entries already written gives the rows
      with that entry written too: the updates of distinct ids commute, so the
      order in which the dictionary is walked does not matter. */
  lemma AppliedStep(rows: seq<Row>, m: TranslationMapping, column: string, done: set<int>, k: int)
    requires WellShaped(m) && k in m && k !in done
    ensures SetTitle(Applied(rows, Part(m, done), column), k, column, m[k][1]) == Applied(rows, Part(m, done + {k}), column)
  {
    var before := Applied(rows, Part(m, done), column);
    var after := SetTitle(before, k, column, m[k][1]);
    var want := Applied(rows, Part(m, done + {k}), column);
    assert |after| == |want|;
    forall i | 0 <= i < |rows| ensures after[i] == want[i] {
      if rows[i].entityId == k {
        assert before[i].titles == rows[i].titles;
      }
    }
  }

  /** Writing no entry leaves the rows as they are. */
  lemma AppliedNothing(rows: seq<Row>, m: TranslationMapping, column: string)
    requires WellShaped(m)
    ensures Applied(rows, Part(m, {}), column) == rows
  {
    assert Part(m, {}) == map[];
  }

  /** The rows after `update_item_translation(k, m[k][1], ...)` for the keys `k` of
      `keys`, one after the other in that order. */
  function SetTitles(rows: seq<Row>, m: TranslationMapping, keys: seq<int>, column: string): seq<Row>
    requires WellShaped(m)
    requires forall j :: 0 <= j < |keys| ==> keys[j] in m
    decreases |keys|
  {
    if keys == [] then rows
    else
      var k := keys[|keys| - 1];
      SetTitle(SetTitles(rows, m, keys[..|keys| - 1], column), k, column, m[k][1])
  }

  /** The keys listed in `keys`. */
  function KeySet(keys: seq<int>): set<int> {
    set j | 0 <= j < |keys| :: keys[j]
  }

  /** No key is listed twice. */
  predicate Distinct(keys: seq<int>) {
    forall i, j :: 0 <= i < j < |keys| ==> keys[i] != keys[j]
  }

  /** Writing the entries of some keys one at a time gives the closed form for
      those keys. */
  lemma {:induction false} SetTitlesPart(rows: seq<Row>, m: TranslationMapping, keys: seq<int>, column: string)
    requires WellShaped(m)
    requires forall j :: 0 <= j < |keys| ==> keys[j] in m
    requires Distinct(keys)
    ensures SetTitles(rows, m, keys, column) == Applied(rows, Part(m, KeySet(keys)), column)
    decreases |keys|
  {
    if keys == [] {
      assert KeySet(keys) == {};
      AppliedNothing(rows, m, column);
    } else {
      var init := keys[..|keys| - 1];
      var k := keys[|keys| - 1];
      assert forall j :: 0 <= j < |init| ==> init[j] == keys[j];
      SetTitlesPart(rows, m, init, column);
      assert KeySet(keys) == KeySet(init) + {k} by {
        forall x | x in KeySet(keys) ensures x in KeySet(init) + {k} {
          var j :| 0 <= j < |keys| && keys[j] == x;
          if j < |init| {
            assert init[j] == x;
          }
        }
      }
      assert k !in KeySet(init);
      AppliedStep(rows, m, column, KeySet(init), k);
    }
  }

  /** Whatever order the dictionary yields its keys in, writing its entries one
      `update_item_translation` at a time gives the closed form `Applied`. */
  lemma AppliedInAnyOrder(rows: seq<Row>, m: TranslationMapping, keys: seq<int>, column: string)
    requires WellShaped(m)
    requires forall j :: 0 <= j < |keys| ==> keys[j] in m
    requires forall k :: k in m ==> k in keys
    requires Distinct(keys)
    ensures SetTitles(rows, m, keys, column) == Applied(rows, m, column)
  {
    SetTitlesPart(rows, m, keys, column);
    assert Part(m, KeySet(keys)) == m by {
      forall k | k in m ensures k in KeySet(keys) {
        var j :| 0 <= j < |keys| && keys[j] == k;
      }
    }
  }

  /** The `for k, v in translation_mapping.items()` loop of `main` for one mapping. */
  method ApplyMapping(db: Database, m: TranslationMapping, locale: string, region: string)
    requires WellShaped(m) && Supported(locale, region)
    modifies db
    ensures db.State() == WithTable(old(db.State()), region, Applied(Table(old(db.State()), region), m, Column(locale)))
  {
    ghost var start := db.State();
    AppliedNothing(Table(start, region), m, Column(locale));
    var remaining := m.Keys;
    while remaining != {}
      invariant remaining <= m.Keys
      invariant db.State() == WithTable(start, region, Applied(Table(start, region), Part(m, m.Keys - remaining), Column(locale)))
      decreases remaining
    {
      if forall x :: x !in remaining {
        assert false;
      }
      var k :| k in remaining;
      var _ := db.UpdateItemTranslation(k, m[k][1], locale, region);
      AppliedStep(Table(start, region), m, Column(locale), m.Keys - remaining, k);
      assert m.Keys - remaining + {k} == m.Keys - (remaining - {k});
      remaining := remaining - {k};
    }
    assert Part(m, m.Keys - remaining) == m;
  }

  /** Every mapping of `ms` is well shaped. */
  predicate AllWellShaped(ms: seq<TranslationMapping>) {
    forall j :: 0 <= j < |ms| ==> WellShaped(ms[j])
  }

  /** The rows after the mappings `ms` are written one after the other. */
  function ApplyAll(rows: seq<Row>, ms: seq<TranslationMapping>, column: string): (r: seq<Row>)
    requires AllWellShaped(ms)
    ensures |r| == |rows|
    decreases |ms|
  {
    if ms == [] then rows else ApplyAll(Applied(rows, ms[0], column), ms[1..], column)
  }

  /** The index of the last mapping of `ms` that has the key `id`, or -1. */
  function LastWith(ms: seq<TranslationMapping>, id: int): (r: int)
    ensures -1 <= r < |ms|
    ensures r >= 0 ==> id in ms[r] && forall j :: r < j < |ms| ==> id !in ms[j]
    ensures r == -1 ==> forall j :: 0 <= j < |ms| ==> id !in ms[j]
    decreases |ms|
  {
    if ms == [] then -1
    else
      var rest := LastWith(ms[1..], id);
      if rest >= 0 then rest + 1 else if id in ms[0] then 0 else -1
  }

  /** After several mappings are written, each row holds in `column` the value of
      the last mapping with its entity id, and is unchanged when none has it. */
  lemma {:induction false} ApplyAllLastWins(rows: seq<Row>, ms: seq<TranslationMapping>, column: string, i: int)
    requires AllWellShaped(ms)
    requires 0 <= i < |rows|
    ensures |ApplyAll(rows, ms, column)| == |rows|
    ensures var j := LastWith(ms, rows[i].entityId);
      ApplyAll(rows, ms, column)[i] ==
        if j >= 0 then rows[i].(titles := rows[i].titles[column := ms[j][rows[i].entityId][1]]) else rows[i]
    decreases |ms|
  {
    if ms != [] {
      var next := Applied(rows, ms[0], column);
      ApplyAllLastWins(next, ms[1..], column, i);
      assert next[i].entityId == rows[i].entityId;
    }
  }

  /** Writing titles never changes what a later fetch selects. */
  lemma {:induction false} AppliedKeepsSelect(rows: seq<Row>, m: TranslationMapping, column: string, kind: string)
    requires WellShaped(m)
    ensures SelectKind(Applied(rows, m, column), kind) == SelectKind(rows, kind)
    decreases |rows|
  {
    if rows != [] {
      var r := Applied(rows, m, column);
      assert r[1..] == Applied(rows[1..], m, column);
      AppliedKeepsSelect(rows[1..], m, column, kind);
    }
  }

  /** The same holds after several mappings are written. */
  lemma {:induction false} ApplyAllKeepsSelect(rows: seq<Row>, ms: seq<TranslationMapping>, column: string, kind: string)
    requires AllWellShaped(ms)
    ensures SelectKind(ApplyAll(rows, ms, column), kind) == SelectKind(rows, kind)
    decreases |ms|
  {
    if ms != [] {
      AppliedKeepsSelect(rows, ms[0], column, kind);
      ApplyAllKeepsSelect(Applied(rows, ms[0], column), ms[1..], column, kind);
    }
  }

  /** Four well-shaped mappings make a list of well-shaped mappings. */
  lemma FourWellShaped(m: TranslationMapping, n: TranslationMapping, o: TranslationMapping, p: TranslationMapping)
    requires WellShaped(m) && WellShaped(n) && WellShaped(o) && WellShaped(p)
    ensures AllWellShaped([m, n, o, p])
  {
    var ms := [m, n, o, p];
    forall j | 0 <= j < 4 ensures WellShaped(ms[j]) {
      if j == 0 { assert ms[j] == m; }
      else if j == 1 { assert ms[j] == n; }
      else if j == 2 { assert ms[j] == o; }
      else { assert ms[j] == p; }
    }
  }

  /** The four mappings of one iteration of `for language in SUPPORTED_LANGUAGES`
      in `main`, in the order of `mappings`; the first builder that raises stops
      the iteration. */
  function PassBuilds(t: Tables, backend: Backend, docs: Documents, locale: string, region: string)
    : (r: Result<seq<TranslationMapping>>)
    ensures r.Success? ==> |r.value| == 4 && AllWellShaped(r.value)
    ensures r.Success? ==> Supported(locale, region)
  {
    var m :- Build(Camouflage, t, backend, docs, locale, region);
    var n :- Build(Weapon, t, backend, docs, locale, region);
    var o :- Build(BodySkin, t, backend, docs, locale, region);
    var p :- Build(Gear, t, backend, docs, locale, region);
    FourWellShaped(m, n, o, p);
    Success([m, n, o, p])
  }

  /** One iteration of `for language in SUPPORTED_LANGUAGES` in `main`: the
      camouflage, weapon, body skin and gear mappings are all built, then written
      in that order into the locale's column of the region's table. */
  function PassSpec(t: Tables, backend: Backend, docs: Documents, locale: string, region: string): (r: Result<Tables>)
    ensures r.Success? ==> Supported(locale, region)
    ensures r.Success? ==> |Table(r.value, region)| == |Table(t, region)|
    ensures r.Success? && region == "eu" ==> r.value.itemsRu == t.itemsRu
    ensures r.Success? && region != "eu" ==> r.value.items == t.items
  {
    var ms :- PassBuilds(t, backend, docs, locale, region);
    Success(WithTable(t, region, ApplyAll(Table(t, region), ms, Column(locale))))
  }

  /** Writing four mappings one after the other. */
  lemma ApplyAllFour(rows: seq<Row>, m: TranslationMapping, n: TranslationMapping, o: TranslationMapping,
                     p: TranslationMapping, column: string)
    requires WellShaped(m) && WellShaped(n) && WellShaped(o) && WellShaped(p)
    ensures AllWellShaped([m, n, o, p])
    ensures ApplyAll(rows, [m, n, o, p], column) == Applied(Applied(Applied(Applied(rows, m, column), n, column), o, column), p, column)
  {
    var r1 := Applied(rows, m, column);
    var r2 := Applied(r1, n, column);
    var r3 := Applied(r2, o, column);
    assert [m, n, o, p][1..] == [n, o, p];
    assert [n, o, p][1..] == [o, p];
    assert [o, p][1..] == [p];
    assert [p][1..] == [];
    assert ApplyAll(r3, [p], column) == Applied(r3, p, column);
    assert ApplyAll(r2, [o, p], column) == ApplyAll(r3, [p], column);
    assert ApplyAll(r1, [n, o, p], column) == ApplyAll(r2, [o, p], column);
  }

  /** A pass writes only the locale's column of the region's table: every row
      there holds the `v[1]` of the last of the four mappings that has its entity
      id, and the other table is untouched. */
  lemma PassWrites(t: Tables, backend: Backend, docs: Documents, locale: string, region: string, i: int)
    requires PassBuilds(t, backend, docs, locale, region).Success?
    requires 0 <= i < |Table(t, region)|
    ensures Supported(locale, region)
    ensures var t' := PassSpec(t, backend, docs, locale, region).value;
      var ms := PassBuilds(t, backend, docs, locale, region).value;
      var row := Table(t, region)[i];
      var j := LastWith(ms, row.entityId);
      && |Table(t', region)| == |Table(t, region)|
      && Table(t', region)[i] == (if j >= 0 then row.(titles := row.titles[Column(locale) := ms[j][row.entityId][1]]) else row)
      && (region == "eu" ==> t'.itemsRu == t.itemsRu)
      && (region == "ru" ==> t'.items == t.items)
  {
    ApplyAllLastWins(Table(t, region), PassBuilds(t, backend, docs, locale, region).value, Column(locale), i);
  }

  /** A pass changes nothing that any builder reads: every later pass builds its
      mappings from the same rows as the first. */
  lemma PassKeepsBuilds(t: Tables, backend: Backend, docs: Documents, locale: string, region: string,
                        cat: Category, locale2: string, region2: string)
    requires PassBuilds(t, backend, docs, locale, region).Success?
    ensures Build(cat, PassSpec(t, backend, docs, locale, region).value, backend, docs, locale2, region2)
         == Build(cat, t, backend, docs, locale2, region2)
  {
    ApplyAllKeepsSelect(Table(t, region), PassBuilds(t, backend, docs, locale, region).value, Column(locale), cat.Kind());
    var t' := PassSpec(t, backend, docs, locale, region).value;
    assert Fetch(t', backend, region2, cat.Kind()) == Fetch(t, backend, region2, cat.Kind());
  }

  /** One pass of `main`. A builder that raises stops the pass before anything is
      written. */
  method TranslatePass(db: Database, docs: Documents, locale: string, region: string) returns (r: Outcome)
    modifies db
    ensures var spec := PassSpec(old(db.State()), db.backend, docs, locale, region);
      if spec.Success? then r == Pass && db.State() == spec.value
      else r == Fail(spec.error) && db.State() == old(db.State())
  {
    var m := CamouflageTranslationMapping(db, docs, locale, region);
    if m.Failure? {
      return Fail(m.error);
    }
    var n := WeaponTranslationMapping(db, docs, locale, region);
    if n.Failure? {
      return Fail(n.error);
    }
    var o := BodySkinTranslationMapping(db, docs, locale, region);
    if o.Failure? {
      return Fail(o.error);
    }
    var p := GearTranslationMapping(db, docs, locale, region);
    if p.Failure? {
      return Fail(p.error);
    }
    ghost var t := db.State();
    ghost var column := Column(locale);
    ApplyMapping(db, m.value, locale, region);
    ghost var rows1 := Applied(Table(t, region), m.value, column);
    assert db.State() == WithTable(t, region, rows1);
    ApplyMapping(db, n.value, locale, region);
    ghost var rows2 := Applied(rows1, n.value, column);
    assert db.State() == WithTable(t, region, rows2);
    ApplyMapping(db, o.value, locale, region);
    ghost var rows3 := Applied(rows2, o.value, column);
    assert db.State() == WithTable(t, region, rows3);
    ApplyMapping(db, p.value, locale, region);
    assert db.State() == WithTable(t, region, Applied(rows3, p.value, column));
    assert PassBuilds(t, db.backend, docs, locale, region) == Success([m.value, n.value, o.value, p.value]);
    ApplyAllFour(Table(t, region), m.value, n.value, o.value, p.value, column);
    r := Pass;
  }

  /** The tables so far, and whether every pass so far went through. */
  datatype Progress = Progress(tables: Tables, outcome: Outcome)

  /** The passes of one region for `locales` in order, up to the first that raises. */
  function RunLocales(t: Tables, backend: Backend, docs: Documents, region: string, locales: seq<string>): Progress
    decreases |locales|
  {
    if locales == [] then Progress(t, Pass)
    else
      var before := RunLocales(t, backend, docs, region, locales[..|locales| - 1]);
      if before.outcome.Fail? then before
      else
        match PassSpec(before.tables, backend, docs, locales[|locales| - 1], region)
        case Failure(e) => Progress(before.tables, Fail(e))
        case Success(t') => Progress(t', Pass)
  }

  /** The passes of `regions` in order, each over every supported locale, up to the
      first pass that raises. */
  function RunRegions(t: Tables, backend: Backend, docs: Documents, regions: seq<string>): Progress
    decreases |regions|
  {
    if regions == [] then Progress(t, Pass)
    else
      var before := RunRegions(t, backend, docs, regions[..|regions| - 1]);
      if before.outcome.Fail? then before
      else RunLocales(before.tables, backend, docs, regions[|regions| - 1], Languages)
  }

  /** The passes of one region keep the number of rows of both tables and write
      only into the region's table. */
  lemma {:induction false} RunLocalesFrame(t: Tables, backend: Backend, docs: Documents, region: string, locales: seq<string>)
    ensures var r := RunLocales(t, backend, docs, region, locales);
      && |r.tables.items| == |t.items| && |r.tables.itemsRu| == |t.itemsRu|
      && (region == "eu" ==> r.tables.itemsRu == t.itemsRu)
      && (region != "eu" ==> r.tables.items == t.items)
    decreases |locales|
  {
    if locales != [] {
      RunLocalesFrame(t, backend, docs, region, locales[..|locales| - 1]);
    }
  }

  /** The passes of several regions keep the number of rows of both tables. */
  lemma {:induction false} RunRegionsFrame(t: Tables, backend: Backend, docs: Documents, regions: seq<string>)
    ensures var r := RunRegions(t, backend, docs, regions);
      |r.tables.items| == |t.items| && |r.tables.itemsRu| == |t.itemsRu|
    decreases |regions|
  {
    if regions != [] {
      var init := regions[..|regions| - 1];
      RunRegionsFrame(t, backend, docs, init);
      var before := RunRegions(t, backend, docs, init);
      if before.outcome.Pass? {
        RunLocalesFrame(before.tables, backend, docs, regions[|regions| - 1], Languages);
      }
    }
  }

  /** Once a pass of a region raises, the region's later locales are not run. */
  lemma {:induction false} RunLocalesFailureSticks(t: Tables, backend: Backend, docs: Documents, region: string,
                                                   locales: seq<string>, k: int)
    requires 0 <= k <= |locales|
    requires RunLocales(t, backend, docs, region, locales[..k]).outcome.Fail?
    ensures RunLocales(t, backend, docs, region, locales) == RunLocales(t, backend, docs, region, locales[..k])
    decreases |locales|
  {
    if k == |locales| {
      assert locales[..k] == locales;
    } else {
      assert locales[..|locales| - 1][..k] == locales[..k];
      RunLocalesFailureSticks(t, backend, docs, region, locales[..|locales| - 1], k);
    }
  }

  /** Once a pass raises, no later region is run. */
  lemma {:induction false} RunRegionsFailureSticks(t: Tables, backend: Backend, docs: Documents, regions: seq<string>, k: int)
    requires 0 <= k <= |regions|
    requires RunRegions(t, backend, docs, regions[..k]).outcome.Fail?
    ensures RunRegions(t, backend, docs, regions) == RunRegions(t, backend, docs, regions[..k])
    decreases |regions|
  {
    if k == |regions| {
      assert regions[..k] == regions;
    } else {
      assert regions[..|regions| - 1][..k] == regions[..k];
      RunRegionsFailureSticks(t, backend, docs, regions[..|regions| - 1], k);
    }
  }

  /** Of the modelled exceptions, a pass over a supported locale and region
      raises only those caused by a localization file. */
  lemma PassErrorFromFiles(t: Tables, backend: Backend, docs: Documents, locale: string, region: string)
    requires Supported(locale, region)
    requires PassSpec(t, backend, docs, locale, region).Failure?
    ensures PassSpec(t, backend, docs, locale, region).error.FromFiles()
  {
    if Build(Camouflage, t, backend, docs, locale, region).Failure? {
      BuildErrorFromFiles(Camouflage, t, backend, docs, locale, region);
    } else if Build(Weapon, t, backend, docs, locale, region).Failure? {
      BuildErrorFromFiles(Weapon, t, backend, docs, locale, region);
    } else if Build(BodySkin, t, backend, docs, locale, region).Failure? {
      BuildErrorFromFiles(BodySkin, t, backend, docs, locale, region);
    } else {
      BuildErrorFromFiles(Gear, t, backend, docs, locale, region);
    }
  }

  /** Of the modelled exceptions, the passes of a supported region over supported
      locales raise only those caused by a localization file. */
  lemma {:induction false} RunLocalesErrorFromFiles(t: Tables, backend: Backend, docs: Documents, region: string,
                                                    locales: seq<string>)
    requires region in Regions
    requires forall i :: 0 <= i < |locales| ==> locales[i] in Languages
    ensures RunLocales(t, backend, docs, region, locales).outcome.Fail? ==>
      RunLocales(t, backend, docs, region, locales).outcome.error.FromFiles()
    decreases |locales|
  {
    if locales != [] {
      var init := locales[..|locales| - 1];
      RunLocalesErrorFromFiles(t, backend, docs, region, init);
      var before := RunLocales(t, backend, docs, region, init);
      var locale := locales[|locales| - 1];
      if before.outcome.Pass? && PassSpec(before.tables, backend, docs, locale, region).Failure? {
        PassErrorFromFiles(before.tables, backend, docs, locale, region);
      }
    }
  }

  /** Of the modelled exceptions, the passes of supported regions raise only those
      caused by a localization file. */
  lemma {:induction false} RunRegionsErrorFromFiles(t: Tables, backend: Backend, docs: Documents, regions: seq<string>)
    requires forall i :: 0 <= i < |regions| ==> regions[i] in Regions
    ensures RunRegions(t, backend, docs, regions).outcome.Fail? ==>
      RunRegions(t, backend, docs, regions).outcome.error.FromFiles()
    decreases |regions|
  {
    if regions != [] {
      var init := regions[..|regions| - 1];
      RunRegionsErrorFromFiles(t, backend, docs, init);
      var before := RunRegions(t, backend, docs, init);
      if before.outcome.Pass? {
        RunLocalesErrorFromFiles(before.tables, backend, docs, regions[|regions| - 1], Languages);
      }
    }
  }

  /** The translation loops of `main` pass only supported locales and regions, so
      within them no guard raises and, on either backend, no `fetchall` of a
      query that was never run: of the modelled exceptions, a translation run that
      stops was stopped by one caused by a localization file. Database errors are
      not modelled, nor is the `ALTER TABLE` loop that runs before. */
  lemma ImportErrorFromFiles(t: Tables, backend: Backend, docs: Documents)
    ensures RunRegions(t, backend, docs, Regions).outcome.Fail? ==>
      RunRegions(t, backend, docs, Regions).outcome.error.FromFiles()
  {
    RunRegionsErrorFromFiles(t, backend, docs, Regions);
  }

  /** The `for language in SUPPORTED_LANGUAGES` loop of `main` for one region:
      one pass per supported locale, stopping at the first pass that raises. */
  method TranslateRegion(db: Database, docs: Documents, region: string) returns (r: Outcome)
    modifies db
    ensures RunLocales(old(db.State()), db.backend, docs, region, Languages) == Progress(db.State(), r)
  {
    ghost var t0 := db.State();
    for li := 0 to |Languages|
      invariant RunLocales(t0, db.backend, docs, region, Languages[..li]) == Progress(db.State(), Pass)
    {
      assert Languages[..li + 1][..li] == Languages[..li];
      var o := TranslatePass(db, docs, Languages[li], region);
      if o.Fail? {
        RunLocalesFailureSticks(t0, db.backend, docs, region, Languages, li + 1);
        return o;
      }
    }
    assert Languages[..|Languages|] == Languages;
    r := Pass;
  }

  /** The `# insert translations` loops of `main`: every supported region, and in
      each every supported locale, one pass at a time, stopping at the first pass
      that raises with the writes of the earlier passes in place. */
  method ImportTranslations(db: Database, docs: Documents) returns (r: Outcome)
    modifies db
    ensures RunRegions(old(db.State()), db.backend, docs, Regions) == Progress(db.State(), r)
  {
    ghost var t0 := db.State();
    for ri := 0 to |Regions|
      invariant RunRegions(t0, db.backend, docs, Regions[..ri]) == Progress(db.State(), Pass)
    {
      assert Regions[..ri + 1][..ri] == Regions[..ri];
      var o := TranslateRegion(db, docs, Regions[ri]);
      if o.Fail? {
        RunRegionsFailureSticks(t0, db.backend, docs, Regions, ri + 1);
        return o;
      }
    }
    assert Regions[..|Regions|] == Regions;
    r := Pass;
  }
}
