/** The translation mapping builders: for one category, locale and region, fetch the
    category's rows and resolve each into `entity_id -> [item_name, display_name]`. */
module Mapping {
  import opened Errors
  import opened Localization
  import opened Resolver
  import opened Catalog

  /** `entity_id -> [item_name, display_name]` (or `[item_name, '', '']`). */
  type TranslationMapping = map<int, seq<string>>

  /** Every value of the mapping has two or three elements, so `v[1]` exists. */
  predicate WellShaped(m: TranslationMapping) {
    forall k :: k in m ==> 2 <= |m[k]| <= 3
  }

  /** The entity ids of the fetched items. */
  function EntityIds(items: seq<Item>): set<int> {
    set i | 0 <= i < |items| :: items[i].entityId
  }

  /** No two fetched items share an entity id. */
  predicate UniqueIds(items: seq<Item>) {
    forall i, j :: 0 <= i < j < |items| ==> items[i].entityId != items[j].entityId
  }

  /** The dictionary filled by `for item in items: mapping[item[0]] = ...`: the
      items in fetch order, a later item overwriting an earlier one with the same
      entity id; the first item whose entry raises stops the whole loop. */
  function MappingOf(cat: Category, doc: Document, items: seq<Item>): (r: Result<TranslationMapping>)
    ensures r.Success? ==> WellShaped(r.value)
    decreases |items|
  {
    if items == [] then Success(map[])
    else
      var m :- MappingOf(cat, doc, items[..|items| - 1]);
      var last := items[|items| - 1];
      var v :- Resolve(cat, doc, last.itemName);
      Success(m[last.entityId := v])
  }

  /** The ids of a prefix and the id of the next item make up the ids of the
      longer prefix. */
  lemma EntityIdsSnoc(items: seq<Item>)
    requires items != []
    ensures EntityIds(items) == EntityIds(items[..|items| - 1]) + {items[|items| - 1].entityId}
  {
    var init := items[..|items| - 1];
    forall x | x in EntityIds(items)
      ensures x in EntityIds(init) + {items[|items| - 1].entityId}
    {
      var i :| 0 <= i < |items| && items[i].entityId == x;
      if i < |init| {
        assert init[i] == items[i];
      }
    }
    forall x | x in EntityIds(init)
      ensures x in EntityIds(items)
    {
      var i :| 0 <= i < |init| && init[i].entityId == x;
      assert items[i] == init[i];
    }
  }

  /** A mapping built over several items is the mapping of all but the last, with
      the last item's value stored under its entity id. */
  lemma MappingSnoc(cat: Category, doc: Document, items: seq<Item>)
    requires items != [] && MappingOf(cat, doc, items).Success?
    ensures MappingOf(cat, doc, items[..|items| - 1]).Success?
    ensures Resolve(cat, doc, items[|items| - 1].itemName).Success?
    ensures MappingOf(cat, doc, items).value ==
      MappingOf(cat, doc, items[..|items| - 1]).value[items[|items| - 1].entityId := Resolve(cat, doc, items[|items| - 1].itemName).value]
  {
  }

  /** The mapping has one key per fetched entity id: misses are kept, nothing is
      added. */
  lemma {:induction false} MappingKeys(cat: Category, doc: Document, items: seq<Item>)
    requires MappingOf(cat, doc, items).Success?
    ensures MappingOf(cat, doc, items).value.Keys == EntityIds(items)
    decreases |items|
  {
    if items != [] {
      MappingSnoc(cat, doc, items);
      MappingKeys(cat, doc, items[..|items| - 1]);
      EntityIdsSnoc(items);
    }
  }

  /** The value stored for an entity id is the resolution of the last fetched item
      with that id. */
  lemma {:induction false} MappingLastWins(cat: Category, doc: Document, items: seq<Item>, i: int)
    requires MappingOf(cat, doc, items).Success?
    requires 0 <= i < |items|
    requires forall j :: i < j < |items| ==> items[j].entityId != items[i].entityId
    ensures items[i].entityId in MappingOf(cat, doc, items).value
    ensures Resolve(cat, doc, items[i].itemName) == Success(MappingOf(cat, doc, items).value[items[i].entityId])
    decreases |items|
  {
    var init := items[..|items| - 1];
    var last := items[|items| - 1];
    MappingSnoc(cat, doc, items);
    if i < |init| {
      assert init[i] == items[i];
      forall j | i < j < |init| ensures init[j].entityId != init[i].entityId {
        assert init[j] == items[j];
      }
      MappingLastWins(cat, doc, init, i);
      assert last.entityId != items[i].entityId;
    }
  }

  /** With distinct entity ids, each fetched item contributes its own entry. */
  lemma {:induction false} MappingSize(cat: Category, doc: Document, items: seq<Item>)
    requires MappingOf(cat, doc, items).Success?
    requires UniqueIds(items)
    ensures |MappingOf(cat, doc, items).value| == |items|
  {
    MappingKeys(cat, doc, items);
    UniqueIdsCount(items);
    assert MappingOf(cat, doc, items).value.Keys == EntityIds(items);
  }

  /** Distinct entity ids are as many as the items. */
  lemma {:induction false} UniqueIdsCount(items: seq<Item>)
    requires UniqueIds(items)
    ensures |EntityIds(items)| == |items|
    decreases |items|
  {
    if items != [] {
      var init := items[..|items| - 1];
      assert UniqueIds(init) by {
        forall i, j | 0 <= i < j < |init| ensures init[i].entityId != init[j].entityId {
          assert init[i] == items[i] && init[j] == items[j];
        }
      }
      UniqueIdsCount(init);
      EntityIdsSnoc(items);
      assert items[|items| - 1].entityId !in EntityIds(init) by {
        forall i | 0 <= i < |init| ensures init[i].entityId != items[|items| - 1].entityId {
          assert init[i] == items[i];
        }
      }
    }
  }

  /** Once a prefix of the items raises, the whole loop raises the same way. */
  lemma {:induction false} MappingFailureSticks(cat: Category, doc: Document, items: seq<Item>, k: int)
    requires 0 <= k <= |items|
    requires MappingOf(cat, doc, items[..k]).Failure?
    ensures MappingOf(cat, doc, items) == MappingOf(cat, doc, items[..k])
    decreases |items|
  {
    if k == |items| {
      assert items[..k] == items;
    } else {
      var init := items[..|items| - 1];
      assert init[..k] == items[..k];
      MappingFailureSticks(cat, doc, init, k);
    }
  }

  /** An item that resolves after a prefix that built adds its value under its
      entity id. */
  lemma MappingExtends(cat: Category, doc: Document, items: seq<Item>)
    requires items != [] && MappingOf(cat, doc, items[..|items| - 1]).Success?
    requires Resolve(cat, doc, items[|items| - 1].itemName).Success?
    ensures MappingOf(cat, doc, items) == Success(MappingOf(cat, doc, items[..|items| - 1]).value[
      items[|items| - 1].entityId := Resolve(cat, doc, items[|items| - 1].itemName).value])
  {
  }

  /** An item that raises after a prefix that built stops the loop with its error. */
  lemma MappingStopsAt(cat: Category, doc: Document, items: seq<Item>)
    requires items != [] && MappingOf(cat, doc, items[..|items| - 1]).Success?
    requires Resolve(cat, doc, items[|items| - 1].itemName).Failure?
    ensures MappingOf(cat, doc, items) == Failure(Resolve(cat, doc, items[|items| - 1].itemName).error)
  {
  }

  /** The loop stops with the error of the first item whose entry raises. */
  lemma {:induction false} MappingFirstError(cat: Category, doc: Document, items: seq<Item>, i: int)
    requires 0 <= i < |items|
    requires Resolve(cat, doc, items[i].itemName).Failure?
    requires forall j :: 0 <= j < i ==> Resolve(cat, doc, items[j].itemName).Success?
    ensures MappingOf(cat, doc, items) == Failure(Resolve(cat, doc, items[i].itemName).error)
  {
    var upTo := items[..i + 1];
    MappingPrefixSucceeds(cat, doc, items, i);
    assert upTo[..i] == items[..i];
    assert upTo[i] == items[i];
    MappingStopsAt(cat, doc, upTo);
    MappingFailureSticks(cat, doc, items, i + 1);
  }

  /** A prefix without a raising entry builds. */
  lemma {:induction false} MappingPrefixSucceeds(cat: Category, doc: Document, items: seq<Item>, k: int)
    requires 0 <= k <= |items|
    requires forall j :: 0 <= j < k ==> Resolve(cat, doc, items[j].itemName).Success?
    ensures MappingOf(cat, doc, items[..k]).Success?
    decreases k
  {
    if k > 0 {
      MappingPrefixSucceeds(cat, doc, items, k - 1);
      assert items[..k][..k - 1] == items[..k - 1];
      assert items[..k][k - 1] == items[k - 1];
    }
  }

  /** The loop gets past one more item exactly when it got past the items before
      it and that item resolves. */
  lemma MappingStep(cat: Category, doc: Document, items: seq<Item>)
    requires items != []
    ensures MappingOf(cat, doc, items).Success? <==>
      MappingOf(cat, doc, items[..|items| - 1]).Success? && Resolve(cat, doc, items[|items| - 1].itemName).Success?
  {
  }

  /** The mapping is built exactly when no fetched item's entry raises. */
  lemma {:induction false} MappingSucceedsIff(cat: Category, doc: Document, items: seq<Item>)
    ensures MappingOf(cat, doc, items).Success? <==>
      forall j :: 0 <= j < |items| ==> Resolve(cat, doc, items[j].itemName).Success?
  {
    if forall j :: 0 <= j < |items| ==> Resolve(cat, doc, items[j].itemName).Success? {
      MappingPrefixSucceeds(cat, doc, items, |items|);
      assert items[..|items|] == items;
    } else {
      var j :| 0 <= j < |items| && Resolve(cat, doc, items[j].itemName).Failure?;
      var upTo := items[..j + 1];
      assert upTo[..j] == items[..j];
      assert upTo[j] == items[j];
      MappingStep(cat, doc, upTo);
      MappingFailureSticks(cat, doc, items, j + 1);
    }
  }

  /** The loop raises only the `IndexError` of a malformed entry. */
  lemma {:induction false} MappingErrorIsMalformed(cat: Category, doc: Document, items: seq<Item>)
    requires MappingOf(cat, doc, items).Failure?
    ensures MappingOf(cat, doc, items).error.MalformedEntry?
    decreases |items|
  {
    if MappingOf(cat, doc, items[..|items| - 1]).Failure? {
      MappingErrorIsMalformed(cat, doc, items[..|items| - 1]);
    }
  }

  /** One turn of the loop: after a prefix that built, the next item either stops
      the whole loop with its error or adds its value under its entity id. */
  lemma FillStep(cat: Category, doc: Document, items: seq<Item>, i: int, mapping: TranslationMapping)
    requires 0 <= i < |items| && MappingOf(cat, doc, items[..i]) == Success(mapping)
    ensures Resolve(cat, doc, items[i].itemName).Failure? ==>
      MappingOf(cat, doc, items) == Failure(Resolve(cat, doc, items[i].itemName).error)
    ensures Resolve(cat, doc, items[i].itemName).Success? ==>
      MappingOf(cat, doc, items[..i + 1]) == Success(mapping[items[i].entityId := Resolve(cat, doc, items[i].itemName).value])
  {
    var upTo := items[..i + 1];
    assert upTo[..i] == items[..i];
    assert upTo[i] == items[i];
    if Resolve(cat, doc, items[i].itemName).Failure? {
      MappingStopsAt(cat, doc, upTo);
      MappingFailureSticks(cat, doc, items, i + 1);
    } else {
      MappingExtends(cat, doc, upTo);
    }
  }

  /** The `for item in items` loop of a builder. */
  method FillMapping(cat: Category, doc: Document, items: seq<Item>) returns (r: Result<TranslationMapping>)
    ensures r == MappingOf(cat, doc, items)
  {
    var mapping: TranslationMapping := map[];
    var i := 0;
    while i < |items|
      invariant 0 <= i <= |items|
      invariant MappingOf(cat, doc, items[..i]) == Success(mapping)
    {
      FillStep(cat, doc, items, i, mapping);
      var v := Resolve(cat, doc, items[i].itemName);
      if v.Failure? {
        return Failure(v.error);
      }
      mapping := mapping[items[i].entityId := v.value];
      i := i + 1;
    }
    assert items[..i] == items;
    r := Success(mapping);
  }

  /** What a builder returns for `cat`: the guard, then the parse of the
      category's localization file, then the fetch, then the loop. The gear
      builder guards only the locale and answers an empty mapping to an unsupported
      one; the other three raise on an unsupported locale or region. */
  function Build(cat: Category, t: Tables, backend: Backend, docs: Documents, locale: string, region: string)
    : (r: Result<TranslationMapping>)
    ensures r.Success? ==> WellShaped(r.value)
  {
    if cat == Gear && locale !in Languages then Success(map[])
    else if cat != Gear && !Supported(locale, region) then Failure(Unsupported(locale, region))
    else
      var doc :- Load(docs, locale, cat.Family());
      var items :- Fetch(t, backend, region, cat.Kind());
      MappingOf(cat, doc, items)
  }

  /** A mapping built for a supported locale has exactly the fetched entity ids as
      keys, and each value is that of the last fetched row with its id. */
  lemma BuildKeys(cat: Category, t: Tables, backend: Backend, docs: Documents, locale: string, region: string)
    requires locale in Languages
    requires Build(cat, t, backend, docs, locale, region).Success?
    ensures Load(docs, locale, cat.Family()).Success?
    ensures Fetch(t, backend, region, cat.Kind()).Success?
    ensures Build(cat, t, backend, docs, locale, region).value.Keys == EntityIds(Fetch(t, backend, region, cat.Kind()).value)
    ensures forall i :: 0 <= i < |Fetch(t, backend, region, cat.Kind()).value| ==>
      var items := Fetch(t, backend, region, cat.Kind()).value;
      (forall j :: i < j < |items| ==> items[j].entityId != items[i].entityId) ==>
        Resolve(cat, Load(docs, locale, cat.Family()).value, items[i].itemName)
          == Success(Build(cat, t, backend, docs, locale, region).value[items[i].entityId])
  {
    var doc := Load(docs, locale, cat.Family()).value;
    var items := Fetch(t, backend, region, cat.Kind()).value;
    MappingKeys(cat, doc, items);
    forall i | 0 <= i < |items| && (forall j :: i < j < |items| ==> items[j].entityId != items[i].entityId)
      ensures Resolve(cat, doc, items[i].itemName) == Success(MappingOf(cat, doc, items).value[items[i].entityId])
    {
      MappingLastWins(cat, doc, items, i);
    }
  }

  /** Called with a supported locale and region, a builder raises none of the
      modelled exceptions but those caused by a localization file: one that does
      not parse, or an entry without a second child. Database errors are not
      modelled. */
  lemma BuildErrorFromFiles(cat: Category, t: Tables, backend: Backend, docs: Documents, locale: string, region: string)
    requires Supported(locale, region)
    requires Build(cat, t, backend, docs, locale, region).Failure?
    ensures Build(cat, t, backend, docs, locale, region).error.FromFiles()
  {
    var doc := Load(docs, locale, cat.Family());
    if doc.Success? {
      MappingErrorIsMalformed(cat, doc.value, Fetch(t, backend, region, cat.Kind()).value);
    }
  }

  /** The parse, fetch and loop of a builder, after its guard has passed. */
  method LoadFetchFill(cat: Category, db: Database, docs: Documents, locale: string, region: string)
    returns (r: Result<TranslationMapping>)
    requires locale in Languages
    requires cat != Gear ==> Supported(locale, region)
    ensures r == Build(cat, db.State(), db.backend, docs, locale, region)
  {
    var doc :- Load(docs, locale, cat.Family());
    var items :- Fetch(db.State(), db.backend, region, cat.Kind());
    r := FillMapping(cat, doc, items);
  }

  /** `get_camouflage_translation_mapping`. */
  method CamouflageTranslationMapping(db: Database, docs: Documents, locale: string, region: string)
    returns (r: Result<TranslationMapping>)
    ensures !Supported(locale, region) ==> r == Failure(Unsupported(locale, region))
    ensures r == Build(Camouflage, db.State(), db.backend, docs, locale, region)
  {
    if !Supported(locale, region) {
      return Failure(Unsupported(locale, region));
    }
    r := LoadFetchFill(Camouflage, db, docs, locale, region);
  }

  /** `get_weapon_translation_mapping`. */
  method WeaponTranslationMapping(db: Database, docs: Documents, locale: string, region: string)
    returns (r: Result<TranslationMapping>)
    ensures !Supported(locale, region) ==> r == Failure(Unsupported(locale, region))
    ensures r == Build(Weapon, db.State(), db.backend, docs, locale, region)
  {
    if !Supported(locale, region) {
      return Failure(Unsupported(locale, region));
    }
    r := LoadFetchFill(Weapon, db, docs, locale, region);
  }

  /** `get_body_skin_translation_mapping`. */
  method BodySkinTranslationMapping(db: Database, docs: Documents, locale: string, region: string)
    returns (r: Result<TranslationMapping>)
    ensures !Supported(locale, region) ==> r == Failure(Unsupported(locale, region))
    ensures r == Build(BodySkin, db.State(), db.backend, docs, locale, region)
  {
    if !Supported(locale, region) {
      return Failure(Unsupported(locale, region));
    }
    r := LoadFetchFill(BodySkin, db, docs, locale, region);
  }

  /** `get_gear_translation_mapping`: an unsupported locale gives an empty mapping
      without raising, and the region is not checked. */
  method GearTranslationMapping(db: Database, docs: Documents, locale: string, region: string)
    returns (r: Result<TranslationMapping>)
    ensures locale !in Languages ==> r == Success(map[])
    ensures r == Build(Gear, db.State(), db.backend, docs, locale, region)
  {
    if locale !in Languages {
      return Success(map[]);
    }
    r := LoadFetchFill(Gear, db, docs, locale, region);
  }

  /** For a supported locale and a region other than eu and ru, the gear builder
      still parses its file and then fetches from a cursor that ran no query. */
  lemma GearUnguardedRegion(t: Tables, backend: Backend, docs: Documents, locale: string, region: string)
    requires locale in Languages && region !in Regions
    requires (locale, TextArmors) in docs
    ensures backend == SQLite ==> Build(Gear, t, backend, docs, locale, region) == Success(map[])
    ensures backend == Postgres ==> Build(Gear, t, backend, docs, locale, region) == Failure(NoResultsToFetch)
  {
  }

  /** An example: vest_a (entity 202) with `ui_armor_vest_a_name` ->
      "Tactical Vest" in the armor file is mapped to "Tactical Vest". */
  lemma GearExample()
    ensures Build(Gear, Tables([Row(202, "vest_a", "equipment", "", map[])], []), SQLite,
                  map[("en", TextArmors) := map["ui_armor_vest_a_name" := ["Tactical Vest", "Tactical Vest"]]], "en", "eu")
         == Success(map[202 := ["vest_a", "Tactical Vest"]])
  {
    var rows := [Row(202, "vest_a", "equipment", "", map[])];
    assert SelectKind(rows, "equipment") == [Item(202, "vest_a")] by {
      assert rows[1..] == [];
    }
    assert ArmorKey("vest_a") == "ui_armor_vest_a_name";
  }

  /** An example: helmet_x (entity 303) without an entry in the armor
      file is still in the mapping, with an empty display name. */
  lemma BodySkinMissExample()
    ensures Build(BodySkin, Tables([Row(303, "helmet_x", "appearance", "", map[])], []), SQLite,
                  map[("en", TextArmors) := map[]], "en", "eu")
         == Success(map[303 := ["helmet_x", ""]])
  {
    var rows := [Row(303, "helmet_x", "appearance", "", map[])];
    assert SelectKind(rows, "appearance") == [Item(303, "helmet_x")] by {
      assert rows[1..] == [];
    }
  }
}
