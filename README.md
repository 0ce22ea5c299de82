# Localization importer model

`convert.py` fills the translation columns of a game-item catalog. It reads the
game's XML localization files (`text_weapons.xml` and `text_armors.xml` under one
directory per locale) and, for each catalog table, each locale and each of four
categories of item, writes a display name into the locale's `title_<locale>`
column. The categories are camouflages, weapons, body skins (kind `appearance`)
and gear (kind `equipment`). The tables are `items` (region eu) and `items_ru`
(region ru).

For each category, the key under which an item's name is looked up comes from
its `item_name`:

| category | key |
|---|---|
| weapon | `<name>_name` when the name already contains `_shop`, `<name>_shop_name` otherwise |
| body skin, gear | `ui_armor_<name>_name` |
| camouflage | `<name>_name` for the variant, and `<prefix>_shop_name` for its weapon, where `<prefix>` is the part of the name before the first underscore |

The display name is the `value` of the second child of the entry with that key. An
entry that is missing gives an empty display name.

The model consists of these modules:

- `Errors`: the exceptions the importer can raise. Also the failure-compatible `Result` and `Outcome` types through which an exception stops the computation.
- `Text`: the two string operations the key rules use. `'_shop' in name` is `Contains`, and `name.split('_')[0]` is `BeforeFirst`.
- `Localization`: a parsed file as a map from entry key to its children's `value` attributes. Also the lookup `get_weapon_name_by_shortened_key`.
- `Resolver`: the per-category key rules and the mapping value stored for one item.
- `Catalog`: the two tables, the `SELECT ... WHERE kind = ...` fetch and the `UPDATE` of one cell. The class `Database` holds both tables, and its method `UpdateItemTranslation` changes them in place.
- `Mapping`: the four `get_*_translation_mapping` builders. Each is its guard, its parse, its fetch, and its loop over the fetched rows (`FillMapping`), proved against the prefix-recursive `MappingOf`.
- `Importer`: the `# insert translations` loops of `main`. These are `ApplyMapping` for one mapping, `TranslatePass` for one locale of one region, `TranslateRegion` for every locale of one region, and `ImportTranslations` for all regions. They are proved against the reference functions `Applied`, `PassSpec`, `RunLocales` and `RunRegions`.

Choices the code makes that the model keeps:

- The gear builder guards only the locale. It returns an empty mapping for an unsupported locale and does not check the region. The other three builders raise `NotImplementedError` when either is unsupported.
- A camouflage whose variant entry is missing gets the three-element value `[name, '', '']`. The other categories use `[name, '']`.
- When the variant entry exists, the camouflage's weapon name is looked up before the variant's second child is read. A weapon entry without a second child therefore raises first.
- A missing entry and an entry whose display text is empty both give the empty string.
- When two fetched rows share an entity id, the later one's value wins.

Behaviour kept as the code has it, though a reader might expect otherwise:

- The gear builder checks a locale but no region.
- In a camouflage, the variant is looked up first.
- The empty string serves as the "not found" sentinel.

## Model

| member | source | states |
|---|---|---|
| Text.ContainsIff | convert.py:158 | `'_shop' in name` (`Contains`) holds exactly when `_shop` occurs at some position of the name |
| Text.ContainsAppended | convert.py:158-161 | a string that has `_shop` followed by anything contains `_shop`, so `<name>_shop_name` always does |
| Text.BeforeFirst | convert.py:111 | `name.split('_')[0]` (`CamouflageWeapon`, the camouflage's weapon) is a prefix of the name without `_`, followed in the name by `_` or by nothing |
| Text.BeforeFirstUnique | convert.py:111 | only one prefix has that property, so the shortened weapon key is determined by the name |
| Localization.Load | convert.py:95 | `ET.parse` of the locale's file succeeds exactly when that file is present, and gives its document. Otherwise it raises the error naming the locale and the file |
| Localization.SecondValue | convert.py:124 | `list(lookup_result)[1].attrib['value']` succeeds exactly when the entry has at least two children, and gives the second child's value. Otherwise it raises `IndexError` for that entry's key |
| Localization.WeaponNameByShortenedKey | convert.py:60-74 | gives '' when `<key>_shop_name` is missing, the second child's value when it is present, and raises `IndexError` when the entry has fewer than two children |
| Resolver.Resolve | convert.py:116-124 | every mapping value starts with the item name and has two or three elements. Three elements occur only for a camouflage whose variant entry is missing, and they are `[name, '', '']`. The only exception raised is a malformed entry |
| Resolver.WeaponKeyShape | convert.py:158-161 | in both branches, the weapon key `WeaponKey` starts with the name, ends in `_name` and contains `_shop` |
| Resolver.ShopVariantSharesKey | convert.py:158-161 | a weapon `n` without `_shop` and the weapon `n_shop` look up the same key `n_shop_name` |
| Resolver.WeaponResolution | convert.py:158-168 | a weapon gets '' when its entry is missing, the entry's second value when it is present, and raises when the entry is too short |
| Resolver.ArmorResolution | convert.py:202-209 | body skins and gear resolve identically through `ui_armor_<name>_name`. A missing entry gives `[name, '']`, a present one its second value, and an entry with fewer than two children raises `IndexError` for its key |
| Resolver.ArmorKeyShape | convert.py:202 | the armor key `ArmorKey` is `ui_armor_`, then the name, then `_name`, so two items share an armor key only when they have the same name |
| Resolver.CamouflageVariantMiss | convert.py:112-117 | a camouflage with no variant entry gets `[name, '', '']` whatever its weapon entry holds |
| Resolver.CamouflageVariantHit | convert.py:111-124 | a camouflage with a variant entry gets the weapon's shop name, a space and the variant name. The weapon part is '' when its entry is missing, and a short weapon entry raises before the variant value is read |
| Resolver.CamouflageShortVariant | convert.py:120-124 | a camouflage whose variant entry has fewer than two children raises `IndexError`. The key is the weapon entry's when that entry is short too, because the weapon is read first. Otherwise the key is the variant entry's |
| Resolver.CamouflageWeaponOf | convert.py:111 | the weapon `CamouflageWeapon` of `w_rest` is `w` whenever `w` has no underscore |
| Resolver.CamouflageExample | convert.py:108-124 | `sr47_jungle`, with `sr47_shop_name` = SR-47 and `sr47_jungle_name` = Jungle, is named "SR-47 Jungle" |
| Resolver.ExampleLookups | convert.py:60-74 | in the example file, the shop name of `sr47` is SR-47 and the second child of `sr47_jungle_name` is Jungle |
| Catalog.SupportedPairs | convert.py:91 | the guard passes exactly for the locales `en` and `cn` and the regions `eu` and `ru` |
| Catalog.Fetch | convert.py:99-105 | for eu or ru, `fetchall` returns the items of that region's table with the category's kind. For any other region no query runs: on SQLite `fetchall` returns no rows, and on PostgreSQL it raises, which is the only way it raises |
| Catalog.SelectKind | convert.py:99-105 | the fetch returns no more rows than the table holds |
| Catalog.SelectKindAppend | convert.py:99-105 | the fetch keeps table order: the items of two runs of rows, one after the other, are the items of the first run followed by those of the second |
| Catalog.SelectKindMembers | convert.py:99-105 | an `(entity_id, item_name)` pair is fetched exactly when some row of the region's table has the category's kind, that id and that name |
| Catalog.SetTitle | convert.py:273-277 | the `UPDATE` keeps the number of rows, gives every row with the entity id the translation in the locale's column, and leaves every other row as it was |
| Catalog.SetTitleAbsent | convert.py:273-277 | an update for an entity id no row has changes nothing |
| Catalog.SetTitleKeepsSelect | convert.py:271-293 | writing a translation never changes what a later fetch returns |
| Catalog.Database.UpdateItemTranslation | convert.py:256-293 | raises before writing for an unsupported locale or region. Otherwise it updates `items` for eu or `items_ru` for ru and leaves the other table unchanged |
| Mapping.MappingOf | convert.py:108-125 | a mapping that the loop builds has values of two or three elements, so `v[1]` always exists |
| Mapping.MappingSnoc | convert.py:108-125 | a built mapping is the mapping of all the items but the last, with the last item's value stored under its entity id |
| Mapping.MappingKeys | convert.py:108-125 | the keys of a built mapping are exactly the fetched entity ids |
| Mapping.MappingLastWins | convert.py:155-169 | the value under an entity id is the resolution of the last fetched row with that id |
| Mapping.MappingSize | convert.py:199-210 | with distinct ids, the mapping has one entry per fetched row |
| Mapping.MappingFailureSticks | convert.py:241-253 | once an item raises, the rest of the loop is not run and the builder raises that exception |
| Mapping.MappingFirstError | convert.py:155-169 | the exception the loop raises is the one of the first item whose entry raises |
| Mapping.MappingPrefixSucceeds | convert.py:155-169 | the loop gets past every leading item that resolves |
| Mapping.MappingExtends | convert.py:155-169 | after a prefix that built, an item that resolves stores its value under its entity id, replacing any earlier one |
| Mapping.MappingStopsAt | convert.py:155-169 | after a prefix that built, an item that raises stops the loop with its exception |
| Mapping.MappingStep | convert.py:155-169 | the loop gets past one more item exactly when it got past the items before it and that item resolves |
| Mapping.MappingSucceedsIff | convert.py:108-125 | the loop finishes exactly when every fetched item resolves |
| Mapping.MappingErrorIsMalformed | convert.py:120-124 | the loop raises only the `IndexError` of a malformed entry |
| Mapping.FillStep | convert.py:155-169 | one turn of the loop: after a prefix that built, the next item either stops the whole loop with its exception or adds its value under its entity id |
| Mapping.FillMapping | convert.py:155-169 | the `for item in items` loop computes `MappingOf` of the fetched rows |
| Mapping.Build | convert.py:128-169 | a builder's mapping has values of two or three elements |
| Mapping.BuildKeys | convert.py:142-169 | for a supported locale, a built mapping exists only after the file parsed and the fetch succeeded. Its keys are the fetched ids, and each value is the resolution of the last row with that id |
| Mapping.BuildErrorFromFiles | convert.py:139-169 | for a supported locale and region, the only modelled exceptions a builder raises come from a localization file that is missing or has a short entry. Database errors are not modelled |
| Mapping.LoadFetchFill | convert.py:94-125 | after its guard, a builder parses, fetches and loops as `Build` says |
| Mapping.CamouflageTranslationMapping | convert.py:77-125 | raises `NotImplementedError` for an unsupported locale or region, and otherwise returns what `Build` gives for camouflages |
| Mapping.WeaponTranslationMapping | convert.py:128-169 | raises for an unsupported locale or region, and otherwise returns what `Build` gives for weapons |
| Mapping.BodySkinTranslationMapping | convert.py:172-210 | raises for an unsupported locale or region, and otherwise returns what `Build` gives for body skins |
| Mapping.GearTranslationMapping | convert.py:213-253 | returns an empty mapping for an unsupported locale, and otherwise what `Build` gives for gear |
| Mapping.GearUnguardedRegion | convert.py:224-238 | for a supported locale and an unsupported region, the gear builder runs no query. On SQLite it returns an empty mapping; on PostgreSQL `fetchall` raises |
| Mapping.GearExample | convert.py:241-253 | equipment row 202 `vest_a`, with `ui_armor_vest_a_name` = Tactical Vest, maps to `[vest_a, Tactical Vest]` |
| Mapping.BodySkinMissExample | convert.py:199-210 | appearance row 303 `helmet_x` without an entry maps to `[helmet_x, '']` |
| Importer.SetTitlesPart | convert.py:339-342 | writing the entries of a mapping for a list of distinct keys, in that order, gives the part of `Applied` over those keys |
| Importer.AppliedInAnyOrder | convert.py:339-342 | writing every entry of a mapping once, in any order of its keys, gives `Applied`, so the order of `items()` does not matter |
| Importer.AppliedStep | convert.py:339-342 | writing one more entry of a mapping extends the written part by that entry, in whatever order the entries come |
| Importer.ApplyMapping | convert.py:339-342 | writing every entry of a mapping sets each row's locale column to the `v[1]` of its id and changes nothing else. The result does not depend on dictionary order |
| Importer.LastWith | convert.py:337-339 | finds the last of several mappings that holds an entity id, or reports that none does |
| Importer.ApplyAll | convert.py:337-342 | writing several mappings keeps the number of rows of the table |
| Importer.ApplyAllLastWins | convert.py:337-342 | after writing several mappings in order, each row holds the value of the last mapping with its id, and is unchanged when none has it |
| Importer.AppliedKeepsSelect | convert.py:339-342 | writing a mapping does not change what any fetch selects |
| Importer.ApplyAllKeepsSelect | convert.py:337-342 | writing several mappings does not change what any fetch selects |
| Importer.ApplyAllFour | convert.py:337-339 | writing the four mappings in list order is writing the camouflage, weapon, body skin and gear mappings one after the other |
| Importer.PassBuilds | convert.py:333-337 | a pass builds the camouflage, weapon, body skin and gear mappings in that order, each with values of two or three elements, and stops at the first builder that raises |
| Importer.PassSpec | convert.py:332-342 | a pass that goes through had a supported locale and region, keeps the number of rows of the region's table, and leaves the other region's table unchanged |
| Importer.PassWrites | convert.py:333-342 | a pass that goes through had a supported locale and region. It writes, in the region's table, each row's locale column from the last of the four mappings holding its id, and leaves the other table unchanged |
| Importer.PassKeepsBuilds | convert.py:331-342 | a pass changes nothing any builder reads, so every pass builds its mappings from the catalog as it was |
| Importer.PassErrorFromFiles | convert.py:333-336 | of the modelled exceptions, a pass over a supported locale and region raises only those caused by a localization file |
| Importer.TranslatePass | convert.py:332-342 | one pass writes `PassSpec`'s tables when all four builders succeed. When one raises, it raises that exception with nothing written |
| Importer.TranslateRegion | convert.py:332-342 | the locale loop of one region leaves the tables, and raises the exception, that `RunLocales` gives over the supported locales in order |
| Importer.RunLocalesFrame | convert.py:332-342 | the passes of one region (`RunLocales`) keep the number of rows of both tables and never change the other region's table |
| Importer.RunRegionsFrame | convert.py:331-343 | the passes of all regions (`RunRegions`) keep the number of rows of both tables |
| Importer.RunLocalesFailureSticks | convert.py:332-342 | once a pass of a region raises, the region's later locales are not run |
| Importer.RunRegionsFailureSticks | convert.py:331-343 | once a pass raises, no later region is run |
| Importer.RunLocalesErrorFromFiles | convert.py:332-342 | of the modelled exceptions, the passes of a supported region over supported locales raise only those caused by a localization file |
| Importer.RunRegionsErrorFromFiles | convert.py:331-343 | of the modelled exceptions, the passes of supported regions raise only those caused by a localization file |
| Importer.ImportErrorFromFiles | convert.py:331-343 | the translation loops of `main` never hit a guard or the `fetchall` of a query that was not run. Of the modelled exceptions, only one caused by a localization file stops them |
| Importer.ImportTranslations | convert.py:331-343 | the loops of `main` leave the tables, and raise the exception, that `RunRegions` gives over every region and locale in order |

## Left out

- The credential file, `create_connection` and the choice between sqlite3 and psycopg2 are I/O. The model takes the backend as a field of `Database`.
- The `ALTER TABLE` statements of `main` are left out because they are schema migration. A translation column is modelled as an optional entry of a row's `titles` map. The model starts at the translation loops.
- Two of the six `ALTER TABLE` literals (convert.py:311-312) lack a separating comma, so they are joined into one string of two statements. sqlite3's `execute` refuses more than one statement with an exception other than `sqlite3.OperationalError`. The `except` at convert.py:319 does not catch it, so on SQLite `main` as written stops at convert.py:318, before the translation loops, whenever `items_ru` exists without a `title_original` column. This follows from the sqlite3 module's documented behaviour; nothing was executed.
- Database errors raised by the connection, `execute` or `fetchall` are not modelled. The one exception is the `fetchall` of a query that was never run. The `ErrorFromFiles` lemmas speak only of the modelled exceptions.
- The XML files are parameters: `ET.parse` is a lookup in a map from (locale, file) to a parsed document. A file that does not parse is an absent pair. The `locale + '/...'` paths and the file contents are not modelled.
- Every child is taken to have a `value` attribute. The `KeyError` raised by a child without one is not modelled.
- Keys that contain a double quote are not modelled: the XPath `[@key="..."]` lookup is an exact map lookup. Among entries sharing a key, the document holds the one `find` returns.
- The SQL text and the `cursor.execute` calls are not modelled. A query is its effect on the table contents, and the fetch returns rows in table order.
- The `type(cursor)` dispatch and the identical update code of its two branches are modelled once. A cursor of any other type, which makes the update do nothing, is left out.
- `connection.commit()` and `connection.close()` are not modelled. The state is the view of the open connection, so the writes of earlier passes remain in place when a later pass raises.
- The `print` calls are output only. The gear builder's message for an unsupported locale is not kept.
- `entity_id` is an unbounded integer. The order of dictionary iteration is not modelled, because `ApplyMapping` shows the result does not depend on it.
