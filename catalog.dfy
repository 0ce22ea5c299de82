/** The item catalog: the tables `items` (region eu) and `items_ru` (region ru),
    the query that fetches the rows of one kind, and the update that writes one
    translation cell. */
module Catalog {
  import opened Errors

  /** The locales and regions the importer supports, in the order `main` visits them. */
  const Languages: seq<string> := ["en", "cn"]
  const Regions: seq<string> := ["eu", "ru"]

  /** The guard `locale in SUPPORTED_LANGUAGES and region in SUPPORTED_REGIONS`. */
  predicate Supported(locale: string, region: string) {
    locale in Languages && region in Regions
  }

  /** The guard admits exactly the locales en and cn with the regions eu and ru. */
  lemma SupportedPairs(locale: string, region: string)
    ensures Supported(locale, region) <==> (locale == "en" || locale == "cn") && (region == "eu" || region == "ru")
  {
  }

  /** One catalog row. `titles` holds the translation columns (`title_en`,
      `title_cn`, ...) that are not NULL, by column name. */
  datatype Row = Row(entityId: int, itemName: string, kind: string, entityType: string, titles: map<string, string>)

  /** The first two columns of a fetched row, `item[0]` and `item[1]`. */
  datatype Item = Item(entityId: int, itemName: string)

  /** The contents of the two tables. */
  datatype Tables = Tables(items: seq<Row>, itemsRu: seq<Row>)

  /** The database the connection talks to. */
  datatype Backend = SQLite | Postgres

  /** The translation column of a locale. */
  function Column(locale: string): string {
    "title_" + locale
  }

  /** The table a region's queries go to: `items` for eu, `items_ru` otherwise. */
  function Table(t: Tables, region: string): seq<Row> {
    if region == "eu" then t.items else t.itemsRu
  }

  /** `t` with the table of `region` replaced by `rows`. */
  function WithTable(t: Tables, region: string, rows: seq<Row>): Tables {
    if region == "eu" then t.(items := rows) else t.(itemsRu := rows)
  }

  /** `SELECT * FROM <table> WHERE kind = '<kind>'`, as `(entity_id, item_name)`
      pairs in table order. */
  function SelectKind(rows: seq<Row>, kind: string): (r: seq<Item>)
    ensures |r| <= |rows|
  {
    if rows == [] then []
    else
      (if rows[0].kind == kind then [Item(rows[0].entityId, rows[0].itemName)] else [])
      + SelectKind(rows[1..], kind)
  }

  /** The fetch keeps table order: the items of two consecutive runs of rows are
      the items of the first run followed by those of the second. */
  lemma {:induction false} SelectKindAppend(a: seq<Row>, b: seq<Row>, kind: string)
    ensures SelectKind(a + b, kind) == SelectKind(a, kind) + SelectKind(b, kind)
    decreases |a|
  {
    if a != [] {
      assert (a + b)[1..] == a[1..] + b;
      SelectKindAppend(a[1..], b, kind);
    } else {
      assert a + b == b;
    }
  }

  /** An item is fetched exactly when some row of the table has the kind, the
      entity id and the name of that item. */
  lemma {:induction false} SelectKindMembers(rows: seq<Row>, kind: string, it: Item)
    ensures it in SelectKind(rows, kind) <==>
      exists i :: 0 <= i < |rows| && rows[i].kind == kind && it == Item(rows[i].entityId, rows[i].itemName)
    decreases |rows|
  {
    if rows != [] {
      SelectKindMembers(rows[1..], kind, it);
      if exists i :: 0 <= i < |rows[1..]| && rows[1..][i].kind == kind && it == Item(rows[1..][i].entityId, rows[1..][i].itemName) {
        var i :| 0 <= i < |rows[1..]| && rows[1..][i].kind == kind && it == Item(rows[1..][i].entityId, rows[1..][i].itemName);
        assert rows[i + 1] == rows[1..][i];
      }
      if exists i :: 0 <= i < |rows| && rows[i].kind == kind && it == Item(rows[i].entityId, rows[i].itemName) {
        var i :| 0 <= i < |rows| && rows[i].kind == kind && it == Item(rows[i].entityId, rows[i].itemName);
        if i > 0 {
          assert rows[1..][i - 1] == rows[i];
        }
      }
    }
  }

  /** The rows fetched for `kind` in `region`. A region other than eu and ru runs
      no query; `fetchall` then gives no rows on SQLite and raises on PostgreSQL. */
  function Fetch(t: Tables, backend: Backend, region: string, kind: string): (r: Result<seq<Item>>)
    ensures region in Regions ==> r == Success(SelectKind(Table(t, region), kind))
    ensures region !in Regions && backend == SQLite ==> r == Success([])
    ensures r.Failure? <==> region !in Regions && backend == Postgres
    ensures r.Failure? ==> r.error == NoResultsToFetch
  {
    if region == "eu" then Success(SelectKind(t.items, kind))
    else if region == "ru" then Success(SelectKind(t.itemsRu, kind))
    else if backend == SQLite then Success([])
    else
      assert region !in Regions && backend == Postgres;
      Failure(NoResultsToFetch)
  }

  /** `UPDATE <table> SET <column> = value WHERE entity_id = id` on the rows of one
      table: every row with that entity id gets `value` in `column`; nothing else
      changes. */
  function SetTitle(rows: seq<Row>, id: int, column: string, value: string): (r: seq<Row>)
    ensures |r| == |rows|
    ensures forall i :: 0 <= i < |rows| && rows[i].entityId != id ==> r[i] == rows[i]
    ensures forall i :: 0 <= i < |rows| && rows[i].entityId == id ==>
      r[i] == rows[i].(titles := rows[i].titles[column := value])
  {
    if rows == [] then []
    else
      [if rows[0].entityId == id then rows[0].(titles := rows[0].titles[column := value]) else rows[0]]
      + SetTitle(rows[1..], id, column, value)
  }

  /** An update whose entity id no row carries leaves the table as it was. */
  lemma SetTitleAbsent(rows: seq<Row>, id: int, column: string, value: string)
    requires forall i :: 0 <= i < |rows| ==> rows[i].entityId != id
    ensures SetTitle(rows, id, column, value) == rows
  {
  }

  /** Updating translations never changes what a later fetch returns. */
  lemma {:induction false} SetTitleKeepsSelect(rows: seq<Row>, id: int, column: string, value: string, kind: string)
    ensures SelectKind(SetTitle(rows, id, column, value), kind) == SelectKind(rows, kind)
    decreases |rows|
  {
    if rows != [] {
      var r := SetTitle(rows, id, column, value);
      assert r[1..] == SetTitle(rows[1..], id, column, value);
      SetTitleKeepsSelect(rows[1..], id, column, value, kind);
    }
  }

  /** The catalog as the connection sees it. */
  class Database {
    var items: seq<Row>
    var itemsRu: seq<Row>
    const backend: Backend

    constructor (items: seq<Row>, itemsRu: seq<Row>, backend: Backend)
      ensures this.items == items && this.itemsRu == itemsRu && this.backend == backend
    {
      this.items := items;
      this.itemsRu := itemsRu;
      this.backend := backend;
    }

    /** The contents of both tables. */
    function State(): Tables
      reads this
    {
      Tables(items, itemsRu)
    }

    /** `update_item_translation`: write `translation` into column `title_<locale>`
        of the rows with `entityId`, in `items` for eu and `items_ru` for ru. An
        unsupported locale or region raises before anything is written. */
    method UpdateItemTranslation(entityId: int, translation: string, locale: string, region: string) returns (r: Outcome)
      modifies this
      ensures !Supported(locale, region) ==> r == Fail(Unsupported(locale, region)) && State() == old(State())
      ensures Supported(locale, region) ==> r == Pass
      ensures Supported(locale, region) && region == "eu" ==>
        items == SetTitle(old(items), entityId, Column(locale), translation) && itemsRu == old(itemsRu)
      ensures Supported(locale, region) && region == "ru" ==>
        itemsRu == SetTitle(old(itemsRu), entityId, Column(locale), translation) && items == old(items)
    {
      if !Supported(locale, region) {
        return Fail(Unsupported(locale, region));
      }
      if region == "eu" {
        items := SetTitle(items, entityId, Column(locale), translation);
      } else {
        itemsRu := SetTitle(itemsRu, entityId, Column(locale), translation);
      }
      r := Pass;
    }
  }
}
