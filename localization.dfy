/** The localization store: a parsed localization file and the exact-key lookups
    the importer performs on it. */
module Localization {
  import opened Errors

  /** A parsed localization file. Each entry's `key` attribute is mapped to the
      `value` attributes of that entry's children, in document order. When several
      entries share a key, the map holds the first of them, the one that
      ElementTree's `find` returns. */
  type Document = map<string, seq<string>>

  /** The two localization files of a locale. */
  datatype Family = TextWeapons | TextArmors {
    function FileName(): string {
      match this
      case TextWeapons => "text_weapons.xml"
      case TextArmors => "text_armors.xml"
    }
  }

  /** The files that parse, by locale and family; a pair that is absent is a file
      that is missing or malformed. */
  type Documents = map<(string, Family), Document>

  /** `ET.parse(locale + '/' + file)`. */
  function Load(docs: Documents, locale: string, family: Family): (r: Result<Document>)
    ensures r.Success? <==> (locale, family) in docs
    ensures r.Success? ==> r.value == docs[(locale, family)]
    ensures r.Failure? ==> r.error == DocumentMissing(locale, family.FileName())
  {
    if (locale, family) in docs then Success(docs[(locale, family)])
    else Failure(DocumentMissing(locale, family.FileName()))
  }

  /** `list(entry)[1].attrib['value']` for the entry that `find` returned for
      `key`: the value of its second child. */
  function SecondValue(doc: Document, key: string): (r: Result<string>)
    requires key in doc
    ensures r.Success? <==> |doc[key]| >= 2
    ensures r.Success? ==> r.value == doc[key][1]
    ensures r.Failure? ==> r.error == MalformedEntry(key)
  {
    if |doc[key]| < 2 then Failure(MalformedEntry(key)) else Success(doc[key][1])
  }

  /** The key of a weapon's shop name: a shortened weapon key such as `sr47`
      followed by `_shop_name`. */
  function ShopNameKey(key: string): string {
    key + "_shop_name"
  }

  /** `get_weapon_name_by_shortened_key`: the display name of a weapon from its
      shortened key, or '' when the file has no such entry. */
  function WeaponNameByShortenedKey(doc: Document, key: string): (r: Result<string>)
    ensures ShopNameKey(key) !in doc ==> r == Success("")
    ensures ShopNameKey(key) in doc && |doc[ShopNameKey(key)]| >= 2 ==> r == Success(doc[ShopNameKey(key)][1])
    ensures ShopNameKey(key) in doc && |doc[ShopNameKey(key)]| < 2 ==> r == Failure(MalformedEntry(ShopNameKey(key)))
  {
    if ShopNameKey(key) !in doc then Success("") else SecondValue(doc, ShopNameKey(key))
  }
}
