/** The name resolver: for each category of item, the key (or keys) under which its
    display name is looked up, and the mapping value the importer stores for it. */
module Resolver {
  import opened Errors
  import opened Text
  import opened Localization

  /** The four kinds of catalog item that receive translations. */
  datatype Category = Camouflage | Weapon | BodySkin | Gear {
    /** The value of the `kind` column that selects this category's rows. */
    function Kind(): string {
      match this
      case Camouflage => "camouflage"
      case Weapon => "weapon"
      case BodySkin => "appearance"
      case Gear => "equipment"
    }

    /** The localization file this category's names come from. */
    function Family(): Family {
      match this
      case Camouflage => TextWeapons
      case Weapon => TextWeapons
      case BodySkin => TextArmors
      case Gear => TextArmors
    }
  }

  /** The key of a weapon's name: names already carrying `_shop` get `_name`,
      all others `_shop_name`. */
  function WeaponKey(name: string): string {
    if Contains(name, "_shop") then name + "_name" else name + "_shop_name"
  }

  /** The key of a camouflage variant's name. */
  function NameKey(name: string): string {
    name + "_name"
  }

  /** The key of an appearance's or an equipment item's name. */
  function ArmorKey(name: string): string {
    "ui_armor_" + name + "_name"
  }

  /** The shortened weapon key of a camouflage, `name.split('_')[0]`. */
  function CamouflageWeapon(name: string): string {
    BeforeFirst(name, '_')
  }

  /** The value `[name, display]` for a single lookup of `key`, with '' as the
      display name when the file has no entry for `key`. */
  function SingleLookup(doc: Document, key: string, name: string): Result<seq<string>> {
    if key !in doc then Success([name, ""])
    else
      var display :- SecondValue(doc, key);
      Success([name, display])
  }

  /** The mapping value stored for an item named `name` of category `cat`. A
      camouflage whose variant entry exists is named by its weapon's shop name, a
      space and the variant's name, the weapon part evaluated first; one whose
      variant entry is missing gets the three-element `[name, '', '']`. */
  function Resolve(cat: Category, doc: Document, name: string): (r: Result<seq<string>>)
    ensures r.Success? ==> 2 <= |r.value| <= 3 && r.value[0] == name
    ensures r.Success? && |r.value| == 3 ==>
      cat == Camouflage && NameKey(name) !in doc && r.value[1] == "" && r.value[2] == ""
    ensures r.Failure? ==> r.error.MalformedEntry?
  {
    match cat
    case Camouflage =>
      if NameKey(name) !in doc then Success([name, "", ""])
      else
        var weapon :- WeaponNameByShortenedKey(doc, CamouflageWeapon(name));
        var variant :- SecondValue(doc, NameKey(name));
        Success([name, weapon + " " + variant])
    case Weapon => SingleLookup(doc, WeaponKey(name), name)
    case BodySkin => SingleLookup(doc, ArmorKey(name), name)
    case Gear => SingleLookup(doc, ArmorKey(name), name)
  }

  /** Extending a string keeps every occurrence it contains. */
  lemma ContainsExtended(s: string, sub: string, t: string)
    requires Contains(s, sub)
    ensures Contains(s + t, sub)
  {
    ContainsIff(s, sub);
    var i :| OccursAt(s, sub, i);
    assert (s + t)[i..i + |sub|] == s[i..i + |sub|];
    assert OccursAt(s + t, sub, i);
    ContainsIff(s + t, sub);
  }

  /** Whichever branch is taken, a weapon key starts with the item name, ends with
      `_name` and contains `_shop`. */
  lemma WeaponKeyShape(name: string)
    ensures IsPrefix(name, WeaponKey(name))
    ensures |WeaponKey(name)| >= |name| + 5 && WeaponKey(name)[|WeaponKey(name)| - 5..] == "_name"
    ensures Contains(WeaponKey(name), "_shop")
  {
    if Contains(name, "_shop") {
      ContainsExtended(name, "_shop", "_name");
    } else {
      ContainsAppended(name, "_shop", "_name");
      assert name + "_shop_name" == name + "_shop" + "_name";
    }
    assert WeaponKey(name)[..|name|] == name;
  }

  /** The asymmetric rule gives a weapon `n` and a weapon `n_shop` the same key,
      so both are named by the same entry. */
  lemma ShopVariantSharesKey(name: string)
    requires !Contains(name, "_shop")
    ensures WeaponKey(name + "_shop") == WeaponKey(name) == name + "_shop_name"
  {
    var shop := name + "_shop";
    assert Contains(shop, "_shop") by {
      ContainsAppended(name, "_shop", "");
      assert name + "_shop" + "" == shop;
    }
    assert WeaponKey(shop) == shop + "_name";
    assert shop + "_name" == name + "_shop_name";
  }

  /** A weapon is named by the second child of its key's entry, or '' without one. */
  lemma WeaponResolution(doc: Document, name: string)
    ensures var key := WeaponKey(name);
      && (key !in doc ==> Resolve(Weapon, doc, name) == Success([name, ""]))
      && (key in doc && |doc[key]| >= 2 ==> Resolve(Weapon, doc, name) == Success([name, doc[key][1]]))
      && (key in doc && |doc[key]| < 2 ==> Resolve(Weapon, doc, name) == Failure(MalformedEntry(key)))
  {
  }

  /** Appearance and equipment use the same rule: both look up
      `ui_armor_<name>_name`, and a missing entry gives `[name, '']`. */
  lemma ArmorResolution(doc: Document, name: string)
    ensures Resolve(BodySkin, doc, name) == Resolve(Gear, doc, name)
    ensures var key := ArmorKey(name);
      && (key !in doc ==> Resolve(Gear, doc, name) == Success([name, ""]))
      && (key in doc && |doc[key]| >= 2 ==> Resolve(Gear, doc, name) == Success([name, doc[key][1]]))
      && (key in doc && |doc[key]| < 2 ==> Resolve(Gear, doc, name) == Failure(MalformedEntry(key)))
  {
  }

  /** The armor key starts with `ui_armor_`, ends with `_name` and holds the item
      name in between, so distinct names have distinct keys. */
  lemma {:induction false} ArmorKeyShape(name: string, other: string)
    ensures IsPrefix("ui_armor_", ArmorKey(name))
    ensures |ArmorKey(name)| == |name| + 14 && ArmorKey(name)[9..|name| + 9] == name
    ensures ArmorKey(name)[|name| + 9..] == "_name"
    ensures ArmorKey(name) == ArmorKey(other) ==> name == other
  {
    var k := ArmorKey(name);
    assert k == "ui_armor_" + name + "_name";
    assert k[..9] == "ui_armor_";
    assert k[9..|name| + 9] == name;
    assert k[|name| + 9..] == "_name";
    if k == ArmorKey(other) {
      assert |other| == |name|;
      assert ArmorKey(other)[9..|other| + 9] == other;
    }
  }

  /** A camouflage whose variant entry is missing gets `[name, '', '']`, whatever
      the entry of its weapon holds (even one that would raise). */
  lemma CamouflageVariantMiss(doc: Document, name: string)
    requires NameKey(name) !in doc
    ensures Resolve(Camouflage, doc, name) == Success([name, "", ""])
  {
  }

  /** A camouflage whose variant entry has fewer than two children raises, but
      only after its weapon has been looked up: a short weapon entry raises
      first. */
  lemma CamouflageShortVariant(doc: Document, name: string)
    requires NameKey(name) in doc && |doc[NameKey(name)]| < 2
    ensures var weaponKey := ShopNameKey(CamouflageWeapon(name));
      && (weaponKey in doc && |doc[weaponKey]| < 2 ==>
            Resolve(Camouflage, doc, name) == Failure(MalformedEntry(weaponKey)))
      && (!(weaponKey in doc && |doc[weaponKey]| < 2) ==>
            Resolve(Camouflage, doc, name) == Failure(MalformedEntry(NameKey(name))))
  {
  }

  /** A camouflage whose variant entry exists is named by the weapon's shop name
      ('' when the weapon has no entry), a space and the variant's name. */
  lemma CamouflageVariantHit(doc: Document, name: string)
    requires NameKey(name) in doc && |doc[NameKey(name)]| >= 2
    ensures var weaponKey := ShopNameKey(BeforeFirst(name, '_'));
      var variant := doc[NameKey(name)][1];
      && (weaponKey !in doc ==> Resolve(Camouflage, doc, name) == Success([name, " " + variant]))
      && (weaponKey in doc && |doc[weaponKey]| >= 2 ==>
            Resolve(Camouflage, doc, name) == Success([name, doc[weaponKey][1] + " " + variant]))
      && (weaponKey in doc && |doc[weaponKey]| < 2 ==>
            Resolve(Camouflage, doc, name) == Failure(MalformedEntry(weaponKey)))
  {
    assert "" + " " + doc[NameKey(name)][1] == " " + doc[NameKey(name)][1];
  }

  /** The shortened weapon key is the longest prefix of the name without an
      underscore: the weapon `sr47` of the camouflage `sr47_jungle`. */
  lemma CamouflageWeaponOf(name: string, weapon: string)
    requires IsPrefix(weapon + "_", name) && '_' !in weapon
    ensures CamouflageWeapon(name) == weapon
  {
    assert name[..|weapon|] == (weapon + "_")[..|weapon|] == weapon;
    assert name[|weapon|] == (weapon + "_")[|weapon|] == '_';
    BeforeFirstUnique(name, '_', weapon);
  }

  /** An example: a weapons file with `sr47_shop_name` -> "SR-47" and
      `sr47_jungle_name` -> "Jungle", the display text in each entry's second
      child. */
  function ExampleWeapons(): Document {
    map["sr47_shop_name" := ["SR-47", "SR-47"], "sr47_jungle_name" := ["Jungle", "Jungle"]]
  }

  /** The weapon of the camouflage `sr47_jungle` is `sr47`. */
  lemma ExampleWeaponOf()
    ensures CamouflageWeapon("sr47_jungle") == "sr47"
  {
    assert "sr47_jungle"[..5] == "sr47_";
    CamouflageWeaponOf("sr47_jungle", "sr47");
  }

  /** The two lookups of that camouflage in that file, and the joined name. */
  lemma ExampleLookups()
    ensures WeaponNameByShortenedKey(ExampleWeapons(), "sr47") == Success("SR-47")
    ensures NameKey("sr47_jungle") in ExampleWeapons()
    ensures SecondValue(ExampleWeapons(), NameKey("sr47_jungle")) == Success("Jungle")
    ensures "SR-47" + " " + "Jungle" == "SR-47 Jungle"
  {
    assert ShopNameKey("sr47") == "sr47_shop_name";
    assert NameKey("sr47_jungle") == "sr47_jungle_name";
  }

  /** The camouflage `sr47_jungle` of that file is named "SR-47 Jungle". */
  lemma CamouflageExample()
    ensures Resolve(Camouflage, ExampleWeapons(), "sr47_jungle") == Success(["sr47_jungle", "SR-47 Jungle"])
  {
    ExampleWeaponOf();
    ExampleLookups();
    assert Resolve(Camouflage, ExampleWeapons(), "sr47_jungle") == Success(["sr47_jungle", "SR-47" + " " + "Jungle"]);
  }
}
