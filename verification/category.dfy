/** The `Category` enumeration: the 37 item categories of the Grand Exchange
    catalogue, each with its identification value and its unique name, and
    the two lookup tables built from them (`item/Category.java`).
 */
module Categories {
  import opened Results
  import opened Numbers
  import Tables

  datatype Category =
    Miscellaneous
    | Ammo
    | Arrows
    | Bolts
    | ConstructionMaterials
    | ConstructionProjects
    | CookingIngredients
    | Costumes
    | CraftingMaterials
    | Familiars
    | FarmingProduce
    | FletchingMaterials
    | FoodAndDrink
    | HerbloreMaterials
    | HuntingEquipment
    | HuntingProduce
    | Jewellery
    | MageArmour
    | MageWeapons
    | MeleeArmourLowLevel
    | MeleeArmourMidLevel
    | MeleeArmourHighLevel
    | MeleeWeaponsLowLevel
    | MeleeWeaponsMidLevel
    | MeleeWeaponsHighLevel
    | MiningAndSmithing
    | Potions
    | PrayerArmour
    | PrayerMaterials
    | RangeArmour
    | RangeWeapons
    | Runecrafting
    | RunesSpellsAndTeleports
    | Seeds
    | SummoningScrolls
    | ToolsAndContainers
    | WoodcuttingProduct

  /** The constant declared at position `i`. */
  function Declared(i: nat): Category
    requires i < 37
  {
    match i
    case 0 => Miscellaneous
    case 1 => Ammo
    case 2 => Arrows
    case 3 => Bolts
    case 4 => ConstructionMaterials
    case 5 => ConstructionProjects
    case 6 => CookingIngredients
    case 7 => Costumes
    case 8 => CraftingMaterials
    case 9 => Familiars
    case 10 => FarmingProduce
    case 11 => FletchingMaterials
    case 12 => FoodAndDrink
    case 13 => HerbloreMaterials
    case 14 => HuntingEquipment
    case 15 => HuntingProduce
    case 16 => Jewellery
    case 17 => MageArmour
    case 18 => MageWeapons
    case 19 => MeleeArmourLowLevel
    case 20 => MeleeArmourMidLevel
    case 21 => MeleeArmourHighLevel
    case 22 => MeleeWeaponsLowLevel
    case 23 => MeleeWeaponsMidLevel
    case 24 => MeleeWeaponsHighLevel
    case 25 => MiningAndSmithing
    case 26 => Potions
    case 27 => PrayerArmour
    case 28 => PrayerMaterials
    case 29 => RangeArmour
    case 30 => RangeWeapons
    case 31 => Runecrafting
    case 32 => RunesSpellsAndTeleports
    case 33 => Seeds
    case 34 => SummoningScrolls
    case 35 => ToolsAndContainers
    case _ => WoodcuttingProduct
  }

  /** The constants in declaration order, as `Category.values()` lists them. */
  const AllCategories: seq<Category> := seq(37, i requires 0 <= i < 37 => Declared(i))

  /** The identification value the catalogue uses for the category. */
  function Id(c: Category): (i: nat)
    ensures i < 37
  {
    match c
    case Miscellaneous => 0
    case Ammo => 1
    case Arrows => 2
    case Bolts => 3
    case ConstructionMaterials => 4
    case ConstructionProjects => 5
    case CookingIngredients => 6
    case Costumes => 7
    case CraftingMaterials => 8
    case Familiars => 9
    case FarmingProduce => 10
    case FletchingMaterials => 11
    case FoodAndDrink => 12
    case HerbloreMaterials => 13
    case HuntingEquipment => 14
    case HuntingProduce => 15
    case Jewellery => 16
    case MageArmour => 17
    case MageWeapons => 18
    case MeleeArmourLowLevel => 19
    case MeleeArmourMidLevel => 20
    case MeleeArmourHighLevel => 21
    case MeleeWeaponsLowLevel => 22
    case MeleeWeaponsMidLevel => 23
    case MeleeWeaponsHighLevel => 24
    case MiningAndSmithing => 25
    case Potions => 26
    case PrayerArmour => 27
    case PrayerMaterials => 28
    case RangeArmour => 29
    case RangeWeapons => 30
    case Runecrafting => 31
    case RunesSpellsAndTeleports => 32
    case Seeds => 33
    case SummoningScrolls => 34
    case ToolsAndContainers => 35
    case WoodcuttingProduct => 36
  }

  /** The unique name of the category, in the catalogue's own spelling. */
  function Name(c: Category): string {
    match c
    case Miscellaneous => "Miscellaneous"
    case Ammo => "Ammo"
    case Arrows => "Arrows"
    case Bolts => "Bolts"
    case ConstructionMaterials => "Construction materials"
    case ConstructionProjects => "Construction projects"
    case CookingIngredients => "Cooking ingredients"
    case Costumes => "Costumes"
    case CraftingMaterials => "Crafting materials"
    case Familiars => "Familiars"
    case FarmingProduce => "Farming produce"
    case FletchingMaterials => "Fletching materials"
    case FoodAndDrink => "Food and drink"
    case HerbloreMaterials => "Herblore materials"
    case HuntingEquipment => "Hunting equipment"
    case HuntingProduce => "Hunting produce"
    case Jewellery => "Jewellery"
    case MageArmour => "Mage armour"
    case MageWeapons => "Mage weapons"
    case MeleeArmourLowLevel => "Melee armour - low level"
    case MeleeArmourMidLevel => "Melee armour - mid level"
    case MeleeArmourHighLevel => "Melee armour - high level"
    case MeleeWeaponsLowLevel => "Melee weapons - low level"
    case MeleeWeaponsMidLevel => "Melee weapons - mid level"
    case MeleeWeaponsHighLevel => "Melee weapons - high level"
    case MiningAndSmithing => "Mining and smithing"
    case Potions => "Potions"
    case PrayerArmour => "Prayer armour"
    case PrayerMaterials => "Prayer materials"
    case RangeArmour => "Range armour"
    case RangeWeapons => "Range weapons"
    case Runecrafting => "Runecrafting"
    case RunesSpellsAndTeleports => "Runes, Spells and Teleports"
    case Seeds => "Seeds"
    case SummoningScrolls => "Summoning scrolls"
    case ToolsAndContainers => "Tools and containers"
    case WoodcuttingProduct => "Woodcutting product"
  }

  /** The constant at position `i` of `values()` has identification value `i`. */
  lemma IdsAreIndices()
    ensures |AllCategories| == 37
    ensures forall i :: 0 <= i < |AllCategories| ==> Id(AllCategories[i]) == i
  {
    forall i | 0 <= i < |AllCategories|
      ensures Id(AllCategories[i]) == i
    {
      DeclaredId(i);
    }
  }

  lemma DeclaredId(i: nat)
    requires i < 37
    ensures Id(Declared(i)) == i
  {
  }

  /** Every category is one of the constants `values()` lists, at the position
      its identification value names; so every value lies between 0 and 36. */
  lemma EveryCategoryListed(c: Category)
    ensures Id(c) < |AllCategories| && AllCategories[Id(c)] == c
    ensures 0 <= Id(c) <= 36
  {
    DeclaredOfId(c);
  }

  lemma DeclaredOfId(c: Category)
    ensures Id(c) < 37 && Declared(Id(c)) == c
  {
    match c
    case Miscellaneous => {}
    case Ammo => {}
    case Arrows => {}
    case Bolts => {}
    case ConstructionMaterials => {}
    case ConstructionProjects => {}
    case CookingIngredients => {}
    case Costumes => {}
    case CraftingMaterials => {}
    case Familiars => {}
    case FarmingProduce => {}
    case FletchingMaterials => {}
    case FoodAndDrink => {}
    case HerbloreMaterials => {}
    case HuntingEquipment => {}
    case HuntingProduce => {}
    case Jewellery => {}
    case MageArmour => {}
    case MageWeapons => {}
    case MeleeArmourLowLevel => {}
    case MeleeArmourMidLevel => {}
    case MeleeArmourHighLevel => {}
    case MeleeWeaponsLowLevel => {}
    case MeleeWeaponsMidLevel => {}
    case MeleeWeaponsHighLevel => {}
    case MiningAndSmithing => {}
    case Potions => {}
    case PrayerArmour => {}
    case PrayerMaterials => {}
    case RangeArmour => {}
    case RangeWeapons => {}
    case Runecrafting => {}
    case RunesSpellsAndTeleports => {}
    case Seeds => {}
    case SummoningScrolls => {}
    case ToolsAndContainers => {}
    case WoodcuttingProduct => {}
  }

  /** Recognises the names by their length and, where names share a length,
      by one character that tells them apart; only then is the whole text
      compared. */
  function NameToCategory(s: string): (r: Option<Category>)
    ensures r.Some? ==> Name(r.value) == s
  {
    match |s|
    case 4 => Recognised(s, Ammo)
    case 5 => if s[0] == 'B' then Recognised(s, Bolts) else Recognised(s, Seeds)
    case 6 => Recognised(s, Arrows)
    case 7 => Recognised(s, Potions)
    case 8 => Recognised(s, Costumes)
    case 9 => if s[0] == 'F' then Recognised(s, Familiars) else Recognised(s, Jewellery)
    case 11 => Recognised(s, MageArmour)
    case 12 => if s[0] == 'M' then Recognised(s, MageWeapons) else if s[1] == 'a' then Recognised(s, RangeArmour) else Recognised(s, Runecrafting)
    case 13 => if s[0] == 'M' then Recognised(s, Miscellaneous) else if s[0] == 'P' then Recognised(s, PrayerArmour) else Recognised(s, RangeWeapons)
    case 14 => Recognised(s, FoodAndDrink)
    case 15 => if s[0] == 'F' then Recognised(s, FarmingProduce) else Recognised(s, HuntingProduce)
    case 16 => Recognised(s, PrayerMaterials)
    case 17 => if s[0] == 'H' then Recognised(s, HuntingEquipment) else Recognised(s, SummoningScrolls)
    case 18 => if s[0] == 'C' then Recognised(s, CraftingMaterials) else Recognised(s, HerbloreMaterials)
    case 19 => if s[0] == 'C' then Recognised(s, CookingIngredients) else if s[0] == 'F' then Recognised(s, FletchingMaterials) else if s[0] == 'M' then Recognised(s, MiningAndSmithing) else Recognised(s, WoodcuttingProduct)
    case 20 => Recognised(s, ToolsAndContainers)
    case 21 => Recognised(s, ConstructionProjects)
    case 22 => Recognised(s, ConstructionMaterials)
    case 24 => if s[15] == 'l' then Recognised(s, MeleeArmourLowLevel) else Recognised(s, MeleeArmourMidLevel)
    case 25 => if s[6] == 'a' then Recognised(s, MeleeArmourHighLevel) else if s[16] == 'l' then Recognised(s, MeleeWeaponsLowLevel) else Recognised(s, MeleeWeaponsMidLevel)
    case 26 => Recognised(s, MeleeWeaponsHighLevel)
    case 27 => Recognised(s, RunesSpellsAndTeleports)
    case _ => None
  }

  function Recognised(s: string, c: Category): (r: Option<Category>)
    ensures r.Some? ==> Name(r.value) == s
  {
    if s == Name(c) then Some(c) else None
  }

  /** Every name is recognised as its own category. */
  lemma NameToCategoryOfName(c: Category)
    ensures NameToCategory(Name(c)) == Some(c)
  {
    if Id(c) <= 1 {
      RecogniseNames0To1(c);
    } else if Id(c) <= 3 {
      RecogniseNames2To3(c);
    } else if Id(c) <= 5 {
      RecogniseNames4To5(c);
    } else if Id(c) <= 7 {
      RecogniseNames6To7(c);
    } else if Id(c) <= 9 {
      RecogniseNames8To9(c);
    } else if Id(c) <= 11 {
      RecogniseNames10To11(c);
    } else if Id(c) <= 13 {
      RecogniseNames12To13(c);
    } else if Id(c) <= 15 {
      RecogniseNames14To15(c);
    } else if Id(c) <= 17 {
      RecogniseNames16To17(c);
    } else if Id(c) <= 18 {
      RecogniseName18(c);
    } else if Id(c) <= 19 {
      RecogniseName19(c);
    } else if Id(c) <= 20 {
      RecogniseName20(c);
    } else if Id(c) <= 21 {
      RecogniseName21(c);
    } else if Id(c) <= 22 {
      RecogniseName22(c);
    } else if Id(c) <= 23 {
      RecogniseName23(c);
    } else if Id(c) <= 24 {
      RecogniseName24(c);
    } else if Id(c) <= 26 {
      RecogniseNames25To26(c);
    } else if Id(c) <= 28 {
      RecogniseNames27To28(c);
    } else if Id(c) <= 30 {
      RecogniseNames29To30(c);
    } else if Id(c) <= 32 {
      RecogniseNames31To32(c);
    } else if Id(c) <= 34 {
      RecogniseNames33To34(c);
    } else {
      RecogniseNames35To36(c);
    }
  }

  lemma RecogniseNames0To1(c: Category)
    requires 0 <= Id(c) <= 1
    ensures NameToCategory(Name(c)) == Some(c)
  {
    if c == Miscellaneous {
    } else {
      assert c == Ammo;
    }
  }

  lemma RecogniseNames2To3(c: Category)
    requires 2 <= Id(c) <= 3
    ensures NameToCategory(Name(c)) == Some(c)
  {
    if c == Arrows {
    } else {
      assert c == Bolts;
    }
  }

  lemma RecogniseNames4To5(c: Category)
    requires 4 <= Id(c) <= 5
    ensures NameToCategory(Name(c)) == Some(c)
  {
    if c == ConstructionMaterials {
    } else {
      assert c == ConstructionProjects;
    }
  }

  lemma RecogniseNames6To7(c: Category)
    requires 6 <= Id(c) <= 7
    ensures NameToCategory(Name(c)) == Some(c)
  {
    if c == CookingIngredients {
    } else {
      assert c == Costumes;
    }
  }

  lemma RecogniseNames8To9(c: Category)
    requires 8 <= Id(c) <= 9
    ensures NameToCategory(Name(c)) == Some(c)
  {
    if c == CraftingMaterials {
    } else {
      assert c == Familiars;
    }
  }

  lemma RecogniseNames10To11(c: Category)
    requires 10 <= Id(c) <= 11
    ensures NameToCategory(Name(c)) == Some(c)
  {
    if c == FarmingProduce {
    } else {
      assert c == FletchingMaterials;
    }
  }

  lemma RecogniseNames12To13(c: Category)
    requires 12 <= Id(c) <= 13
    ensures NameToCategory(Name(c)) == Some(c)
  {
    if c == FoodAndDrink {
    } else {
      assert c == HerbloreMaterials;
    }
  }

  lemma RecogniseNames14To15(c: Category)
    requires 14 <= Id(c) <= 15
    ensures NameToCategory(Name(c)) == Some(c)
  {
    if c == HuntingEquipment {
    } else {
      assert c == HuntingProduce;
    }
  }

  lemma RecogniseNames16To17(c: Category)
    requires 16 <= Id(c) <= 17
    ensures NameToCategory(Name(c)) == Some(c)
  {
    if c == Jewellery {
    } else {
      assert c == MageArmour;
    }
  }

  lemma RecogniseName18(c: Category)
    requires Id(c) == 18
    ensures NameToCategory(Name(c)) == Some(c)
  {
    assert c == MageWeapons;
  }

  lemma RecogniseName19(c: Category)
    requires Id(c) == 19
    ensures NameToCategory(Name(c)) == Some(c)
  {
    assert c == MeleeArmourLowLevel;
  }

  lemma RecogniseName20(c: Category)
    requires Id(c) == 20
    ensures NameToCategory(Name(c)) == Some(c)
  {
    assert c == MeleeArmourMidLevel;
  }

  lemma RecogniseName21(c: Category)
    requires Id(c) == 21
    ensures NameToCategory(Name(c)) == Some(c)
  {
    assert c == MeleeArmourHighLevel;
  }

  lemma RecogniseName22(c: Category)
    requires Id(c) == 22
    ensures NameToCategory(Name(c)) == Some(c)
  {
    assert c == MeleeWeaponsLowLevel;
  }

  lemma RecogniseName23(c: Category)
    requires Id(c) == 23
    ensures NameToCategory(Name(c)) == Some(c)
  {
    assert c == MeleeWeaponsMidLevel;
  }

  lemma RecogniseName24(c: Category)
    requires Id(c) == 24
    ensures NameToCategory(Name(c)) == Some(c)
  {
    assert c == MeleeWeaponsHighLevel;
  }

  lemma RecogniseNames25To26(c: Category)
    requires 25 <= Id(c) <= 26
    ensures NameToCategory(Name(c)) == Some(c)
  {
    if c == MiningAndSmithing {
    } else {
      assert c == Potions;
    }
  }

  lemma RecogniseNames27To28(c: Category)
    requires 27 <= Id(c) <= 28
    ensures NameToCategory(Name(c)) == Some(c)
  {
    if c == PrayerArmour {
    } else {
      assert c == PrayerMaterials;
    }
  }

  lemma RecogniseNames29To30(c: Category)
    requires 29 <= Id(c) <= 30
    ensures NameToCategory(Name(c)) == Some(c)
  {
    if c == RangeArmour {
    } else {
      assert c == RangeWeapons;
    }
  }

  lemma RecogniseNames31To32(c: Category)
    requires 31 <= Id(c) <= 32
    ensures NameToCategory(Name(c)) == Some(c)
  {
    if c == Runecrafting {
    } else {
      assert c == RunesSpellsAndTeleports;
    }
  }

  lemma RecogniseNames33To34(c: Category)
    requires 33 <= Id(c) <= 34
    ensures NameToCategory(Name(c)) == Some(c)
  {
    if c == Seeds {
    } else {
      assert c == SummoningScrolls;
    }
  }

  lemma RecogniseNames35To36(c: Category)
    requires 35 <= Id(c) <= 36
    ensures NameToCategory(Name(c)) == Some(c)
  {
    if c == ToolsAndContainers {
    } else {
      assert c == WoodcuttingProduct;
    }
  }

  /** The constructor's second assertion: every name is non-empty. */
  lemma NamesNonEmpty(c: Category)
    ensures |Name(c)| > 0
  {
    match c
    case Miscellaneous => {}
    case Ammo => {}
    case Arrows => {}
    case Bolts => {}
    case ConstructionMaterials => {}
    case ConstructionProjects => {}
    case CookingIngredients => {}
    case Costumes => {}
    case CraftingMaterials => {}
    case Familiars => {}
    case FarmingProduce => {}
    case FletchingMaterials => {}
    case FoodAndDrink => {}
    case HerbloreMaterials => {}
    case HuntingEquipment => {}
    case HuntingProduce => {}
    case Jewellery => {}
    case MageArmour => {}
    case MageWeapons => {}
    case MeleeArmourLowLevel => {}
    case MeleeArmourMidLevel => {}
    case MeleeArmourHighLevel => {}
    case MeleeWeaponsLowLevel => {}
    case MeleeWeaponsMidLevel => {}
    case MeleeWeaponsHighLevel => {}
    case MiningAndSmithing => {}
    case Potions => {}
    case PrayerArmour => {}
    case PrayerMaterials => {}
    case RangeArmour => {}
    case RangeWeapons => {}
    case Runecrafting => {}
    case RunesSpellsAndTeleports => {}
    case Seeds => {}
    case SummoningScrolls => {}
    case ToolsAndContainers => {}
    case WoodcuttingProduct => {}
  }

  /** Different categories have different names. */
  lemma NamesUnique(a: Category, b: Category)
    ensures Name(a) == Name(b) ==> a == b
  {
    NameToCategoryOfName(a);
    NameToCategoryOfName(b);
  }

  /** Different categories have different identification values. */
  lemma IdsUnique(a: Category, b: Category)
    ensures Id(a) == Id(b) ==> a == b
  {
    EveryCategoryListed(a);
    EveryCategoryListed(b);
  }

  /** The entries of the `MAP_FROM_ID` builder: no identification value is
      put twice, so `build()` succeeds. */
  lemma IdEntriesDistinct()
    ensures Tables.DistinctKeys(Tables.KeyBy(AllCategories, Id))
  {
    IdsAreIndices();
  }

  /** The entries of the `MAP_FROM_NAME` builder: no name is put twice. */
  lemma NameEntriesDistinct()
    ensures Tables.DistinctKeys(Tables.KeyBy(AllCategories, Name))
  {
    IdsAreIndices();
    var entries := Tables.KeyBy(AllCategories, Name);
    forall i, j | 0 <= i < j < |entries|
      ensures entries[i].0 != entries[j].0
    {
      NamesUnique(AllCategories[i], AllCategories[j]);
    }
  }

  /** The `MAP_FROM_ID` table. */
  function IdTable(): (table: map<int, Category>)
    ensures forall c :: Id(c) in table && table[Id(c)] == c
    ensures forall id :: id in table ==> Id(table[id]) == id
  {
    var entries := Tables.KeyBy(AllCategories, Id);
    IdEntriesDistinct();
    var table := Tables.Build(entries).value;
    assert forall c :: Id(c) in table && table[Id(c)] == c by {
      forall c: Category
        ensures Id(c) in table && table[Id(c)] == c
      {
        EveryCategoryListed(c);
        assert entries[Id(c)] == (Id(c), c);
      }
    }
    table
  }

  /** The `MAP_FROM_NAME` table. */
  function NameTable(): (table: map<string, Category>)
    ensures forall c :: Name(c) in table && table[Name(c)] == c
    ensures forall name :: name in table ==> Name(table[name]) == name
  {
    var entries := Tables.KeyBy(AllCategories, Name);
    NameEntriesDistinct();
    var table := Tables.Build(entries).value;
    assert forall c :: Name(c) in table && table[Name(c)] == c by {
      forall c: Category
        ensures Name(c) in table && table[Name(c)] == c
      {
        EveryCategoryListed(c);
        assert entries[Id(c)] == (Name(c), c);
      }
    }
    table
  }

  /** `Category.fromId`: present exactly for the values 0 to 36, and then the
      category with that value. */
  function FromId(id: Int32): (r: Option<Category>)
    ensures r.Some? <==> 0 <= id <= 36
    ensures r.Some? ==> Id(r.value) == id
  {
    var r := Tables.Get(IdTable(), id);
    assert 0 <= id <= 36 ==> r.Some? by {
      if 0 <= id <= 36 {
        DeclaredId(id);
      }
    }
    r
  }

  /** `Category.fromName`: exact, case-sensitive lookup. */
  function FromName(name: string): (r: Option<Category>)
    ensures r.Some? ==> Name(r.value) == name
    ensures r.None? <==> forall c :: Name(c) != name
  {
    var r := NameToCategory(name);
    assert r.None? ==> forall c :: Name(c) != name by {
      if r.None? {
        forall c: Category
          ensures Name(c) != name
        {
          NameToCategoryOfName(c);
        }
      }
    }
    r
  }

  /** The recogniser agrees with the `MAP_FROM_NAME` table on every text. */
  lemma FromNameIsTableLookup(name: string)
    ensures FromName(name) == Tables.Get(NameTable(), name)
  {
  }

  /** Every category is found again under its identification value. */
  lemma FromIdRoundTrip(c: Category)
    ensures FromId(Id(c)) == Some(c)
  {
    var d := FromId(Id(c)).value;
    IdsUnique(c, d);
  }

  /** Every category is found again under its name. */
  lemma FromNameRoundTrip(c: Category)
    ensures FromName(Name(c)) == Some(c)
  {
    NamesUnique(c, FromName(Name(c)).value);
  }

  /** The name lookup does not fold case: "potions" names no category. */
  lemma FromNameIsCaseSensitive()
    ensures FromName("potions") == None
  {
    assert NameToCategory("potions") == None;
  }

  /** The name lookup does not trim: " Potions" names no category. */
  lemma FromNameDoesNotTrim()
    ensures FromName(" Potions") == None
  {
    assert NameToCategory(" Potions") == None;
  }

  /** The empty text names no category. */
  lemma FromNameEmpty()
    ensures FromName("") == None
  {
    assert NameToCategory("") == None;
  }

  /** Negative values and values past the last category find nothing. */
  lemma FromIdBounds()
    ensures FromId(-1) == None && FromId(37) == None
    ensures FromId(32) == Some(RunesSpellsAndTeleports)
  {
    FromIdRoundTrip(RunesSpellsAndTeleports);
  }
}
