/**
 * The test suite's fixture and scenarios (tests/test_crud.py), as sequences
 * of handler calls on the seeded in-memory store. Each method's contract
 * is the status codes the test asserts, and they follow from the contracts of
 * the handlers and the store.
 */
module Scenarios {
  import opened Wrappers
  import opened Entities
  import opened Tables
  import opened Query
  import opened Text
  import opened Validation
  import opened Routes

  /** The configured credentials when the environment sets none. */
  const DefaultUser := "admin"
  const DefaultPassword := "password"

  const SeedClasses: seq<Row<ClassFields>> :=
    [Row(1, ClassFields("Knight", "Heavy")), Row(2, ClassFields("Mage", "Magic"))]
  const SeedWeapons: seq<Row<WeaponFields>> :=
    [Row(1, WeaponFields("Sword", "Melee", "Sharp")), Row(2, WeaponFields("Staff", "Magic", "Wood"))]
  const SeedStats: seq<Row<StatValues>> :=
    [Row(1, StatValues(15, 5, 8, 12, 4, 6)), Row(2, StatValues(6, 14, 9, 8, 10, 7))]
  const Artorias := Row(1, CharacterFields("Artorias", 1, 1, 1))
  const Lucatiel := Row(2, CharacterFields("Lucatiel", 2, 2, 2))
  const SeedCharacters: seq<Row<CharacterFields>> := [Artorias, Lucatiel]

  /** The fixture's four lists, which satisfy the store invariant. */
  method Seeded() returns (s: Store)
    ensures fresh(s) && s.Valid()
    ensures s.State() == Snapshot(SeedClasses, SeedWeapons, SeedStats, SeedCharacters)
  {
    SeedConsistent();
    s := new Store(SeedClasses, SeedWeapons, SeedStats, SeedCharacters);
  }

  /** The seed tables have ascending ids, and every seeded character links
      to seeded rows. */
  lemma SeedConsistent()
    ensures Consistent(SeedClasses, SeedWeapons, SeedStats, SeedCharacters)
  {
    SeedIds();
    assert forall c :: c in SeedCharacters ==> c == Artorias || c == Lucatiel;
  }

  function Json(fields: map<string, Value>): Option<Payload> {
    Some(Object(fields))
  }

  /** `test_login_failure` and the login of `auth_token`. */
  lemma LoginScenario(token: string)
    ensures Login(map["username" := Str("admin"), "password" := Str("password")],
                  DefaultUser, DefaultPassword, token) == Response(200, AccessToken(token))
    ensures Login(map["username" := Str("x"), "password" := Str("y")],
                  DefaultUser, DefaultPassword, token).status == 401
  {
  }

  /** The lifecycle of a new class: created (201); fetched (200), giving back
      the validated fields under the id just handed out; updated (200);
      deleted (200, since no character can refer to an id that was just
      handed out); deleted again and fetched again, both not found (404).
      The store ends as it began. */
  method ClassLifecycle(s: Store, created: Option<Payload>, changed: Option<Payload>)
    returns (fetched: Row<ClassFields>, statuses: seq<int>)
    requires s.Valid()
    requires ValidateClass(OrEmpty(created)).Ok? && ValidateClass(OrEmpty(changed)).Ok?
    modifies s
    ensures s.Valid()
    ensures fetched == Row(NextId(old(s.classes)), ValidateClass(OrEmpty(created)).value)
    ensures statuses == [201, 200, 200, 200, 404, 404]
    ensures s.State() == old(s.State())
  {
    var f := ValidateClass(OrEmpty(created)).value;
    var g := ValidateClass(OrEmpty(changed)).value;
    var before := s.classes;
    var n := NextId(before);
    var r := CreateClassRoute(s, created);
    assert s.classes == before + [Row(n, f)];
    assert n in Ids(s.classes) by { assert Row(n, f) in s.classes; }
    var r2 := GetClassRoute(s, n);
    fetched := r2.body.item;
    FindUnique(s.classes, fetched);
    FindAppended(before, f);
    var r3 := UpdateClassRoute(s, n, changed);
    UpdateAppended(before, f, g);
    NextIdFresh(before);
    UnknownIdUnreferenced(s.characters, s.stats, before, s.weapons, ClassColumn, n);
    var r4 := DeleteClassRoute(s, n);
    RemoveAppended(before, g);
    var r5 := DeleteClassRoute(s, n);
    var r6 := GetClassRoute(s, n);
    statuses := [r.status, r2.status, r3.status, r4.status, r5.status, r6.status];
  }

  /** Two seeded rows, with ids 1 and 2, hand out id 3 next. */
  lemma NextIdAfterTwo<T>(t: seq<Row<T>>)
    requires |t| == 2 && t[0].id == 1 && t[1].id == 2
    ensures NextId(t) == 3
  {
    var n := NextId(t);
    assert t[1] in t;
    assert n - 1 in Ids(t);
  }

  lemma SeedNextIds()
    ensures NextId(SeedClasses) == 3 && NextId(SeedWeapons) == 3
    ensures NextId(SeedStats) == 3 && NextId(SeedCharacters) == 3
  {
    NextIdAfterTwo(SeedClasses);
    NextIdAfterTwo(SeedWeapons);
    NextIdAfterTwo(SeedStats);
    NextIdAfterTwo(SeedCharacters);
  }

  /** The strings the test payloads send have no whitespace at their ends. */
  lemma TestStringsTrimmed()
    ensures Trimmed("Rogue") && Trimmed("Fast") && Trimmed("Rogue+") && Trimmed("Faster")
    ensures Trimmed("Bow") && Trimmed("Ranged") && Trimmed("Arrows")
    ensures Trimmed("Longbow") && Trimmed("Long range")
    ensures Trimmed("NewChar") && Trimmed("UpdatedChar") && Trimmed("Bad")
  {
  }

  /** A class payload with a name and a description. */
  function PlainClass(name: string, description: string): map<string, Value> {
    map["name" := Str(name), "description" := Str(description)]
  }

  /** A class payload whose name and description have no whitespace at
      their ends validates to exactly those two strings. */
  lemma PlainClassPayload(name: string, description: string)
    requires name != [] && Trimmed(name)
    requires description != [] && Trimmed(description)
    ensures ValidateClass(Object(PlainClass(name, description))) == Ok(ClassFields(name, description))
  {
    var fields := PlainClass(name, description);
    assert Get(fields, "name") == Str(name);
    assert Get(fields, "description") == Str(description);
    StripUnchanged(name);
    StripUnchanged(description);
  }

  /** `test_create_update_delete_class`, with the created class fetched back
      and the deleted id deleted and looked up once more. */
  method ClassCrudScenario() returns (fetched: Row<ClassFields>, statuses: seq<int>)
    ensures fetched == Row(3, ClassFields("Rogue", "Fast"))
    ensures statuses == [201, 200, 200, 200, 404, 404]
  {
    var s := Seeded();
    assert NextId(s.classes) == 3 by {
      SeedNextIds();
    }
    fetched, statuses := ClassCrudOn(s);
  }

  /** The requests of `test_create_update_delete_class` on any valid store
      that hands out class id 3 next. */
  method ClassCrudOn(s: Store) returns (fetched: Row<ClassFields>, statuses: seq<int>)
    requires s.Valid() && NextId(s.classes) == 3
    modifies s
    ensures fetched == Row(3, ClassFields("Rogue", "Fast"))
    ensures statuses == [201, 200, 200, 200, 404, 404]
  {
    var created := PlainClass("Rogue", "Fast");
    var changed := PlainClass("Rogue+", "Faster");
    assert ValidateClass(OrEmpty(Json(created))) == Ok(ClassFields("Rogue", "Fast")) by {
      TestStringsTrimmed();
      PlainClassPayload("Rogue", "Fast");
    }
    assert ValidateClass(OrEmpty(Json(changed))).Ok? by {
      TestStringsTrimmed();
      PlainClassPayload("Rogue+", "Faster");
    }
    fetched, statuses := ClassLifecycle(s, Json(created), Json(changed));
  }

  /** `test_delete_class_in_use` */
  method DeleteClassInUseScenario() returns (status: int)
    ensures status == 400
  {
    var s := Seeded();
    assert Artorias in s.characters;
    var r := DeleteClassRoute(s, 1);
    status := r.status;
  }

  /** The lifecycle of a new weapon, as for a class. */
  method WeaponLifecycle(s: Store, created: Option<Payload>, changed: Option<Payload>)
    returns (fetched: Row<WeaponFields>, statuses: seq<int>)
    requires s.Valid()
    requires ValidateWeapon(OrEmpty(created)).Ok? && ValidateWeapon(OrEmpty(changed)).Ok?
    modifies s
    ensures s.Valid()
    ensures fetched == Row(NextId(old(s.weapons)), ValidateWeapon(OrEmpty(created)).value)
    ensures statuses == [201, 200, 200, 200, 404, 404]
    ensures s.State() == old(s.State())
  {
    var f := ValidateWeapon(OrEmpty(created)).value;
    var g := ValidateWeapon(OrEmpty(changed)).value;
    var before := s.weapons;
    var n := NextId(before);
    var r := CreateWeaponRoute(s, created);
    assert s.weapons == before + [Row(n, f)];
    assert n in Ids(s.weapons) by { assert Row(n, f) in s.weapons; }
    var r2 := GetWeaponRoute(s, n);
    fetched := r2.body.item;
    FindUnique(s.weapons, fetched);
    FindAppended(before, f);
    var r3 := UpdateWeaponRoute(s, n, changed);
    UpdateAppended(before, f, g);
    NextIdFresh(before);
    UnknownIdUnreferenced(s.characters, s.stats, s.classes, before, WeaponColumn, n);
    var r4 := DeleteWeaponRoute(s, n);
    RemoveAppended(before, g);
    var r5 := DeleteWeaponRoute(s, n);
    var r6 := GetWeaponRoute(s, n);
    statuses := [r.status, r2.status, r3.status, r4.status, r5.status, r6.status];
  }

  /** A weapon payload with a name, a type and a description. */
  function PlainWeapon(name: string, weaponType: string, description: string): map<string, Value> {
    map["name" := Str(name), "type" := Str(weaponType), "description" := Str(description)]
  }

  /** A weapon payload whose three strings have no whitespace at their ends
      validates to exactly those strings. */
  lemma PlainWeaponPayload(name: string, weaponType: string, description: string)
    requires name != [] && Trimmed(name)
    requires weaponType != [] && Trimmed(weaponType)
    requires description != [] && Trimmed(description)
    ensures ValidateWeapon(Object(PlainWeapon(name, weaponType, description)))
            == Ok(WeaponFields(name, weaponType, description))
  {
    var fields := PlainWeapon(name, weaponType, description);
    assert Get(fields, "name") == Str(name);
    assert Get(fields, "type") == Str(weaponType);
    assert Get(fields, "description") == Str(description);
    StripUnchanged(name);
    StripUnchanged(weaponType);
    StripUnchanged(description);
  }

  /** `test_weapon_crud`, with the created weapon fetched back and the
      deleted id deleted and looked up once more. */
  method WeaponCrudScenario() returns (fetched: Row<WeaponFields>, statuses: seq<int>)
    ensures fetched == Row(3, WeaponFields("Bow", "Ranged", "Arrows"))
    ensures statuses == [201, 200, 200, 200, 404, 404]
  {
    var s := Seeded();
    assert NextId(s.weapons) == 3 by {
      SeedNextIds();
    }
    fetched, statuses := WeaponCrudOn(s);
  }

  /** The requests of `test_weapon_crud` on any valid store that hands out
      weapon id 3 next. */
  method WeaponCrudOn(s: Store) returns (fetched: Row<WeaponFields>, statuses: seq<int>)
    requires s.Valid() && NextId(s.weapons) == 3
    modifies s
    ensures fetched == Row(3, WeaponFields("Bow", "Ranged", "Arrows"))
    ensures statuses == [201, 200, 200, 200, 404, 404]
  {
    var created := PlainWeapon("Bow", "Ranged", "Arrows");
    var changed := PlainWeapon("Longbow", "Ranged", "Long range");
    assert ValidateWeapon(OrEmpty(Json(created))) == Ok(WeaponFields("Bow", "Ranged", "Arrows")) by {
      TestStringsTrimmed();
      PlainWeaponPayload("Bow", "Ranged", "Arrows");
    }
    assert ValidateWeapon(OrEmpty(Json(changed))).Ok? by {
      TestStringsTrimmed();
      PlainWeaponPayload("Longbow", "Ranged", "Long range");
    }
    fetched, statuses := WeaponLifecycle(s, Json(created), Json(changed));
  }

  /** `test_delete_weapon_in_use` */
  method DeleteWeaponInUseScenario() returns (status: int)
    ensures status == 400
  {
    var s := Seeded();
    assert Artorias in s.characters;
    var r := DeleteWeaponRoute(s, 1);
    status := r.status;
  }

  /** A stat payload giving every attribute the same integer. */
  function UniformStats(n: int): map<string, Value> {
    map["strength" := Int(n), "intelligence" := Int(n), "dexterity" := Int(n),
        "stamina" := Int(n), "faith" := Int(n), "agility" := Int(n)]
  }

  lemma UniformStatsParse(n: int, m: int)
    ensures StatsParse(Object(UniformStats(n)))
    ensures StatsParse(Object(UniformStats(n)["strength" := Int(m)]))
  {
    forall f ensures Parses(UniformStats(n), f) && Parses(UniformStats(n)["strength" := Int(m)], f) {
      match f
      case Strength =>
      case Intelligence =>
      case Dexterity =>
      case Stamina =>
      case Faith =>
      case Agility =>
    }
  }

  /** A stat block whose every attribute parses from the same integer holds it six times. */
  lemma UniformStatsValues(v: StatValues, n: int)
    requires forall f :: Some(v.Get(f)) == ParseInt(Get(UniformStats(n), Key(f)))
    ensures v == StatValues(n, n, n, n, n, n)
  {
    assert Some(v.Get(Strength)) == ParseInt(Get(UniformStats(n), Key(Strength)));
    assert Some(v.Get(Intelligence)) == ParseInt(Get(UniformStats(n), Key(Intelligence)));
    assert Some(v.Get(Dexterity)) == ParseInt(Get(UniformStats(n), Key(Dexterity)));
    assert Some(v.Get(Stamina)) == ParseInt(Get(UniformStats(n), Key(Stamina)));
    assert Some(v.Get(Faith)) == ParseInt(Get(UniformStats(n), Key(Faith)));
    assert Some(v.Get(Agility)) == ParseInt(Get(UniformStats(n), Key(Agility)));
  }

  /** The lifecycle of a new stat block, as for a class; the block fetched
      back holds every attribute as parsed from the payload. */
  method StatsLifecycle(s: Store, created: Option<Payload>, changed: Option<Payload>)
    returns (fetched: Row<StatValues>, statuses: seq<int>)
    requires s.Valid()
    requires StatsParse(OrEmpty(created)) && StatsParse(OrEmpty(changed))
    modifies s
    ensures s.Valid()
    ensures fetched.id == NextId(old(s.stats))
    ensures forall f :: Some(fetched.fields.Get(f)) == ParseInt(Get(OrEmpty(created).fields, Key(f)))
    ensures statuses == [201, 200, 200, 200, 404, 404]
    ensures s.State() == old(s.State())
  {
    var before := s.stats;
    var n := NextId(before);
    var r := CreateStatRoute(s, created);
    var f := r.body.item.fields;
    assert s.stats == before + [Row(n, f)];
    assert n in Ids(s.stats) by { assert Row(n, f) in s.stats; }
    var r2 := GetStatRoute(s, n);
    fetched := r2.body.item;
    FindUnique(s.stats, fetched);
    FindAppended(before, f);
    var r3 := UpdateStatRoute(s, n, changed);
    var g := r3.body.item.fields;
    UpdateAppended(before, f, g);
    NextIdFresh(before);
    UnknownIdUnreferenced(s.characters, before, s.classes, s.weapons, StatColumn, n);
    var r4 := DeleteStatRoute(s, n);
    RemoveAppended(before, g);
    var r5 := DeleteStatRoute(s, n);
    var r6 := GetStatRoute(s, n);
    statuses := [r.status, r2.status, r3.status, r4.status, r5.status, r6.status];
  }

  /** `test_stats_validation_and_crud`: an attribute that is not a number is
      rejected (400) and changes nothing; a full stat block then goes through
      its lifecycle. */
  method StatsCrudScenario() returns (rejected: int, fetched: Row<StatValues>, statuses: seq<int>)
    ensures rejected == 400
    ensures fetched.id == 3 && fetched.fields == StatValues(10, 10, 10, 10, 10, 10)
    ensures statuses == [201, 200, 200, 200, 404, 404]
  {
    var s := Seeded();
    assert !Parses(map["strength" := Str("x")], Strength);
    var r := CreateStatRoute(s, Json(map["strength" := Str("x")]));
    rejected := r.status;
    assert StatsParse(OrEmpty(Json(UniformStats(10))))
        && StatsParse(OrEmpty(Json(UniformStats(10)["strength" := Int(12)]))) by {
      UniformStatsParse(10, 12);
    }
    assert NextId(s.stats) == 3 by {
      SeedNextIds();
    }
    fetched, statuses := StatsLifecycle(s, Json(UniformStats(10)), Json(UniformStats(10)["strength" := Int(12)]));
    UniformStatsValues(fetched.fields, 10);
  }

  /** `test_delete_stat_in_use` */
  method DeleteStatInUseScenario() returns (status: int)
    ensures status == 400
  {
    var s := Seeded();
    assert Artorias in s.characters;
    var r := DeleteStatRoute(s, 1);
    status := r.status;
  }

  /** `test_character_create_invalid_foreign` */
  method CharacterInvalidForeignScenario() returns (status: int, message: string)
    ensures status == 400 && message == InvalidForeignKeyMessage
  {
    var s := Seeded();
    assert 999 !in Ids(s.stats) by {
      SeedIds();
    }
    status, message := InvalidForeignOn(s);
  }

  /** Creating a character linked to stat block 999 on any valid store that
      has no such stat block. */
  method InvalidForeignOn(s: Store) returns (status: int, message: string)
    requires s.Valid() && 999 !in Ids(s.stats)
    modifies s
    ensures status == 400 && message == InvalidForeignKeyMessage
  {
    var bad := PlainCharacter("Bad", 999, 1, 1);
    assert ValidateCharacter(OrEmpty(Json(bad))) == Ok(CharacterFields("Bad", 999, 1, 1)) by {
      TestStringsTrimmed();
      PlainCharacterPayload("Bad", 999, 1, 1);
    }
    assert !s.ForeignKeysExist(CharacterFields("Bad", 999, 1, 1));
    var r := CreateCharacterRoute(s, Json(bad));
    status := r.status;
    message := r.body.text;
  }

  /** A capitalised name followed by lower-case letters lowers to its first
      letter lowered, followed by the rest unchanged. */
  lemma LowerCapitalised(s: string)
    requires s != [] && forall i :: 1 <= i < |s| ==> !('A' <= s[i] <= 'Z')
    ensures Lower(s) == [LowerChar(s[0])] + s[1..]
  {
    LowerUnchanged(s[1..]);
  }

  lemma LowerArto()
    ensures Lower("Arto") == "arto"
  {
    LowerCapitalised("Arto");
  }

  lemma LowerArtorias()
    ensures Lower("Artorias") == "artorias"
  {
    LowerCapitalised("Artorias");
  }

  lemma LowerLucatiel()
    ensures Lower("Lucatiel") == "lucatiel"
  {
    LowerCapitalised("Lucatiel");
  }

  lemma ArtoNotInLucatiel()
    ensures !Contains("lucatiel", "arto")
  {
    ContainsAt("lucatiel", "arto");
    forall i: nat ensures !OccursAt("lucatiel", "arto", i) {
      if i + 4 <= 8 {
        assert "lucatiel"[i..i + 4][0] == "lucatiel"[i];
        assert "lucatiel"[i..i + 4][1] == "lucatiel"[i + 1];
      }
    }
  }

  /** The lower-cased "Arto" starts "artorias" and occurs nowhere in "lucatiel". */
  lemma ArtoOccurrences()
    ensures Contains(Lower("Artorias"), Lower("Arto"))
    ensures !Contains(Lower("Lucatiel"), Lower("Arto"))
  {
    LowerArto();
    LowerArtorias();
    LowerLucatiel();
    assert StartsWith("artorias", "arto");
    ArtoNotInLucatiel();
  }

  /** `parse_int("10")` */
  lemma ParseTen()
    ensures ParseInt(Str("10")) == Some(10)
  {
    StripUnchanged("10");
    assert "10"[..1] == "1";
    assert DigitsValue("1") == 1 by { assert "1"[..0] == ""; }
  }

  /** `?q=Arto` builds a single name filter. */
  lemma ArtoFilters(args: map<string, string>)
    requires args == map["q" := "Arto"]
    ensures BuildFilters(args) == map["name" := Str("Arto")]
  {
    var f := BuildFilters(args);
    NotIntFilterKeys();
    assert forall k :: k in f ==> k == "name";
  }

  /** `?q=Arto` selects Artorias and not Lucatiel. */
  lemma SearchByName(args: map<string, string>)
    requires args == map["q" := "Arto"]
    ensures Selected(BuildFilters(args), SeedStats, Artorias)
    ensures !Selected(BuildFilters(args), SeedStats, Lucatiel)
  {
    ArtoFilters(args);
    NameFilterAlone("Arto", SeedStats, Artorias);
    NameFilterAlone("Arto", SeedStats, Lucatiel);
    ArtoOccurrences();
  }

  lemma StrengthQueryKeys(args: map<string, string>)
    requires args == map["format" := "xml", "strength_min" := "10"]
    ensures "strength_min" in IntFilterKeys && "strength_min" in args
    ensures forall k :: k in args && k != "strength_min" ==> k !in IntFilterKeys && k != "q"
  {
    assert "format" !in IntFilterKeys;
  }

  /** `?format=xml&strength_min=10` builds a single lower bound on strength. */
  lemma StrengthFilters(args: map<string, string>)
    requires args == map["format" := "xml", "strength_min" := "10"]
    ensures BuildFilters(args) == map["strength_min" := Int(10)]
  {
    StrengthQueryKeys(args);
    ParseTen();
    SingleIntFilter(args, "strength_min", 10);
  }

  lemma StrengthMinKey()
    ensures MinKey(Strength) == "strength_min"
  {
  }

  /** `?strength_min=10` selects Artorias (strength 15) and not Lucatiel
      (strength 6); the `format` parameter is not a filter. */
  lemma SearchByStrength(args: map<string, string>)
    requires args == map["format" := "xml", "strength_min" := "10"]
    ensures Selected(BuildFilters(args), SeedStats, Artorias)
    ensures !Selected(BuildFilters(args), SeedStats, Lucatiel)
  {
    StrengthFilters(args);
    StrengthMinKey();
    MinFilterAlone(Strength, 10, SeedStats, Artorias);
    MinFilterAlone(Strength, 10, SeedStats, Lucatiel);
    assert Find(SeedStats, 1) == Some(SeedStats[0]);
    assert Find(SeedStats, 2) == Some(SeedStats[1]);
  }

  /** A listing of the seeded characters that selects Artorias and not
      Lucatiel is Artorias alone. */
  lemma OnlyArtorias(items: seq<Row<CharacterFields>>, filters: map<string, Value>)
    requires Ascending(items)
    requires forall c :: c in items <==> c in SeedCharacters && Selected(filters, SeedStats, c)
    requires Selected(filters, SeedStats, Artorias) && !Selected(filters, SeedStats, Lucatiel)
    ensures items == [Artorias]
  {
    assert forall c :: c in SeedCharacters <==> c == Artorias || c == Lucatiel;
    AscendingSingleton(items, Artorias);
  }

  /** `test_character_search_and_xml`: searching for "Arto" finds Artorias alone,
      and so does a lower bound of 10 on strength. */
  method CharacterSearchScenario() returns (byName: seq<Row<CharacterFields>>, byStrength: seq<Row<CharacterFields>>)
    ensures byName == [Artorias]
    ensures byStrength == [Artorias]
  {
    var s := Seeded();
    var args := map["q" := "Arto"];
    SearchByName(args);
    var r := GetCharactersRoute(s, args);
    byName := r.body.items;
    OnlyArtorias(byName, BuildFilters(args));
    args := map["format" := "xml", "strength_min" := "10"];
    SearchByStrength(args);
    r := GetCharactersRoute(s, args);
    byStrength := r.body.items;
    OnlyArtorias(byStrength, BuildFilters(args));
  }

  /** The lifecycle of a new character whose links resolve before and after
      the update: created (201), fetched back as validated (200), updated
      (200), deleted (200), then deleted again and fetched again, both not
      found (404). The store ends as it began. */
  method CharacterLifecycle(s: Store, created: Option<Payload>, changed: Option<Payload>)
    returns (fetched: Row<CharacterFields>, statuses: seq<int>)
    requires s.Valid()
    requires ValidateCharacter(OrEmpty(created)).Ok? && ValidateCharacter(OrEmpty(changed)).Ok?
    requires s.ForeignKeysExist(ValidateCharacter(OrEmpty(created)).value)
    requires s.ForeignKeysExist(ValidateCharacter(OrEmpty(changed)).value)
    modifies s
    ensures s.Valid()
    ensures fetched == Row(NextId(old(s.characters)), ValidateCharacter(OrEmpty(created)).value)
    ensures statuses == [201, 200, 200, 200, 404, 404]
    ensures s.State() == old(s.State())
  {
    var f := ValidateCharacter(OrEmpty(created)).value;
    var g := ValidateCharacter(OrEmpty(changed)).value;
    var before := s.characters;
    var n := NextId(before);
    var r := CreateCharacterRoute(s, created);
    assert s.characters == before + [Row(n, f)];
    assert n in Ids(s.characters) by { assert Row(n, f) in s.characters; }
    var r2 := GetCharacterRoute(s, n);
    fetched := r2.body.item;
    FindUnique(s.characters, fetched);
    FindAppended(before, f);
    assert s.ForeignKeysExist(g) by {
      assert s.stats == old(s.stats) && s.classes == old(s.classes) && s.weapons == old(s.weapons);
    }
    var r3 := UpdateCharacterRoute(s, n, changed);
    UpdateAppended(before, f, g);
    NextIdFresh(before);
    var r4 := DeleteCharacterRoute(s, n);
    RemoveAppended(before, g);
    var r5 := DeleteCharacterRoute(s, n);
    var r6 := GetCharacterRoute(s, n);
    statuses := [r.status, r2.status, r3.status, r4.status, r5.status, r6.status];
  }

  /** A character payload with a name and its three links as JSON integers. */
  function PlainCharacter(name: string, statId: int, classId: int, weaponId: int): map<string, Value> {
    map["name" := Str(name), "stat_id" := Int(statId), "class_id" := Int(classId), "weapon_id" := Int(weaponId)]
  }

  /** A character payload whose name has no whitespace at its ends validates
      to exactly that name and those links. */
  lemma PlainCharacterPayload(name: string, statId: int, classId: int, weaponId: int)
    requires name != [] && Trimmed(name)
    ensures ValidateCharacter(Object(PlainCharacter(name, statId, classId, weaponId)))
            == Ok(CharacterFields(name, statId, classId, weaponId))
  {
    var fields := PlainCharacter(name, statId, classId, weaponId);
    assert Get(fields, "name") == Str(name);
    assert Get(fields, "stat_id") == Int(statId);
    assert Get(fields, "class_id") == Int(classId);
    assert Get(fields, "weapon_id") == Int(weaponId);
    StripUnchanged(name);
  }

  /** The seeded tables hold the ids 1 and 2. */
  lemma SeedIds()
    ensures Ids(SeedStats) == {1, 2} && Ids(SeedClasses) == {1, 2} && Ids(SeedWeapons) == {1, 2}
  {
    assert SeedStats[0] in SeedStats && SeedClasses[0] in SeedClasses && SeedWeapons[0] in SeedWeapons;
    assert SeedStats[1] in SeedStats && SeedClasses[1] in SeedClasses && SeedWeapons[1] in SeedWeapons;
  }

  /** `test_character_full_crud`, with the created character fetched back
      and the deleted id deleted and looked up once more. */
  method CharacterCrudScenario() returns (fetched: Row<CharacterFields>, statuses: seq<int>)
    ensures fetched == Row(3, CharacterFields("NewChar", 1, 1, 1))
    ensures statuses == [201, 200, 200, 200, 404, 404]
  {
    var s := Seeded();
    assert NextId(s.characters) == 3 by {
      SeedNextIds();
    }
    assert {1, 2} <= Ids(s.stats) && {1, 2} <= Ids(s.classes) && {1, 2} <= Ids(s.weapons) by {
      SeedIds();
    }
    fetched, statuses := CharacterCrudOn(s);
  }

  /** The requests of `test_character_full_crud` on any valid store that hands
      out character id 3 next and holds stat blocks, classes and weapons 1
      and 2. */
  method CharacterCrudOn(s: Store) returns (fetched: Row<CharacterFields>, statuses: seq<int>)
    requires s.Valid() && NextId(s.characters) == 3
    requires {1, 2} <= Ids(s.stats) && {1, 2} <= Ids(s.classes) && {1, 2} <= Ids(s.weapons)
    modifies s
    ensures fetched == Row(3, CharacterFields("NewChar", 1, 1, 1))
    ensures statuses == [201, 200, 200, 200, 404, 404]
  {
    var created := PlainCharacter("NewChar", 1, 1, 1);
    var changed := PlainCharacter("UpdatedChar", 2, 2, 2);
    assert ValidateCharacter(OrEmpty(Json(created))) == Ok(CharacterFields("NewChar", 1, 1, 1)) by {
      TestStringsTrimmed();
      PlainCharacterPayload("NewChar", 1, 1, 1);
    }
    assert ValidateCharacter(OrEmpty(Json(changed))) == Ok(CharacterFields("UpdatedChar", 2, 2, 2)) by {
      TestStringsTrimmed();
      PlainCharacterPayload("UpdatedChar", 2, 2, 2);
    }
    assert s.ForeignKeysExist(CharacterFields("NewChar", 1, 1, 1))
        && s.ForeignKeysExist(CharacterFields("UpdatedChar", 2, 2, 2));
    fetched, statuses := CharacterLifecycle(s, Json(created), Json(changed));
  }
}
