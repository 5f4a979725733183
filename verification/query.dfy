/**
 * The data access layer (app/query.py) and the in-memory store that the test
 * suite substitutes for it (tests/test_crud.py): four tables, and the
 * referential-integrity rules that guard every write.
 *
 * Each operation is modelled as its effect on the four tables, taken as one
 * atomic step. The store keeps one invariant, `Valid`: ids ascend in every
 * table, and every character's `stat_id`, `class_id` and `weapon_id` name an
 * existing row. Every operation preserves it.
 */
module Query {
  import opened Wrappers
  import opened Text
  import opened Entities
  import opened Tables

  const NotFound := "not_found"
  const InUse := "in_use"
  const InvalidForeign := "invalid_foreign"

  /** The three foreign-key columns of the characters table. */
  datatype Column = StatColumn | ClassColumn | WeaponColumn

  /** The three tables a character refers to. */
  datatype Table = StatsTable | ClassesTable | WeaponsTable

  function Ref(c: CharacterFields, col: Column): int {
    match col
    case StatColumn => c.statId
    case ClassColumn => c.classId
    case WeaponColumn => c.weaponId
  }

  /** `SELECT COUNT(*) FROM characters WHERE {col} = id` */
  function CountReferences(chars: seq<Row<CharacterFields>>, col: Column, id: int): (n: nat)
    ensures n <= |chars|
  {
    if chars == [] then 0
    else (if Ref(chars[0].fields, col) == id then 1 else 0) + CountReferences(chars[1..], col, id)
  }

  /** The count is positive exactly when some character refers to `id` in that column. */
  lemma {:induction false} CountReferencesPositive(chars: seq<Row<CharacterFields>>, col: Column, id: int)
    ensures CountReferences(chars, col, id) > 0 <==> exists c :: c in chars && Ref(c.fields, col) == id
  {
    if chars != [] {
      CountReferencesPositive(chars[1..], col, id);
      assert forall c :: c in chars <==> c == chars[0] || c in chars[1..];
    }
  }

  /** Every character's three references name existing rows. */
  ghost predicate LinksResolve(characters: seq<Row<CharacterFields>>, stats: seq<Row<StatValues>>,
                               classes: seq<Row<ClassFields>>, weapons: seq<Row<WeaponFields>>)
  {
    forall c :: c in characters ==>
      c.fields.statId in Ids(stats) && c.fields.classId in Ids(classes) && c.fields.weaponId in Ids(weapons)
  }

  /** Appending a row whose links resolve keeps every link resolved. */
  lemma AppendResolved(characters: seq<Row<CharacterFields>>, stats: seq<Row<StatValues>>,
                       classes: seq<Row<ClassFields>>, weapons: seq<Row<WeaponFields>>, r: Row<CharacterFields>)
    requires LinksResolve(characters, stats, classes, weapons)
    requires r.fields.statId in Ids(stats) && r.fields.classId in Ids(classes) && r.fields.weaponId in Ids(weapons)
    ensures LinksResolve(characters + [r], stats, classes, weapons)
  {
    forall c | c in characters + [r]
      ensures c.fields.statId in Ids(stats) && c.fields.classId in Ids(classes) && c.fields.weaponId in Ids(weapons)
    {
      assert c in characters || c == r;
    }
  }

  ghost predicate Consistent(classes: seq<Row<ClassFields>>, weapons: seq<Row<WeaponFields>>,
                             stats: seq<Row<StatValues>>, characters: seq<Row<CharacterFields>>)
  {
    && Ascending(classes) && Ascending(weapons) && Ascending(stats) && Ascending(characters)
    && LinksResolve(characters, stats, classes, weapons)
  }

  /** While the links resolve, an id that is missing from a table is referred
      to by no character, so a row that was never linked can always be deleted. */
  lemma UnknownIdUnreferenced(characters: seq<Row<CharacterFields>>, stats: seq<Row<StatValues>>,
                              classes: seq<Row<ClassFields>>, weapons: seq<Row<WeaponFields>>,
                              col: Column, id: int)
    requires LinksResolve(characters, stats, classes, weapons)
    requires col == StatColumn ==> id !in Ids(stats)
    requires col == ClassColumn ==> id !in Ids(classes)
    requires col == WeaponColumn ==> id !in Ids(weapons)
    ensures forall c :: c in characters ==> Ref(c.fields, col) != id
  {
  }

  // ----- the filters of list_characters -----

  /** `filters.get("name")` when it is a non-empty string: the name filter is active. */
  function NameTerm(filters: map<string, Value>): Option<string> {
    if "name" in filters && filters["name"].Str? && filters["name"].s != "" then Some(filters["name"].s) else None
  }

  /** `filters.get(key)` when it is not `None`: that integer filter is active. */
  function IntFilter(filters: map<string, Value>, key: string): Option<int> {
    if key in filters && filters[key].Int? then Some(filters[key].i) else None
  }

  /** The filter key of an attribute's lower bound, e.g. `strength_min`. */
  function MinKey(f: StatField): string {
    Key(f) + "_min"
  }

  /** The filter map holds what the characters route puts there: a string (or
      `None`) under `name`, an integer (or `None`) under every other key. */
  ghost predicate WellFormedFilters(filters: map<string, Value>) {
    forall k :: k in filters ==>
      filters[k].Null? || (if k == "name" then filters[k].Str? else filters[k].Int?)
  }

  /** The stat block the character links to has at least `bound` in attribute `f`. */
  function LinkedStatAtLeast(stats: seq<Row<StatValues>>, c: Row<CharacterFields>, f: StatField, bound: int): bool {
    match Find(stats, c.fields.statId)
    case Some(s) => s.fields.Get(f) >= bound
    case None => false
  }

  predicate NameMatches(filters: map<string, Value>, c: Row<CharacterFields>) {
    NameTerm(filters).Some? ==> Contains(Lower(c.fields.name), Lower(NameTerm(filters).value))
  }

  predicate IdsMatch(filters: map<string, Value>, c: Row<CharacterFields>) {
    && (IntFilter(filters, "class_id").Some? ==> c.fields.classId == IntFilter(filters, "class_id").value)
    && (IntFilter(filters, "weapon_id").Some? ==> c.fields.weaponId == IntFilter(filters, "weapon_id").value)
  }

  predicate MeetsMin(filters: map<string, Value>, stats: seq<Row<StatValues>>, c: Row<CharacterFields>, f: StatField) {
    IntFilter(filters, MinKey(f)).Some? ==> LinkedStatAtLeast(stats, c, f, IntFilter(filters, MinKey(f)).value)
  }

  /** A character passes the AND of every active filter: a case-insensitive
      substring of its name, equal class and weapon ids, and each attribute of
      its linked stat block at least the given minimum. */
  ghost predicate Selected(filters: map<string, Value>, stats: seq<Row<StatValues>>, c: Row<CharacterFields>) {
    && NameMatches(filters, c)
    && IdsMatch(filters, c)
    && forall f :: MeetsMin(filters, stats, c, f)
  }

  /** The selection as a test on one row. */
  ghost function Selection(filters: map<string, Value>, stats: seq<Row<StatValues>>): Row<CharacterFields> -> bool {
    c => Selected(filters, stats, c)
  }

  /** `c` meets the minimums of the first `i` attributes in validation order. */
  predicate MeetsMinsBefore(filters: map<string, Value>, stats: seq<Row<StatValues>>, c: Row<CharacterFields>, i: int) {
    forall j :: 0 <= j < i && j < |StatFields| ==> MeetsMin(filters, stats, c, StatFields[j])
  }

  /** One more attribute of the loop is one more minimum met. */
  lemma MeetsMinsNext(filters: map<string, Value>, stats: seq<Row<StatValues>>, c: Row<CharacterFields>, i: int)
    requires 0 <= i < |StatFields|
    ensures MeetsMinsBefore(filters, stats, c, i + 1)
            <==> MeetsMinsBefore(filters, stats, c, i) && MeetsMin(filters, stats, c, StatFields[i])
  {
  }

  /** Meeting every minimum in validation order is meeting every minimum. */
  lemma AllMinimums(filters: map<string, Value>, stats: seq<Row<StatValues>>, c: Row<CharacterFields>)
    ensures MeetsMinsBefore(filters, stats, c, |StatFields|) <==> (forall f :: MeetsMin(filters, stats, c, f))
  {
    forall f ensures MeetsMinsBefore(filters, stats, c, |StatFields|) ==> MeetsMin(filters, stats, c, f)
    {
      StatFieldsListed(f);
    }
  }

  /** A listing with ascending ids that holds exactly the selected characters
      is the characters table filtered in its own order. */
  lemma ListingIsWhere(result: seq<Row<CharacterFields>>, characters: seq<Row<CharacterFields>>,
                       filters: map<string, Value>, stats: seq<Row<StatValues>>)
    requires Ascending(result) && Ascending(characters)
    requires forall c :: c in result <==> c in characters && Selected(filters, stats, c)
    ensures result == Where(characters, Selection(filters, stats))
  {
    AscendingSameMembers(result, Where(characters, Selection(filters, stats)));
  }

  /** With no filter active, every character is selected. */
  lemma NoFiltersSelectAll(stats: seq<Row<StatValues>>, c: Row<CharacterFields>)
    ensures Selected(map[], stats, c)
  {
  }

  /** An empty name filter is ignored, as a missing one is. */
  lemma EmptyNameIgnored(filters: map<string, Value>, stats: seq<Row<StatValues>>, c: Row<CharacterFields>)
    ensures Selected(filters[("name") := Str("")], stats, c) <==> Selected(filters - {"name"}, stats, c)
  {
    var a := filters[("name") := Str("")];
    var b := filters - {"name"};
    assert forall f :: IntFilter(a, MinKey(f)) == IntFilter(b, MinKey(f)) by {
      forall f ensures IntFilter(a, MinKey(f)) == IntFilter(b, MinKey(f)) {
        assert MinKey(f) != "name" by { assert |MinKey(f)| > 4 || MinKey(f)[0] != 'n'; }
      }
    }
    assert forall f :: MeetsMin(a, stats, c, f) == MeetsMin(b, stats, c, f);
  }

  /** Different attributes have different filter keys. */
  lemma MinKeyInjective(f: StatField, g: StatField)
    requires f != g
    ensures MinKey(f) != MinKey(g)
  {
    assert MinKey(f)[..|Key(f)|] == Key(f) && |MinKey(f)| == |Key(f)| + 4;
    assert MinKey(g)[..|Key(g)|] == Key(g) && |MinKey(g)| == |Key(g)| + 4;
  }

  /** A filter map holding only a non-empty name selects exactly the characters
      whose lower-cased name contains the lower-cased term. */
  lemma NameFilterAlone(term: string, stats: seq<Row<StatValues>>, c: Row<CharacterFields>)
    requires term != ""
    ensures Selected(map["name" := Str(term)], stats, c) <==> Contains(Lower(c.fields.name), Lower(term))
  {
    var m := map["name" := Str(term)];
    forall f ensures IntFilter(m, MinKey(f)).None? {
      assert MinKey(f) != "name" by { assert |MinKey(f)| > 4 || MinKey(f)[0] != 'n'; }
    }
    assert NameTerm(m) == Some(term);
  }

  /** A filter map holding only the lower bound of attribute `g` selects exactly
      the characters whose linked stat block reaches that bound. */
  lemma MinFilterAlone(g: StatField, bound: int, stats: seq<Row<StatValues>>, c: Row<CharacterFields>)
    ensures Selected(map[MinKey(g) := Int(bound)], stats, c) <==> LinkedStatAtLeast(stats, c, g, bound)
  {
    var m := map[MinKey(g) := Int(bound)];
    assert MinKey(g) != "name" by { assert |MinKey(g)| > 4; }
    assert MinKey(g) != "class_id" && MinKey(g) != "weapon_id" by {
      assert MinKey(g)[|MinKey(g)| - 1] == 'n';
    }
    forall f | f != g ensures IntFilter(m, MinKey(f)).None? {
      MinKeyInjective(f, g);
    }
    assert IntFilter(m, MinKey(g)) == Some(bound);
    assert MeetsMin(m, stats, c, g) <==> LinkedStatAtLeast(stats, c, g, bound);
    assert NameMatches(m, c) && IdsMatch(m, c);
  }

  /** In a consistent store the stat block a character links to exists, so a
      minimum filter is a plain `>=` test on that one row. */
  lemma MinFilterOnLinkedRow(characters: seq<Row<CharacterFields>>, stats: seq<Row<StatValues>>,
                             classes: seq<Row<ClassFields>>, weapons: seq<Row<WeaponFields>>,
                             c: Row<CharacterFields>, f: StatField, bound: int)
    requires Consistent(classes, weapons, stats, characters) && c in characters
    ensures Find(stats, c.fields.statId).Some?
    ensures forall s :: s in stats && s.id == c.fields.statId ==>
              (LinkedStatAtLeast(stats, c, f, bound) <==> s.fields.Get(f) >= bound)
  {
    forall s | s in stats && s.id == c.fields.statId
      ensures LinkedStatAtLeast(stats, c, f, bound) <==> s.fields.Get(f) >= bound
    {
      FindUnique(stats, s);
    }
  }

  /** The contents of the four tables at one moment. */
  datatype Snapshot = Snapshot(classes: seq<Row<ClassFields>>, weapons: seq<Row<WeaponFields>>,
                               stats: seq<Row<StatValues>>, characters: seq<Row<CharacterFields>>)

  class Store {
    var classes: seq<Row<ClassFields>>
    var weapons: seq<Row<WeaponFields>>
    var stats: seq<Row<StatValues>>
    var characters: seq<Row<CharacterFields>>

    ghost predicate Valid()
      reads this
    {
      Consistent(classes, weapons, stats, characters)
    }

    function State(): Snapshot
      reads this
    {
      Snapshot(classes, weapons, stats, characters)
    }

    constructor (classes0: seq<Row<ClassFields>>, weapons0: seq<Row<WeaponFields>>,
                 stats0: seq<Row<StatValues>>, characters0: seq<Row<CharacterFields>>)
      requires Consistent(classes0, weapons0, stats0, characters0)
      ensures Valid()
      ensures classes == classes0 && weapons == weapons0 && stats == stats0 && characters == characters0
    {
      classes, weapons, stats, characters := classes0, weapons0, stats0, characters0;
    }

    /** `record_exists(table, id)` */
    function RecordExists(table: Table, id: int): (b: bool)
      reads this
      ensures table == StatsTable ==> (b <==> id in Ids(stats))
      ensures table == ClassesTable ==> (b <==> id in Ids(classes))
      ensures table == WeaponsTable ==> (b <==> id in Ids(weapons))
    {
      match table
      case StatsTable => Find(stats, id).Some?
      case ClassesTable => Find(classes, id).Some?
      case WeaponsTable => Find(weapons, id).Some?
    }

    /** `characters_in_use(column, id)` */
    function CharactersInUse(col: Column, id: int): (b: bool)
      reads this
      ensures b <==> exists c :: c in characters && Ref(c.fields, col) == id
    {
      CountReferencesPositive(characters, col, id);
      CountReferences(characters, col, id) > 0
    }

    /** The three foreign keys of `f` name existing rows. */
    function ForeignKeysExist(f: CharacterFields): (b: bool)
      reads this
      ensures b <==> f.statId in Ids(stats) && f.classId in Ids(classes) && f.weaponId in Ids(weapons)
    {
      RecordExists(StatsTable, f.statId) && RecordExists(ClassesTable, f.classId)
      && RecordExists(WeaponsTable, f.weaponId)
    }

    // ----- classes -----

    /** `list_classes`: every row, in ascending id order. */
    function ListClasses(): (r: seq<Row<ClassFields>>)
      reads this
      requires Valid()
      ensures Ascending(r)
      ensures |r| == |classes| && forall x :: x in r <==> x in classes
    {
      classes
    }

    /** `get_class` */
    function GetClass(id: int): (r: Option<Row<ClassFields>>)
      reads this
      ensures r.Some? <==> id in Ids(classes)
      ensures r.Some? ==> r.value in classes && r.value.id == id
    {
      Find(classes, id)
    }

    /** `create_class`: inserts a row under a fresh id and returns it. */
    method CreateClass(f: ClassFields) returns (item: Row<ClassFields>)
      requires Valid()
      modifies this
      ensures Valid()
      ensures item == Row(NextId(old(classes)), f) && item.id !in Ids(old(classes))
      ensures classes == old(classes) + [item]
      ensures GetClass(item.id) == Some(item)
      ensures weapons == old(weapons) && stats == old(stats) && characters == old(characters)
    {
      AppendNext(classes, f);
      FindAppended(classes, f);
      item := Row(NextId(classes), f);
      classes := classes + [item];
    }

    /** `update_class`: `None` for an unknown id, else the row with the new fields. */
    method UpdateClass(id: int, f: ClassFields) returns (item: Option<Row<ClassFields>>)
      requires Valid()
      modifies this
      ensures Valid()
      ensures id !in Ids(old(classes)) ==> item == None && classes == old(classes)
      ensures id in Ids(old(classes)) ==> item == Some(Row(id, f)) && classes == Update(old(classes), id, f)
      ensures weapons == old(weapons) && stats == old(stats) && characters == old(characters)
    {
      if GetClass(id).None? {
        return None;
      }
      classes := Update(classes, id, f);
      item := Some(Row(id, f));
    }

    /** `delete_class`: `not_found`, then `in_use`, then the row is removed. */
    method DeleteClass(id: int) returns (ok: bool, reason: string)
      requires Valid()
      modifies this
      ensures Valid()
      ensures id !in Ids(old(classes)) ==> !ok && reason == NotFound && classes == old(classes)
      ensures id in Ids(old(classes)) && old(CharactersInUse(ClassColumn, id)) ==>
                !ok && reason == InUse && classes == old(classes)
      ensures id in Ids(old(classes)) && !old(CharactersInUse(ClassColumn, id)) ==>
                ok && reason == "" && classes == Remove(old(classes), id)
      ensures weapons == old(weapons) && stats == old(stats) && characters == old(characters)
    {
      if !RecordExists(ClassesTable, id) {
        return false, NotFound;
      }
      if CharactersInUse(ClassColumn, id) {
        return false, InUse;
      }
      classes := Remove(classes, id);
      ok, reason := true, "";
    }

    // ----- weapons -----

    /** `list_weapons`: every row, in ascending id order. */
    function ListWeapons(): (r: seq<Row<WeaponFields>>)
      reads this
      requires Valid()
      ensures Ascending(r)
      ensures |r| == |weapons| && forall x :: x in r <==> x in weapons
    {
      weapons
    }

    /** `get_weapon` */
    function GetWeapon(id: int): (r: Option<Row<WeaponFields>>)
      reads this
      ensures r.Some? <==> id in Ids(weapons)
      ensures r.Some? ==> r.value in weapons && r.value.id == id
    {
      Find(weapons, id)
    }

    /** `create_weapon` */
    method CreateWeapon(f: WeaponFields) returns (item: Row<WeaponFields>)
      requires Valid()
      modifies this
      ensures Valid()
      ensures item == Row(NextId(old(weapons)), f) && item.id !in Ids(old(weapons))
      ensures weapons == old(weapons) + [item]
      ensures GetWeapon(item.id) == Some(item)
      ensures classes == old(classes) && stats == old(stats) && characters == old(characters)
    {
      AppendNext(weapons, f);
      FindAppended(weapons, f);
      item := Row(NextId(weapons), f);
      weapons := weapons + [item];
    }

    /** `update_weapon` */
    method UpdateWeapon(id: int, f: WeaponFields) returns (item: Option<Row<WeaponFields>>)
      requires Valid()
      modifies this
      ensures Valid()
      ensures id !in Ids(old(weapons)) ==> item == None && weapons == old(weapons)
      ensures id in Ids(old(weapons)) ==> item == Some(Row(id, f)) && weapons == Update(old(weapons), id, f)
      ensures classes == old(classes) && stats == old(stats) && characters == old(characters)
    {
      if GetWeapon(id).None? {
        return None;
      }
      weapons := Update(weapons, id, f);
      item := Some(Row(id, f));
    }

    /** `delete_weapon` */
    method DeleteWeapon(id: int) returns (ok: bool, reason: string)
      requires Valid()
      modifies this
      ensures Valid()
      ensures id !in Ids(old(weapons)) ==> !ok && reason == NotFound && weapons == old(weapons)
      ensures id in Ids(old(weapons)) && old(CharactersInUse(WeaponColumn, id)) ==>
                !ok && reason == InUse && weapons == old(weapons)
      ensures id in Ids(old(weapons)) && !old(CharactersInUse(WeaponColumn, id)) ==>
                ok && reason == "" && weapons == Remove(old(weapons), id)
      ensures classes == old(classes) && stats == old(stats) && characters == old(characters)
    {
      if !RecordExists(WeaponsTable, id) {
        return false, NotFound;
      }
      if CharactersInUse(WeaponColumn, id) {
        return false, InUse;
      }
      weapons := Remove(weapons, id);
      ok, reason := true, "";
    }

    // ----- stats -----

    /** `list_stats`: every row, in ascending id order. */
    function ListStats(): (r: seq<Row<StatValues>>)
      reads this
      requires Valid()
      ensures Ascending(r)
      ensures |r| == |stats| && forall x :: x in r <==> x in stats
    {
      stats
    }

    /** `get_stat` */
    function GetStat(id: int): (r: Option<Row<StatValues>>)
      reads this
      ensures r.Some? <==> id in Ids(stats)
      ensures r.Some? ==> r.value in stats && r.value.id == id
    {
      Find(stats, id)
    }

    /** `create_stat` */
    method CreateStat(f: StatValues) returns (item: Row<StatValues>)
      requires Valid()
      modifies this
      ensures Valid()
      ensures item == Row(NextId(old(stats)), f) && item.id !in Ids(old(stats))
      ensures stats == old(stats) + [item]
      ensures GetStat(item.id) == Some(item)
      ensures classes == old(classes) && weapons == old(weapons) && characters == old(characters)
    {
      AppendNext(stats, f);
      FindAppended(stats, f);
      item := Row(NextId(stats), f);
      stats := stats + [item];
    }

    /** `update_stat` */
    method UpdateStat(id: int, f: StatValues) returns (item: Option<Row<StatValues>>)
      requires Valid()
      modifies this
      ensures Valid()
      ensures id !in Ids(old(stats)) ==> item == None && stats == old(stats)
      ensures id in Ids(old(stats)) ==> item == Some(Row(id, f)) && stats == Update(old(stats), id, f)
      ensures classes == old(classes) && weapons == old(weapons) && characters == old(characters)
    {
      if GetStat(id).None? {
        return None;
      }
      stats := Update(stats, id, f);
      item := Some(Row(id, f));
    }

    /** `delete_stat` */
    method DeleteStat(id: int) returns (ok: bool, reason: string)
      requires Valid()
      modifies this
      ensures Valid()
      ensures id !in Ids(old(stats)) ==> !ok && reason == NotFound && stats == old(stats)
      ensures id in Ids(old(stats)) && old(CharactersInUse(StatColumn, id)) ==>
                !ok && reason == InUse && stats == old(stats)
      ensures id in Ids(old(stats)) && !old(CharactersInUse(StatColumn, id)) ==>
                ok && reason == "" && stats == Remove(old(stats), id)
      ensures classes == old(classes) && weapons == old(weapons) && characters == old(characters)
    {
      if !RecordExists(StatsTable, id) {
        return false, NotFound;
      }
      if CharactersInUse(StatColumn, id) {
        return false, InUse;
      }
      stats := Remove(stats, id);
      ok, reason := true, "";
    }

    // ----- characters -----

    /** `list_characters`: starts from every character and narrows the list
        once per active filter, the six attribute minimums in a loop. */
    method ListCharacters(filters: map<string, Value>) returns (result: seq<Row<CharacterFields>>)
      requires Valid() && WellFormedFilters(filters)
      ensures Ascending(result)
      ensures forall c :: c in result <==> c in characters && Selected(filters, stats, c)
      ensures result == Where(characters, Selection(filters, stats))
    {
      var table := stats;
      result := characters;
      var term := NameTerm(filters);
      if term.Some? {
        var lowered := Lower(term.value);
        result := Where(result, (c: Row<CharacterFields>) => Contains(Lower(c.fields.name), lowered));
      }
      var classId := IntFilter(filters, "class_id");
      if classId.Some? {
        result := Where(result, (c: Row<CharacterFields>) => c.fields.classId == classId.value);
      }
      var weaponId := IntFilter(filters, "weapon_id");
      if weaponId.Some? {
        result := Where(result, (c: Row<CharacterFields>) => c.fields.weaponId == weaponId.value);
      }
      var i := 0;
      while i < |StatFields|
        invariant 0 <= i <= |StatFields|
        invariant Ascending(result)
        invariant forall c :: c in result <==>
                    c in characters && NameMatches(filters, c) && IdsMatch(filters, c) && MeetsMinsBefore(filters, table, c, i)
      {
        var field := StatFields[i];
        var bound := IntFilter(filters, MinKey(field));
        ghost var before := result;
        if bound.Some? {
          result := Where(result, (c: Row<CharacterFields>) => LinkedStatAtLeast(table, c, field, bound.value));
        }
        forall c ensures c in result <==>
                           c in characters && NameMatches(filters, c) && IdsMatch(filters, c)
                           && MeetsMinsBefore(filters, table, c, i + 1) {
          MeetsMinsNext(filters, table, c, i);
        }
        i := i + 1;
      }
      forall c | c in characters
        ensures MeetsMinsBefore(filters, table, c, |StatFields|) <==> (forall f :: MeetsMin(filters, table, c, f))
      {
        AllMinimums(filters, table, c);
      }
      ListingIsWhere(result, characters, filters, stats);
    }

    /** `get_character` */
    function GetCharacter(id: int): (r: Option<Row<CharacterFields>>)
      reads this
      ensures r.Some? <==> id in Ids(characters)
      ensures r.Some? ==> r.value in characters && r.value.id == id
    {
      Find(characters, id)
    }

    /** `create_character`: `invalid_foreign` with no write unless all three
        referenced rows exist; otherwise a new row under a fresh id. */
    method CreateCharacter(f: CharacterFields) returns (item: Option<Row<CharacterFields>>, error: Option<string>)
      requires Valid()
      modifies this
      ensures Valid()
      ensures !old(ForeignKeysExist(f)) ==> item == None && error == Some(InvalidForeign) && characters == old(characters)
      ensures old(ForeignKeysExist(f)) ==>
                && item == Some(Row(NextId(old(characters)), f)) && error == None
                && item.value.id !in Ids(old(characters))
                && characters == old(characters) + [item.value]
                && GetCharacter(item.value.id) == item
      ensures classes == old(classes) && weapons == old(weapons) && stats == old(stats)
    {
      if !ForeignKeysExist(f) {
        return None, Some(InvalidForeign);
      }
      var row := Row(NextId(characters), f);
      var next := characters + [row];
      assert Consistent(classes, weapons, stats, next) by {
        AppendNext(characters, f);
        AppendResolved(characters, stats, classes, weapons, row);
      }
      assert Find(next, row.id) == Some(row) by {
        FindAppended(characters, f);
      }
      characters := next;
      item, error := Some(row), None;
    }

    /** `update_character`: the foreign keys are checked first, then whether
        the character exists. */
    method UpdateCharacter(id: int, f: CharacterFields) returns (item: Option<Row<CharacterFields>>, error: Option<string>)
      requires Valid()
      modifies this
      ensures Valid()
      ensures !old(ForeignKeysExist(f)) ==> item == None && error == Some(InvalidForeign) && characters == old(characters)
      ensures old(ForeignKeysExist(f)) && id !in Ids(old(characters)) ==>
                item == None && error == Some(NotFound) && characters == old(characters)
      ensures old(ForeignKeysExist(f)) && id in Ids(old(characters)) ==>
                item == Some(Row(id, f)) && error == None && characters == Update(old(characters), id, f)
      ensures classes == old(classes) && weapons == old(weapons) && stats == old(stats)
    {
      if !ForeignKeysExist(f) {
        return None, Some(InvalidForeign);
      }
      if GetCharacter(id).None? {
        return None, Some(NotFound);
      }
      characters := Update(characters, id, f);
      item, error := Some(Row(id, f)), None;
    }

    /** `delete_character`: `false` for an unknown id, else the row is removed. */
    method DeleteCharacter(id: int) returns (ok: bool)
      requires Valid()
      modifies this
      ensures Valid()
      ensures ok <==> id in Ids(old(characters))
      ensures ok ==> characters == Remove(old(characters), id)
      ensures !ok ==> characters == old(characters)
      ensures id !in Ids(characters)
      ensures classes == old(classes) && weapons == old(weapons) && stats == old(stats)
    {
      if GetCharacter(id).None? {
        return false;
      }
      characters := Remove(characters, id);
      ok := true;
    }
  }
}
