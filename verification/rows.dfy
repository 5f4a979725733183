/**
 * The `row_*` mappers of app/query.py: a row as the database cursor returns
 * it (a dictionary from column name to value) becomes a record. Each mapper
 * keeps exactly its own columns; writing a record out as columns and mapping
 * it back gives the record again.
 */
module RowMapping {
  import opened Entities
  import opened Tables

  /** The columns of `row` named by `keys`, and no others. */
  function Restrict(row: map<string, Value>, keys: set<string>): map<string, Value> {
    map k | k in row && k in keys :: row[k]
  }

  // ----- classes -----

  const ClassKeys: set<string> := {"id", "name", "description"}

  predicate IsClassRow(row: map<string, Value>) {
    && "id" in row && row["id"].Int?
    && "name" in row && row["name"].Str?
    && "description" in row && row["description"].Str?
  }

  /** `row_class` */
  function RowClass(row: map<string, Value>): (r: Row<ClassFields>)
    requires IsClassRow(row)
    ensures ClassColumns(r) == Restrict(row, ClassKeys)
  {
    Row(row["id"].i, ClassFields(row["name"].s, row["description"].s))
  }

  function ClassColumns(r: Row<ClassFields>): (row: map<string, Value>)
    ensures IsClassRow(row) && row.Keys == ClassKeys
  {
    map["id" := Int(r.id), "name" := Str(r.fields.name), "description" := Str(r.fields.description)]
  }

  lemma ClassRoundTrip(r: Row<ClassFields>)
    ensures RowClass(ClassColumns(r)) == r
  {
  }

  // ----- weapons -----

  const WeaponKeys: set<string> := {"id", "name", "type", "description"}

  predicate IsWeaponRow(row: map<string, Value>) {
    && "id" in row && row["id"].Int?
    && "name" in row && row["name"].Str?
    && "type" in row && row["type"].Str?
    && "description" in row && row["description"].Str?
  }

  /** `row_weapon` */
  function RowWeapon(row: map<string, Value>): (r: Row<WeaponFields>)
    requires IsWeaponRow(row)
    ensures WeaponColumns(r) == Restrict(row, WeaponKeys)
  {
    Row(row["id"].i, WeaponFields(row["name"].s, row["type"].s, row["description"].s))
  }

  function WeaponColumns(r: Row<WeaponFields>): (row: map<string, Value>)
    ensures IsWeaponRow(row) && row.Keys == WeaponKeys
  {
    map["id" := Int(r.id), "name" := Str(r.fields.name), "type" := Str(r.fields.weaponType),
        "description" := Str(r.fields.description)]
  }

  lemma WeaponRoundTrip(r: Row<WeaponFields>)
    ensures RowWeapon(WeaponColumns(r)) == r
  {
  }

  // ----- stats -----

  const StatKeys: set<string> := {"id", "strength", "intelligence", "dexterity", "stamina", "faith", "agility"}

  predicate IsStatRow(row: map<string, Value>) {
    && "id" in row && row["id"].Int?
    && forall f :: Key(f) in row && row[Key(f)].Int?
  }

  /** `row_stat` */
  function RowStat(row: map<string, Value>): (r: Row<StatValues>)
    requires IsStatRow(row)
    ensures StatColumns(r) == Restrict(row, StatKeys)
  {
    Row(row["id"].i, StatValues(row[Key(Strength)].i, row[Key(Intelligence)].i, row[Key(Dexterity)].i,
                                row[Key(Stamina)].i, row[Key(Faith)].i, row[Key(Agility)].i))
  }

  function StatColumns(r: Row<StatValues>): (row: map<string, Value>)
    ensures IsStatRow(row) && row.Keys == StatKeys
  {
    map["id" := Int(r.id), "strength" := Int(r.fields.strength), "intelligence" := Int(r.fields.intelligence),
        "dexterity" := Int(r.fields.dexterity), "stamina" := Int(r.fields.stamina),
        "faith" := Int(r.fields.faith), "agility" := Int(r.fields.agility)]
  }

  lemma StatRoundTrip(r: Row<StatValues>)
    ensures RowStat(StatColumns(r)) == r
  {
  }

  // ----- characters -----

  const CharacterKeys: set<string> := {"id", "name", "stat_id", "class_id", "weapon_id"}

  predicate IsCharacterRow(row: map<string, Value>) {
    && "id" in row && row["id"].Int?
    && "name" in row && row["name"].Str?
    && "stat_id" in row && row["stat_id"].Int?
    && "class_id" in row && row["class_id"].Int?
    && "weapon_id" in row && row["weapon_id"].Int?
  }

  /** `row_character` */
  function RowCharacter(row: map<string, Value>): (r: Row<CharacterFields>)
    requires IsCharacterRow(row)
    ensures CharacterColumns(r) == Restrict(row, CharacterKeys)
  {
    Row(row["id"].i, CharacterFields(row["name"].s, row["stat_id"].i, row["class_id"].i, row["weapon_id"].i))
  }

  function CharacterColumns(r: Row<CharacterFields>): (row: map<string, Value>)
    ensures IsCharacterRow(row) && row.Keys == CharacterKeys
  {
    map["id" := Int(r.id), "name" := Str(r.fields.name), "stat_id" := Int(r.fields.statId),
        "class_id" := Int(r.fields.classId), "weapon_id" := Int(r.fields.weaponId)]
  }

  lemma CharacterRoundTrip(r: Row<CharacterFields>)
    ensures RowCharacter(CharacterColumns(r)) == r
  {
  }
}
