/**
 * The data the service handles: the loosely typed request payload and the
 * four kinds of record (class, weapon, stat block, character).
 */
module Entities {

  /** One JSON value of a payload field, as the validators distinguish them:
      `null`, an integer, a string, or anything else (a list or an object),
      which carries the text Python's `str()` gives it. */
  datatype Value = Null | Int(i: int) | Str(s: string) | Other(shown: string)

  /** A decoded request body: a JSON object, or some other JSON value.
      `falsy` is Python's truthiness of that other value (`[]`, `""`, `0`, `false`). */
  datatype Payload = Object(fields: map<string, Value>) | NonObject(falsy: bool)

  /** `payload.get(key)`: a missing key reads as `None`. */
  function Get(fields: map<string, Value>, key: string): Value {
    if key in fields then fields[key] else Null
  }

  datatype ClassFields = ClassFields(name: string, description: string)

  datatype WeaponFields = WeaponFields(name: string, weaponType: string, description: string)

  /** The six attributes of a stat block. */
  datatype StatField = Strength | Intelligence | Dexterity | Stamina | Faith | Agility

  /** The order in which the attributes are validated and filtered. */
  const StatFields: seq<StatField> := [Strength, Intelligence, Dexterity, Stamina, Faith, Agility]

  /** The key of an attribute in payloads, rows and responses. */
  function Key(f: StatField): string {
    match f
    case Strength => "strength"
    case Intelligence => "intelligence"
    case Dexterity => "dexterity"
    case Stamina => "stamina"
    case Faith => "faith"
    case Agility => "agility"
  }

  /** Every attribute appears in `StatFields`, exactly once. */
  lemma StatFieldsListed(f: StatField)
    ensures exists k :: 0 <= k < |StatFields| && StatFields[k] == f
    ensures forall j, k :: 0 <= j < k < |StatFields| ==> StatFields[j] != StatFields[k]
  {
    match f
    case Strength => assert StatFields[0] == f;
    case Intelligence => assert StatFields[1] == f;
    case Dexterity => assert StatFields[2] == f;
    case Stamina => assert StatFields[3] == f;
    case Faith => assert StatFields[4] == f;
    case Agility => assert StatFields[5] == f;
  }

  datatype StatValues = StatValues(strength: int, intelligence: int, dexterity: int,
                                   stamina: int, faith: int, agility: int)
  {
    function Get(f: StatField): int {
      match f
      case Strength => strength
      case Intelligence => intelligence
      case Dexterity => dexterity
      case Stamina => stamina
      case Faith => faith
      case Agility => agility
    }
  }

  datatype CharacterFields = CharacterFields(name: string, statId: int, classId: int, weaponId: int)
}
