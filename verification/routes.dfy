/**
 * The request handlers of app/routes.py: each one validates the body (for
 * writes), calls the store, and maps the outcome to a status and a body.
 * Authentication and the choice of JSON or XML encoding happen around these
 * handlers and do not change the status.
 */
module Routes {
  import opened Wrappers
  import opened Entities
  import opened Validation
  import opened Tables
  import opened Query

  const NotFoundMessage := "Not found"
  const InvalidForeignKeyMessage := "Invalid foreign key"
  const InvalidCredentials := "Invalid credentials"

  /** What a handler answers with: a message, one record, a named list of
      records, `{deleted: true}`, or the access token of a login. */
  datatype Body<T> = Message(text: string) | Record(item: T) | Listing(key: string, items: seq<T>)
                   | Deleted | AccessToken(token: string)

  datatype Response<T> = Response(status: int, body: Body<T>)

  /** `request.get_json(silent=True) or {}`: a missing or unreadable body, and
      a falsy JSON value, both read as an empty object. */
  function OrEmpty(body: Option<Payload>): (p: Payload)
    ensures body.None? ==> p == Object(map[])
    ensures body.Some? && body.value.Object? ==> p == body.value
    ensures body.Some? && body.value.NonObject? ==> (p.NonObject? <==> !body.value.falsy)
  {
    match body
    case None => Object(map[])
    case Some(Object(fields)) => Object(fields)
    case Some(NonObject(falsy)) => if falsy then Object(map[]) else NonObject(false)
  }

  /** `login`: a token exactly when both credentials equal the configured ones.
      The token itself is opaque here. */
  function Login(data: map<string, Value>, apiUser: string, apiPassword: string, token: string): (r: Response<()>)
    ensures r.status == 200 <==> Get(data, "username") == Str(apiUser) && Get(data, "password") == Str(apiPassword)
    ensures r.status == 200 ==> r.body == AccessToken(token)
    ensures r.status != 200 ==> r == Response(401, Message(InvalidCredentials))
  {
    if Get(data, "username") == Str(apiUser) && Get(data, "password") == Str(apiPassword) then
      Response(200, AccessToken(token))
    else
      Response(401, Message(InvalidCredentials))
  }

  // ----- the filter map of get_characters_route -----

  /** `request.args.get(key)` */
  function Arg(args: map<string, string>, key: string): Value {
    if key in args then Str(args[key]) else Null
  }

  /** `parse_int(request.args.get(key))` */
  function IntArg(args: map<string, string>, key: string): Value {
    match ParseInt(Arg(args, key))
    case Some(n) => Int(n)
    case None => Null
  }

  /** The query parameters read as integer filters; each names its own filter. */
  const IntFilterKeys: set<string> :=
    {"class_id", "weapon_id", "strength_min", "intelligence_min", "dexterity_min",
     "stamina_min", "faith_min", "agility_min"}

  /** Every key of the filter map the route builds. */
  const FilterKeys: set<string> := IntFilterKeys + {"name"}

  /** The value the route computes for filter key `k` before the `None`
      entries are dropped: the raw `q` parameter under `name`, and
      `parse_int` of the parameter of the same name under every other key. */
  function FilterArg(args: map<string, string>, k: string): Value {
    if k == "name" then Arg(args, "q") else IntArg(args, k)
  }

  /** Neither `name` nor `q` is an integer filter. */
  lemma NotIntFilterKeys()
    ensures "name" !in IntFilterKeys && "q" !in IntFilterKeys
  {
  }

  /** The filter map of `get_characters_route`, with the entries that are
      `None` dropped (`{k: v for k, v in filters.items() if v is not None}`):
      the name filter is present exactly when `q` is given, and holds it as
      given; an integer filter is present exactly when its parameter is given
      and parses, and holds the parsed value; no other key appears. */
  function BuildFilters(args: map<string, string>): (filters: map<string, Value>)
    ensures "name" in filters <==> "q" in args
    ensures "q" in args ==> filters["name"] == Str(args["q"])
    ensures forall k :: k in IntFilterKeys ==>
              (k in filters <==> k in args && ParseInt(Str(args[k])).Some?)
    ensures forall k :: k in IntFilterKeys && k in filters ==> filters[k] == Int(ParseInt(Str(args[k])).value)
    ensures forall k :: k in filters ==> k in FilterKeys
  {
    NotIntFilterKeys();
    map k | k in FilterKeys && FilterArg(args, k) != Null :: FilterArg(args, k)
  }

  /** A query string whose only filter parameter is one integer filter that
      parses builds a filter map holding that one bound. */
  lemma SingleIntFilter(args: map<string, string>, key: string, n: int)
    requires key in IntFilterKeys && key in args && ParseInt(Str(args[key])) == Some(n)
    requires forall k :: k in args && k != key ==> k !in IntFilterKeys && k != "q"
    ensures BuildFilters(args) == map[key := Int(n)]
  {
    var f := BuildFilters(args);
    NotIntFilterKeys();
    forall k | k in f ensures k == key {
      if k != "name" {
        assert k in args;
      }
    }
    assert key in f && f[key] == Int(n);
    assert f.Keys == {key};
  }

  /** The route only ever hands `list_characters` a well-formed filter map, and
      the minimum filters it builds are the ones `list_characters` reads. */
  lemma BuildFiltersWellFormed(args: map<string, string>)
    ensures WellFormedFilters(BuildFilters(args))
    ensures forall f :: MinKey(f) in IntFilterKeys
  {
    forall f ensures MinKey(f) in IntFilterKeys {
      match f
      case Strength => assert MinKey(f) == "strength_min";
      case Intelligence => assert MinKey(f) == "intelligence_min";
      case Dexterity => assert MinKey(f) == "dexterity_min";
      case Stamina => assert MinKey(f) == "stamina_min";
      case Faith => assert MinKey(f) == "faith_min";
      case Agility => assert MinKey(f) == "agility_min";
    }
  }

  // ----- classes -----

  /** `get_classes` */
  method GetClasses(s: Store) returns (resp: Response<Row<ClassFields>>)
    requires s.Valid()
    ensures resp.status == 200 && resp.body.Listing? && resp.body.key == "classes"
    ensures Ascending(resp.body.items) && forall x :: x in resp.body.items <==> x in s.classes
  {
    resp := Response(200, Listing("classes", s.ListClasses()));
  }

  /** `get_class_route` */
  method GetClassRoute(s: Store, id: int) returns (resp: Response<Row<ClassFields>>)
    ensures id !in Ids(s.classes) ==> resp == Response(404, Message(NotFoundMessage))
    ensures id in Ids(s.classes) ==>
              resp.status == 200 && resp.body.Record? && resp.body.item in s.classes && resp.body.item.id == id
  {
    var item := s.GetClass(id);
    if item.None? {
      return Response(404, Message(NotFoundMessage));
    }
    resp := Response(200, Record(item.value));
  }

  /** `create_class_route` */
  method CreateClassRoute(s: Store, body: Option<Payload>) returns (resp: Response<Row<ClassFields>>)
    requires s.Valid()
    modifies s
    ensures s.Valid()
    ensures ValidateClass(OrEmpty(body)).Err? ==>
              resp == Response(400, Message(ValidateClass(OrEmpty(body)).error)) && s.State() == old(s.State())
    ensures ValidateClass(OrEmpty(body)).Ok? ==>
              && resp == Response(201, Record(Row(NextId(old(s.classes)), ValidateClass(OrEmpty(body)).value)))
              && s.State() == old(s.State()).(classes := old(s.classes) + [resp.body.item])
  {
    var v := ValidateClass(OrEmpty(body));
    if v.Err? {
      return Response(400, Message(v.error));
    }
    var item := s.CreateClass(v.value);
    resp := Response(201, Record(item));
  }

  /** `update_class_route` */
  method UpdateClassRoute(s: Store, id: int, body: Option<Payload>) returns (resp: Response<Row<ClassFields>>)
    requires s.Valid()
    modifies s
    ensures s.Valid()
    ensures ValidateClass(OrEmpty(body)).Err? ==>
              resp == Response(400, Message(ValidateClass(OrEmpty(body)).error)) && s.State() == old(s.State())
    ensures ValidateClass(OrEmpty(body)).Ok? && id !in Ids(old(s.classes)) ==>
              resp == Response(404, Message(NotFoundMessage)) && s.State() == old(s.State())
    ensures ValidateClass(OrEmpty(body)).Ok? && id in Ids(old(s.classes)) ==>
              && resp == Response(200, Record(Row(id, ValidateClass(OrEmpty(body)).value)))
              && s.State() == old(s.State()).(classes := Update(old(s.classes), id, ValidateClass(OrEmpty(body)).value))
  {
    var v := ValidateClass(OrEmpty(body));
    if v.Err? {
      return Response(400, Message(v.error));
    }
    var item := s.UpdateClass(id, v.value);
    if item.None? {
      return Response(404, Message(NotFoundMessage));
    }
    resp := Response(200, Record(item.value));
  }

  /** The status and body of a guarded delete, from the store's `(success, reason)`. */
  function DeleteOutcome<T>(success: bool, reason: string, inUseMessage: string): Response<T> {
    if !success && reason == NotFound then Response(404, Message(NotFoundMessage))
    else if !success && reason == InUse then Response(400, Message(inUseMessage))
    else Response(200, Deleted)
  }

  /** `delete_class_route` */
  method DeleteClassRoute(s: Store, id: int) returns (resp: Response<Row<ClassFields>>)
    requires s.Valid()
    modifies s
    ensures s.Valid()
    ensures id !in Ids(old(s.classes)) ==> resp == Response(404, Message(NotFoundMessage)) && s.State() == old(s.State())
    ensures id in Ids(old(s.classes)) && old(s.CharactersInUse(ClassColumn, id)) ==>
              resp == Response(400, Message("Class is referenced by characters")) && s.State() == old(s.State())
    ensures id in Ids(old(s.classes)) && !old(s.CharactersInUse(ClassColumn, id)) ==>
              resp == Response(200, Deleted) && s.State() == old(s.State()).(classes := Remove(old(s.classes), id))
  {
    var success, reason := s.DeleteClass(id);
    resp := DeleteOutcome(success, reason, "Class is referenced by characters");
  }

  // ----- weapons -----

  /** `get_weapons` */
  method GetWeapons(s: Store) returns (resp: Response<Row<WeaponFields>>)
    requires s.Valid()
    ensures resp.status == 200 && resp.body.Listing? && resp.body.key == "weapons"
    ensures Ascending(resp.body.items) && forall x :: x in resp.body.items <==> x in s.weapons
  {
    resp := Response(200, Listing("weapons", s.ListWeapons()));
  }

  /** `get_weapon_route` */
  method GetWeaponRoute(s: Store, id: int) returns (resp: Response<Row<WeaponFields>>)
    ensures id !in Ids(s.weapons) ==> resp == Response(404, Message(NotFoundMessage))
    ensures id in Ids(s.weapons) ==>
              resp.status == 200 && resp.body.Record? && resp.body.item in s.weapons && resp.body.item.id == id
  {
    var item := s.GetWeapon(id);
    if item.None? {
      return Response(404, Message(NotFoundMessage));
    }
    resp := Response(200, Record(item.value));
  }

  /** `create_weapon_route` */
  method CreateWeaponRoute(s: Store, body: Option<Payload>) returns (resp: Response<Row<WeaponFields>>)
    requires s.Valid()
    modifies s
    ensures s.Valid()
    ensures ValidateWeapon(OrEmpty(body)).Err? ==>
              resp == Response(400, Message(ValidateWeapon(OrEmpty(body)).error)) && s.State() == old(s.State())
    ensures ValidateWeapon(OrEmpty(body)).Ok? ==>
              && resp == Response(201, Record(Row(NextId(old(s.weapons)), ValidateWeapon(OrEmpty(body)).value)))
              && s.State() == old(s.State()).(weapons := old(s.weapons) + [resp.body.item])
  {
    var v := ValidateWeapon(OrEmpty(body));
    if v.Err? {
      return Response(400, Message(v.error));
    }
    var item := s.CreateWeapon(v.value);
    resp := Response(201, Record(item));
  }

  /** `update_weapon_route` */
  method UpdateWeaponRoute(s: Store, id: int, body: Option<Payload>) returns (resp: Response<Row<WeaponFields>>)
    requires s.Valid()
    modifies s
    ensures s.Valid()
    ensures ValidateWeapon(OrEmpty(body)).Err? ==>
              resp == Response(400, Message(ValidateWeapon(OrEmpty(body)).error)) && s.State() == old(s.State())
    ensures ValidateWeapon(OrEmpty(body)).Ok? && id !in Ids(old(s.weapons)) ==>
              resp == Response(404, Message(NotFoundMessage)) && s.State() == old(s.State())
    ensures ValidateWeapon(OrEmpty(body)).Ok? && id in Ids(old(s.weapons)) ==>
              && resp == Response(200, Record(Row(id, ValidateWeapon(OrEmpty(body)).value)))
              && s.State() == old(s.State()).(weapons := Update(old(s.weapons), id, ValidateWeapon(OrEmpty(body)).value))
  {
    var v := ValidateWeapon(OrEmpty(body));
    if v.Err? {
      return Response(400, Message(v.error));
    }
    var item := s.UpdateWeapon(id, v.value);
    if item.None? {
      return Response(404, Message(NotFoundMessage));
    }
    resp := Response(200, Record(item.value));
  }

  /** `delete_weapon_route` */
  method DeleteWeaponRoute(s: Store, id: int) returns (resp: Response<Row<WeaponFields>>)
    requires s.Valid()
    modifies s
    ensures s.Valid()
    ensures id !in Ids(old(s.weapons)) ==> resp == Response(404, Message(NotFoundMessage)) && s.State() == old(s.State())
    ensures id in Ids(old(s.weapons)) && old(s.CharactersInUse(WeaponColumn, id)) ==>
              resp == Response(400, Message("Weapon is referenced by characters")) && s.State() == old(s.State())
    ensures id in Ids(old(s.weapons)) && !old(s.CharactersInUse(WeaponColumn, id)) ==>
              resp == Response(200, Deleted) && s.State() == old(s.State()).(weapons := Remove(old(s.weapons), id))
  {
    var success, reason := s.DeleteWeapon(id);
    resp := DeleteOutcome(success, reason, "Weapon is referenced by characters");
  }

  // ----- stats -----

  /** `get_stats_route` */
  method GetStatsRoute(s: Store) returns (resp: Response<Row<StatValues>>)
    requires s.Valid()
    ensures resp.status == 200 && resp.body.Listing? && resp.body.key == "stats"
    ensures Ascending(resp.body.items) && forall x :: x in resp.body.items <==> x in s.stats
  {
    resp := Response(200, Listing("stats", s.ListStats()));
  }

  /** `get_stat_route` */
  method GetStatRoute(s: Store, id: int) returns (resp: Response<Row<StatValues>>)
    ensures id !in Ids(s.stats) ==> resp == Response(404, Message(NotFoundMessage))
    ensures id in Ids(s.stats) ==>
              resp.status == 200 && resp.body.Record? && resp.body.item in s.stats && resp.body.item.id == id
  {
    var item := s.GetStat(id);
    if item.None? {
      return Response(404, Message(NotFoundMessage));
    }
    resp := Response(200, Record(item.value));
  }

  /** `create_stat_route` */
  method CreateStatRoute(s: Store, body: Option<Payload>) returns (resp: Response<Row<StatValues>>)
    requires s.Valid()
    modifies s
    ensures s.Valid()
    ensures resp.status == 400 <==> !StatsParse(OrEmpty(body))
    ensures resp.status == 400 ==>
              resp.body.Message? && StatsRejected(OrEmpty(body), resp.body.text) && s.State() == old(s.State())
    ensures resp.status != 400 ==>
              && resp.status == 201 && resp.body.Record? && resp.body.item.id == NextId(old(s.stats))
              && StatsFrom(OrEmpty(body), resp.body.item.fields)
              && s.State() == old(s.State()).(stats := old(s.stats) + [resp.body.item])
  {
    var v := ValidateStats(OrEmpty(body));
    if v.Err? {
      return Response(400, Message(v.error));
    }
    var item := s.CreateStat(v.value);
    resp := Response(201, Record(item));
  }

  /** Every attribute of the body parses as an integer. */
  ghost predicate StatsParse(p: Payload) {
    p.Object? && forall f :: Parses(p.fields, f)
  }

  /** `values` holds exactly the parsed attributes of the body. */
  ghost predicate StatsFrom(p: Payload, values: StatValues) {
    p.Object? && forall f :: Some(values.Get(f)) == ParseInt(Get(p.fields, Key(f)))
  }

  /** `update_stat_route` */
  method UpdateStatRoute(s: Store, id: int, body: Option<Payload>) returns (resp: Response<Row<StatValues>>)
    requires s.Valid()
    modifies s
    ensures s.Valid()
    ensures !StatsParse(OrEmpty(body)) ==>
              && resp.status == 400 && resp.body.Message? && StatsRejected(OrEmpty(body), resp.body.text)
              && s.State() == old(s.State())
    ensures StatsParse(OrEmpty(body)) && id !in Ids(old(s.stats)) ==>
              resp == Response(404, Message(NotFoundMessage)) && s.State() == old(s.State())
    ensures StatsParse(OrEmpty(body)) && id in Ids(old(s.stats)) ==>
              && resp.status == 200 && resp.body.Record? && resp.body.item.id == id
              && StatsFrom(OrEmpty(body), resp.body.item.fields)
              && s.State() == old(s.State()).(stats := Update(old(s.stats), id, resp.body.item.fields))
  {
    var v := ValidateStats(OrEmpty(body));
    if v.Err? {
      return Response(400, Message(v.error));
    }
    var item := s.UpdateStat(id, v.value);
    if item.None? {
      return Response(404, Message(NotFoundMessage));
    }
    resp := Response(200, Record(item.value));
  }

  /** `delete_stat_route` */
  method DeleteStatRoute(s: Store, id: int) returns (resp: Response<Row<StatValues>>)
    requires s.Valid()
    modifies s
    ensures s.Valid()
    ensures id !in Ids(old(s.stats)) ==> resp == Response(404, Message(NotFoundMessage)) && s.State() == old(s.State())
    ensures id in Ids(old(s.stats)) && old(s.CharactersInUse(StatColumn, id)) ==>
              resp == Response(400, Message("Stats are referenced by characters")) && s.State() == old(s.State())
    ensures id in Ids(old(s.stats)) && !old(s.CharactersInUse(StatColumn, id)) ==>
              resp == Response(200, Deleted) && s.State() == old(s.State()).(stats := Remove(old(s.stats), id))
  {
    var success, reason := s.DeleteStat(id);
    resp := DeleteOutcome(success, reason, "Stats are referenced by characters");
  }

  // ----- characters -----

  /** `get_characters_route`: exactly the characters that pass every filter the
      query string sets, in ascending id order. */
  method GetCharactersRoute(s: Store, args: map<string, string>) returns (resp: Response<Row<CharacterFields>>)
    requires s.Valid()
    ensures resp.status == 200 && resp.body.Listing? && resp.body.key == "characters"
    ensures Ascending(resp.body.items)
    ensures forall c :: c in resp.body.items <==> c in s.characters && Selected(BuildFilters(args), s.stats, c)
    ensures resp.body.items == Where(s.characters, Selection(BuildFilters(args), s.stats))
  {
    BuildFiltersWellFormed(args);
    var items := s.ListCharacters(BuildFilters(args));
    resp := Response(200, Listing("characters", items));
  }

  /** `get_character_route` */
  method GetCharacterRoute(s: Store, id: int) returns (resp: Response<Row<CharacterFields>>)
    ensures id !in Ids(s.characters) ==> resp == Response(404, Message(NotFoundMessage))
    ensures id in Ids(s.characters) ==>
              resp.status == 200 && resp.body.Record? && resp.body.item in s.characters && resp.body.item.id == id
  {
    var item := s.GetCharacter(id);
    if item.None? {
      return Response(404, Message(NotFoundMessage));
    }
    resp := Response(200, Record(item.value));
  }

  /** `create_character_route` */
  method CreateCharacterRoute(s: Store, body: Option<Payload>) returns (resp: Response<Row<CharacterFields>>)
    requires s.Valid()
    modifies s
    ensures s.Valid()
    ensures ValidateCharacter(OrEmpty(body)).Err? ==>
              resp == Response(400, Message(ValidateCharacter(OrEmpty(body)).error)) && s.State() == old(s.State())
    ensures ValidateCharacter(OrEmpty(body)).Ok? && !old(s.ForeignKeysExist(ValidateCharacter(OrEmpty(body)).value)) ==>
              resp == Response(400, Message(InvalidForeignKeyMessage)) && s.State() == old(s.State())
    ensures ValidateCharacter(OrEmpty(body)).Ok? && old(s.ForeignKeysExist(ValidateCharacter(OrEmpty(body)).value)) ==>
              && resp == Response(201, Record(Row(NextId(old(s.characters)), ValidateCharacter(OrEmpty(body)).value)))
              && s.State() == old(s.State()).(characters := old(s.characters) + [resp.body.item])
  {
    var v := ValidateCharacter(OrEmpty(body));
    if v.Err? {
      return Response(400, Message(v.error));
    }
    var item, error := s.CreateCharacter(v.value);
    if error == Some(InvalidForeign) {
      return Response(400, Message(InvalidForeignKeyMessage));
    }
    resp := Response(201, Record(item.value));
  }

  /** `update_character_route`: an invalid foreign key wins over an unknown id. */
  method UpdateCharacterRoute(s: Store, id: int, body: Option<Payload>) returns (resp: Response<Row<CharacterFields>>)
    requires s.Valid()
    modifies s
    ensures s.Valid()
    ensures ValidateCharacter(OrEmpty(body)).Err? ==>
              resp == Response(400, Message(ValidateCharacter(OrEmpty(body)).error)) && s.State() == old(s.State())
    ensures ValidateCharacter(OrEmpty(body)).Ok? && !old(s.ForeignKeysExist(ValidateCharacter(OrEmpty(body)).value)) ==>
              resp == Response(400, Message(InvalidForeignKeyMessage)) && s.State() == old(s.State())
    ensures ValidateCharacter(OrEmpty(body)).Ok? && old(s.ForeignKeysExist(ValidateCharacter(OrEmpty(body)).value))
            && id !in Ids(old(s.characters)) ==>
              resp == Response(404, Message(NotFoundMessage)) && s.State() == old(s.State())
    ensures ValidateCharacter(OrEmpty(body)).Ok? && old(s.ForeignKeysExist(ValidateCharacter(OrEmpty(body)).value))
            && id in Ids(old(s.characters)) ==>
              && resp == Response(200, Record(Row(id, ValidateCharacter(OrEmpty(body)).value)))
              && s.State() == old(s.State()).(characters := Update(old(s.characters), id, ValidateCharacter(OrEmpty(body)).value))
  {
    var v := ValidateCharacter(OrEmpty(body));
    if v.Err? {
      return Response(400, Message(v.error));
    }
    var item, error := s.UpdateCharacter(id, v.value);
    if error == Some(InvalidForeign) {
      return Response(400, Message(InvalidForeignKeyMessage));
    }
    if error == Some(NotFound) || item.None? {
      return Response(404, Message(NotFoundMessage));
    }
    resp := Response(200, Record(item.value));
  }

  /** `delete_character_route`: characters are deleted unconditionally. */
  method DeleteCharacterRoute(s: Store, id: int) returns (resp: Response<Row<CharacterFields>>)
    requires s.Valid()
    modifies s
    ensures s.Valid()
    ensures id !in Ids(old(s.characters)) ==> resp == Response(404, Message(NotFoundMessage)) && s.State() == old(s.State())
    ensures id in Ids(old(s.characters)) ==>
              resp == Response(200, Deleted) && s.State() == old(s.State()).(characters := Remove(old(s.characters), id))
  {
    var success := s.DeleteCharacter(id);
    if !success {
      return Response(404, Message(NotFoundMessage));
    }
    resp := Response(200, Deleted);
  }
}
