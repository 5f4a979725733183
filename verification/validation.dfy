/**
 * Payload validation (app/utils.py): each validator maps a request body to
 * the normalised fields of a record, or to the message that rejects it.
 * The checks run in a fixed order, so it is fixed which message wins.
 */
module Validation {
  import opened Wrappers
  import opened Text
  import opened Entities

  const InvalidPayload := "Invalid payload"
  const NameRequired := "Name is required"
  const TypeRequired := "Type is required"
  const IdsRequired := "stat_id, class_id, and weapon_id are required"

  /** `parse_int(value)`: `int(value)`, or `None` where `int` raises. A string
      is accepted when it strips to integer text of at most `MaxStrDigits`
      digits and holds none of the four separators, which `strip` cuts off
      but `int` refuses. */
  function ParseInt(v: Value): (r: Option<int>)
    ensures v.Int? ==> r == Some(v.i)
    ensures v.Null? || v.Other? ==> r == None
    ensures v.Str? ==> (r.Some? <==> IsIntegerText(Strip(v.s)) && DigitCount(Strip(v.s)) <= MaxStrDigits && NoSeparator(v.s))
  {
    match v
    case Int(i) => Some(i)
    case Str(s) =>
      var t := Strip(s);
      if NoSeparator(s) && IsIntegerText(t) && DigitCount(t) <= MaxStrDigits then Some(IntegerValue(t)) else None
    case _ => None
  }

  /** `s` is the integer text `s[lo..hi]`, within the digit limit, with only
      whitespace that `int()` skips on either side of it. */
  predicate IntPadded(s: string, lo: nat, hi: nat) {
    && lo <= hi <= |s|
    && AllIntSpace(s[..lo])
    && IsIntegerText(s[lo..hi])
    && DigitCount(s[lo..hi]) <= MaxStrDigits
    && AllIntSpace(s[hi..])
  }

  /** Integer text is neither whitespace nor a separator at any position. */
  lemma IntegerTextSolid(t: string)
    requires IsIntegerText(t)
    ensures t != [] && !IsSpace(t[0]) && !IsSpace(t[|t| - 1])
    ensures NoSeparator(t)
  {
    if t[0] == '+' || t[0] == '-' {
      forall i | 1 <= i < |t| ensures IsDigit(t[i]) {
        assert t[i] == t[1..][i - 1];
      }
    }
  }

  /** Integer text within the digit limit, with `int()` whitespace around it,
      parses to the integer the text denotes. */
  lemma ParseIntPadded(s: string, lo: nat, hi: nat)
    requires IntPadded(s, lo, hi)
    ensures ParseInt(Str(s)) == Some(IntegerValue(s[lo..hi]))
  {
    var pre, t, post := s[..lo], s[lo..hi], s[hi..];
    assert s == pre + t + post;
    IntegerTextSolid(t);
    StripAround(pre, t, post);
    NoSeparatorJoined(pre, t, post);
  }

  /** Whitespace around a text that neither starts nor ends with whitespace is
      exactly what `strip` removes. */
  lemma StripAround(pre: string, t: string, post: string)
    requires AllIntSpace(pre) && AllIntSpace(post)
    requires t != [] && !IsSpace(t[0]) && !IsSpace(t[|t| - 1])
    ensures Strip(pre + t + post) == t
  {
    assert pre + t + post == pre + (t + post);
    assert (t + post)[0] == t[0];
    TrimStartPrefix(pre, t + post);
    TrimEndSuffix(t, post);
  }

  lemma NoSeparatorJoined(pre: string, t: string, post: string)
    requires AllIntSpace(pre) && NoSeparator(t) && AllIntSpace(post)
    ensures NoSeparator(pre + t + post)
  {
    var s := pre + t + post;
    forall i | 0 <= i < |s| ensures !IsSeparator(s[i]) {
      if i < |pre| {
        assert s[i] == pre[i];
      } else if i < |pre| + |t| {
        assert s[i] == t[i - |pre|];
      } else {
        assert s[i] == post[i - |pre| - |t|];
      }
    }
  }

  /** `int()` accepts a string exactly when it is integer text within the digit
      limit with only `int()` whitespace around it. */
  lemma ParseIntAccepts(s: string)
    ensures ParseInt(Str(s)).Some? <==> exists lo: nat, hi: nat :: IntPadded(s, lo, hi)
  {
    if ParseInt(Str(s)).Some? {
      var lo, hi := StrippedPadding(s);
    }
    if exists lo: nat, hi: nat :: IntPadded(s, lo, hi) {
      var lo: nat, hi: nat :| IntPadded(s, lo, hi);
      ParseIntPadded(s, lo, hi);
    }
  }

  /** What `strip` cuts off a string without separators is `int()` whitespace. */
  lemma StrippedPadding(s: string) returns (lo: nat, hi: nat)
    requires NoSeparator(s) && IsIntegerText(Strip(s)) && DigitCount(Strip(s)) <= MaxStrDigits
    ensures IntPadded(s, lo, hi)
  {
    var r := Strip(s);
    StripSpan(s);
    lo :| StrippedAt(s, r, lo);
    hi := lo + |r|;
    PaddedAt(s, r, lo);
  }

  lemma PaddedAt(s: string, r: string, lo: nat)
    requires StrippedAt(s, r, lo) && NoSeparator(s)
    requires IsIntegerText(r) && DigitCount(r) <= MaxStrDigits
    ensures IntPadded(s, lo, lo + |r|)
  {
    var hi := lo + |r|;
    assert s[..lo] == s[0..lo] && s[hi..] == s[hi..|s|];
    IntSpaceRun(s, 0, lo);
    IntSpaceRun(s, hi, |s|);
  }

  /** A run of whitespace in a string without separators is `int()` whitespace. */
  lemma IntSpaceRun(s: string, a: nat, b: nat)
    requires a <= b <= |s| && NoSeparator(s) && AllSpace(s[a..b])
    ensures AllIntSpace(s[a..b])
  {
    forall i | 0 <= i < b - a ensures IsIntSpace(s[a..b][i]) {
      assert s[a..b][i] == s[a + i];
    }
  }

  /** A decimal integer string within the digit limit parses back to the
      integer it shows, whatever whitespace that `int()` skips surrounds it. */
  lemma ParseIntShown(i: int, before: string, after: string)
    requires AllIntSpace(before) && AllIntSpace(after)
    requires DigitCount(ShowInt(i)) <= MaxStrDigits
    ensures ParseInt(Str(before + ShowInt(i) + after)) == Some(i)
  {
    var body := ShowInt(i);
    var s := before + body + after;
    var hi := |before| + |body|;
    assert s[..|before|] == before && s[|before|..hi] == body && s[hi..] == after;
    ShowIntRoundTrip(i);
    ParseIntPadded(s, |before|, hi);
  }

  /** Text one digit longer than the limit does not parse, and text at the
      limit does. */
  lemma DigitLimitRefused()
    ensures ParseInt(Str(seq(MaxStrDigits + 1, _ => '1'))).None?
    ensures ParseInt(Str(seq(MaxStrDigits, _ => '1'))).Some?
  {
    var over := seq(MaxStrDigits + 1, _ => '1');
    var at := seq(MaxStrDigits, _ => '1');
    assert IntPadded(at, 0, |at|) by {
      assert at[..0] == [] && at[0..|at|] == at && at[|at|..] == [];
    }
    ParseIntPadded(at, 0, |at|);
    StripUnchanged(over);
  }

  /** `int()` skips a vertical tab and a no-break space around the digits, but
      refuses a file separator that `strip` alone would have cut off. */
  lemma SeparatorRefused()
    ensures ParseInt(Str([11 as char, '5', 0xA0 as char])) == Some(5)
    ensures ParseInt(Str([0x1C as char, '5'])) == None
  {
    var padded := [11 as char, '5', 0xA0 as char];
    assert IntPadded(padded, 1, 2) by {
      assert padded[..1] == [11 as char] && padded[1..2] == "5" && padded[2..] == [0xA0 as char];
    }
    assert IntegerValue(padded[1..2]) == 5 by {
      assert padded[1..2] == "5";
      assert DigitsValue("5") == DigitsValue("") * 10 + 5;
    }
    ParseIntPadded(padded, 1, 2);
    var separated := [0x1C as char, '5'];
    assert !NoSeparator(separated) by {
      assert IsSeparator(separated[0]);
    }
  }

  lemma {:induction false} TrimStartPrefix(pre: string, rest: string)
    requires AllSpace(pre) && rest != [] && !IsSpace(rest[0])
    ensures TrimStart(pre + rest) == rest
  {
    if pre != [] {
      assert (pre + rest)[1..] == pre[1..] + rest;
      TrimStartPrefix(pre[1..], rest);
    } else {
      assert pre + rest == rest;
    }
  }

  lemma {:induction false} TrimEndSuffix(body: string, post: string)
    requires AllSpace(post) && body != [] && !IsSpace(body[|body| - 1])
    ensures TrimEnd(body + post) == body
  {
    if post != [] {
      assert (body + post)[..|body + post| - 1] == body + post[..|post| - 1];
      TrimEndSuffix(body, post[..|post| - 1]);
    } else {
      assert body + post == body;
    }
  }

  /** `not v or not isinstance(v, str)` is false: `v` is a non-empty string. */
  predicate IsNonEmptyStr(v: Value) {
    v.Str? && v.s != ""
  }

  /** `str(v)` after a `None` description has been replaced by `""`. */
  function Stringify(v: Value): string {
    match v
    case Null => ""
    case Int(i) => ShowInt(i)
    case Str(s) => s
    case Other(shown) => shown
  }

  /** The normalised description: `payload.get("description", "")`, `None` read
      as `""`, converted with `str` and stripped. */
  function DescriptionOf(fields: map<string, Value>): string {
    Strip(Stringify(Get(fields, "description")))
  }

  /** A missing or `null` description becomes the empty string. */
  lemma DescriptionDefault(fields: map<string, Value>)
    requires "description" !in fields || fields["description"] == Null
    ensures DescriptionOf(fields) == ""
  {
  }

  /** `validate_class_payload` */
  function ValidateClass(p: Payload): (r: Result<ClassFields>)
    ensures p.NonObject? ==> r == Err(InvalidPayload)
    ensures p.Object? ==> (r.Ok? <==> IsNonEmptyStr(Get(p.fields, "name")))
    ensures p.Object? && r.Err? ==> r.error == NameRequired
    ensures r.Ok? ==> r.value == ClassFields(Strip(Get(p.fields, "name").s), DescriptionOf(p.fields))
  {
    match p
    case NonObject(_) => Err(InvalidPayload)
    case Object(fields) =>
      var name := Get(fields, "name");
      if !IsNonEmptyStr(name) then Err(NameRequired)
      else Ok(ClassFields(Strip(name.s), DescriptionOf(fields)))
  }

  /** Emptiness is tested before trimming: a name made only of whitespace is
      accepted and stored as the empty string. */
  lemma ClassBlankNameAccepted(fields: map<string, Value>, blank: string)
    requires blank != [] && AllSpace(blank)
    requires "name" in fields && fields["name"] == Str(blank)
    ensures ValidateClass(Object(fields)) == Ok(ClassFields("", DescriptionOf(fields)))
  {
    StripAllSpace(blank);
  }

  /** Both normalised fields are free of whitespace at their ends. */
  lemma ClassFieldsStripped(p: Payload)
    requires ValidateClass(p).Ok?
    ensures var c := ValidateClass(p).value;
      && Strip(c.name) == c.name
      && Strip(c.description) == c.description
  {
    StripIdempotent(Get(p.fields, "name").s);
    StripIdempotent(Stringify(Get(p.fields, "description")));
  }

  /** `validate_weapon_payload` */
  function ValidateWeapon(p: Payload): (r: Result<WeaponFields>)
    ensures p.NonObject? ==> r == Err(InvalidPayload)
    ensures p.Object? && !IsNonEmptyStr(Get(p.fields, "name")) ==> r == Err(NameRequired)
    ensures p.Object? && IsNonEmptyStr(Get(p.fields, "name")) && !IsNonEmptyStr(Get(p.fields, "type"))
            ==> r == Err(TypeRequired)
    ensures r.Ok? <==> p.Object? && IsNonEmptyStr(Get(p.fields, "name")) && IsNonEmptyStr(Get(p.fields, "type"))
    ensures r.Ok? ==> r.value == WeaponFields(Strip(Get(p.fields, "name").s), Strip(Get(p.fields, "type").s),
                                              DescriptionOf(p.fields))
  {
    match p
    case NonObject(_) => Err(InvalidPayload)
    case Object(fields) =>
      var name := Get(fields, "name");
      var weaponType := Get(fields, "type");
      if !IsNonEmptyStr(name) then Err(NameRequired)
      else if !IsNonEmptyStr(weaponType) then Err(TypeRequired)
      else Ok(WeaponFields(Strip(name.s), Strip(weaponType.s), DescriptionOf(fields)))
  }

  /** The name is checked before the type: a payload with neither is reported
      as missing its name, one with only a name as missing its type. */
  lemma WeaponNameBeforeType(p: Payload)
    requires p.Object? && "type" !in p.fields
    ensures "name" !in p.fields ==> ValidateWeapon(p) == Err(NameRequired)
    ensures IsNonEmptyStr(Get(p.fields, "name")) ==> ValidateWeapon(p) == Err(TypeRequired)
  {
  }

  /** `parse_int(payload.get(key))` succeeds. */
  predicate Parses(fields: map<string, Value>, f: StatField) {
    ParseInt(Get(fields, Key(f))).Some?
  }

  /** `StatFields[k]` is the first attribute, in validation order, that does not parse. */
  predicate FirstUnparsed(fields: map<string, Value>, k: int) {
    && 0 <= k < |StatFields|
    && !Parses(fields, StatFields[k])
    && forall j :: 0 <= j < k ==> Parses(fields, StatFields[j])
  }

  /** `message` is what `validate_stats_payload` rejects `p` with: "Invalid
      payload" for a body that is not an object, else the first attribute that
      does not parse. */
  ghost predicate StatsRejected(p: Payload, message: string) {
    if p.NonObject? then message == InvalidPayload
    else exists k :: FirstUnparsed(p.fields, k) && message == Key(StatFields[k]) + " is required"
  }

  /** `validate_stats_payload`: parses the six attributes in order, filling
      `values` one by one and stopping at the first that does not parse. */
  method ValidateStats(p: Payload) returns (r: Result<StatValues>)
    ensures p.NonObject? ==> r == Err(InvalidPayload)
    ensures r.Ok? <==> p.Object? && forall f :: Parses(p.fields, f)
    ensures r.Ok? ==> forall f :: Some(r.value.Get(f)) == ParseInt(Get(p.fields, Key(f)))
    ensures p.Object? && r.Err? ==>
              exists k :: FirstUnparsed(p.fields, k) && r.error == Key(StatFields[k]) + " is required"
  {
    if p.NonObject? {
      return Err(InvalidPayload);
    }
    var values: map<StatField, int> := map[];
    var i := 0;
    while i < |StatFields|
      invariant 0 <= i <= |StatFields|
      invariant forall j :: 0 <= j < i ==>
                  StatFields[j] in values && Some(values[StatFields[j]]) == ParseInt(Get(p.fields, Key(StatFields[j])))
    {
      var field := StatFields[i];
      var val := ParseInt(Get(p.fields, Key(field)));
      if val.None? {
        assert FirstUnparsed(p.fields, i);
        assert !Parses(p.fields, field);
        return Err(Key(field) + " is required");
      }
      StatFieldsListed(field);
      values := values[field := val.value];
      i := i + 1;
    }
    EveryFieldParsed(p.fields, values);
    r := Ok(StatValues(values[Strength], values[Intelligence], values[Dexterity],
                       values[Stamina], values[Faith], values[Agility]));
    forall f ensures r.value.Get(f) == values[f] {
      match f
      case Strength =>
      case Intelligence =>
      case Dexterity =>
      case Stamina =>
      case Faith =>
      case Agility =>
    }
  }

  /** Once the six attributes in validation order are filled in, every
      attribute is. */
  lemma EveryFieldParsed(fields: map<string, Value>, values: map<StatField, int>)
    requires forall j :: 0 <= j < |StatFields| ==>
               StatFields[j] in values && Some(values[StatFields[j]]) == ParseInt(Get(fields, Key(StatFields[j])))
    ensures forall f :: f in values && Parses(fields, f) && Some(values[f]) == ParseInt(Get(fields, Key(f)))
  {
    forall f ensures f in values && Parses(fields, f) && Some(values[f]) == ParseInt(Get(fields, Key(f))) {
      StatFieldsListed(f);
    }
  }

  /** `validate_character_payload` */
  function ValidateCharacter(p: Payload): (r: Result<CharacterFields>)
    ensures p.NonObject? ==> r == Err(InvalidPayload)
    ensures p.Object? && !IsNonEmptyStr(Get(p.fields, "name")) ==> r == Err(NameRequired)
    ensures p.Object? && IsNonEmptyStr(Get(p.fields, "name")) && !AllIdsParse(p.fields) ==> r == Err(IdsRequired)
    ensures r.Ok? <==> p.Object? && IsNonEmptyStr(Get(p.fields, "name")) && AllIdsParse(p.fields)
    ensures r.Ok? ==>
              && r.value.name == Strip(Get(p.fields, "name").s)
              && Some(r.value.statId) == ParseInt(Get(p.fields, "stat_id"))
              && Some(r.value.classId) == ParseInt(Get(p.fields, "class_id"))
              && Some(r.value.weaponId) == ParseInt(Get(p.fields, "weapon_id"))
  {
    match p
    case NonObject(_) => Err(InvalidPayload)
    case Object(fields) =>
      var name := Get(fields, "name");
      var statId := ParseInt(Get(fields, "stat_id"));
      var classId := ParseInt(Get(fields, "class_id"));
      var weaponId := ParseInt(Get(fields, "weapon_id"));
      if !IsNonEmptyStr(name) then Err(NameRequired)
      else if statId.None? || classId.None? || weaponId.None? then Err(IdsRequired)
      else Ok(CharacterFields(Strip(name.s), statId.value, classId.value, weaponId.value))
  }

  predicate AllIdsParse(fields: map<string, Value>) {
    && ParseInt(Get(fields, "stat_id")).Some?
    && ParseInt(Get(fields, "class_id")).Some?
    && ParseInt(Get(fields, "weapon_id")).Some?
  }
}
