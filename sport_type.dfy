/** The sport catalog. Unlike the step catalogs, the display order of a sport
    is one less than its id. */
module SportTypes {
  import opened Base
  import opened Json

  datatype Sport = Swimming

  function SportName(s: Sport): string {
    match s
    case Swimming => "swimming"
  }

  function ParseSport(name: string): (r: Option<Sport>)
    ensures r.Some? ==> SportName(r.value) == name
  {
    if name == "swimming" then Some(Swimming) else None
  }

  /** The catalog read backwards. */
  function SportOfId(id: int): Option<Sport> {
    if id == 4 then Some(Swimming) else None
  }

  datatype SportType = SportType(sportTypeKey: Sport)

  /** Storing the sport key as given. */
  function New(sport: Sport): (t: SportType)
    ensures t.sportTypeKey == sport
  {
    SportType(sport)
  }

  /** The numeric wire id; every id is at least 1 and identifies the sport. */
  function SportTypeId(t: SportType): (id: U8)
    ensures id >= 1
    ensures SportOfId(id) == Some(t.sportTypeKey)
  {
    match t.sportTypeKey
    case Swimming => 4
  }

  /** The display order is the id minus one. The `u8` subtraction cannot
      underflow, because every id is at least 1. */
  function DisplayOrder(t: SportType): (d: U8)
    ensures d + 1 == SportTypeId(t)
    ensures d < SportTypeId(t)
  {
    SportTypeId(t) - 1
  }

  /** Swimming: id 4, display order 3. */
  lemma SwimmingNumbers()
    ensures SportTypeId(New(Swimming)) == 4 && DisplayOrder(New(Swimming)) == 3
  {
  }

  const SportTypeFields: seq<string> := ["sportTypeId", "sportTypeKey", "displayOrder"]

  /** The hand-written serialiser: three fields in this order. */
  function Serialize(t: SportType): (j: Json)
    ensures j.JObject? && Keys(j.fields) == SportTypeFields
    ensures j.fields[1].1 == JString(SportName(t.sportTypeKey))
    ensures j.fields[0].1.JInt? && SportOfId(j.fields[0].1.i) == Some(t.sportTypeKey)
    ensures j.fields[2].1.JInt? && j.fields[2].1.i + 1 == j.fields[0].1.i
  {
    JObject([
      ("sportTypeId", JInt(SportTypeId(t))),
      ("sportTypeKey", JString(SportName(t.sportTypeKey))),
      ("displayOrder", JInt(DisplayOrder(t)))])
  }

  /** The derived deserialiser: only the key is read. */
  function Deserialize(j: Json): (r: Option<SportType>)
    ensures r.Some? ==> j.JObject?
    ensures r.Some? ==> Find(j.fields, "sportTypeKey") == Found(JString(SportName(r.value.sportTypeKey)))
  {
    if !j.JObject? then None
    else
      match RequiredField(j.fields, "sportTypeKey", ReadString)
      case Some(name) => (match ParseSport(name) case Some(s) => Some(SportType(s)) case None => None)
      case None => None
  }
  /** Conversely, any object whose sportTypeKey is found once as a sport's
      name reads as that sport, whatever other fields it has. */
  lemma DeserializeAccepts(j: Json, s: Sport)
    requires j.JObject? && Find(j.fields, "sportTypeKey") == Found(JString(SportName(s)))
    ensures Deserialize(j) == Some(SportType(s))
  {
  }


  lemma {:induction false} RoundTrip(t: SportType)
    ensures Deserialize(Serialize(t)) == Some(t)
  {
    var fields := Serialize(t).fields;
    FindDistinct(fields, 1);
  }

  /** The serialiser's fixture. */
  lemma SerializeSwimming()
    ensures Serialize(New(Swimming))
         == JObject([("sportTypeId", JInt(4)), ("sportTypeKey", JString("swimming")), ("displayOrder", JInt(3))])
  {
  }

  /** The deserialiser's fixture. */
  lemma DeserializeSwimming()
    ensures var r := Deserialize(JObject([("sportTypeId", JInt(4)), ("sportTypeKey", JString("swimming")), ("displayOrder", JInt(3))]));
            r == Some(SportType(Swimming)) && SportTypeId(r.value) == 4 && DisplayOrder(r.value) == 3
  {
    RoundTrip(New(Swimming));
  }
}
