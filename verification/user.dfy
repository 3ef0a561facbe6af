/** `User` and its failable initialiser `User.init?(json:)`: a partial decoder
    from a parsed JSON object. */
module Users {
  import opened Wrappers
  import opened Json

  datatype User = User(id: string, name: string)

  const IdKey: string := "id"
  const NameKey: string := "name"

  /** `User(json:)`: the guard on `id` runs first, then the guard on `name`;
      either failing makes the initialiser return nil. */
  function Decode(json: JsonObject): (r: Option<User>)
    ensures r.Some? <==> (IdKey in json && json[IdKey].JStr? && NameKey in json && json[NameKey].JStr?)
    ensures r.Some? ==> json[IdKey] == JStr(r.value.id) && json[NameKey] == JStr(r.value.name)
  {
    match StringField(json, IdKey)
    case None => None
    case Some(id) =>
      match StringField(json, NameKey)
      case None => None
      case Some(name) => Some(User(id, name))
  }

  /** The smallest object a server could send for `u`; used to state the round trip. */
  function Encode(u: User): (json: JsonObject)
  {
    map[IdKey := JStr(u.id), NameKey := JStr(u.name)]
  }

  /** A missing or non-string `id` rejects the object whatever `name` holds. */
  lemma BadIdRejects(json: JsonObject, name: JsonValue)
    requires IdKey !in json || !json[IdKey].JStr?
    ensures Decode(json[NameKey := name]) == None
  {
  }

  /** A missing or non-string `name` rejects the object even when `id` is a string. */
  lemma BadNameRejects(json: JsonObject, id: string)
    requires NameKey !in json || !json[NameKey].JStr?
    ensures Decode(json[IdKey := JStr(id)]) == None
  {
  }

  /** Only the entries at `id` and `name` matter: every other key is ignored. */
  lemma DecodeReadsOnlyIdAndName(a: JsonObject, b: JsonObject)
    requires AgreeOn(a, b, IdKey) && AgreeOn(a, b, NameKey)
    ensures Decode(a) == Decode(b)
  {
  }

  /** Decoding inverts encoding, also when the server adds further keys. */
  lemma DecodeEncode(u: User, extra: JsonObject)
    ensures Decode(extra + Encode(u)) == Some(u)
  {
  }

  /** A decoded user, encoded again, is exactly the `id`/`name` part of the object it came from. */
  lemma EncodeDecode(json: JsonObject)
    requires Decode(json).Some?
    ensures Encode(Decode(json).value) == map k | k in json && k in {IdKey, NameKey} :: json[k]
  {
  }
}
