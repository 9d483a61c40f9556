/** Values that cross the client's boundary: optional values, JSON documents
    as the Python `json` module decodes them, and the outcome of a Python call,
    which either returns a value or raises. */
module Values {

  datatype Option<+T> = None | Some(value: T)

  /** A JSON value as decoded text. Numbers keep their text, since the client
      does no arithmetic on them. Object members keep the order of the text;
      a key the text repeats stands for the last of its values, as
      `json.loads` keeps it (DictGet). */
  datatype Json =
    | JNull
    | JBool(b: bool)
    | JNumber(text: string)
    | JString(s: string)
    | JArray(items: seq<Json>)
    | JObject(members: seq<(string, Json)>)

  /** The exceptions the client lets escape: `response.json()` on a body that
      is not JSON, and `.get` on a decoded value that is not a dict. */
  datatype PyError = JsonDecodeError | AttributeError

  datatype Call<+T> = Returned(value: T) | Raised(error: PyError)

  /** `dict.get(key)` on the dict decoded from an object's members: the value
      of the last member with that key. */
  function DictGet(members: seq<(string, Json)>, key: string): (r: Option<Json>)
    ensures r.None? <==> forall e :: e in members ==> e.0 != key
    ensures r.Some? ==> exists i :: 0 <= i < |members| && members[i] == (key, r.value)
                           && forall j :: i < j < |members| ==> members[j].0 != key
  {
    if members == [] then None
    else if members[|members| - 1].0 == key then Some(members[|members| - 1].1)
    else DictGet(members[..|members| - 1], key)
  }
}
