/** The structured record that `saves`/`loads` exchange. The source writes
    it with `json.dumps` and reads it with `json.loads`; this model keeps the
    decoded value (strings, lists and objects) and leaves the JSON text out. */
module Record {
  import opened Common

  datatype Value = Str(s: string) | List(items: seq<Value>) | Object(fields: map<string, Value>)

  /** A list of strings as a record value. */
  function FromStrings(xs: seq<string>): Value {
    List(seq(|xs|, i requires 0 <= i < |xs| => Str(xs[i])))
  }

  /** A record value read back as a list of strings. */
  function ToStrings(v: Value): (r: Result<seq<string>>)
    ensures r.Ok? ==> v.List? && |r.value| == |v.items|
    ensures r.Ok? ==> forall i :: 0 <= i < |v.items| ==> v.items[i] == Str(r.value[i])
    ensures !(v.List? && forall i :: 0 <= i < |v.items| ==> v.items[i].Str?) ==> r == Err(TypeError)
  {
    if v.List? && forall i :: 0 <= i < |v.items| ==> v.items[i].Str? then
      Ok(seq(|v.items|, i requires 0 <= i < |v.items| => v.items[i].s))
    else Err(TypeError)
  }

  lemma ToFromStrings(xs: seq<string>)
    ensures ToStrings(FromStrings(xs)) == Ok(xs)
  {
    var v := FromStrings(xs);
    assert forall i :: 0 <= i < |v.items| ==> v.items[i] == Str(xs[i]);
    assert ToStrings(v).value == xs;
  }

  /** A mapping from names to lists of names as a record value. */
  function FromMapping(m: map<string, seq<string>>): Value {
    Object(map k | k in m :: FromStrings(m[k]))
  }

  /** A record value read back as a mapping from names to lists of names. */
  function ToMapping(v: Value): (r: Result<map<string, seq<string>>>)
    ensures r.Ok? ==> v.Object? && r.value.Keys == v.fields.Keys
    ensures r.Ok? ==> forall k :: k in r.value ==> ToStrings(v.fields[k]) == Ok(r.value[k])
  {
    if v.Object? && forall k :: k in v.fields ==> ToStrings(v.fields[k]).Ok? then
      Ok(map k | k in v.fields :: ToStrings(v.fields[k]).value)
    else Err(TypeError)
  }

  lemma ToFromMapping(m: map<string, seq<string>>)
    ensures ToMapping(FromMapping(m)) == Ok(m)
  {
    var v := FromMapping(m);
    forall k | k in v.fields ensures ToStrings(v.fields[k]) == Ok(m[k]) {
      ToFromStrings(m[k]);
    }
    assert ToMapping(v).value == m;
  }

  /** `data[key]` on a loaded record: a missing key raises KeyError. */
  function Field(v: Value, key: string): (r: Result<Value>)
    ensures v.Object? && key in v.fields ==> r == Ok(v.fields[key])
    ensures v.Object? && key !in v.fields ==> r == Err(KeyError(key))
    ensures !v.Object? ==> r == Err(TypeError)
  {
    if !v.Object? then Err(TypeError)
    else if key in v.fields then Ok(v.fields[key])
    else Err(KeyError(key))
  }

  /** A field that must hold a string. */
  function StringField(v: Value, key: string): (r: Result<string>)
    ensures r.Ok? <==> Field(v, key).Ok? && Field(v, key).value.Str?
    ensures r.Ok? ==> Field(v, key).value == Str(r.value)
    ensures Field(v, key).Err? ==> r == Err(Field(v, key).error)
    ensures Field(v, key).Ok? && !Field(v, key).value.Str? ==> r == Err(TypeError)
  {
    match Field(v, key)
    case Ok(Str(s)) => Ok(s)
    case Ok(_) => Err(TypeError)
    case Err(e) => Err(e)
  }
}
