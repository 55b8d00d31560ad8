/** A JSON document as the text parser hands it over, and the typed readings of
    one value that the binding's derived decoders perform. Numbers are
    integers: the answer envelope carries no fractional number. */
module JsonValue {
  import opened Wrappers

  datatype Value =
    | JNull
    | JBool(b: bool)
    | JNumber(n: int)
    | JString(s: string)
    | JArray(items: seq<Value>)
    | JObject(fields: map<string, Value>)

  /** The member `key` of an object, if present. Unknown members are ignored by
      every decoder: they only ever look members up. */
  function Member(v: Value, key: string): (r: Option<Value>)
    ensures r.Some? <==> v.JObject? && key in v.fields
    ensures r.Some? ==> r.value == v.fields[key]
  {
    if v.JObject? && key in v.fields then Some(v.fields[key]) else None
  }

  /** A `String`. */
  function AsString(v: Value): (r: Option<string>)
    ensures r.Some? <==> v.JString?
    ensures r.Some? ==> v == JString(r.value)
  {
    if v.JString? then Some(v.s) else None
  }

  /** A `bool`. */
  function AsBool(v: Value): (r: Option<bool>)
    ensures r.Some? <==> v.JBool?
    ensures r.Some? ==> v == JBool(r.value)
  {
    if v.JBool? then Some(v.b) else None
  }

  /** An `i32`: an integer in range, anything else is a decoding error. */
  function AsInt32(v: Value): (r: Option<int32>)
    ensures r.Some? <==> v.JNumber? && -0x8000_0000 <= v.n < 0x8000_0000
    ensures r.Some? ==> v == JNumber(r.value as int)
  {
    if v.JNumber? && -0x8000_0000 <= v.n < 0x8000_0000 then Some(v.n as int32) else None
  }

  /** The strings of an array, decoded in order; the first element that is not
      a string fails the whole array. */
  function StringsOf(items: seq<Value>): (r: Option<seq<string>>)
    ensures r.Some? <==> forall i :: 0 <= i < |items| ==> items[i].JString?
    ensures r.Some? ==> |r.value| == |items| && forall i :: 0 <= i < |items| ==> items[i] == JString(r.value[i])
  {
    if |items| == 0 then Some([])
    else if !items[0].JString? then None
    else
      match StringsOf(items[1..])
      case None => None
      case Some(rest) => Some([items[0].s] + rest)
  }

  /** A `Vec<String>`. */
  function AsStrings(v: Value): (r: Option<seq<string>>)
    ensures r.Some? <==> v.JArray? && forall i :: 0 <= i < |v.items| ==> v.items[i].JString?
    ensures r.Some? ==> |r.value| == |v.items| && forall i :: 0 <= i < |v.items| ==> v.items[i] == JString(r.value[i])
  {
    if v.JArray? then StringsOf(v.items) else None
  }

  /** A `HashMap<String, String>`: an object whose members are all strings. */
  function AsStringMap(v: Value): (r: Option<map<string, string>>)
    ensures r.Some? <==> v.JObject? && forall k :: k in v.fields ==> v.fields[k].JString?
    ensures r.Some? ==> r.value.Keys == v.fields.Keys
    ensures r.Some? ==> forall k :: k in r.value ==> v.fields[k] == JString(r.value[k])
  {
    if v.JObject? && forall k :: k in v.fields ==> v.fields[k].JString?
    then Some(map k | k in v.fields :: v.fields[k].s)
    else None
  }

  /** An `Option<String>` member: absent or `null` is `None`. */
  function AsOptionalString(member: Option<Value>): (r: Option<Option<string>>)
    ensures r.Some? <==> member.None? || member.value.JNull? || member.value.JString?
    ensures r == Some(None) <==> member.None? || member.value.JNull?
    ensures member.Some? && member.value.JString? ==> r == Some(Some(member.value.s))
  {
    match member
    case None => Some(None)
    case Some(JNull) => Some(None)
    case Some(JString(s)) => Some(Some(s))
    case Some(_) => None
  }

  /** Writing a `Vec<String>`; reading it back gives the same strings. */
  function FromStrings(xs: seq<string>): (r: Value)
    ensures AsStrings(r) == Some(xs)
  {
    var r := JArray(seq(|xs|, i requires 0 <= i < |xs| => JString(xs[i])));
    assert StringsOf(r.items).Some?;
    var back := StringsOf(r.items).value;
    assert forall i :: 0 <= i < |xs| ==> r.items[i] == JString(back[i]) == JString(xs[i]);
    assert back == xs;
    r
  }

  /** Writing a `HashMap<String, String>`; reading it back gives the same map. */
  function FromStringMap(m: map<string, string>): (r: Value)
    ensures AsStringMap(r) == Some(m)
  {
    var r := JObject(map k | k in m :: JString(m[k]));
    assert AsStringMap(r).Some?;
    assert AsStringMap(r).value == m;
    r
  }

  /** Writing an `Option<String>` (`None` as `null`); reading it back gives the
      same option. */
  function FromOptionalString(o: Option<string>): (r: Value)
    ensures AsOptionalString(Some(r)) == Some(o)
  {
    match o
    case None => JNull
    case Some(s) => JString(s)
  }
}
