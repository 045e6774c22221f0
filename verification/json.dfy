/** The part of `serde_json::Value` the Seek scraper reads: an already-parsed JSON document,
    the indexing operators `value[key]` and `value[index]`, and the `as_object` / `as_u64`
    accessors. */
module Json {
  import opened Outcomes

  /** The largest `u64`. */
  const U64_MAX: nat := 0xFFFF_FFFF_FFFF_FFFF

  /** A JSON number as the parser stored it: an integer, or a floating-point value (a
      number written with a fraction or an exponent, or an integer too large for 64 bits). */
  datatype Number = Int(i: int) | Float(f: real)

  datatype Json =
    | Null
    | Bool(b: bool)
    | Num(n: Number)
    | Str(s: string)
    | Array(elements: seq<Json>)
    | Object(members: seq<Member>)

  /** One key/value pair of an object, in the object's iteration order. A parsed object has
      distinct keys. */
  datatype Member = Member(key: string, value: Json)

  /** The value stored under `key`, if any (the first such member). */
  function Lookup(members: seq<Member>, key: string): (r: Option<Json>)
    ensures r.None? <==> forall i :: 0 <= i < |members| ==> members[i].key != key
    ensures r.Some? ==> exists i :: FirstWithKey(members, key, i) && members[i].value == r.value
  {
    if |members| == 0 then None
    else if members[0].key == key then
      assert FirstWithKey(members, key, 0);
      Some(members[0].value)
    else
      var r := Lookup(members[1..], key);
      assert r.Some? ==> exists i :: FirstWithKey(members, key, i) && members[i].value == r.value by {
        if r.Some? {
          var i :| FirstWithKey(members[1..], key, i) && members[1..][i].value == r.value;
          assert FirstWithKey(members, key, i + 1);
        }
      }
      r
  }

  /** Member `i` is the first one with this key. */
  predicate FirstWithKey(members: seq<Member>, key: string, i: int) {
    && 0 <= i < |members|
    && members[i].key == key
    && forall j :: 0 <= j < i ==> members[j].key != key
  }

  /** `value[key]`: the member of an object, and `Null` for a missing key or a value that is
      not an object. */
  function Field(j: Json, key: string): Json {
    match j
    case Object(members) =>
      (match Lookup(members, key)
       case Some(v) => v
       case None => Null)
    case _ => Null
  }

  /** `value[index]`: the element of an array, and `Null` for an index out of range or a
      value that is not an array. */
  function Element(j: Json, index: nat): Json {
    if j.Array? && index < |j.elements| then j.elements[index] else Null
  }

  /** `value.as_object()` */
  function AsObject(j: Json): Option<seq<Member>> {
    if j.Object? then Some(j.members) else None
  }

  /** `value.as_u64()`: an integer number in the range of `u64`, and nothing else (not a
      negative number, not a float even if its value is whole, not a numeric string). */
  function AsU64(j: Json): (r: Option<nat>)
    ensures r.Some? ==> r.value <= U64_MAX && j == Num(Int(r.value))
    ensures j.Num? && j.n.Int? && 0 <= j.n.i <= U64_MAX ==> r == Some(j.n.i)
  {
    if j.Num? && j.n.Int? && 0 <= j.n.i <= U64_MAX then Some(j.n.i) else None
  }

  lemma AsU64Examples()
    ensures AsU64(Num(Int(3))) == Some(3)
    ensures AsU64(Num(Int(-3))) == None
    ensures AsU64(Num(Float(3.0))) == None
    ensures AsU64(Str("3")) == None
    ensures AsU64(Num(Int(U64_MAX + 1))) == None
  {
  }
}
