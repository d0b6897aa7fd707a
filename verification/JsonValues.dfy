/**
 Abstract JSON. A number keeps its token, as Go's json.Number does; an object is a map, so
 member order and repeated members are not represented.
 */
module JsonValues {
  datatype Json =
    | Null
    | Bool(b: bool)
    | Num(token: string)
    | Str(s: string)
    | Arr(items: seq<Json>)
    | Obj(fields: map<string, Json>)

  type Fields = map<string, Json>

  /** The bytes of a Kafka key or value: nil, empty, not JSON, or the text of a JSON value. */
  datatype Wire = Nil | Empty | Garbage | Text(json: Json)

  /** A Kafka record as a consumer sees it. */
  datatype Raw = Raw(key: Wire, value: Wire)

  /**
   Decoding a number into Go's `any` turns it into a double, and encoding prints the double back.
   `canon` maps a token to the token so printed; nothing but numbers changes.
   */
  function Normal(canon: string -> string, j: Json): Json
    decreases j
  {
    match j
    case Null => Null
    case Bool(b) => Bool(b)
    case Num(token) => Num(canon(token))
    case Str(s) => Str(s)
    case Arr(items) => Arr(seq(|items|, i requires 0 <= i < |items| => Normal(canon, items[i])))
    case Obj(fields) => Obj(map f | f in fields :: Normal(canon, fields[f]))
  }

  function NormalFields(canon: string -> string, fields: Fields): Fields {
    map f | f in fields :: Normal(canon, fields[f])
  }

  /** Printing and reading a double again gives the same double. */
  ghost predicate Stable(canon: string -> string) {
    forall token :: canon(canon(token)) == canon(token)
  }

  lemma {:induction false} NormalTwice(canon: string -> string, j: Json)
    requires Stable(canon)
    ensures Normal(canon, Normal(canon, j)) == Normal(canon, j)
    decreases j
  {
    match j
    case Null =>
    case Bool(_) =>
    case Num(_) =>
    case Str(_) =>
    case Arr(items) =>
      forall i | 0 <= i < |items| ensures Normal(canon, Normal(canon, items[i])) == Normal(canon, items[i]) {
        NormalTwice(canon, items[i]);
      }
    case Obj(fields) =>
      forall f | f in fields ensures Normal(canon, Normal(canon, fields[f])) == Normal(canon, fields[f]) {
        NormalTwice(canon, fields[f]);
      }
  }
}
