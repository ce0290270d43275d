/**
 * Documents as Go holds them after json.Unmarshal into interface{}, and what a
 * document becomes when it is marshalled and read back.
 */
module Json {
  import opened GoStrings

  /** `Strs` is a Go []string: it marshals like an array but is not an []interface{}. */
  datatype Json =
    | Null
    | Bool(b: bool)
    | Number(n: real)
    | Text(s: Str)
    | Array(items: seq<Json>)
    | Object(fields: Doc)
    | Strs(ts: seq<Str>)

  type Doc = map<string, Json>

  predicate HasText(d: Doc, key: string) {
    key in d && d[key].Text?
  }

  predicate HasArray(d: Doc, key: string) {
    key in d && d[key].Array?
  }

  predicate HasObject(d: Doc, key: string) {
    key in d && d[key].Object?
  }

  /** A value that json.Unmarshal can produce: no []string, and every string is UTF-8. */
  predicate FromJson(j: Json) {
    match j
    case Text(s) => Valid(s)
    case Array(items) => forall i :: 0 <= i < |items| ==> FromJson(items[i])
    case Object(fields) => forall k :: k in fields ==> FromJson(fields[k])
    case Strs(_) => false
    case _ => true
  }

  predicate DocFromJson(d: Doc) {
    forall k :: k in d ==> FromJson(d[k])
  }

  function TextOf(s: Str): Json {
    Text(Sanitize(s))
  }

  /** json.Marshal followed by json.Unmarshal. */
  function Wire(j: Json): Json {
    match j
    case Text(s) => TextOf(s)
    case Array(items) => Array(seq(|items|, i requires 0 <= i < |items| => Wire(items[i])))
    case Object(fields) => Object(map k | k in fields :: Wire(fields[k]))
    case Strs(ts) => Array(seq(|ts|, i requires 0 <= i < |ts| => TextOf(ts[i])))
    case _ => j
  }

  function WireDoc(d: Doc): Doc {
    map k | k in d :: Wire(d[k])
  }

  /** Marshalling and reading back changes exactly what did not come from JSON. */
  lemma {:induction false} WireFixes(j: Json)
    ensures FromJson(j) <==> Wire(j) == j
  {
    match j
    case Text(s) => EncodeDecode(s);
    case Array(items) =>
      forall i | 0 <= i < |items| ensures FromJson(items[i]) <==> Wire(items[i]) == items[i] {
        WireFixes(items[i]);
      }
      if Wire(j) == j {
        assert forall i :: 0 <= i < |items| ==> Wire(j).items[i] == items[i];
      } else {
        assert Wire(j).items != items;
      }
    case Object(fields) =>
      forall k | k in fields ensures FromJson(fields[k]) <==> Wire(fields[k]) == fields[k] {
        WireFixes(fields[k]);
      }
      if Wire(j) == j {
        assert forall k :: k in fields ==> Wire(j).fields[k] == fields[k];
      } else {
        assert Wire(j).fields != fields;
      }
    case Strs(_) =>
    case _ =>
  }
}
