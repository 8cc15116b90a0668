/** What the front-end components share: the field record, the HTTP outcome and the host. */
module Api {

  /** The server every component posts to. */
  const Host: string := "http://localhost:8000"

  /** A column definition as the front end holds it: `{ field_name, field_type }`. */
  datatype Field = Field(field_name: string, field_type: string)

  /** A JSON value as the front end receives it from the server. */
  datatype Json = JNull | JBool(b: bool) | JNum(n: real) | JStr(s: string) | JArr(elems: seq<Json>) | JObj(props: map<string, Json>)

  /** How an axios request settles: with an HTTP status, or with a transport error. */
  datatype Response = Status(code: int) | NetworkError

  /** The parent callbacks a component may invoke once its request settles. */
  datatype Callback = OnAdd | OnClose | OnCreate | OnUpdate

  /** Every component treats exactly status 200 as success. */
  predicate Succeeded(r: Response) {
    r == Status(200)
  }

  function Names(fields: seq<Field>): (r: seq<string>)
    ensures |r| == |fields|
    ensures forall i :: 0 <= i < |fields| ==> r[i] == fields[i].field_name
  {
    seq(|fields|, i requires 0 <= i < |fields| => fields[i].field_name)
  }
}
