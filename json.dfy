/** The JSON values the model exchanges with the text-generation collaborator (numbers are integers only). */
module JsonValue {

  datatype Json =
    | JNull
    | JBool(b: bool)
    | JInt(n: int)
    | JStr(s: string)
    | JArr(items: seq<Json>)
    | JObj(fields: map<string, Json>)

  /** `isinstance(v, int)`: in Python a bool is an int. */
  predicate IsPyInt(j: Json) {
    j.JInt? || j.JBool?
  }

  /** The integer a Python int or bool stands for (True == 1, False == 0). */
  function AsPyInt(j: Json): int
    requires IsPyInt(j)
  {
    if j.JInt? then j.n else if j.b then 1 else 0
  }
}
