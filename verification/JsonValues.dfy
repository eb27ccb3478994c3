/** JSON values, read the way serde_json's accessors read them. */
module JsonValues {
  import opened Wrappers
  import opened Words

  datatype Json =
    | Null
    | Bool(flag: bool)
    | Number(value: int)
    | Fraction(digits: string)
    | Str(text: string)
    | Array(items: seq<Json>)
    | Object(fields: map<string, Json>)
  {
    function Get(name: string): Option<Json> {
      if Object? && name in fields then Some(fields[name]) else None
    }

    function GetStr(name: string): Option<string> {
      match Get(name)
      case Some(Str(text)) => Some(text)
      case _ => None
    }

    function GetU64(name: string): Option<nat> {
      match Get(name)
      case Some(Number(value)) => if 0 <= value <= U64_MAX then Some(value) else None
      case _ => None
    }
  }

  const EMPTY_OBJECT: Json := Object(map[])
}
