/** JSON values. Objects are finite maps: nothing here depends on the order of members. */
module JsonTrees {

  datatype Json =
    | Null
    | Bool(b: bool)
    | Number(n: int)
    | Str(s: string)
    | Arr(items: seq<Json>)
    | Obj(fields: map<string, Json>)
}
