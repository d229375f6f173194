/** Decoded JSON values, as encoding/json hands them on. */
module JsonValues {
  import opened Wrappers

  datatype Json =
    | JNull
    | JBool(flag: bool)
    | JNumber(digits: string)
    | JString(text: string)
    | JArray(items: seq<Json>)
    | JObject(members: map<string, Json>)

  type Members = map<string, Json>

  /** A member read as a string: JSON null reads as the empty string. */
  function RawString(m: Members, name: string): Option<string> {
    if name !in m then None
    else match m[name]
      case JString(s) => Some(s)
      case JNull => Some("")
      case _ => None
  }

  /** The member is this string, or null for the empty one. */
  predicate HasString(m: Members, name: string, s: string) {
    name in m && (m[name] == JString(s) || (m[name] == JNull && s == ""))
  }

  lemma RawStringIs(m: Members, name: string, s: string)
    ensures RawString(m, name) == Some(s) <==> HasString(m, name, s)
  {
  }

  /** The string of a member, empty when it cannot be read as one. */
  function Text(m: Members, name: string): string {
    var s := RawString(m, name);
    if s.Some? then s.value else ""
  }

  function StringItem(item: Json): Option<string> {
    match item
    case JString(s) => Some(s)
    case JNull => Some("")
    case _ => None
  }

  /** An array of strings as encoding/json fills a []string. */
  function Strings(items: seq<Json>): Option<seq<string>> {
    if forall i :: 0 <= i < |items| ==> StringItem(items[i]).Some? then
      Some(seq(|items|, i requires 0 <= i < |items| && StringItem(items[i]).Some? => StringItem(items[i]).value))
    else None
  }
}
