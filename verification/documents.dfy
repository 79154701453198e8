/**
 * The values the resolver works on.
 *
 * A `Json` is a parsed document as the JSON decoder (or `requests`' `.json()`)
 * hands it over; a `Loaded` is the same tree after the loader has put a
 * reference object in place of every `{"$ref": ...}` dictionary.
 */
module Documents {

  type Uri = string

  /** A parsed JSON document: dict, list, str, int, bool or None. */
  datatype Json =
    | JObject(fields: map<string, Json>)
    | JArray(items: seq<Json>)
    | JStr(str: string)
    | JInt(num: int)
    | JBool(flag: bool)
    | JNull

  /**
   * A loaded tree: a `Json` tree in which a dictionary holding "$ref" has been
   * replaced by `LRef(target)`, a fresh, not yet dereferenced reference object
   * whose reference is `target` (the value that was stored under "$ref").
   */
  datatype Loaded =
    | LObject(fields: map<string, Loaded>)
    | LArray(items: seq<Loaded>)
    | LStr(str: string)
    | LInt(num: int)
    | LBool(flag: bool)
    | LNull
    | LRef(target: Loaded)

  /** The exceptions the core lets escape. */
  datatype Error =
    | LookupError(pointer: string)   // "Unresolvable JSON pointer", raised by resolve_pointer
    | KeyError(key: string)          // a missing dictionary key
    | TypeError                      // `in` or `[]` applied to a value that does not support it
    | AttributeError                 // `urldefrag` asked a non-string reference for its `decode`
    | RequestError(uri: Uri)         // the HTTP GET or its `.json()` decoding failed

  /** The reference-free view of a plain document as a loaded tree. */
  function Embed(j: Json): (r: Loaded)
    ensures !HasRef(r)
  {
    match j
    case JObject(m) => LObject(map k | k in m :: Embed(m[k]))
    case JArray(xs) => LArray(seq(|xs|, i requires 0 <= i < |xs| => Embed(xs[i])))
    case JStr(s) => LStr(s)
    case JInt(n) => LInt(n)
    case JBool(b) => LBool(b)
    case JNull => LNull
  }

  /** Python's truth value of a parsed value: empty containers, "", 0, False and None are false. */
  predicate Truthy(j: Json)
  {
    match j
    case JObject(m) => m != map[]
    case JArray(xs) => xs != []
    case JStr(s) => s != ""
    case JInt(n) => n != 0
    case JBool(b) => b
    case JNull => false
  }

  /** Does the loaded tree contain a reference object anywhere? */
  predicate HasRef(l: Loaded)
  {
    match l
    case LObject(m) => exists k | k in m :: HasRef(m[k])
    case LArray(xs) => exists i | 0 <= i < |xs| :: HasRef(xs[i])
    case LRef(_) => true
    case _ => false
  }
}
