/**
 * JSON Pointer evaluation as `Dereferencer.resolve_pointer` does it: strip
 * every leading '/', percent-decode, split on '/', then for each token undo
 * the escapes "~1" -> "/" and "~0" -> "~" (in that order) and step into the
 * current value with Python's `in` and `[]`.
 */
module Pointer {
  import opened Wrappers
  import opened Documents
  import opened PyStr
  import opened UrlParse

  /** The raw tokens of a pointer: none for the empty pointer. */
  function Tokens(pointer: string): (ts: seq<string>)
    ensures pointer != "" ==> |ts| > 0
    ensures forall i | 0 <= i < |ts| :: '/' !in ts[i]
  {
    if pointer == "" then [] else Split(Unquote(Lstrip(pointer, '/')), '/')
  }

  /** A token with its JSON Pointer escapes undone: "~1" -> "/" first, then "~0" -> "~". */
  function Unescape(token: string): (part: string)
    ensures '~' !in token ==> part == token
    ensures |part| <= |token|
  {
    Replace(Replace(token, "~1", "/"), "~0", "~")
  }

  /** The escaping of section 3 of RFC 6901: "~" -> "~0" first, then "/" -> "~1". */
  function Escape(key: string): (escaped: string)
  {
    Replace(Replace(key, "~", "~0"), "/", "~1")
  }

  /** Python's `part in document`. */
  function Contains(document: Json, part: string): (r: Result<bool, Error>)
    ensures r.Err? <==> !(document.JObject? || document.JArray? || document.JStr?)
    ensures r.Err? ==> r.error == TypeError
    ensures document.JObject? ==> (r == Ok(true) <==> part in document.fields)
    ensures document.JStr? ==> (r == Ok(true) <==> exists i | 0 <= i <= |document.str| :: part <= document.str[i..])
  {
    match document
    case JObject(m) => Ok(part in m)
    case JArray(xs) => Ok(JStr(part) in xs)
    case JStr(s) => Ok(IsSubstring(part, s))
    case _ => Err(TypeError)
  }

  /** Python's `document[part]` with a string subscript. */
  function Subscript(document: Json, part: string): (r: Result<Json, Error>)
    ensures r.Ok? <==> document.JObject? && part in document.fields
    ensures r.Ok? ==> r.value == document.fields[part]
    ensures r.Err? ==> r.error == (if document.JObject? then KeyError(part) else TypeError)
  {
    match document
    case JObject(m) => if part in m then Ok(m[part]) else Err(KeyError(part))
    case _ => Err(TypeError)
  }

  /** One iteration of the loop: unescape the token, test it with `in`, then subscript. */
  function Step(document: Json, token: string, pointer: string): (r: Result<Json, Error>)
    ensures r.Ok? <==> document.JObject? && Unescape(token) in document.fields
    ensures r.Ok? ==> r.value == document.fields[Unescape(token)]
    ensures document.JObject? && r.Err? ==> r == Err(LookupError(pointer))
  {
    var part := Unescape(token);
    match Contains(document, part)
    case Err(e) => Err(e)
    case Ok(found) =>
      if !found then Err(LookupError(pointer)) else Subscript(document, part)
  }

  /** The whole loop over `tokens`, stopping at the first failure. */
  function Walk(document: Json, tokens: seq<string>, pointer: string): (r: Result<Json, Error>)
    ensures tokens == [] ==> r == Ok(document)
    ensures tokens != [] && r.Ok? ==> document.JObject?
    ensures r.Err? ==> r == Err(LookupError(pointer)) || r == Err(TypeError)
    decreases |tokens|
  {
    if tokens == [] then Ok(document)
    else
      match Step(document, tokens[0], pointer)
      case Err(e) => Err(e)
      case Ok(next) => Walk(next, tokens[1..], pointer)
  }

  /** `resolve_pointer(document, pointer)`. */
  function Resolve(document: Json, pointer: string): (r: Result<Json, Error>)
    ensures pointer == "" ==> r == Ok(document)
    ensures pointer != "" && r.Ok? ==> document.JObject?
    ensures r.Err? ==> r == Err(LookupError(pointer)) || r == Err(TypeError)
  {
    Walk(document, Tokens(pointer), pointer)
  }

  /** Evaluating the tokens `a + b` is evaluating `a` and then `b` from where `a` ended. */
  lemma {:induction false} WalkAppend(document: Json, a: seq<string>, b: seq<string>, pointer: string)
    ensures Walk(document, a + b, pointer) ==
      match Walk(document, a, pointer)
      case Err(e) => Err(e)
      case Ok(v) => Walk(v, b, pointer)
  {
    if a == [] {
      assert a + b == b;
    } else {
      assert (a + b)[0] == a[0];
      assert (a + b)[1..] == a[1..] + b;
      match Step(document, a[0], pointer)
      case Err(_) =>
      case Ok(next) => WalkAppend(next, a[1..], b, pointer);
    }
  }

  /**
   * Only dictionaries can be stepped into: from a list, a string, a number, a
   * boolean or null, any non-empty token sequence fails (no list indexing).
   */
  lemma NonObjectFails(document: Json, tokens: seq<string>, pointer: string)
    requires !document.JObject? && tokens != []
    ensures Walk(document, tokens, pointer).Err?
    ensures Walk(document, tokens, pointer) == Err(LookupError(pointer))
      || Walk(document, tokens, pointer) == Err(TypeError)
  {
  }

  /** A walk that succeeds passes through dictionaries holding each unescaped token. */
  lemma {:induction false} WalkOkMeansKeysExist(document: Json, tokens: seq<string>, pointer: string)
    requires tokens != [] && Walk(document, tokens, pointer).Ok?
    ensures document.JObject? && Unescape(tokens[0]) in document.fields
    ensures Walk(document.fields[Unescape(tokens[0])], tokens[1..], pointer) == Walk(document, tokens, pointer)
  {
  }

  /** The empty pointer addresses the whole document. */
  lemma EmptyPointer(document: Json)
    ensures Resolve(document, "") == Ok(document)
  {
  }

  /**
   * Leading '/' characters are all stripped, so two non-empty pointers that
   * agree after stripping yield the same tokens, and thus the same value and
   * the same kind of failure (a LookupError quotes the pointer as written).
   */
  lemma LeadingSlashesIgnored(document: Json, p: string, q: string)
    requires p != "" && q != "" && Lstrip(p, '/') == Lstrip(q, '/')
    ensures Tokens(p) == Tokens(q)
    ensures Resolve(document, p).Ok? <==> Resolve(document, q).Ok?
    ensures Resolve(document, p).Ok? ==> Resolve(document, p) == Resolve(document, q)
    ensures Resolve(document, p) == Err(TypeError) <==> Resolve(document, q) == Err(TypeError)
  {
    SamePointerTextAside(document, Tokens(p), p, q);
  }

  /** The pointer text only shows up in the LookupError it raises. */
  lemma {:induction false} SamePointerTextAside(document: Json, tokens: seq<string>, p: string, q: string)
    ensures Walk(document, tokens, p).Ok? <==> Walk(document, tokens, q).Ok?
    ensures Walk(document, tokens, p).Ok? ==> Walk(document, tokens, p) == Walk(document, tokens, q)
    ensures Walk(document, tokens, p) == Err(TypeError) <==> Walk(document, tokens, q) == Err(TypeError)
    ensures Walk(document, tokens, p).Err? && Walk(document, tokens, p) != Err(TypeError) ==>
      Walk(document, tokens, p) == Err(LookupError(p)) && Walk(document, tokens, q) == Err(LookupError(q))
    decreases |tokens|
  {
    if tokens != [] {
      match Step(document, tokens[0], p)
      case Err(_) =>
      case Ok(next) => SamePointerTextAside(next, tokens[1..], p, q);
    }
  }
}

/**
 * Escaping and unescaping, and what a pointer built from a key path resolves to.
 */
module PointerPaths {
  import opened Wrappers
  import opened Documents
  import opened PyStr
  import opened UrlParse
  import opened Pointer

  function EscapeChar(c: char): (escaped: string)
  {
    if c == '~' then "~0" else if c == '/' then "~1" else [c]
  }

  lemma {:induction false} EscapeCons(c: char, k: string)
    ensures Escape([c] + k) == EscapeChar(c) + Escape(k)
  {
    ReplaceCharAppend([c], k, '~', "~0");
    var t := Replace([c], "~", "~0");
    assert [c][1..] == [];
    if c == '~' {
      assert "~" <= [c];
      assert t == "~0" + Replace([], "~", "~0");
    } else {
      assert !("~" <= [c]);
      assert t == [c] + Replace([], "~", "~0");
    }
    ReplaceCharAppend(t, Replace(k, "~", "~0"), '/', "~1");
    if c == '~' {
      assert Replace("~0", "/", "~1") == "~0";
    } else {
      assert Replace([c], "/", "~1") == EscapeChar(c);
    }
  }

  lemma UnescapeCons(c: char, e: string)
    ensures Unescape(EscapeChar(c) + e) == [c] + Unescape(e)
  {
    var r := Replace(e, "~1", "/");
    var u := Replace(r, "~0", "~");
    if c == '~' {
      assert ("~0" + e)[1] == '0';
      assert !("~1" <= "~0" + e);
      assert ("~0" + e)[1..] == "0" + e;
      assert !("~1" <= "0" + e);
      assert ("0" + e)[1..] == e;
      assert Replace("0" + e, "~1", "/") == "0" + r;
      assert Replace("~0" + e, "~1", "/") == "~" + ("0" + r);
      assert "~" + ("0" + r) == "~0" + r;
      assert "~0" <= "~0" + r;
      assert ("~0" + r)[2..] == r;
      assert Replace("~0" + r, "~0", "~") == "~" + u;
    } else if c == '/' {
      assert "~1" <= "~1" + e;
      assert ("~1" + e)[2..] == e;
      assert Replace("~1" + e, "~1", "/") == "/" + r;
      assert !("~0" <= "/" + r);
      assert ("/" + r)[1..] == r;
      assert Replace("/" + r, "~0", "~") == "/" + u;
    } else {
      assert ([c] + e)[0] == c && "~1"[0] == '~';
      assert !("~1" <= [c] + e);
      assert ([c] + e)[1..] == e;
      assert Replace([c] + e, "~1", "/") == [c] + r;
      assert !("~0" <= [c] + r);
      assert ([c] + r)[1..] == r;
      assert Replace([c] + r, "~0", "~") == [c] + u;
    }
  }

  /** Unescaping undoes the RFC 6901 escaping: every key is recovered from its escaped form. */
  lemma {:induction false} UnescapeEscape(key: string)
    ensures Unescape(Escape(key)) == key
  {
    if key == [] {
    } else {
      assert key == [key[0]] + key[1..];
      EscapeCons(key[0], key[1..]);
      UnescapeCons(key[0], Escape(key[1..]));
      UnescapeEscape(key[1..]);
    }
  }

  /** Escaping adds only '~', '0' and '1'; it removes every '/'. */
  lemma {:induction false} EscapeChars(key: string)
    ensures '/' !in Escape(key)
    ensures forall c | c in Escape(key) :: c in key || c == '~' || c == '0' || c == '1'
    ensures key != [] ==> Escape(key) != []
  {
    if key != [] {
      assert key == [key[0]] + key[1..];
      EscapeCons(key[0], key[1..]);
      EscapeChars(key[1..]);
    }
  }

  /** Descend through dictionaries by literal keys: the meaning a key path is meant to have. */
  function Follow(document: Json, path: seq<string>): (r: Option<Json>)
    decreases |path|
  {
    if path == [] then Some(document)
    else if document.JObject? && path[0] in document.fields then Follow(document.fields[path[0]], path[1..])
    else None
  }

  /** Following `path` stops at a dictionary that lacks the next key. */
  predicate MissingInDict(document: Json, path: seq<string>)
    decreases |path|
  {
    && path != []
    && document.JObject?
    && (path[0] !in document.fields || MissingInDict(document.fields[path[0]], path[1..]))
  }

  function EscapeAll(path: seq<string>): (ts: seq<string>)
    ensures |ts| == |path|
    ensures forall i | 0 <= i < |path| :: ts[i] == Escape(path[i])
  {
    if path == [] then [] else [Escape(path[0])] + EscapeAll(path[1..])
  }

  /** The pointer text for a key path: "/" followed by the escaped keys joined by "/". */
  function Render(path: seq<string>): (pointer: string)
  {
    if path == [] then "" else "/" + Join(EscapeAll(path), '/')
  }

  /** Walking the escaped tokens of a key path is following the path itself. */
  lemma {:induction false} WalkEscaped(document: Json, path: seq<string>, pointer: string)
    ensures Walk(document, EscapeAll(path), pointer).Ok? <==> Follow(document, path).Some?
    ensures Follow(document, path).Some? ==> Walk(document, EscapeAll(path), pointer).value == Follow(document, path).value
    ensures MissingInDict(document, path) ==> Walk(document, EscapeAll(path), pointer) == Err(LookupError(pointer))
    decreases |path|
  {
    if path != [] {
      UnescapeEscape(path[0]);
      assert EscapeAll(path)[1..] == EscapeAll(path[1..]);
      if document.JObject? && path[0] in document.fields {
        WalkEscaped(document.fields[path[0]], path[1..], pointer);
      }
    }
  }

  /** Joining separator-free parts and splitting again gives the parts back. */
  lemma {:induction false} SplitJoin(parts: seq<string>, sep: char)
    requires |parts| > 0
    requires forall i | 0 <= i < |parts| :: sep !in parts[i]
    ensures Split(Join(parts, sep), sep) == parts
    decreases |parts|
  {
    if |parts| == 1 {
      SplitWithoutSep(parts[0], sep);
    } else {
      SplitJoin(parts[1..], sep);
      SplitAtSep(parts[0], Join(parts[1..], sep), sep);
      assert [parts[0]] + parts[1..] == parts;
    }
  }

  lemma {:induction false} JoinChars(parts: seq<string>, sep: char, c: char)
    requires |parts| > 0
    requires forall i | 0 <= i < |parts| :: c !in parts[i]
    requires c != sep
    ensures c !in Join(parts, sep)
    decreases |parts|
  {
    if |parts| > 1 {
      JoinChars(parts[1..], sep, c);
    }
  }

  /**
   * A rendered key path resolves to the value the path leads to, and fails
   * exactly when the path leads nowhere. The keys must be free of '%' (the
   * fragment is percent-decoded first), and the first key must not be empty:
   * stripping every leading '/' would swallow it.
   */
  lemma ResolveRendered(document: Json, path: seq<string>)
    requires forall i | 0 <= i < |path| :: '%' !in path[i]
    requires path != [] ==> path[0] != ""
    ensures Resolve(document, Render(path)).Ok? <==> Follow(document, path).Some?
    ensures Follow(document, path).Some? ==> Resolve(document, Render(path)) == Ok(Follow(document, path).value)
    ensures MissingInDict(document, path) ==> Resolve(document, Render(path)) == Err(LookupError(Render(path)))
  {
    if path != [] {
      var ts := EscapeAll(path);
      forall i | 0 <= i < |ts| ensures '/' !in ts[i] && '%' !in ts[i] {
        EscapeChars(path[i]);
      }
      var joined := Join(ts, '/');
      EscapeChars(path[0]);
      assert joined[..|ts[0]|] == ts[0] by { JoinPrefix(ts, '/'); }
      assert joined[0] != '/';
      assert Lstrip("/" + joined, '/') == joined by {
        assert ("/" + joined)[1..] == joined;
      }
      JoinChars(ts, '/', '%');
      UnquotePlain(joined);
      SplitJoin(ts, '/');
      assert Tokens(Render(path)) == ts;
      WalkEscaped(document, path, Render(path));
    }
  }

  lemma {:induction false} JoinPrefix(parts: seq<string>, sep: char)
    requires |parts| > 0
    ensures |parts[0]| <= |Join(parts, sep)| && Join(parts, sep)[..|parts[0]|] == parts[0]
  {
  }

  /**
   * Stripping every leading '/' departs from section 4 of RFC 6901: the
   * pointer "//a" should select member "a" of the member named "" but is
   * read as "a".
   */
  lemma DoubleSlashSkipsEmptyKey(doc: Json, pointer: string)
    requires doc == JObject(map["" := JObject(map["a" := JInt(1)])]) && pointer == "//a"
    ensures Follow(doc, ["", "a"]) == Some(JInt(1))
    ensures Resolve(doc, pointer) == Err(LookupError(pointer))
  {
    assert Lstrip(pointer, '/') == "a" by {
      assert pointer[1..] == "/a";
      assert "/a"[1..] == "a";
    }
    UnquotePlain("a");
    SplitWithoutSep("a", '/');
    assert Tokens(pointer) == ["a"];
    assert Unescape("a") == "a";
    assert "a" !in doc.fields;
    assert ["", "a"][1..] == ["a"];
    assert ["a"][1..] == [];
  }

  /**
   * Percent-decoding runs after the slashes are stripped, so an encoded
   * slash reaches the member named "": "/%2Fa" is read as the tokens "" and
   * "a", and selects member "a" of member "".
   */
  lemma EncodedSlashReachesEmptyKey(doc: Json, pointer: string)
    requires doc == JObject(map["" := JObject(map["a" := JInt(1)])]) && pointer == "/%2Fa"
    ensures Resolve(doc, pointer) == Ok(JInt(1))
  {
    assert Lstrip(pointer, '/') == "%2Fa" by {
      assert pointer[1..] == "%2Fa";
    }
    assert StartsWithAsciiEscape("%2Fa");
    assert (HexValue('2') * 16 + HexValue('F')) as char == '/';
    UnquotePlain("a");
    assert "%2Fa"[3..] == "a";
    assert Unquote("%2Fa") == "/a";
    SplitAtSep("", "a", '/');
    SplitWithoutSep("a", '/');
    assert "" + ['/'] + "a" == "/a";
    assert Tokens(pointer) == ["", "a"];
    assert Unescape("") == "";
    assert Unescape("a") == "a";
    var inner := doc.fields[""];
    assert Walk(inner, ["a"], pointer) == Ok(JInt(1)) by {
      assert ["a"][1..] == [];
    }
    assert ["", "a"][1..] == ["a"];
  }
}
