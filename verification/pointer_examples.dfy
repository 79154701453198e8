/**
 * The pointer walk on small documents: lookups that succeed and fail, the
 * escapes, and leading slashes.
 */
module PointerExamples {
  import opened Wrappers
  import opened Documents
  import opened PyStr
  import opened Pointer
  import opened PointerPaths

  lemma EscapeOne(c: char)
    ensures Escape([c]) == EscapeChar(c)
  {
    EscapeCons(c, []);
    assert [c] + [] == [c];
    assert Escape([]) == [];
  }

  /** The pointer for the key path [x, y] of one-character keys is "/x/y". */
  lemma RenderPair(x: char, y: char)
    requires x !in "~/" && y !in "~/"
    ensures Render([[x], [y]]) == "/" + [x] + "/" + [y]
  {
    EscapeOne(x);
    EscapeOne(y);
    var path := [[x], [y]];
    assert path[1..] == [[y]];
    assert EscapeAll(path) == [[x], [y]];
    assert Join([[x], [y]], '/') == [x] + ['/'] + Join([[y]], '/');
  }

  lemma FollowTwo(x: string, y: string, v: Json)
    ensures Follow(JObject(map[x := JObject(map[y := v])]), [x, y]) == Some(v)
  {
    var inner := JObject(map[y := v]);
    assert Follow(v, []) == Some(v);
    assert [y][1..] == [];
    assert Follow(inner, [y]) == Some(v);
    assert [x, y][1..] == [y];
  }

  /** `{"a": {"b": 42}}`: "/a/b" gives 42. */
  lemma NestedLookupFound(doc: Json, pointer: string)
    requires doc == JObject(map["a" := JObject(map["b" := JInt(42)])]) && pointer == "/a/b"
    ensures Resolve(doc, pointer) == Ok(JInt(42))
  {
    FollowTwo("a", "b", JInt(42));
    RenderPair('a', 'b');
    assert "/" + ['a'] + "/" + ['b'] == "/a/b";
    ResolveRendered(doc, ["a", "b"]);
  }

  /** `{"a": {"b": 42}}`: "/a/z" fails with the LookupError that quotes the pointer. */
  lemma NestedLookupMissing(doc: Json, pointer: string)
    requires doc == JObject(map["a" := JObject(map["b" := JInt(42)])]) && pointer == "/a/z"
    ensures Resolve(doc, pointer) == Err(LookupError(pointer))
  {
    var inner := JObject(map["b" := JInt(42)]);
    assert MissingInDict(inner, ["z"]);
    assert ["a", "z"][1..] == ["z"];
    assert MissingInDict(doc, ["a", "z"]);
    RenderPair('a', 'z');
    assert "/" + ['a'] + "/" + ['z'] == "/a/z";
    ResolveRendered(doc, ["a", "z"]);
  }

  /** `{"a": {"b": 42}}`: the empty pointer gives the whole document. */
  lemma NestedLookupEmpty(doc: Json)
    requires doc == JObject(map["a" := JObject(map["b" := JInt(42)])])
    ensures Resolve(doc, "") == Ok(doc)
  {
    EmptyPointer(doc);
  }

  lemma EscapeSlashKey()
    ensures Escape("c/d") == "c~1d"
  {
    EscapeOne('d');
    EscapeCons('/', "d");
    EscapeCons('c', "/d");
    assert ['c'] + "/d" == "c/d" && ['/'] + "d" == "/d";
    assert EscapeChar('c') + (EscapeChar('/') + "d") == "c~1d";
  }

  lemma EscapeTildeKey()
    ensures Escape("e~f") == "e~0f"
  {
    EscapeOne('f');
    EscapeCons('~', "f");
    EscapeCons('e', "~f");
    assert ['e'] + "~f" == "e~f" && ['~'] + "f" == "~f";
    assert EscapeChar('e') + (EscapeChar('~') + "f") == "e~0f";
  }

  /** "c~1d" names the key "c/d". */
  lemma TildeOneIsSlash()
    ensures Unescape("c~1d") == "c/d"
  {
    EscapeSlashKey();
    UnescapeEscape("c/d");
  }

  /** "e~0f" names the key "e~f". */
  lemma TildeZeroIsTilde()
    ensures Unescape("e~0f") == "e~f"
  {
    EscapeTildeKey();
    UnescapeEscape("e~f");
  }

  /** A one-key pointer "/" + Escape(key) selects the member `key`. */
  lemma MemberAddressed(doc: Json, key: string, pointer: string)
    requires doc.JObject? && key in doc.fields && key != "" && '%' !in key
    requires pointer == "/" + Escape(key)
    ensures Resolve(doc, pointer) == Ok(doc.fields[key])
  {
    var escaped := Escape(key);
    assert [key][1..] == [];
    assert Follow(doc, [key]) == Some(doc.fields[key]);
    assert EscapeAll([key]) == [escaped];
    assert Render([key]) == "/" + escaped;
    ResolveRendered(doc, [key]);
  }

  /** "/c~1d" selects member "c/d". */
  lemma SlashKeyAddressed(doc: Json, p: string)
    requires doc.JObject? && "c/d" in doc.fields && p == "/c~1d"
    ensures Resolve(doc, p) == Ok(doc.fields["c/d"])
  {
    EscapeSlashKey();
    MemberAddressed(doc, "c/d", p);
  }

  /** "/e~0f" selects member "e~f". */
  lemma TildeKeyAddressed(doc: Json, q: string)
    requires doc.JObject? && "e~f" in doc.fields && q == "/e~0f"
    ensures Resolve(doc, q) == Ok(doc.fields["e~f"])
  {
    EscapeTildeKey();
    MemberAddressed(doc, "e~f", q);
  }

  /** In `{"c/d": 1, "e~f": 2}`, "/c~1d" selects 1 and "/e~0f" selects 2. */
  lemma EscapedKeysAddressed(doc: Json, p: string, q: string)
    requires doc == JObject(map["c/d" := JInt(1), "e~f" := JInt(2)]) && p == "/c~1d" && q == "/e~0f"
    ensures Resolve(doc, p) == Ok(JInt(1))
    ensures Resolve(doc, q) == Ok(JInt(2))
  {
    SlashKeyAddressed(doc, p);
    TildeKeyAddressed(doc, q);
  }

  /** "~1" is replaced before "~0", so "~01" decodes to "~1", not to "/". */
  lemma ReplacementOrder()
    ensures Unescape("~01") == "~1"
  {
    EscapeOne('1');
    EscapeCons('~', "1");
    assert ['~'] + "1" == "~1";
    assert EscapeChar('~') + "1" == "~01";
    UnescapeEscape("~1");
  }

  /** "/a", "//a" and "a" all select member "a". */
  lemma LeadingSlashes(document: Json)
    ensures Resolve(document, "/a").Ok? <==> Resolve(document, "a").Ok?
    ensures Resolve(document, "/a").Ok? ==> Resolve(document, "/a") == Resolve(document, "a")
    ensures Resolve(document, "//a").Ok? <==> Resolve(document, "a").Ok?
    ensures Resolve(document, "//a").Ok? ==> Resolve(document, "//a") == Resolve(document, "a")
  {
    assert Lstrip("a", '/') == "a";
    assert Lstrip("/a", '/') == "a" by { assert "/a"[1..] == "a"; }
    assert Lstrip("//a", '/') == "a" by { assert "//a"[1..] == "/a"; }
    LeadingSlashesIgnored(document, "/a", "a");
    LeadingSlashesIgnored(document, "//a", "a");
    SplitWithoutSep("a", '/');
    EscapeOne('a');
    UnescapeEscape("a");
    assert Tokens("a") == ["a"] by { UrlParse.UnquotePlain("a"); }
  }
}
