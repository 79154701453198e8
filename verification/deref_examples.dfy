/**
 * The dereferencer and the loader together, on small documents: seeded and
 * fetched documents, same-document references and nested references.
 */
module DerefExamples {
  import opened Wrappers
  import opened Documents
  import opened UrlParse
  import opened Pointer
  import opened PointerPaths
  import opened PointerExamples
  import opened Deref
  import opened Proxy
  import opened Loader
  import opened Http

  /**
   * With `{"a": {"b": 42}}` stored under "mem://x", "mem://x#/a/b" yields 42
   * from the store without a fetch.
   */
  lemma SeededStoreLookup(normalize: Uri -> Uri, body: Uri -> Option<Json>, doc: Json)
    requires normalize("mem://x") == "mem://x"
    requires doc == JObject(map["a" := JObject(map["b" := JInt(42)])])
    ensures DereferenceOutcome(normalize, body, map["mem://x" := doc], "mem://x#/a/b") ==
      Outcome(Ok(JInt(42)), map["mem://x" := doc], [])
  {
    SameBaseDifferentFragments("mem://x", "/a/b", "");
    assert "mem://x" + "#" + "/a/b" == "mem://x#/a/b";
    NestedLookupFound(doc, "/a/b");
  }

  /**
   * Two references to one document that differ only in their fragment make
   * exactly one GET between them when the document is not yet stored.
   */
  lemma FragmentsShareOneFetch(normalize: Uri -> Uri, body: Uri -> Option<Json>, store: map<Uri, Json>,
                               base: Uri, f: string, g: string)
    requires '#' !in base && normalize(base) !in store && body(base).Some?
    ensures var first := DereferenceOutcome(normalize, body, store, base + "#" + f);
      var second := DereferenceOutcome(normalize, body, first.store, base + "#" + g);
      && first.fetched == [base]
      && second.fetched == []
      && second.result == Resolve(body(base).value, g)
  {
    SameBaseDifferentFragments(base, f, g);
    SameBaseDifferentFragments(base, g, f);
    SecondDereferenceHitsCache(normalize, body, store, base + "#" + f, base + "#" + g);
  }

  /** `loadp` turns `{"x": {"$ref": "#/y"}, "y": 7}` into a reference at "x" and keeps "y". */
  lemma LoadSameDocumentReference(doc: Json)
    requires doc == JObject(map["x" := JObject(map["$ref" := JStr("#/y")]), "y" := JInt(7)])
    ensures Loadp(doc) == LObject(map["x" := LRef(LStr("#/y")), "y" := LInt(7)])
  {
    var m := doc.fields;
    assert Loadp(m["x"]) == LRef(LStr("#/y"));
    assert Loadp(m["y"]) == LInt(7);
    assert (map k | k in m :: Loadp(m[k])) == map["x" := LRef(LStr("#/y")), "y" := LInt(7)];
  }

  /**
   * Observing that reference: "#/y" has an empty document part. While the
   * loaders' shared store is still empty the document is fetched from ""
   * (the base URI is not threaded through); a store seeded with the document under "" yields
   * 7 without a fetch.
   */
  lemma SameDocumentReference(normalize: Uri -> Uri, body: Uri -> Option<Json>, doc: Json)
    requires normalize("") == ""
    requires doc == JObject(map["x" := JObject(map["$ref" := JStr("#/y")]), "y" := JInt(7)])
    ensures DereferenceRef(normalize, body, map[], LStr("#/y")).fetched == [""]
    ensures body("").None? ==> DereferenceRef(normalize, body, map[], LStr("#/y")).result == Err(RequestError(""))
    ensures DereferenceRef(normalize, body, map["" := doc], LStr("#/y")) == Outcome(Ok(JInt(7)), map["" := doc], [])
  {
    SameBaseDifferentFragments("", "/y", "");
    assert "" + "#" + "/y" == "#/y";
    EscapeOne('y');
    assert EscapeAll(["y"]) == ["y"];
    assert Render(["y"]) == "/y";
    assert ["y"][1..] == [];
    assert Follow(doc, ["y"]) == Some(JInt(7));
    ResolveRendered(doc, ["y"]);
  }

  /**
   * A reference object on a fresh dereferencer with an empty store: building
   * it makes no GET; a first observation that succeeds makes exactly one, and
   * a second observation returns the same value without another.
   */
  method FetchOnceAcrossObservations(normalize: Uri -> Uri, body: Uri -> Option<Json>, ref: Loaded)
    returns (first: Result<Json, Error>, second: Result<Json, Error>, ghost fetches: nat)
    ensures first.Ok? ==> second == first && fetches == 1
  {
    var web := new Web(body);
    var dereferencer := new Dereferencer(normalize, map[], web);
    var proxy := new RefObject(ref, dereferencer);
    assert web.requests == [];
    first := proxy.Observe(j => j);
    ghost var afterFirst := |web.requests|;
    second := proxy.Observe(j => j);
    fetches := |web.requests|;
    assert first.Ok? ==> fetches == afterFirst == 1;
  }

  /** `{"$ref": {"$ref": u}}` read with the hook is a reference whose target is itself a reference object. */
  lemma HookNestedReference(u: Uri, j: Json)
    requires j == JObject(map["$ref" := JObject(map["$ref" := JStr(u)])])
    ensures HookLoad(j) == LRef(LRef(LStr(u)))
  {
    var inner := j.fields["$ref"];
    assert (map k | k in inner.fields :: HookLoad(inner.fields[k])) == map["$ref" := LStr(u)];
    assert HookLoad(inner) == LRef(LStr(u));
    assert (map k | k in j.fields :: HookLoad(j.fields[k])) == map["$ref" := LRef(LStr(u))];
  }

  /**
   * Observing the outer reference object, whose reference is the inner
   * object `LRef(LStr(u))`, dereferences the inner one, with one GET of `u`,
   * and then fails: the truthy document has no `decode`. The
   * fetched document stays cached and the outer reference stays unresolved.
   */
  lemma NestedReferenceFetchesThenFails(normalize: Uri -> Uri, body: Uri -> Option<Json>, store: map<Uri, Json>,
                                        u: Uri, doc: Json, ref: Loaded)
    requires '#' !in u && normalize(u) !in store && body(u) == Some(doc) && Truthy(doc)
    requires ref == LRef(LStr(u))
    ensures var (r, s, o) := Observation(normalize, body, store, ref, Unresolved);
      && r == Err(AttributeError)
      && s == Unresolved
      && o.fetched == [u]
      && o.store == store[normalize(u) := doc]
  {
    assert Resolve(doc, "") == Ok(doc);
  }
}
