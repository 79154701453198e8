/**
 * `Dereferencer`: splits a URI into document and fragment, takes the document
 * from the store or fetches and caches it, then resolves the fragment in it.
 */
module Deref {
  import opened Wrappers
  import opened Documents
  import opened PyStr
  import opened UrlParse
  import opened Pointer
  import opened UriStore
  import opened Http

  /** What one dereference yields, the store it leaves, and the GETs it made. */
  datatype Outcome = Outcome(result: Result<Json, Error>, store: map<Uri, Json>, fetched: seq<Uri>)

  /** The store only grows: every entry of `before` is in `after`, unchanged. */
  ghost predicate Extends(before: map<Uri, Json>, after: map<Uri, Json>)
  {
    forall k | k in before :: k in after && after[k] == before[k]
  }

  /**
   * `dereference(full_uri)` against a store, given the URI normalization and
   * what the web answers: a cached document is used as is; a missing one is
   * fetched once and cached under its normal form, even when the fragment
   * then fails to resolve.
   */
  function DereferenceOutcome(normalize: Uri -> Uri, body: Uri -> Option<Json>, store: map<Uri, Json>, fullUri: Uri): (o: Outcome)
    ensures Extends(store, o.store)
    ensures o.fetched == [] <==> normalize(Urldefrag(fullUri).0) in store
    ensures o.fetched == [] ==> o.store == store
    ensures o.fetched != [] ==> o.fetched == [Urldefrag(fullUri).0]
    ensures o.store.Keys <= store.Keys + {normalize(Urldefrag(fullUri).0)}
    ensures normalize(Urldefrag(fullUri).0) in store ==>
      o.result == Resolve(store[normalize(Urldefrag(fullUri).0)], Urldefrag(fullUri).1)
    ensures o.fetched != [] && body(Urldefrag(fullUri).0).None? ==>
      o.result == Err(RequestError(Urldefrag(fullUri).0)) && o.store == store
    ensures o.fetched != [] && body(Urldefrag(fullUri).0).Some? ==>
      && o.store == store[normalize(Urldefrag(fullUri).0) := body(Urldefrag(fullUri).0).value]
      && o.result == Resolve(body(Urldefrag(fullUri).0).value, Urldefrag(fullUri).1)
  {
    var (base, fragment) := Urldefrag(fullUri);
    var key := normalize(base);
    if key in store then Outcome(Resolve(store[key], fragment), store, [])
    else
      match body(base)
      case None => Outcome(Err(RequestError(base)), store, [base])
      case Some(document) => Outcome(Resolve(document, fragment), store[key := document], [base])
  }

  /** A cached document is used without a fetch, and the store is left alone. */
  lemma CachedDocumentReused(normalize: Uri -> Uri, body: Uri -> Option<Json>, store: map<Uri, Json>, fullUri: Uri)
    requires normalize(Urldefrag(fullUri).0) in store
    ensures DereferenceOutcome(normalize, body, store, fullUri) ==
      Outcome(Resolve(store[normalize(Urldefrag(fullUri).0)], Urldefrag(fullUri).1), store, [])
  {
  }

  /**
   * Once a dereference has fetched a document, a later dereference of any URI
   * whose document part normalizes the same way reuses it: together the two
   * make at most one GET.
   */
  lemma SecondDereferenceHitsCache(normalize: Uri -> Uri, body: Uri -> Option<Json>, store: map<Uri, Json>, u: Uri, v: Uri)
    requires normalize(Urldefrag(u).0) == normalize(Urldefrag(v).0)
    requires normalize(Urldefrag(u).0) in store || body(Urldefrag(u).0).Some?
    ensures var first := DereferenceOutcome(normalize, body, store, u);
      var second := DereferenceOutcome(normalize, body, first.store, v);
      && second.fetched == []
      && second.store == first.store
      && |first.fetched| + |second.fetched| <= 1
      && second.result == Resolve(first.store[normalize(Urldefrag(u).0)], Urldefrag(v).1)
  {
  }

  /** Dereferencing the same URI again gives the same result and fetches nothing. */
  lemma DereferenceIdempotent(normalize: Uri -> Uri, body: Uri -> Option<Json>, store: map<Uri, Json>, u: Uri)
    requires normalize(Urldefrag(u).0) in store || body(Urldefrag(u).0).Some?
    ensures var first := DereferenceOutcome(normalize, body, store, u);
      DereferenceOutcome(normalize, body, first.store, u) == Outcome(first.result, first.store, [])
  {
    SecondDereferenceHitsCache(normalize, body, store, u, u);
  }

  /** `Dereferencer(store)` with its `dereference`, `remote` and `resolve_pointer`. */
  class Dereferencer {
    const store: UriDict
    const web: Web

    /** `Dereferencer(entries)`: a store of its own, seeded with a copy of the entries. */
    constructor (normalize: Uri -> Uri, entries: map<Uri, Json>, web: Web)
      ensures fresh(store) && store.normalize == normalize && store.store == entries
      ensures this.web == web
    {
      store := new UriDict(normalize, entries);
      this.web := web;
    }

    /** `dereference(full_uri)`. */
    method Dereference(fullUri: Uri) returns (r: Result<Json, Error>)
      modifies store, web
      ensures var o := DereferenceOutcome(store.normalize, web.body, old(store.store), fullUri);
        && r == o.result
        && store.store == o.store
        && web.requests == old(web.requests) + o.fetched
    {
      var (uri, fragment) := Urldefrag(fullUri);
      var document;
      if store.Contains(uri) {
        document := store.Get(uri).value;
      } else {
        var fetched := Remote(uri);
        if fetched.Err? {
          return Err(fetched.error);
        }
        document := fetched.value;
      }
      r := ResolvePointer(document, fragment);
    }

    /** `remote(uri)`: GETs `uri` and stores the body under its normal form, replacing any entry. */
    method Remote(uri: Uri) returns (r: Result<Json, Error>)
      modifies store, web
      ensures web.requests == old(web.requests) + [uri]
      ensures web.body(uri).None? ==> r == Err(RequestError(uri)) && store.store == old(store.store)
      ensures web.body(uri).Some? ==>
        && r == Ok(web.body(uri).value)
        && store.store == old(store.store)[store.normalize(uri) := web.body(uri).value]
    {
      var response := web.Get(uri);
      if response.None? {
        return Err(RequestError(uri));
      }
      store.Set(uri, response.value);
      r := Ok(response.value);
    }

    /** `resolve_pointer(document, pointer)`: the loop over the pointer's tokens. */
    method ResolvePointer(document: Json, pointer: string) returns (r: Result<Json, Error>)
      ensures r == Resolve(document, pointer)
    {
      var parts := Tokens(pointer);
      var current := document;
      for i := 0 to |parts|
        invariant Walk(document, parts, pointer) == Walk(current, parts[i..], pointer)
      {
        var part := Unescape(parts[i]);
        var found := Contains(current, part);
        if found.Err? {
          return Err(found.error);
        }
        if !found.value {
          return Err(LookupError(pointer));
        }
        var next := Subscript(current, part);
        if next.Err? {
          return Err(next.error);
        }
        current := next.value;
      }
      r := Ok(current);
    }
  }
}
