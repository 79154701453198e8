/** `_URIDict`: the document store, keyed by normalized URI. */
module UriStore {
  import opened Wrappers
  import opened Documents

  /**
   * A dictionary whose keys pass through `normalize` on every get, set and
   * delete, so that URIs with the same normal form share one entry.
   */
  class UriDict {
    /** `urlsplit(uri).geturl()`; the model assumes nothing about it. */
    const normalize: Uri -> Uri
    /** `self.store`, the underlying dict. */
    var store: map<Uri, Json>

    /** `_URIDict(entries)`: `update` copies the entries verbatim; their keys are not normalized. */
    constructor (normalize: Uri -> Uri, entries: map<Uri, Json>)
      ensures this.normalize == normalize && store == entries
    {
      this.normalize := normalize;
      store := entries;
    }

    /** `self[uri]`: looks up the normal form of `uri`; None is the KeyError. */
    function Get(uri: Uri): (r: Option<Json>)
      reads this
      ensures r.Some? <==> normalize(uri) in store
      ensures r.Some? ==> r.value == store[normalize(uri)]
    {
      if normalize(uri) in store then Some(store[normalize(uri)]) else None
    }

    /** `uri in self` (MutableMapping's `__contains__` tries `self[uri]`). */
    predicate Contains(uri: Uri)
      reads this
      ensures Contains(uri) <==> Get(uri).Some?
    {
      normalize(uri) in store
    }

    /** `self[uri] = value`: writes the entry of the normal form, leaves every other entry. */
    method Set(uri: Uri, value: Json)
      modifies this
      ensures store == old(store)[normalize(uri) := value]
      ensures Get(uri) == Some(value)
      ensures forall u :: normalize(u) != normalize(uri) ==> Get(u) == old(Get(u))
    {
      store := store[normalize(uri) := value];
    }

    /** `del self[uri]`: removes the entry of the normal form; KeyError when there is none. */
    method Delete(uri: Uri) returns (err: Option<Error>)
      modifies this
      ensures old(Contains(uri)) ==> err == None && store == old(store) - {normalize(uri)}
      ensures !old(Contains(uri)) ==> err == Some(KeyError(normalize(uri))) && store == old(store)
      ensures !Contains(uri)
      ensures forall u :: normalize(u) != normalize(uri) ==> Get(u) == old(Get(u))
    {
      var key := normalize(uri);
      if key in store {
        store := store - {key};
        err := None;
      } else {
        err := Some(KeyError(key));
      }
    }
  }

  /** URIs with the same normal form read the same entry. */
  lemma EquivalentUrisShareEntry(d: UriDict, u: Uri, v: Uri)
    requires d.normalize(u) == d.normalize(v)
    ensures d.Get(u) == d.Get(v)
  {
  }
}
