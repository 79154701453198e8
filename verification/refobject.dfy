/**
 * `RefObject` and its `dereferencing` wrapper: a reference that stays
 * unresolved until it is first observed, then keeps the resolved value.
 */
module Proxy {
  import opened Wrappers
  import opened Documents
  import opened UrlParse
  import opened Pointer
  import opened Deref

  /** The two states of a reference object. */
  datatype ProxyState = Unresolved | Resolved(value: Json)

  /**
   * What `urldefrag` makes of a reference that is not a string: a truthy one
   * is asked for its `decode` and has none; a falsy one becomes the empty
   * bytes URI, which no store key matches and which `requests` refuses as
   * having no scheme, before anything is sent.
   */
  function NotAString(truthy: bool): (e: Error)
    ensures e == AttributeError <==> truthy
  {
    if truthy then AttributeError else RequestError("")
  }

  /**
   * `RefObject.dereference()` against a store: `dereferencer.dereference(self.ref)`.
   * A string reference is dereferenced as a URI. A reference that is itself
   * a reference object `LRef(inner)` (the hook builds these from nested
   * `{"$ref": {"$ref": ...}}`) is dereferenced first, by the formatting of
   * the log line or by the truth test in `urldefrag`; the outer one then
   * fails as a non-string with the truth value of what the inner one
   * resolved to. Any other value fails inside `urldefrag` with no GET.
   */
  function DereferenceRef(normalize: Uri -> Uri, body: Uri -> Option<Json>, store: map<Uri, Json>, ref: Loaded): (o: Outcome)
    ensures Extends(store, o.store)
    ensures |o.fetched| <= 1
    ensures ref.LStr? ==> o == DereferenceOutcome(normalize, body, store, ref.str)
    ensures !ref.LStr? ==> o.result.Err?
    ensures !ref.LStr? && !ref.LRef? ==> o.store == store && o.fetched == []
    ensures !ref.LStr? && o.result != Err(AttributeError) && o.result != Err(RequestError("")) ==>
      ref.LRef? && o == DereferenceRef(normalize, body, store, ref.target)
    decreases ref
  {
    match ref
    case LStr(s) => DereferenceOutcome(normalize, body, store, s)
    case LRef(inner) =>
      var i := DereferenceRef(normalize, body, store, inner);
      if i.result.Err? then i
      else Outcome(Err(NotAString(Truthy(i.result.value))), i.store, i.fetched)
    case LObject(m) => Outcome(Err(NotAString(m != map[])), store, [])
    case LArray(xs) => Outcome(Err(NotAString(xs != [])), store, [])
    case LInt(n) => Outcome(Err(NotAString(n != 0)), store, [])
    case LBool(b) => Outcome(Err(NotAString(b)), store, [])
    case LNull => Outcome(Err(NotAString(false)), store, [])
  }

  /**
   * One observation (the `dereferencing` wrapper): an unresolved reference
   * is dereferenced and, on success, becomes resolved; a resolved one hands
   * back its value and touches nothing. A failed dereference leaves the
   * reference unresolved, so the next observation tries again.
   */
  function Observation(normalize: Uri -> Uri, body: Uri -> Option<Json>, store: map<Uri, Json>, ref: Loaded, state: ProxyState)
    : (r: (Result<Json, Error>, ProxyState, Outcome))
    ensures state.Resolved? ==> r == (Ok(state.value), state, Outcome(Ok(state.value), store, []))
    ensures state.Unresolved? ==> r.2 == DereferenceRef(normalize, body, store, ref)
    ensures r.2.result == r.0
    ensures r.0.Ok? <==> r.1.Resolved?
    ensures r.0.Ok? ==> r.1 == Resolved(r.0.value)
    ensures Extends(store, r.2.store)
  {
    match state
    case Resolved(v) => (Ok(v), state, Outcome(Ok(v), store, []))
    case Unresolved =>
      var o := DereferenceRef(normalize, body, store, ref);
      (o.result, if o.result.Ok? then Resolved(o.result.value) else Unresolved, o)
  }

  /**
   * The first observation of a string reference is its dereference: a
   * document that is not stored yet is fetched once and cached under its
   * normal form, the fragment is resolved in it, and the reference becomes
   * resolved to that value exactly when the resolution succeeds.
   */
  lemma FirstObservationFetches(normalize: Uri -> Uri, body: Uri -> Option<Json>, store: map<Uri, Json>, ref: string)
    requires normalize(Urldefrag(ref).0) !in store && body(Urldefrag(ref).0).Some?
    ensures var (r, s, o) := Observation(normalize, body, store, LStr(ref), Unresolved);
      var document := body(Urldefrag(ref).0).value;
      && o.fetched == [Urldefrag(ref).0]
      && o.store == store[normalize(Urldefrag(ref).0) := document]
      && r == Resolve(document, Urldefrag(ref).1)
      && s == (if r.Ok? then Resolved(r.value) else Unresolved)
  {
  }

  /** A reference that is not a string never resolves: every observation fails and leaves it unresolved. */
  lemma NonStringNeverResolves(normalize: Uri -> Uri, body: Uri -> Option<Json>, store: map<Uri, Json>, ref: Loaded)
    requires !ref.LStr?
    ensures var (r, s, o) := Observation(normalize, body, store, ref, Unresolved);
      r.Err? && s == Unresolved && |o.fetched| <= 1
  {
  }

  /**
   * The memoization law: a resolved reference answers any number of further
   * observations with its value, makes no GET and leaves the store as it is.
   */
  lemma {:induction false} ResolvedStaysPut(normalize: Uri -> Uri, body: Uri -> Option<Json>, store: map<Uri, Json>,
                                            ref: Loaded, v: Json, n: nat)
    ensures Repeat(normalize, body, store, ref, Resolved(v), n) == (Ok(v), Resolved(v), Outcome(Ok(v), store, []))
    decreases n
  {
    var once := Observation(normalize, body, store, ref, Resolved(v));
    assert once == (Ok(v), Resolved(v), Outcome(Ok(v), store, []));
    if n > 0 {
      ResolvedStaysPut(normalize, body, store, ref, v, n - 1);
      var rest := Repeat(normalize, body, store, ref, Resolved(v), n - 1);
      assert once.2.fetched + rest.2.fetched == [];
    }
  }

  /**
   * A reference is dereferenced at most once: after an observation that
   * succeeded, `n` further observations return the same value and make no GET.
   */
  lemma ObservationsAfterSuccess(normalize: Uri -> Uri, body: Uri -> Option<Json>, store: map<Uri, Json>,
                                 ref: Loaded, state: ProxyState, n: nat)
    requires Observation(normalize, body, store, ref, state).0.Ok?
    ensures var (r, s, o) := Observation(normalize, body, store, ref, state);
      && |o.fetched| <= 1
      && Repeat(normalize, body, o.store, ref, s, n) == (r, s, Outcome(r, o.store, []))
  {
    var (r, s, o) := Observation(normalize, body, store, ref, state);
    ResolvedStaysPut(normalize, body, o.store, ref, r.value, n);
  }

  /** `n` further observations in a row, with the GETs they make between them. */
  function Repeat(normalize: Uri -> Uri, body: Uri -> Option<Json>, store: map<Uri, Json>, ref: Loaded, state: ProxyState, n: nat)
    : (last: (Result<Json, Error>, ProxyState, Outcome))
    requires state.Resolved?
    decreases n
  {
    var (r, s, o) := Observation(normalize, body, store, ref, state);
    if n == 0 then (r, s, o)
    else
      var (r', s', o') := Repeat(normalize, body, o.store, ref, s, n - 1);
      (r', s', Outcome(r', o'.store, o.fetched + o'.fetched))
  }

  /**
   * `self.dereferencer.dereference(self.ref)` for any reference value, with
   * the inner reference object of a nested reference dereferenced first.
   */
  method DereferenceTarget(dereferencer: Dereferencer, ref: Loaded) returns (r: Result<Json, Error>)
    modifies dereferencer.store, dereferencer.web
    ensures var o := DereferenceRef(dereferencer.store.normalize, dereferencer.web.body, old(dereferencer.store.store), ref);
      && r == o.result
      && dereferencer.store.store == o.store
      && dereferencer.web.requests == old(dereferencer.web.requests) + o.fetched
    decreases ref
  {
    match ref
    case LStr(s) =>
      r := dereferencer.Dereference(s);
    case LRef(inner) =>
      var v := DereferenceTarget(dereferencer, inner);
      if v.Err? {
        return v;
      }
      r := Err(NotAString(Truthy(v.value)));
    case LObject(m) => r := Err(NotAString(m != map[]));
    case LArray(xs) => r := Err(NotAString(xs != []));
    case LInt(n) => r := Err(NotAString(n != 0));
    case LBool(b) => r := Err(NotAString(b));
    case LNull => r := Err(NotAString(false));
  }

  /** `RefObject(ref, dereferencer=...)`. */
  class RefObject {
    /** `urljoin("", ref)`, which is `ref` itself: every caller passes no base URI. */
    const ref: Loaded
    var dereferenced: bool
    /** `self.object`: the cached value; `None`, i.e. JSON null, until the first dereference. */
    var cached: Json
    const dereferencer: Dereferencer

    ghost function State(): (s: ProxyState)
      reads this
    {
      if dereferenced then Resolved(cached) else Unresolved
    }

    /** Construction resolves nothing: no GET, no change to the store. */
    constructor (ref: Loaded, dereferencer: Dereferencer)
      ensures this.ref == ref && this.dereferencer == dereferencer
      ensures !dereferenced && cached == JNull && State() == Unresolved
      ensures unchanged(dereferencer, dereferencer.store, dereferencer.web)
    {
      this.ref := ref;
      dereferenced := false;
      cached := JNull;
      this.dereferencer := dereferencer;
    }

    /**
     * `dereference()`: asks the dereferencer once, whatever the state; on
     * success caches the value and marks the object dereferenced, on failure
     * leaves both fields as they were and raises.
     */
    method Dereference() returns (err: Option<Error>)
      modifies this, dereferencer.store, dereferencer.web
      ensures var o := DereferenceRef(dereferencer.store.normalize, dereferencer.web.body, old(dereferencer.store.store), ref);
        && dereferencer.store.store == o.store
        && dereferencer.web.requests == old(dereferencer.web.requests) + o.fetched
        && (o.result.Ok? ==> err == None && dereferenced && cached == o.result.value)
        && (o.result.Err? ==> err == Some(o.result.error) && dereferenced == old(dereferenced) && cached == old(cached))
    {
      var r := DereferenceTarget(dereferencer, ref);
      if r.Err? {
        return Some(r.error);
      }
      cached := r.value;
      dereferenced := true;
      err := None;
    }

    /**
     * An observation through the `dereferencing` wrapper: `op` applied to the
     * resolved value (repr, str, iter, bool, getattr are all such an `op`).
     */
    method Observe<T>(op: Json -> T) returns (r: Result<T, Error>)
      modifies this, dereferencer.store, dereferencer.web
      ensures var (res, s, o) := Observation(dereferencer.store.normalize, dereferencer.web.body,
                                              old(dereferencer.store.store), ref, old(State()));
        && State() == s
        && dereferencer.store.store == o.store
        && dereferencer.web.requests == old(dereferencer.web.requests) + o.fetched
        && r == (if res.Ok? then Ok(op(res.value)) else Err(res.error))
      ensures old(dereferenced) ==> unchanged(this)
    {
      if !dereferenced {
        var err := Dereference();
        if err.Some? {
          return Err(err.value);
        }
      }
      r := Ok(op(cached));
    }
  }
}
