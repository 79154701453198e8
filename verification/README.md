# jsonref in Dafny

A model of `jsonref.py`, a resolver for JSON References (`{"$ref": "<uri>"}`), with proofs about it. The model has four parts:

- **The document store** (`_URIDict`, module `UriStore`). It is a dictionary whose keys pass through `normalize` (`urlsplit(uri).geturl()`) on every get, set and delete. It is a class whose `store` map the methods reassign. `normalize` is a `const` function field, and the model assumes nothing about it.
- **The dereferencer** (`Dereferencer`, module `Deref`). `dereference` splits a URI at its fragment. It takes the document from the store, or fetches it and caches it under its normal form. Then `resolve_pointer` walks the document by the fragment. The walk is a `for` loop, proved equal to the pure definition in module `Pointer`. The GET (`requests.get(uri).json()`) goes to a `Web` oracle (module `Http`). Its `body` function gives what a GET returns, and its ghost `requests` log counts the fetches.
- **The reference object** (`RefObject` and the `dereferencing` wrapper, module `Proxy`). It starts with `dereferenced == False` and `object == None`, which is JSON null. The first observation dereferences once and caches the value. Later observations reuse the cache. The class methods are tied to a pure two-state model (`Unresolved`/`Resolved`), and the memoization law is proved on that model.
- **The loaders** (`loadp` and the hook `_as_ref_object`, module `Loader`). Both replace every dictionary that holds `"$ref"` with a reference object. In a `Loaded` tree this is written `LRef(target)`.

Python's string operations (`lstrip`, `split`, `replace`, `in`) are in `PyStr`. `urldefrag` and `unquote` are in `UrlParse`.

Where the code departs from RFC 6901 or from what its names suggest, the model follows the code:

- `resolve_pointer` strips every leading `/`, not just one. So `"/a"`, `"//a"` and `"a"` are the same pointer, and the literal `"//a"` does not select member `"a"` of the member named `""`, as section 4 of RFC 6901 would have it (`DoubleSlashSkipsEmptyKey`). Such paths are still reachable: percent-decoding runs after the stripping, so `"/%2Fa"` selects exactly that member (`EncodedSlashReachesEmptyKey`), and `"/"` alone selects the key `""`.
- Lists cannot be indexed. `part in document` on a list compares `part` with the elements, and `document[part]` then raises `TypeError`. On a string, `in` is a substring test. On numbers, booleans and null, it raises `TypeError`. A step from anything but a dictionary always fails.
- An empty document part (a `"#/y"` reference) gets no special treatment. It is looked up under `normalize("")`, or fetched from `""`. The loaders create their references on the shared, process-wide default dereferencer. Its store starts empty and holds only what it has fetched since, so a same-document reference resolves only if something stored under `normalize("")` already, or if the web answers a GET of `""`.
- `Dereferencer(store)` copies the entries it is given into a `_URIDict` of its own. Seeded keys are copied verbatim, without normalization. The caller's mapping is not shared.
- The exceptions that escape are Python's own: `LookupError` from the pointer walk, `TypeError` from `in` on a scalar or `[]` on a list or string, `AttributeError` from `urldefrag` on a reference that is not a string, `KeyError` from deleting a missing store entry, whatever the HTTP request or its JSON decoding raises (`RequestError` here), and the `ValueError` that `urlsplit` raises on a malformed URI (not modelled, see below). The walk never raises `KeyError`: `[]` only runs after `in` found the key.
- A reference that is not a string is not rejected up front. A truthy one fails in `urldefrag` with `AttributeError`. A falsy one becomes the empty bytes URI, which `requests` refuses. A reference that is itself a reference object, which the hook builds from `{"$ref": {"$ref": u}}`, dereferences the inner object first, with a possible GET of `u`, and then fails the same way.

## Model

| member | source | states |
|---|---|---|
| PyStr.Lstrip | jsonref.py:95 | `lstrip("/")` removes the whole run of leading `/` and nothing else |
| PyStr.Split | jsonref.py:95 | `split("/")` yields at least one part, none containing `/`, and joining them back gives the input |
| PyStr.Replace | jsonref.py:98 | `replace` leaves a string unchanged when the pattern's first character does not occur in it, does not lengthen it when the replacement is no longer than the pattern, and introduces no character that is in neither the input nor the replacement |
| PyStr.IsSubstring | jsonref.py:100 | `t in s` on strings holds exactly when `t` starts at some position of `s` |
| UrlParse.Urldefrag | jsonref.py:73 | the base holds no `#`; with a `#`, base + "#" + fragment is the URI; without one, the fragment is empty |
| UrlParse.Unquote | jsonref.py:95 | `unquote` never lengthens its input, and a result as long as the input is the input itself |
| UrlParse.UnquotePlain | jsonref.py:95 | `unquote` leaves text without `%` unchanged |
| UrlParse.SameBaseDifferentFragments | jsonref.py:73 | URIs that differ only after the `#` have the same document part |
| Pointer.Tokens | jsonref.py:95 | the empty pointer has no tokens, any other has at least one, and no token contains `/` |
| Pointer.Unescape | jsonref.py:98 | a token without `~` is its own key; unescaping never lengthens a token |
| Pointer.Contains | jsonref.py:100 | `in` raises TypeError exactly on numbers, booleans and null; on a dict it is true exactly for a key, on a string exactly for a substring |
| Pointer.Subscript | jsonref.py:105 | `[]` succeeds exactly on a dict holding the key, yielding its value; otherwise KeyError on a dict and TypeError on anything else |
| Pointer.Step | jsonref.py:97-105 | one loop step succeeds exactly when the value is a dict holding the unescaped token, and yields that member; on a dict it fails only with LookupError |
| Pointer.Walk | jsonref.py:97-107 | no tokens give the document; a non-empty walk that succeeds starts at a dict; the only errors are LookupError quoting the pointer and TypeError, never KeyError |
| Pointer.Resolve | jsonref.py:86-107 | the empty pointer gives the document; a non-empty one succeeds only from a dict; the only errors are LookupError quoting the pointer and TypeError |
| Pointer.WalkAppend | jsonref.py:97-107 | walking tokens a + b is walking a, then b from where a ended; a failure stops the walk |
| Pointer.NonObjectFails | jsonref.py:97-105 | from a list, string, number, bool or null, any token fails with LookupError or TypeError |
| Pointer.WalkOkMeansKeysExist | jsonref.py:97-105 | a walk that succeeds starts at a dict holding the first unescaped token, and continues from that member |
| Pointer.EmptyPointer | jsonref.py:95 | the empty pointer resolves to the document itself |
| Pointer.LeadingSlashesIgnored | jsonref.py:95 | non-empty pointers equal after stripping leading `/` have the same tokens, succeed together with the same value, and fail with the same kind of error |
| Pointer.SamePointerTextAside | jsonref.py:101-103 | the pointer text only appears in the LookupError message |
| PointerPaths.UnescapeEscape | jsonref.py:98 | undoing `~1` then `~0` recovers every key from its RFC 6901 escaped form |
| PointerPaths.WalkEscaped | jsonref.py:97-105 | walking the escaped keys of a path succeeds exactly when following the literal keys through dicts does, with the same value; a path that stops at a dict lacking the next key fails with LookupError |
| PointerPaths.ResolveRendered | jsonref.py:95-107 | a pointer built from a path of `%`-free keys, whose first key is not empty, resolves exactly when the path exists, to the value at the path; when the path stops at a dict lacking the next key, it fails with LookupError quoting the pointer |
| PointerPaths.DoubleSlashSkipsEmptyKey | jsonref.py:95 | in `{"": {"a": 1}}` the path ["", "a"] exists, but the literal `"//a"` fails with LookupError |
| PointerPaths.EncodedSlashReachesEmptyKey | jsonref.py:95-105 | in `{"": {"a": 1}}`, `"/%2Fa"` is decoded after the slashes are stripped and resolves to 1 |
| PointerExamples.NestedLookupFound | jsonref.py:86-107 | in `{"a": {"b": 42}}`, `"/a/b"` gives 42 |
| PointerExamples.NestedLookupMissing | jsonref.py:100-103 | in `{"a": {"b": 42}}`, `"/a/z"` fails with LookupError quoting `"/a/z"` |
| PointerExamples.NestedLookupEmpty | jsonref.py:95 | in `{"a": {"b": 42}}`, `""` gives the whole document |
| PointerExamples.TildeOneIsSlash | jsonref.py:98 | `"c~1d"` unescapes to `"c/d"` |
| PointerExamples.TildeZeroIsTilde | jsonref.py:98 | `"e~0f"` unescapes to `"e~f"` |
| PointerExamples.ReplacementOrder | jsonref.py:98 | `"~01"` unescapes to `"~1"`, not `"/"`, because `~1` is replaced first |
| PointerExamples.MemberAddressed | jsonref.py:95-105 | `"/"` followed by the escaped form of a non-empty, `%`-free key selects that member of a dict |
| PointerExamples.SlashKeyAddressed | jsonref.py:95-105 | `"/c~1d"` selects member `"c/d"` of any dict holding it |
| PointerExamples.TildeKeyAddressed | jsonref.py:95-105 | `"/e~0f"` selects member `"e~f"` of any dict holding it |
| PointerExamples.EscapedKeysAddressed | jsonref.py:98-105 | in `{"c/d": 1, "e~f": 2}`, `"/c~1d"` gives 1 and `"/e~0f"` gives 2 |
| PointerExamples.LeadingSlashes | jsonref.py:95 | `"/a"`, `"//a"` and `"a"` succeed together, with the same value |
| UriStore.UriDict.constructor | jsonref.py:45-47 | the seeded entries are stored as given, keys not normalized |
| UriStore.UriDict.Get | jsonref.py:49-50 | a lookup finds an entry exactly when the normal form of the URI is a key, and yields that entry |
| UriStore.UriDict.Contains | jsonref.py:74 | `uri in store` holds exactly when a lookup of `uri` succeeds |
| UriStore.UriDict.Set | jsonref.py:52-53 | the entry of the normal form becomes the value; every URI with another normal form reads as before |
| UriStore.UriDict.Delete | jsonref.py:55-56 | the entry of the normal form is removed, or KeyError when there is none; no other entry changes |
| UriStore.EquivalentUrisShareEntry | jsonref.py:49-50 | URIs with equal normal forms read the same entry |
| Http.Web.Get | jsonref.py:82 | a GET yields the body for that URI and adds exactly that URI to the fetch log |
| Deref.DereferenceOutcome | jsonref.py:72-84 | the store only grows, by at most the normal form of the base; there is no GET exactly when that key is present, and then the fragment is resolved in the stored document; otherwise exactly one GET, of the base: a failed GET raises and leaves the store alone, a successful one stores the body under the normal form and resolves the fragment in it |
| Deref.CachedDocumentReused | jsonref.py:74-75 | with the base present, the stored document is resolved, with no GET and the store unchanged |
| Deref.SecondDereferenceHitsCache | jsonref.py:72-84 | when the first dereference found its document (stored, or fetched successfully), a second one whose base normalizes the same makes no GET; together they make at most one |
| Deref.DereferenceIdempotent | jsonref.py:72-84 | when the first dereference found its document (stored, or fetched successfully), dereferencing the same URI again gives the same result and makes no GET |
| Deref.Dereferencer.constructor | jsonref.py:69-70 | a fresh store seeded with the given entries |
| Deref.Dereferencer.Dereference | jsonref.py:72-79 | result, new store and GETs are those of DereferenceOutcome on the old store |
| Deref.Dereferencer.Remote | jsonref.py:81-84 | one GET of the URI; on success the body is stored under the normal form, replacing any entry, and returned; on failure the store is unchanged |
| Deref.Dereferencer.ResolvePointer | jsonref.py:86-107 | the loop returns exactly Resolve(document, pointer) |
| Proxy.NotAString | jsonref.py:73 | `urldefrag` on a non-string gives AttributeError exactly when the value is truthy |
| Proxy.DereferenceRef | jsonref.py:133-137 | the store only grows, with at most one GET; a string reference is dereferenced as its URI; any other reference fails; a plain value fails with no GET and no change; the only errors besides AttributeError and the empty URI's are those of an inner reference object |
| Proxy.DereferenceTarget | jsonref.py:133-137 | result, new store and GETs are those of DereferenceRef on the old store |
| Proxy.Observation | jsonref.py:112-123 | a resolved reference returns its value, with no GET and the store unchanged; an unresolved one is dereferenced, and becomes resolved exactly when that succeeds, holding that value |
| Proxy.FirstObservationFetches | jsonref.py:119-137 | the first observation of a string reference to an unstored document makes one GET, caches the body, resolves the fragment in it and becomes resolved exactly when that succeeds |
| Proxy.NonStringNeverResolves | jsonref.py:133-137 | an observation of a non-string reference fails, makes at most one GET and leaves it unresolved |
| Proxy.ResolvedStaysPut | jsonref.py:119-122 | any number of observations of a resolved reference return its value, with no GET |
| Proxy.ObservationsAfterSuccess | jsonref.py:119-122 | after an observation that succeeded, which made at most one GET, later observations return the same value and make none |
| Proxy.RefObject.constructor | jsonref.py:127-131 | a new reference is not dereferenced, its object is None, and the store and the fetch log are unchanged |
| Proxy.RefObject.Dereference | jsonref.py:133-137 | dereferences once whatever the state; on success it caches the value and sets `dereferenced`; on failure both fields are unchanged |
| Proxy.RefObject.Observe | jsonref.py:118-122 | one observation, as Observation says; an already resolved object is unchanged |
| Loader.Loadp | jsonref.py:157-170 | no dict in the result holds `"$ref"`; a dict with `"$ref"`, whatever its other keys, becomes a reference to that value as parsed; other dicts keep their keys, each with its value loaded; lists keep their length, each item loaded in place; scalars come back as they are |
| Loader.DropRefSiblings | jsonref.py:162-165 | cutting every `"$ref"` dict down to its `"$ref"` entry gives a tree in JSON Reference form |
| Loader.LoadpUnload | jsonref.py:157-170 | for every tree, writing the loaded tree's references back gives the input with the siblings of each `"$ref"` dropped |
| Loader.LoadpRefFree | jsonref.py:157-170 | a tree without `"$ref"` comes back equal |
| Loader.LoadpRoundTrip | jsonref.py:157-170 | when every reference is a one-key `{"$ref": ...}` dict, writing the references back gives the original tree |
| Loader.LoadpRefIff | jsonref.py:157-170 | the loaded tree contains a reference object exactly when the parsed tree has a dict holding `"$ref"` |
| Loader.AsRefObject | jsonref.py:147-150 | the hook returns a reference object exactly when the dict holds `"$ref"`, referring to that value, and the dict itself otherwise |
| Loader.HookLoad | jsonref.py:147-154 | no dict in the result holds `"$ref"`, not even inside a reference; a dict becomes a reference exactly when it holds `"$ref"`, to its `"$ref"` value with the hook already applied inside; other dicts keep their keys, each with its value decoded; lists keep their length, each item decoded in place; scalars come back as they are |
| Loader.AsRefObjectKeepsPlainDicts | jsonref.py:147-150 | the hook returns a dict without `"$ref"` unchanged |
| Loader.HookLoadRefFree | jsonref.py:147-150 | decoding with the hook rewrites nothing in a tree without `"$ref"` |
| Loader.HookAgreesWithLoadp | jsonref.py:147-170 | the hook and `loadp` give the same tree when no `"$ref"` value itself holds a reference |
| DerefExamples.SeededStoreLookup | jsonref.py:72-79 | with `{"a": {"b": 42}}` stored under "mem://x", "mem://x#/a/b" gives 42 with no GET |
| DerefExamples.FragmentsShareOneFetch | jsonref.py:72-84 | two references to one unstored document, differing only in fragment, make exactly one GET |
| DerefExamples.LoadSameDocumentReference | jsonref.py:157-170 | `loadp` turns `{"x": {"$ref": "#/y"}, "y": 7}` into a reference at "x" and keeps "y" |
| DerefExamples.SameDocumentReference | jsonref.py:72-84 | `"#/y"` is fetched from "" on an empty store, fails if that GET fails, and gives 7 with no GET from a store seeded under "" |
| DerefExamples.HookNestedReference | jsonref.py:147-150 | the hook reads `{"$ref": {"$ref": u}}` as a reference object whose reference is another reference object |
| DerefExamples.NestedReferenceFetchesThenFails | jsonref.py:133-142 | observing that outer object makes one GET of `u`, caches the document, fails with AttributeError and stays unresolved |
| DerefExamples.FetchOnceAcrossObservations | jsonref.py:119-137 | on a fresh dereferencer, a first observation that succeeds makes exactly one GET, and a second returns the same value |

## Left out

- `load` and `loads` and the json/simplejson/django import fallback (jsonref.py:9-19, 153-154) are not modelled. The JSON text parser is external. `Loader.HookLoad` stands for the decoder calling the hook on every finished dictionary.
- JSON floats and duplicate keys in JSON text are not modelled. `Json` has integers only, and dictionaries are maps.
- Http.Web.Get: the web is a fixed function from URI to parsed body, so it does not change between requests. Every network, HTTP-status and JSON-decoding failure is the one `RequestError`. The function is arbitrary, even at a URI without a scheme such as `""`. `requests` refuses such a URI with `MissingSchema` before sending anything. The model still counts that call as a GET, and lets the function decide its answer.
- The `print` in `RefObject.dereference` (jsonref.py:135) is console output and is not modelled.
- `urlsplit(uri).geturl()` stays uninterpreted. It is the `normalize` field, and no property depends on what it does. The model's `normalize` never fails, whereas `urlsplit` raises `ValueError` on some malformed URIs (an unclosed IPv6 bracket such as `"http://[x"`); in the source that error escapes from `uri in store`, before any GET.
- UrlParse.Urldefrag: the base is the text before the first `#`, and the fragment is the raw text after it. The model never raises. It leaves out four things Python does when the URI holds a `#`, through `urlparse`/`urlsplit` and `urlunparse`:
  - it rebuilds the base with `urlunparse`, which can drop an empty `?` or lower-case the scheme; every store access normalizes the base anyway;
  - it deletes every tab, CR and LF anywhere in the URI, fragment included, so `"mem://x#/a\tb"` has the fragment `"/ab"` in Python;
  - it strips leading C0 control characters and spaces;
  - it raises `ValueError` on a malformed bracketed host such as `"http://[x#/a"`.
- UrlParse.Unquote: escapes of bytes `%80` and above are kept as written. Python decodes them as UTF-8, with U+FFFD for invalid sequences.
- Proxy.RefObject.constructor: it takes no base URI. Every caller (jsonref.py:149, 163) passes none, and `urljoin("", ref)` returns `ref` unchanged. Joining against a non-empty base is not modelled.
- Proxy.DereferenceRef: a falsy non-string reference (null, 0, false, an empty list or dict) becomes the empty bytes URI. It matches no store key, and `requests` refuses it as having no scheme, before any network traffic. The model gives `RequestError("")` with no GET recorded. Reference objects nested inside a dict or list reference are not dereferenced in the model. In Python, the `print` in `dereference` formats such a value and so dereferences each of them first. The hook alone builds such trees.
- Pointer.Contains: the contract does not state that `in` on a list compares `part` with each element. The body does this, but a quantified statement of it made proofs about literal documents too costly. The walk's contracts do not depend on it, because a step from a list always fails.
- The Python dunder methods `__repr__`, `__str__`, `__iter__`, `__bool__` and `__getattr__` (jsonref.py:139-143) are all one `RefObject.Observe(op)` with a function `op`.
- The `_URIDict` views `__iter__`, `__len__` and `__repr__` (jsonref.py:58-65) only read the raw dict and are not modelled.
- The PY2/PY3 import switch (jsonref.py:21-28) is not modelled.
- The mutable default `Dereferencer()` shared by every `RefObject` (jsonref.py:127) is not modelled. The dereferencer is passed in explicitly. The loaders always use that shared default, whose store starts empty, with an empty base URI.
- A reference object in a loaded tree is `LRef(target)`, a value. The identity of the fresh Python object, and its later state, are not modelled. Loaded trees are not fed back into the store.
- Cycle detection is not modelled, and neither does the source have it. Stored documents are plain JSON, so a resolved value is never dereferenced further here.
