/**
 * The loaders: `loadp`, which rewrites an already parsed tree, and
 * `_as_ref_object`, the hook the JSON decoder calls on every dictionary it
 * finishes. Both put a reference object in place of each dictionary holding
 * "$ref"; the reference objects they create are not dereferenced here.
 */
module Loader {
  import opened Documents

  /** No dictionary anywhere in `j` holds "$ref". */
  predicate RefFree(j: Json)
  {
    match j
    case JObject(m) => "$ref" !in m && forall k | k in m :: RefFree(m[k])
    case JArray(xs) => forall i | 0 <= i < |xs| :: RefFree(xs[i])
    case _ => true
  }

  /**
   * No dictionary of the loaded tree holds "$ref", looking everywhere except
   * inside the references themselves.
   */
  predicate NoRefKey(l: Loaded)
  {
    match l
    case LObject(m) => "$ref" !in m && forall k | k in m :: NoRefKey(m[k])
    case LArray(xs) => forall i | 0 <= i < |xs| :: NoRefKey(xs[i])
    case _ => true
  }

  /**
   * `loadp(obj)`: a dictionary holding "$ref" becomes a reference object to
   * its "$ref" value, whatever other keys it has; other dictionaries keep
   * their keys with loaded values, lists their length and order, and
   * scalars come back as they are.
   */
  function Loadp(j: Json): (r: Loaded)
    ensures NoRefKey(r)
    ensures j.JObject? && "$ref" in j.fields ==> r == LRef(Embed(j.fields["$ref"]))
    ensures j.JObject? && "$ref" !in j.fields ==> r.LObject? && r.fields.Keys == j.fields.Keys
    ensures j.JObject? && "$ref" !in j.fields ==> forall k | k in j.fields :: r.fields[k] == Loadp(j.fields[k])
    ensures j.JArray? ==> r.LArray? && |r.items| == |j.items|
    ensures j.JArray? ==> forall i | 0 <= i < |j.items| :: r.items[i] == Loadp(j.items[i])
    ensures !j.JObject? && !j.JArray? ==> r == Embed(j)
  {
    match j
    case JObject(m) =>
      if "$ref" in m then LRef(Embed(m["$ref"]))
      else LObject(map k | k in m :: Loadp(m[k]))
    case JArray(xs) => LArray(seq(|xs|, i requires 0 <= i < |xs| => Loadp(xs[i])))
    case _ => Embed(j)
  }

  /**
   * No dictionary of the loaded tree holds "$ref", looking inside the
   * references too.
   */
  predicate NoRefKeyAnywhere(l: Loaded)
  {
    match l
    case LObject(m) => "$ref" !in m && forall k | k in m :: NoRefKeyAnywhere(m[k])
    case LArray(xs) => forall i | 0 <= i < |xs| :: NoRefKeyAnywhere(xs[i])
    case LRef(t) => NoRefKeyAnywhere(t)
    case _ => true
  }

  /** `_as_ref_object(dct)`, applied to a dictionary whose values are already loaded. */
  function AsRefObject(dct: map<string, Loaded>): (r: Loaded)
    ensures r.LRef? <==> "$ref" in dct
    ensures r.LRef? ==> r.target == dct["$ref"]
    ensures !r.LRef? ==> r == LObject(dct)
  {
    if "$ref" in dct then LRef(dct["$ref"]) else LObject(dct)
  }

  /** The decoder with `object_hook=_as_ref_object`: the hook runs on every dictionary, innermost first. */
  function HookLoad(j: Json): (r: Loaded)
    ensures NoRefKeyAnywhere(r)
    ensures j.JObject? ==> (r.LRef? <==> "$ref" in j.fields)
    ensures j.JObject? && "$ref" in j.fields ==> r.target == HookLoad(j.fields["$ref"])
    ensures j.JObject? && "$ref" !in j.fields ==> r.LObject? && r.fields.Keys == j.fields.Keys
    ensures j.JObject? && "$ref" !in j.fields ==> forall k | k in j.fields :: r.fields[k] == HookLoad(j.fields[k])
    ensures j.JArray? ==> r.LArray? && |r.items| == |j.items|
    ensures j.JArray? ==> forall i | 0 <= i < |j.items| :: r.items[i] == HookLoad(j.items[i])
    ensures !j.JObject? && !j.JArray? ==> r == Embed(j)
  {
    match j
    case JObject(m) => AsRefObject(map k | k in m :: HookLoad(m[k]))
    case JArray(xs) => LArray(seq(|xs|, i requires 0 <= i < |xs| => HookLoad(xs[i])))
    case _ => Embed(j)
  }

  /** Writes each reference object back as the one-key dictionary `{"$ref": target}`. */
  function Unload(l: Loaded): (j: Json)
  {
    match l
    case LObject(m) => JObject(map k | k in m :: Unload(m[k]))
    case LArray(xs) => JArray(seq(|xs|, i requires 0 <= i < |xs| => Unload(xs[i])))
    case LStr(s) => JStr(s)
    case LInt(n) => JInt(n)
    case LBool(b) => JBool(b)
    case LNull => JNull
    case LRef(t) => JObject(map["$ref" := Unload(t)])
  }

  /** Every dictionary holding "$ref" holds nothing else (the JSON Reference form). */
  predicate CanonicalRefs(j: Json)
  {
    match j
    case JObject(m) => if "$ref" in m then m.Keys == {"$ref"} else forall k | k in m :: CanonicalRefs(m[k])
    case JArray(xs) => forall i | 0 <= i < |xs| :: CanonicalRefs(xs[i])
    case _ => true
  }

  /** Every "$ref" value is itself free of references (the hook would rewrite inside it, `loadp` does not). */
  predicate RefTargetsRefFree(j: Json)
  {
    match j
    case JObject(m) => if "$ref" in m then RefFree(m["$ref"]) else forall k | k in m :: RefTargetsRefFree(m[k])
    case JArray(xs) => forall i | 0 <= i < |xs| :: RefTargetsRefFree(xs[i])
    case _ => true
  }

  /** A tree without "$ref" comes back from `loadp` equal to itself. */
  lemma {:induction false} LoadpRefFree(j: Json)
    requires RefFree(j)
    ensures Loadp(j) == Embed(j)
  {
    match j
    case JObject(m) =>
      forall k | k in m ensures Loadp(m[k]) == Embed(m[k]) {
        LoadpRefFree(m[k]);
      }
      assert (map k | k in m :: Loadp(m[k])) == (map k | k in m :: Embed(m[k]));
    case JArray(xs) =>
      forall i | 0 <= i < |xs| ensures Loadp(xs[i]) == Embed(xs[i]) {
        LoadpRefFree(xs[i]);
      }
      assert seq(|xs|, i requires 0 <= i < |xs| => Loadp(xs[i])) == seq(|xs|, i requires 0 <= i < |xs| => Embed(xs[i]));
    case _ =>
  }

  /**
   * `loadp` puts a reference object somewhere in the tree exactly when the
   * parsed tree has a dictionary holding "$ref" somewhere.
   */
  lemma {:induction false} LoadpRefIff(j: Json)
    ensures HasRef(Loadp(j)) <==> !RefFree(j)
  {
    match j
    case JObject(m) =>
      if "$ref" !in m {
        var lm := map k | k in m :: Loadp(m[k]);
        forall k | k in m ensures HasRef(lm[k]) <==> !RefFree(m[k]) {
          LoadpRefIff(m[k]);
        }
        assert Loadp(j) == LObject(lm);
      }
    case JArray(xs) =>
      var ls := seq(|xs|, i requires 0 <= i < |xs| => Loadp(xs[i]));
      forall i | 0 <= i < |xs| ensures HasRef(ls[i]) <==> !RefFree(xs[i]) {
        LoadpRefIff(xs[i]);
      }
      assert Loadp(j) == LArray(ls);
    case _ =>
  }

  /** The hook returns a dictionary without "$ref" unchanged. */
  lemma AsRefObjectKeepsPlainDicts(dct: map<string, Loaded>)
    requires "$ref" !in dct
    ensures AsRefObject(dct) == LObject(dct)
  {
  }

  /** On a tree without "$ref" the hook rewrites nothing. */
  lemma {:induction false} HookLoadRefFree(j: Json)
    requires RefFree(j)
    ensures HookLoad(j) == Embed(j)
  {
    match j
    case JObject(m) =>
      forall k | k in m ensures HookLoad(m[k]) == Embed(m[k]) {
        HookLoadRefFree(m[k]);
      }
      assert (map k | k in m :: HookLoad(m[k])) == (map k | k in m :: Embed(m[k]));
    case JArray(xs) =>
      forall i | 0 <= i < |xs| ensures HookLoad(xs[i]) == Embed(xs[i]) {
        HookLoadRefFree(xs[i]);
      }
      assert seq(|xs|, i requires 0 <= i < |xs| => HookLoad(xs[i])) == seq(|xs|, i requires 0 <= i < |xs| => Embed(xs[i]));
    case _ =>
  }

  /**
   * The two entry points agree: decoding with the hook and rewriting the
   * parsed tree with `loadp` give the same loaded tree, as long as no "$ref"
   * value itself holds a reference.
   */
  lemma {:induction false} HookAgreesWithLoadp(j: Json)
    requires RefTargetsRefFree(j)
    ensures HookLoad(j) == Loadp(j)
  {
    match j
    case JObject(m) =>
      if "$ref" in m {
        HookLoadRefFree(m["$ref"]);
      } else {
        forall k | k in m ensures HookLoad(m[k]) == Loadp(m[k]) {
          HookAgreesWithLoadp(m[k]);
        }
        assert (map k | k in m :: HookLoad(m[k])) == (map k | k in m :: Loadp(m[k]));
      }
    case JArray(xs) =>
      forall i | 0 <= i < |xs| ensures HookLoad(xs[i]) == Loadp(xs[i]) {
        HookAgreesWithLoadp(xs[i]);
      }
      assert seq(|xs|, i requires 0 <= i < |xs| => HookLoad(xs[i])) == seq(|xs|, i requires 0 <= i < |xs| => Loadp(xs[i]));
    case _ =>
  }

  lemma {:induction false} UnloadEmbed(j: Json)
    ensures Unload(Embed(j)) == j
  {
    match j
    case JObject(m) =>
      forall k | k in m ensures Unload(Embed(m[k])) == m[k] {
        UnloadEmbed(m[k]);
      }
      assert (map k | k in m :: Unload(Embed(m[k]))) == m;
    case JArray(xs) =>
      forall i | 0 <= i < |xs| ensures Unload(Embed(xs[i])) == xs[i] {
        UnloadEmbed(xs[i]);
      }
      assert seq(|xs|, i requires 0 <= i < |xs| => Unload(Embed(xs[i]))) == xs;
    case _ =>
  }

  /**
   * When every reference is a one-key `{"$ref": ...}` dictionary, writing the
   * loaded tree's references back gives the original tree: `loadp` loses
   * nothing but the extra keys next to "$ref".
   */
  lemma {:induction false} LoadpRoundTrip(j: Json)
    requires CanonicalRefs(j)
    ensures Unload(Loadp(j)) == j
  {
    match j
    case JObject(m) =>
      if "$ref" in m {
        UnloadEmbed(m["$ref"]);
        assert map["$ref" := m["$ref"]] == m;
      } else {
        forall k | k in m ensures Unload(Loadp(m[k])) == m[k] {
          LoadpRoundTrip(m[k]);
        }
        assert (map k | k in m :: Unload(Loadp(m[k]))) == m;
      }
    case JArray(xs) =>
      forall i | 0 <= i < |xs| ensures Unload(Loadp(xs[i])) == xs[i] {
        LoadpRoundTrip(xs[i]);
      }
      assert seq(|xs|, i requires 0 <= i < |xs| => Unload(Loadp(xs[i]))) == xs;
    case _ =>
  }

  /**
   * The tree with every dictionary holding "$ref" cut down to its "$ref"
   * entry alone, the sibling keys dropped; everything else as it is.
   */
  function DropRefSiblings(j: Json): (r: Json)
    ensures CanonicalRefs(r)
  {
    match j
    case JObject(m) =>
      if "$ref" in m then JObject(map["$ref" := m["$ref"]])
      else JObject(map k | k in m :: DropRefSiblings(m[k]))
    case JArray(xs) => JArray(seq(|xs|, i requires 0 <= i < |xs| => DropRefSiblings(xs[i])))
    case _ => j
  }

  /**
   * For every tree, writing the references of the loaded tree back gives the
   * input with the siblings of each "$ref" dropped: `loadp` keeps every
   * other value, key and list position, and refers to each "$ref" value as
   * it was parsed.
   */
  lemma {:induction false} LoadpUnload(j: Json)
    ensures Unload(Loadp(j)) == DropRefSiblings(j)
  {
    match j
    case JObject(m) =>
      if "$ref" in m {
        UnloadEmbed(m["$ref"]);
      } else {
        forall k | k in m ensures Unload(Loadp(m[k])) == DropRefSiblings(m[k]) {
          LoadpUnload(m[k]);
        }
        UnloadPlainObject(m);
      }
    case JArray(xs) =>
      forall i | 0 <= i < |xs| ensures Unload(Loadp(xs[i])) == DropRefSiblings(xs[i]) {
        LoadpUnload(xs[i]);
      }
      UnloadArray(xs);
    case _ =>
      UnloadEmbed(j);
  }

  lemma UnloadPlainObject(m: map<string, Json>)
    requires "$ref" !in m
    requires forall k | k in m :: Unload(Loadp(m[k])) == DropRefSiblings(m[k])
    ensures Unload(Loadp(JObject(m))) == DropRefSiblings(JObject(m))
  {
    var lm := map k | k in m :: Loadp(m[k]);
    assert Loadp(JObject(m)) == LObject(lm);
    assert (map k | k in lm :: Unload(lm[k])) == (map k | k in m :: DropRefSiblings(m[k]));
  }

  lemma UnloadArray(xs: seq<Json>)
    requires forall i | 0 <= i < |xs| :: Unload(Loadp(xs[i])) == DropRefSiblings(xs[i])
    ensures Unload(Loadp(JArray(xs))) == DropRefSiblings(JArray(xs))
  {
    var ls := seq(|xs|, i requires 0 <= i < |xs| => Loadp(xs[i]));
    assert Loadp(JArray(xs)) == LArray(ls);
    assert seq(|ls|, i requires 0 <= i < |ls| => Unload(ls[i]))
      == seq(|xs|, i requires 0 <= i < |xs| => DropRefSiblings(xs[i]));
  }
}
