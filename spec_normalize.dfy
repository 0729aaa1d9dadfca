/**
 * The normalisation `maybeSyncDeployment` applies to the parsed spec before
 * hashing it: a default `apiVersion`, then the image override.
 */
module SpecNormalize {
  import opened JsValue

  type Spec = map<string, Value>

  /** The `image` value a spec uses to ask for the image input. */
  const PlaceholderImage := ":image"
  const LatestApiVersion := "latest"

  /** A falsy `apiVersion` (absent, null, "", false, 0) becomes "latest". */
  function DefaultApiVersion(spec: Spec): (r: Spec)
    ensures Truthy(Get(r, "apiVersion"))
    ensures Truthy(Get(spec, "apiVersion")) ==> r == spec
    ensures !Truthy(Get(spec, "apiVersion")) ==> Get(r, "apiVersion") == Str(LatestApiVersion)
    ensures r.Keys == spec.Keys + {"apiVersion"}
    ensures forall k :: k in spec && k != "apiVersion" ==> r[k] == spec[k]
  {
    if Truthy(Get(spec, "apiVersion")) then spec
    else spec["apiVersion" := Str(LatestApiVersion)]
  }

  /**
   * With a non-empty image input, `image` becomes that input; the second
   * component says whether the warning about a missing ":image" placeholder
   * is emitted.
   */
  function OverrideImage(spec: Spec, image: string): (r: (Spec, bool))
    ensures image == "" ==> r == (spec, false)
    ensures image != "" ==> Get(r.0, "image") == Str(image)
    ensures r.1 <==> image != "" && Get(spec, "image") != Str(PlaceholderImage)
    ensures r.0.Keys == if image == "" then spec.Keys else spec.Keys + {"image"}
    ensures forall k :: k in spec && k != "image" ==> r.0[k] == spec[k]
  {
    if image == "" then (spec, false)
    else (spec["image" := Str(image)], Get(spec, "image") != Str(PlaceholderImage))
  }

  /** Both steps, in the source's order: the spec that is hashed and upserted, and the warning flag. */
  function Normalize(spec: Spec, image: string): (r: (Spec, bool))
    ensures Get(r.0, "apiVersion") ==
      if Truthy(Get(spec, "apiVersion")) then Get(spec, "apiVersion") else Str(LatestApiVersion)
    ensures Get(r.0, "image") == if image != "" then Str(image) else Get(spec, "image")
    ensures r.1 <==> image != "" && Get(spec, "image") != Str(PlaceholderImage)
    ensures r.0.Keys == spec.Keys + {"apiVersion"} + (if image != "" then {"image"} else {})
    ensures forall k :: k in spec && k != "apiVersion" && k != "image" ==> r.0[k] == spec[k]
  {
    OverrideImage(DefaultApiVersion(spec), image)
  }

  /** Normalising a normalised spec changes nothing. */
  lemma NormalizeIdempotent(spec: Spec, image: string)
    ensures Normalize(Normalize(spec, image).0, image).0 == Normalize(spec, image).0
  {
  }

  /**
   * An absent (or otherwise falsy) `apiVersion` and an explicit "latest"
   * normalise to the same spec, and so hash alike.
   */
  lemma MissingApiVersionIsLatest(spec: Spec, image: string)
    requires !Truthy(Get(spec, "apiVersion"))
    ensures Normalize(spec, image) == Normalize(spec["apiVersion" := Str(LatestApiVersion)], image)
  {
  }

  /** With an image input, whatever `image` the file held is gone after normalisation. */
  lemma OverrideHidesFileImage(spec1: Spec, spec2: Spec, image: string)
    requires image != ""
    requires spec1 - {"image"} == spec2 - {"image"}
    ensures Normalize(spec1, image).0 == Normalize(spec2, image).0
  {
    var a := Normalize(spec1, image).0;
    var b := Normalize(spec2, image).0;
    assert Get(spec1, "apiVersion") == Get(spec2, "apiVersion") by {
      assert "apiVersion" in spec1 <==> "apiVersion" in spec1 - {"image"};
      assert "apiVersion" in spec2 <==> "apiVersion" in spec2 - {"image"};
    }
    assert a.Keys == b.Keys by {
      assert spec1.Keys + {"image"} == (spec1 - {"image"}).Keys + {"image"};
      assert spec2.Keys + {"image"} == (spec2 - {"image"}).Keys + {"image"};
    }
    forall k | k in a
      ensures a[k] == b[k]
    {
      if k == "apiVersion" {
        assert Get(a, k) == Get(b, k);
      } else if k == "image" {
        assert Get(a, k) == Get(b, k);
      } else {
        assert k in spec1 - {"image"};
        assert spec1[k] == (spec1 - {"image"})[k];
        assert spec2[k] == (spec2 - {"image"})[k];
      }
    }
  }
}
