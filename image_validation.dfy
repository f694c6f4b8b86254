/**
 * The image readiness guard: decides whether an untyped image value may be
 * handed to the image URL builder. An image is usable once it carries a
 * truthy asset reference, and ready once, in addition, it is not mid-upload.
 */
module ImageValidation {
  import opened JsValue

  /** `hasValidImageAsset`: the `&&` chain over the image and its `asset`,
      coerced to a boolean. Every property read is guarded by the conditions
      before it, exactly as the chain short-circuits. Only an object with an
      object `asset` can pass. */
  predicate HasValidImageAsset(image: Value): (valid: bool)
    ensures valid ==> image.Obj? && "asset" in image.fields && image.fields["asset"].Obj?
  {
    && Truthy(image)
    && TypeOf(image) == "object"
    && HasProperty(image, "asset")
    && Truthy(Get(image, "asset"))
    && TypeOf(Get(image, "asset")) == "object"
    && HasProperty(Get(image, "asset"), "_ref")
    && Truthy(Get(Get(image, "asset"), "_ref"))
  }

  /** `isImageReady`: a valid asset, and no `_upload` key on the image. */
  predicate IsImageReady(image: Value): (ready: bool)
    ensures ready ==> HasValidImageAsset(image) && image.Obj? && "_upload" !in image.fields
  {
    if !HasValidImageAsset(image) then false
    else if Truthy(image) && TypeOf(image) == "object" && HasProperty(image, "_upload") then false
    else true
  }

  /** The shape the guard accepts, stated directly on JSON objects: an object
      whose `asset` entry is an object whose `_ref` entry is truthy. */
  predicate AssetRefPresent(image: Value) {
    && image.Obj?
    && "asset" in image.fields
    && image.fields["asset"].Obj?
    && "_ref" in image.fields["asset"].fields
    && Truthy(image.fields["asset"].fields["_ref"])
  }

  /** Only objects pass: `undefined`, `null`, booleans, numbers, strings (the
      empty one included) and arrays never have a valid asset. */
  lemma NonObjectHasNoAsset(image: Value)
    requires !image.Obj?
    ensures !HasValidImageAsset(image)
  {
  }

  /** A missing, falsy or non-object `asset` fails the guard. */
  lemma MissingAssetFails(image: Value)
    requires image.Obj?
    requires "asset" !in image.fields || !Truthy(image.fields["asset"]) || !image.fields["asset"].Obj?
    ensures !HasValidImageAsset(image)
  {
  }

  /** A missing or falsy `_ref` (the empty string, say) fails the guard. */
  lemma MissingRefFails(image: Value)
    requires image.Obj? && "asset" in image.fields && image.fields["asset"].Obj?
    requires "_ref" !in image.fields["asset"].fields || !Truthy(image.fields["asset"].fields["_ref"])
    ensures !HasValidImageAsset(image)
  {
  }

  /** The guard holds exactly when every link of the chain holds. */
  lemma HasValidImageAssetIff(image: Value)
    ensures HasValidImageAsset(image) <==> AssetRefPresent(image)
  {
  }

  /** Readiness is the stronger test. */
  lemma ReadyImpliesValid(image: Value)
    ensures IsImageReady(image) ==> HasValidImageAsset(image)
  {
  }

  /** A ready image is a (truthy) object, so reading its properties is safe. */
  lemma ReadyIsObject(image: Value)
    requires IsImageReady(image)
    ensures image.Obj? && Truthy(image)
  {
  }

  /** The `_upload` test looks at the key, not at its value: an image carrying
      `_upload` is never ready, even when that value is `null` or `undefined`. */
  lemma UploadKeyBlocks(image: Value)
    requires image.Obj? && "_upload" in image.fields
    ensures !IsImageReady(image)
  {
  }

  /** Readiness exactly: a present, truthy asset reference and no `_upload` key. */
  lemma IsImageReadyIff(image: Value)
    ensures IsImageReady(image) <==> AssetRefPresent(image) && "_upload" !in image.fields
  {
  }

  /** An image whose `_upload` key holds `undefined` has a valid asset yet is
      not ready. */
  lemma UndefinedUploadStillBlocks()
    ensures var image := Obj(map["asset" := Obj(map["_ref" := Str("image-1")]), "_upload" := Undefined]);
            HasValidImageAsset(image) && !IsImageReady(image)
  {
  }
}
