/**
 * What a component renders, stripped of markup and styling.
 */
module Views {
  import opened JsValue

  /** An image element: the image value handed to the URL builder, the URL
      builder's arguments (the element's `width` and `height` are the same
      numbers), and the element's alt text, which may be any JavaScript value. */
  datatype ImageView = ImageView(
    source: Value,
    width: nat,
    height: nat,
    quality: Option<nat>,
    autoFormat: bool,
    alt: Value)
}
