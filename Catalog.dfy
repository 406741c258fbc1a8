/** The product record the storefront shows and stores, and the image URL helper. */
module Catalog {
  import opened Wrappers

  /** A Sanity image reference: the asset id `_ref`; its `_type` is always "image". */
  datatype ImageSource = ImageSource(ref: string)

  /** The optional `productImage` block, whose `asset` is itself optional. */
  datatype ProductImage = ProductImage(asset: Option<ImageSource>)

  /** A product as the listing holds it: `_id`, `title`, optional image and optional price text. */
  datatype Product = Product(
    id: string,
    title: string,
    productImage: Option<ProductImage>,
    price: Option<string>)

  /** The path shown when a product has no image. */
  const Placeholder: string := "/placeholder.png"

  /**
   * `urlFor`: the builder's URL for a present image source, the placeholder
   * path otherwise. The image URL builder is a library call and is passed in.
   */
  function UrlFor(source: Option<ImageSource>, imageUrl: ImageSource -> string): (url: string)
    ensures source.None? ==> url == Placeholder
    ensures source.Some? ==> url == imageUrl(source.value)
  {
    match source
    case Some(s) => imageUrl(s)
    case None => Placeholder
  }

  /** As long as the builder never yields the placeholder path itself, the placeholder
      is shown exactly when the image source is absent. */
  lemma UrlForPlaceholderExactlyWhenAbsent(source: Option<ImageSource>, imageUrl: ImageSource -> string)
    requires forall s :: imageUrl(s) != Placeholder
    ensures UrlFor(source, imageUrl) == Placeholder <==> source.None?
  {
  }
}
