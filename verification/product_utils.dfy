/** `checkVariantExists` (server/utils/product.js): does the product have a variant with
    this id? It only reads the variant table. */
module ProductUtils {
  import opened Common
  import opened Catalogue

  /** `findMany({ where: { productId } })`: an undefined `productId` drops the filter. */
  function VariantsOf(variants: seq<VariantRow>, productId: Option<Id>): (r: seq<VariantRow>)
    ensures forall v :: v in r <==> v in variants && (productId.None? || v.productId == productId.value)
    decreases |variants|
  {
    if variants == [] then []
    else VariantsOf(variants[..|variants| - 1], productId)
         + (if productId.None? || variants[|variants| - 1].productId == productId.value then [variants[|variants| - 1]] else [])
  }

  /** A falsy variant id is never valid; otherwise the answer is whether one of the product's
      variants carries that id. */
  function CheckVariantExists(productId: Option<Id>, variantId: Nullable<Id>, variants: seq<VariantRow>): (r: bool)
    ensures !TruthyString(variantId) ==> !r
    ensures r <==> TruthyString(variantId)
                   && exists v | v in variants :: v.id == variantId.value
                                                 && (productId.None? || v.productId == productId.value)
  {
    if !TruthyString(variantId) then false
    else exists v | v in VariantsOf(variants, productId) :: v.id == variantId.value
  }

  /** A variant that belongs to another product never matches. */
  lemma OtherProductsNeverMatch(productId: Id, variantId: Id, variants: seq<VariantRow>)
    requires forall v | v in variants && v.id == variantId :: v.productId != productId
    ensures !CheckVariantExists(Some(productId), Present(variantId), variants)
  {
  }
}
