/** The variant middlewares (server/middlewares/product/variantValidation.js): a new or
    changed option list is refused when another variant of the product already has the same
    options, or, when there are other variants, when it names an unknown option.

    The request schemas live in a file that is not part of this model; their outcome is a
    parameter (None when `safeParse` fails). */
module VariantValidation {
  import opened Common
  import opened Catalogue
  import opened Variants

  /** `{ success, message }`. */
  datatype CheckResult = CheckResult(success: bool, message: string)

  const VariantExists: string := "variant already exists"
  const VariantInvalidId: string := "variant contains invalid id"
  const ValidationSuccess: string := "validation success"
  const CheckingFailed: string := "error occurrd while checking variants"

  /** The validated body of a create request. */
  datatype VariantDraft = VariantDraft(productId: Id, variant: seq<Id>)

  /** The validated body of an update request: every field optional. */
  datatype VariantUpdate = VariantUpdate(productId: Option<Id>, variant: Option<seq<Id>>)

  /** The variants compared against: `where: { productId, NOT: { id: excludeId } }`, where an
      undefined value drops its condition. */
  function Comparable(variants: seq<VariantRow>, productId: Option<Id>, excludeId: Option<Id>): (r: seq<VariantRow>)
    ensures forall v :: v in r <==>
              v in variants && (productId.None? || v.productId == productId.value)
              && (excludeId.None? || v.id != excludeId.value)
    decreases |variants|
  {
    if variants == [] then []
    else
      var v := variants[|variants| - 1];
      Comparable(variants[..|variants| - 1], productId, excludeId)
      + (if (productId.None? || v.productId == productId.value) && (excludeId.None? || v.id != excludeId.value) then [v] else [])
  }

  /** Lines 28-32: same length, and every existing id occurs in the new list. */
  predicate SameOptions(existing: seq<Id>, newVariant: seq<Id>)
  {
    |existing| == |newVariant| && forall i | 0 <= i < |existing| :: existing[i] in newVariant
  }

  predicate HasDuplicate(others: seq<VariantRow>, newVariant: seq<Id>)
  {
    exists v | v in others :: SameOptions(v.variant, newVariant)
  }

  /** `validateNewVariants`. `queryFails` stands for a database query that throws. */
  function ValidateNewVariants(productId: Option<Id>, newVariant: seq<Id>, excludeId: Option<Id>,
                               variants: seq<VariantRow>, options: seq<OptionRow>, queryFails: bool): (r: CheckResult)
    ensures queryFails ==> r == CheckResult(false, CheckingFailed)
    ensures !queryFails && Comparable(variants, productId, excludeId) == [] ==> r == CheckResult(true, ValidationSuccess)
    ensures r == CheckResult(false, VariantExists) <==>
              !queryFails && HasDuplicate(Comparable(variants, productId, excludeId), newVariant)
    ensures r == CheckResult(false, VariantInvalidId) <==>
              && !queryFails && Comparable(variants, productId, excludeId) != []
              && !HasDuplicate(Comparable(variants, productId, excludeId), newVariant)
              && exists i | 0 <= i < |newVariant| :: !HasOptionId(options, newVariant[i])
    ensures r.success <==>
              && !queryFails
              && (Comparable(variants, productId, excludeId) == []
                  || (!HasDuplicate(Comparable(variants, productId, excludeId), newVariant)
                      && forall i | 0 <= i < |newVariant| :: HasOptionId(options, newVariant[i])))
  {
    if queryFails then CheckResult(false, CheckingFailed)
    else
      var allVariants := Comparable(variants, productId, excludeId);
      if |allVariants| > 0 then
        if HasDuplicate(allVariants, newVariant) then CheckResult(false, VariantExists)
        else
          var found := OptionsWithIds(options, newVariant);
          MissingAgainstFound(newVariant, options, newVariant);
          var invalidIds := MissingIds(newVariant, found);
          if |invalidIds| > 0 then CheckResult(false, VariantInvalidId)
          else CheckResult(true, ValidationSuccess)
      else CheckResult(true, ValidationSuccess)
  }

  /** With no variant of the product, nothing is compared. */
  lemma {:induction false} NothingComparable(variants: seq<VariantRow>, productId: Id)
    requires forall v | v in variants :: v.productId != productId
    ensures Comparable(variants, Some(productId), None) == []
    decreases |variants|
  {
    if variants != [] {
      assert variants[|variants| - 1] in variants;
      NothingComparable(variants[..|variants| - 1], productId);
    }
  }

  /** A product's first variant passes whatever option ids it names. */
  lemma FirstVariantAlwaysPasses(productId: Id, newVariant: seq<Id>, variants: seq<VariantRow>, options: seq<OptionRow>)
    requires forall v | v in variants :: v.productId != productId
    ensures ValidateNewVariants(Some(productId), newVariant, None, variants, options, false).success
  {
    NothingComparable(variants, productId);
  }

  /** A variant is never compared with itself on update. */
  lemma UpdateExcludesItself(v: VariantRow, options: seq<OptionRow>)
    ensures ValidateNewVariants(Some(v.productId), v.variant, Some(v.id), [v], options, false).success
  {
    assert Comparable([v], Some(v.productId), Some(v.id)) == [];
  }

  /** The duplicate test is one-sided on repeated ids: an existing `[a, a]` blocks a new
      `[a, b]`, but an existing `[a, b]` does not block a new `[a, a]`. */
  lemma DuplicateTestOneSided(a: Id, b: Id)
    requires a != b
    ensures SameOptions([a, a], [a, b])
    ensures !SameOptions([a, b], [a, a])
  {
    assert [a, b][1] !in [a, a];
  }

  /** What a middleware does with the request. */
  datatype MiddlewareOutcome = InvalidBody | Rejected(error: string) | Next

  /** The request object the middlewares annotate. */
  class VariantRequest {
    var productVariantData: Option<VariantDraft>
    var updateData: Option<VariantUpdate>

    constructor ()
      ensures productVariantData.None? && updateData.None?
    {
      productVariantData := None;
      updateData := None;
    }

    /** `validateCreateVariant`: 400 on a bad body or a failed check, otherwise the draft is
        attached to the request and `next()` runs. */
    method ValidateCreateVariant(parsed: Option<VariantDraft>, variants: seq<VariantRow>,
                                 options: seq<OptionRow>, queryFails: bool)
      returns (r: MiddlewareOutcome)
      modifies this
      ensures updateData == old(updateData)
      ensures parsed.None? ==> r == InvalidBody && productVariantData == old(productVariantData)
      ensures parsed.Some? ==>
                var check := ValidateNewVariants(Some(parsed.value.productId), parsed.value.variant, None, variants, options, queryFails);
                && (check.success ==> r == Next && productVariantData == parsed)
                && (!check.success ==> r == Rejected(check.message) && productVariantData == old(productVariantData))
    {
      if parsed.None? {
        return InvalidBody;
      }
      var productVariant := parsed.value;
      var result := ValidateNewVariants(Some(productVariant.productId), productVariant.variant, None, variants, options, queryFails);
      if !result.success {
        return Rejected(result.message);
      }
      productVariantData := Some(productVariant);
      return Next;
    }

    /** `validateUpdateVariant`: the check runs only for a non-empty option list, and leaves
        out the variant being updated (`req.params.id`). */
    method ValidateUpdateVariant(parsed: Option<VariantUpdate>, id: Id, variants: seq<VariantRow>,
                                 options: seq<OptionRow>, queryFails: bool)
      returns (r: MiddlewareOutcome)
      modifies this
      ensures productVariantData == old(productVariantData)
      ensures parsed.None? ==> r == InvalidBody && updateData == old(updateData)
      ensures parsed.Some? && (parsed.value.variant.None? || parsed.value.variant.value == []) ==>
                r == Next && updateData == parsed
      ensures parsed.Some? && parsed.value.variant.Some? && parsed.value.variant.value != [] ==>
                var check := ValidateNewVariants(parsed.value.productId, parsed.value.variant.value, Some(id), variants, options, queryFails);
                && (check.success ==> r == Next && updateData == parsed)
                && (!check.success ==> r == Rejected(check.message) && updateData == old(updateData))
    {
      if parsed.None? {
        return InvalidBody;
      }
      var productVariant := parsed.value;
      if productVariant.variant.Some? && |productVariant.variant.value| > 0 {
        var result := ValidateNewVariants(productVariant.productId, productVariant.variant.value, Some(id), variants, options, queryFails);
        if !result.success {
          return Rejected(result.message);
        }
      }
      updateData := Some(productVariant);
      return Next;
    }
  }
}
