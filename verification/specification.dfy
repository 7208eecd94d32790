/** Product specifications (server/controllers/product/specificationContoller.js): one
    key/value record per product, created once, read by product id, and updated by a merge in
    which new fields beat updated fields beat old ones, and removed fields always go. */
module Specification {
  import opened Common

  /** A specification record: field name to value. */
  type SpecData = map<string, string>

  /** The `data` of an update request; each part may be left out. */
  datatype SpecUpdate = SpecUpdate(removeFields: Option<seq<string>>, updateFields: Option<SpecData>, newFields: Option<SpecData>)

  function FieldsOrEmpty(fields: Option<SpecData>): SpecData
  {
    if fields.Some? then fields.value else map[]
  }

  function RemovedOrNone(fields: Option<seq<string>>): seq<string>
  {
    if fields.Some? then fields.value else []
  }

  /** Lines 84-92: `{ ...old, ...updateFields, ...newFields }` without the removed fields. */
  function MergedSpecification(current: SpecData, update: SpecUpdate): (r: SpecData)
    ensures forall k :: k in r <==>
              (k in current || k in FieldsOrEmpty(update.updateFields) || k in FieldsOrEmpty(update.newFields))
              && k !in RemovedOrNone(update.removeFields)
    ensures forall k | k in r ::
              r[k] == if k in FieldsOrEmpty(update.newFields) then FieldsOrEmpty(update.newFields)[k]
                      else if k in FieldsOrEmpty(update.updateFields) then FieldsOrEmpty(update.updateFields)[k]
                      else current[k]
  {
    var spread := current + FieldsOrEmpty(update.updateFields) + FieldsOrEmpty(update.newFields);
    map k | k in spread && k !in RemovedOrNone(update.removeFields) :: spread[k]
  }

  /** An update that names no field leaves the record as it was. */
  lemma EmptyUpdateKeepsSpecification(current: SpecData, removeFields: Option<seq<string>>,
                                      updateFields: Option<SpecData>, newFields: Option<SpecData>)
    requires RemovedOrNone(removeFields) == []
    requires FieldsOrEmpty(updateFields) == map[] && FieldsOrEmpty(newFields) == map[]
    ensures MergedSpecification(current, SpecUpdate(removeFields, updateFields, newFields)) == current
  {
    var r := MergedSpecification(current, SpecUpdate(removeFields, updateFields, newFields));
    assert r.Keys == current.Keys;
  }

  /** Removing is idempotent and wins over adding: merging again with the same removals
      changes nothing further. */
  lemma RemovedFieldsStayRemoved(current: SpecData, update: SpecUpdate)
    ensures MergedSpecification(MergedSpecification(current, update), SpecUpdate(update.removeFields, None, None))
            == MergedSpecification(current, update)
  {
    var once := MergedSpecification(current, update);
    var twice := MergedSpecification(once, SpecUpdate(update.removeFields, None, None));
    assert twice.Keys == once.Keys;
  }

  /** The merge as the handler runs it: spread, then delete each removed field in turn. */
  method MergeSpecification(current: SpecData, update: SpecUpdate) returns (data: SpecData)
    ensures data == MergedSpecification(current, update)
  {
    data := current + FieldsOrEmpty(update.updateFields) + FieldsOrEmpty(update.newFields);
    ghost var spread := data;
    if update.removeFields.Some? {
      var fields := update.removeFields.value;
      for i := 0 to |fields|
        invariant forall k :: k in data <==> k in spread && k !in fields[..i]
        invariant forall k | k in data :: data[k] == spread[k]
      {
        assert forall k :: k in fields[..i + 1] <==> k in fields[..i] || k == fields[i];
        data := data - {fields[i]};
      }
      assert fields[..|fields|] == fields;
    }
  }

  datatype CreateOutcome = InvalidSpecification | SpecificationCreated(data: SpecData) | AlreadyExists | NoResponse

  datatype GetOutcome = InvalidProductId | SpecificationFetched(specification: Option<SpecData>)

  datatype UpdateOutcome = InvalidUpdate | ProductNotFound | SpecificationUpdated(data: SpecData)

  class SpecificationTable {
    var specs: map<Id, SpecData>

    constructor ()
      ensures specs == map[]
    {
      specs := map[];
    }

    /** `createProductSpecification`. A second record for a product answers 201 with an error
        body; a product that does not exist (a foreign-key failure) gets no answer at all. */
    method CreateProductSpecification(productId: Id, parsed: Option<SpecData>, productExists: bool)
      returns (r: CreateOutcome)
      modifies this
      ensures parsed.None? ==> r == InvalidSpecification && specs == old(specs)
      ensures parsed.Some? && productId in old(specs) ==> r == AlreadyExists && specs == old(specs)
      ensures parsed.Some? && productId !in old(specs) && !productExists ==> r == NoResponse && specs == old(specs)
      ensures parsed.Some? && productId !in old(specs) && productExists ==>
                r == SpecificationCreated(parsed.value) && specs == old(specs)[productId := parsed.value]
    {
      if parsed.None? {
        return InvalidSpecification;
      }
      if productId in specs {
        return AlreadyExists;
      }
      if !productExists {
        return NoResponse;
      }
      specs := specs[productId := parsed.value];
      return SpecificationCreated(parsed.value);
    }

    /** `getProductSpecification`: 400 for an empty id, else the record or null. */
    function GetProductSpecification(productId: Id): (r: GetOutcome)
      reads this
      ensures productId == "" ==> r == InvalidProductId
      ensures productId != "" ==>
                && r.SpecificationFetched?
                && (r.specification.Some? <==> productId in specs)
                && (r.specification.Some? ==> r.specification.value == specs[productId])
    {
      if productId == "" then InvalidProductId
      else SpecificationFetched(if productId in specs then Some(specs[productId]) else None)
    }

    /** `updateProductSpecification`. */
    method UpdateProductSpecification(productId: Id, parsed: Option<SpecUpdate>) returns (r: UpdateOutcome)
      modifies this
      ensures parsed.None? ==> r == InvalidUpdate && specs == old(specs)
      ensures parsed.Some? && productId !in old(specs) ==> r == ProductNotFound && specs == old(specs)
      ensures parsed.Some? && productId in old(specs) ==>
                && r == SpecificationUpdated(MergedSpecification(old(specs)[productId], parsed.value))
                && specs == old(specs)[productId := r.data]
    {
      if parsed.None? {
        return InvalidUpdate;
      }
      if productId !in specs {
        return ProductNotFound;
      }
      var updatedSpecsData := MergeSpecification(specs[productId], parsed.value);
      specs := specs[productId := updatedSpecsData];
      return SpecificationUpdated(updatedSpecsData);
    }
  }
}
