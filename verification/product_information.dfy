/** The specification and dimension panels of the product page
    (client/src/components/product/ProductInformation.jsx): each picks the record for the
    selected variant, else the product's base record (`variantId` null), and renders only what
    is there to show. */
module ProductInformation {
  import opened Common

  /** A specification record as fetched: the variant it belongs to (None for the base) and its
      label/value data. */
  datatype SpecRecord = SpecRecord(variantId: Option<Id>, data: map<string, string>)

  /** `record.variantId === variantId`, where the page's `variantId` may be undefined (Absent),
      null or an id, and a stored record holds null or an id. */
  predicate BelongsTo(recordVariant: Option<Id>, variantId: Nullable<Id>)
  {
    match variantId
    case Absent => false
    case Null => recordVariant.None?
    case Present(v) => recordVariant == Some(v)
  }

  /** `specifications?.find((spec) => spec.variantId === variantId)`. */
  function FindSpec(specifications: seq<SpecRecord>, variantId: Nullable<Id>): (r: Option<SpecRecord>)
    ensures r.None? <==> forall i | 0 <= i < |specifications| :: !BelongsTo(specifications[i].variantId, variantId)
    ensures r.Some? ==>
              exists i | 0 <= i < |specifications| ::
                && specifications[i] == r.value && BelongsTo(r.value.variantId, variantId)
                && forall j | 0 <= j < i :: !BelongsTo(specifications[j].variantId, variantId)
    decreases |specifications|
  {
    if specifications == [] then None
    else if BelongsTo(specifications[0].variantId, variantId) then Some(specifications[0])
    else
      var r := FindSpec(specifications[1..], variantId);
      assert forall i | 1 <= i < |specifications| :: specifications[i] == specifications[1..][i - 1];
      assert r.Some? ==> exists i | 1 <= i < |specifications| ::
        && specifications[i] == r.value
        && forall j | 0 <= j < i :: !BelongsTo(specifications[j].variantId, variantId) by {
        if r.Some? {
          var k :| 0 <= k < |specifications[1..]| && specifications[1..][k] == r.value &&
                   forall j | 0 <= j < k :: !BelongsTo(specifications[1..][j].variantId, variantId);
          assert specifications[k + 1] == r.value;
        }
      }
      r
  }

  /** `variantSpec?.data || baseSpec?.data || {}`: a found record's data is an object, which
      is truthy even when empty. */
  function FinalSpec(specifications: Option<seq<SpecRecord>>, variantId: Nullable<Id>): (r: map<string, string>)
    ensures specifications.None? ==> r == map[]
    ensures specifications.Some? && FindSpec(specifications.value, variantId).Some? ==>
              r == FindSpec(specifications.value, variantId).value.data
    ensures specifications.Some? && FindSpec(specifications.value, variantId).None? ==>
              r == (if FindSpec(specifications.value, Null).Some? then FindSpec(specifications.value, Null).value.data else map[])
  {
    if specifications.None? then map[]
    else
      var variantSpec := FindSpec(specifications.value, variantId);
      var baseSpec := FindSpec(specifications.value, Null);
      if variantSpec.Some? then variantSpec.value.data
      else if baseSpec.Some? then baseSpec.value.data
      else map[]
  }

  /** The "Product Highlights" section is rendered only for a non-empty spec. */
  function ShowsSpecifications(finalSpec: map<string, string>): (r: bool)
    ensures r <==> exists field :: field in finalSpec
  {
    |finalSpec| > 0
  }

  /** A variant record with no fields hides the base record's: nothing is shown. */
  lemma EmptyVariantSpecHidesBase(specifications: seq<SpecRecord>, v: Id)
    requires |specifications| == 2
    requires specifications[0] == SpecRecord(Some(v), map[])
    requires specifications[1] == SpecRecord(None, map["Material" := "Vinyl"])
    ensures !ShowsSpecifications(FinalSpec(Some(specifications), Present(v)))
  {
    assert BelongsTo(specifications[0].variantId, Present(v));
  }

  /** A page without a variant id (undefined) never matches a variant record, and falls back
      to the base record. */
  lemma UndefinedVariantUsesBase(specifications: seq<SpecRecord>)
    ensures FinalSpec(Some(specifications), Absent) ==
              (if FindSpec(specifications, Null).Some? then FindSpec(specifications, Null).value.data else map[])
  {
  }

  // ----- dimensions -----

  /** A dimension record: each measurement may be null (None). Measurements are whole numbers
      here. */
  datatype DimensionRecord = DimensionRecord(variantId: Option<Id>, length: Option<int>, width: Option<int>,
                                             height: Option<int>, weight: Option<int>, thickness: Option<int>,
                                             unit: Option<string>)

  const DimensionKeys: seq<string> := ["length", "width", "height", "weight", "thickness"]

  /** `dimensions?.find((d) => d.variantId === variantId)`. */
  function FindDimensions(dimensions: seq<DimensionRecord>, variantId: Nullable<Id>): (r: Option<DimensionRecord>)
    ensures r.None? <==> forall i | 0 <= i < |dimensions| :: !BelongsTo(dimensions[i].variantId, variantId)
    ensures r.Some? ==>
              exists i | 0 <= i < |dimensions| ::
                && dimensions[i] == r.value && BelongsTo(r.value.variantId, variantId)
                && forall j | 0 <= j < i :: !BelongsTo(dimensions[j].variantId, variantId)
    decreases |dimensions|
  {
    if dimensions == [] then None
    else if BelongsTo(dimensions[0].variantId, variantId) then Some(dimensions[0])
    else
      var r := FindDimensions(dimensions[1..], variantId);
      assert forall i | 1 <= i < |dimensions| :: dimensions[i] == dimensions[1..][i - 1];
      assert r.Some? ==> exists i | 1 <= i < |dimensions| ::
        && dimensions[i] == r.value
        && forall j | 0 <= j < i :: !BelongsTo(dimensions[j].variantId, variantId) by {
        if r.Some? {
          var k :| 0 <= k < |dimensions[1..]| && dimensions[1..][k] == r.value &&
                   forall j | 0 <= j < k :: !BelongsTo(dimensions[1..][j].variantId, variantId);
          assert dimensions[k + 1] == r.value;
        }
      }
      r
  }

  /** `variantDimensions || baseDimensions || {}`; None stands for `{}`. */
  function FinalDimensions(dimensions: Option<seq<DimensionRecord>>, variantId: Nullable<Id>): (r: Option<DimensionRecord>)
    ensures dimensions.None? ==> r.None?
    ensures dimensions.Some? && FindDimensions(dimensions.value, variantId).Some? ==>
              r == FindDimensions(dimensions.value, variantId)
    ensures dimensions.Some? && FindDimensions(dimensions.value, variantId).None? ==>
              r == FindDimensions(dimensions.value, Null)
  {
    if dimensions.None? then None
    else
      var variantDimensions := FindDimensions(dimensions.value, variantId);
      if variantDimensions.Some? then variantDimensions else FindDimensions(dimensions.value, Null)
  }

  /** `finalDimensions[key]`: undefined for `{}` and for a key that is not a measurement. */
  function Measurement(d: Option<DimensionRecord>, key: string): Option<int>
  {
    if d.None? then None
    else if key == "length" then d.value.length
    else if key == "width" then d.value.width
    else if key == "height" then d.value.height
    else if key == "weight" then d.value.weight
    else if key == "thickness" then d.value.thickness
    else None
  }

  /** `finalDimensions[key] != null && finalDimensions[key] > 0`. */
  predicate Qualifies(d: Option<DimensionRecord>, key: string)
  {
    Measurement(d, key).Some? && Measurement(d, key).value > 0
  }

  predicate AllDigits(s: string)
  {
    forall i | 0 <= i < |s| :: '0' <= s[i] <= '9'
  }

  /** The number a string of decimal digits denotes. */
  function DigitsValue(s: string): nat
    requires AllDigits(s)
  {
    if s == [] then 0 else DigitsValue(s[..|s| - 1]) * 10 + (s[|s| - 1] as int - '0' as int)
  }

  /** `${n}` for a whole number: its decimal digits, with no leading zero. */
  function NumberText(n: nat): (r: string)
    ensures r != [] && AllDigits(r) && DigitsValue(r) == n
    ensures n > 0 ==> r[0] != '0'
  {
    if n < 10 then ["0123456789"[n]]
    else
      var prefix := NumberText(n / 10);
      var r := prefix + ["0123456789"[n % 10]];
      assert r[..|r| - 1] == prefix;
      r
  }

  /** `finalDimensions.unit || ''`. */
  function UnitText(d: Option<DimensionRecord>): string
  {
    if d.Some? && d.value.unit.Some? then d.value.unit.value else ""
  }

  /** An entry of `dimensionsToShow`: the key and its rendered value. */
  datatype ShownDimension = ShownDimension(key: string, value: string)

  /** `dimensionsToShow`: the qualifying keys in key order, each with its number and unit. */
  function DimensionsToShow(d: Option<DimensionRecord>): (r: seq<ShownDimension>)
    ensures forall key | key in DimensionKeys ::
              (exists i | 0 <= i < |r| :: r[i].key == key) <==> Qualifies(d, key)
    ensures forall i | 0 <= i < |r| ::
              && r[i].key in DimensionKeys && Qualifies(d, r[i].key)
              && r[i].value == NumberText(Measurement(d, r[i].key).value) + UnitText(d)
    ensures forall i, j | 0 <= i < j < |r| ::
              exists p, q | 0 <= p < q < |DimensionKeys| :: DimensionKeys[p] == r[i].key && DimensionKeys[q] == r[j].key
  {
    var keys := Filter(DimensionKeys, (key: string) => Qualifies(d, key));
    var r := seq(|keys|, i requires 0 <= i < |keys| =>
                   assert keys[i] in keys;
                   ShownDimension(keys[i], NumberText(Measurement(d, keys[i]).value) + UnitText(d)));
    forall key | key in DimensionKeys && Qualifies(d, key)
      ensures exists i | 0 <= i < |r| :: r[i].key == key
    {
      var i :| 0 <= i < |keys| && keys[i] == key;
      assert r[i].key == key;
    }
    forall i | 0 <= i < |r|
      ensures r[i].key in DimensionKeys && Qualifies(d, r[i].key)
    {
      assert keys[i] in keys;
    }
    forall i, j | 0 <= i < j < |r|
      ensures exists p, q | 0 <= p < q < |DimensionKeys| :: DimensionKeys[p] == r[i].key && DimensionKeys[q] == r[j].key
    {
      FilterKeepsOrder(DimensionKeys, (key: string) => Qualifies(d, key), i, j);
    }
    r
  }

  /** The "Product Dimensions" section is rendered only when some measurement qualifies. */
  predicate ShowsDimensions(d: Option<DimensionRecord>)
  {
    |DimensionsToShow(d)| > 0
  }

  /** Nothing is shown for `{}`, and a record is shown exactly when one of its five
      measurements is positive. */
  lemma ShownExactlyWithAPositiveMeasurement(d: Option<DimensionRecord>)
    ensures ShowsDimensions(d) <==> exists key | key in DimensionKeys :: Qualifies(d, key)
    ensures d.None? ==> !ShowsDimensions(d)
  {
    var r := DimensionsToShow(d);
    if r != [] {
      assert r[0].key in DimensionKeys && Qualifies(d, r[0].key);
    }
  }

  /** A zero or negative measurement is dropped like a missing one. */
  lemma NonPositiveMeasurementHidden(d: DimensionRecord)
    requires d.length == Some(0) && d.width.None?
    ensures forall i | 0 <= i < |DimensionsToShow(Some(d))| ::
              DimensionsToShow(Some(d))[i].key != "length" && DimensionsToShow(Some(d))[i].key != "width"
  {
  }
}
