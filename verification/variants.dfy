/** Product variants and their options (server/controllers/variantController.js): the SKU
    built from a variant's options, creation behind an option-id check, the variant listing
    with its options, deletion, and the option lookup by name. */
module Variants {
  import opened Common
  import opened Catalogue

  // ----- the SKU -----

  /** `a.name.localeCompare(b.name) <= 0`. */
  predicate NameLe(a: OptionRow, b: OptionRow)
  {
    LexLe(a.name, b.name)
  }

  lemma NameLeIsTotalPreorder()
    ensures TotalPreorder(NameLe)
  {
    forall a: OptionRow, b: OptionRow ensures NameLe(a, b) || NameLe(b, a) {
      LexLeTotal(a.name, b.name);
    }
    forall a: OptionRow, b: OptionRow, c: OptionRow | NameLe(a, b) && NameLe(b, c) ensures NameLe(a, c) {
      LexLeTransitive(a.name, b.name, c.name);
    }
  }

  /** `${opt.name.toUpperCase()}-${opt.value.toUpperCase()}`. */
  function Part(opt: OptionRow): string
  {
    Upper(opt.name) + "-" + Upper(opt.value)
  }

  /** `parts.join('&')`. */
  function Join(parts: seq<string>): (r: string)
    ensures parts == [] ==> r == ""
    ensures |parts| == 1 ==> r == parts[0]
    decreases |parts|
  {
    if parts == [] then ""
    else if |parts| == 1 then parts[0]
    else Join(parts[..|parts| - 1]) + "&" + parts[|parts| - 1]
  }

  function Parts(options: seq<OptionRow>): (r: seq<string>)
    ensures |r| == |options| && forall i | 0 <= i < |options| :: r[i] == Part(options[i])
  {
    seq(|options|, i requires 0 <= i < |options| => Part(options[i]))
  }

  /** `generateSKU`: the product id, a dash, and the upper-cased `NAME-VALUE` parts of the
      options, sorted by name, joined with `&`. */
  function GenerateSku(productId: Id, options: seq<OptionRow>): (r: string)
    ensures |r| > |productId| && r[..|productId| + 1] == productId + "-"
    ensures r[|productId| + 1..] == Join(Parts(Sort(options, NameLe)))
  {
    var r := productId + "-" + Join(Parts(Sort(options, NameLe)));
    assert r[..|productId| + 1] == productId + "-";
    r
  }

  /** Options with distinct names give the same SKU whatever order the rows come in. */
  lemma SkuOrderIndependent(productId: Id, a: seq<OptionRow>, b: seq<OptionRow>)
    requires multiset(a) == multiset(b)
    requires forall i, j | 0 <= i < j < |a| :: a[i].name != a[j].name
    ensures GenerateSku(productId, a) == GenerateSku(productId, b)
  {
    NameLeIsTotalPreorder();
    SortSorted(a, NameLe);
    SortSorted(b, NameLe);
    SortPermutation(a, NameLe);
    SortPermutation(b, NameLe);
    forall x, y | x in multiset(Sort(a, NameLe)) && y in multiset(Sort(a, NameLe)) && NameLe(x, y) && NameLe(y, x)
      ensures x == y
    {
      LexLeAntisymmetric(x.name, y.name);
      assert x in a && y in a;
      var i :| 0 <= i < |a| && a[i] == x;
      var j :| 0 <= j < |a| && a[j] == y;
      assert a[i].name == a[j].name;
      assert i == j;
    }
    SortedUnique(Sort(a, NameLe), Sort(b, NameLe), NameLe);
  }

  /** Two options of the same name keep their input order (the sort is stable). */
  lemma SkuOfTwoSameName(productId: Id, x: OptionRow, y: OptionRow)
    requires x.name == y.name
    ensures GenerateSku(productId, [x, y]) == productId + "-" + Part(x) + "&" + Part(y)
  {
    LexLeReflexive(x.name);
    assert [x, y][..1] == [x] && [x][1..] == [];
    assert Sort([x], NameLe) == [x];
    assert Insert(y, [x], NameLe) == [x] + Insert(y, [], NameLe) == [x, y];
    assert Parts([x, y]) == [Part(x), Part(y)];
    assert Parts([x, y])[..1] == [Part(x)];
  }

  /** So with a repeated option name the SKU depends on the order of the rows. */
  lemma SkuOrderDependentForRepeatedName()
    ensures GenerateSku("P", [OptionRow("1", "size", "s"), OptionRow("2", "size", "m")])
            != GenerateSku("P", [OptionRow("2", "size", "m"), OptionRow("1", "size", "s")])
  {
    var s, m := OptionRow("1", "size", "s"), OptionRow("2", "size", "m");
    SkuOfTwoSameName("P", s, m);
    SkuOfTwoSameName("P", m, s);
    assert Part(s)[5] == UpperChar('s') == 'S';
    assert Part(m)[5] == UpperChar('m') == 'M';
    assert GenerateSku("P", [s, m])[7] == 'S';
    assert GenerateSku("P", [m, s])[7] == 'M';
  }

  // ----- lookups -----

  /** `option.findMany({ where: { id: { in: ids } } })`, in table order. */
  function OptionsWithIds(options: seq<OptionRow>, ids: seq<Id>): (r: seq<OptionRow>)
    ensures forall o :: o in r <==> o in options && o.id in ids
    decreases |options|
  {
    if options == [] then []
    else OptionsWithIds(options[..|options| - 1], ids)
         + (if options[|options| - 1].id in ids then [options[|options| - 1]] else [])
  }

  predicate HasOptionId(options: seq<OptionRow>, id: Id)
  {
    exists o | o in options :: o.id == id
  }

  /** `ids.filter(id => !validIds.has(id))`, in request order. */
  function MissingIds(ids: seq<Id>, options: seq<OptionRow>): (r: seq<Id>)
    ensures forall x :: x in r <==> x in ids && !HasOptionId(options, x)
    ensures r == [] <==> forall i | 0 <= i < |ids| :: HasOptionId(options, ids[i])
    decreases |ids|
  {
    if ids == [] then []
    else MissingIds(ids[..|ids| - 1], options)
         + (if HasOptionId(options, ids[|ids| - 1]) then [] else [ids[|ids| - 1]])
  }

  /** The found rows are exactly the options named by the request, so an id is valid iff an
      option with it was found. */
  lemma FoundIdsAreValidIds(options: seq<OptionRow>, ids: seq<Id>, id: Id)
    requires id in ids
    ensures HasOptionId(OptionsWithIds(options, ids), id) <==> HasOptionId(options, id)
  {
    if HasOptionId(options, id) {
      var o :| o in options && o.id == id;
      assert o in OptionsWithIds(options, ids);
    }
  }

  /** Checking the request's ids against the rows found for them is checking them against
      the whole option table. */
  lemma {:induction false} MissingAgainstFound(xs: seq<Id>, options: seq<OptionRow>, ids: seq<Id>)
    requires forall i | 0 <= i < |xs| :: xs[i] in ids
    ensures MissingIds(xs, OptionsWithIds(options, ids)) == MissingIds(xs, options)
    decreases |xs|
  {
    if xs != [] {
      MissingAgainstFound(xs[..|xs| - 1], options, ids);
      FoundIdsAreValidIds(options, ids, xs[|xs| - 1]);
    }
  }

  /** The table after `productVariant.delete({ where: { id } })`. */
  function VariantsWithout(variants: seq<VariantRow>, id: Id): (r: seq<VariantRow>)
    ensures forall v :: v in r <==> v in variants && v.id != id
    decreases |variants|
  {
    if variants == [] then []
    else VariantsWithout(variants[..|variants| - 1], id)
         + (if variants[|variants| - 1].id == id then [] else [variants[|variants| - 1]])
  }

  predicate DistinctVariantIds(variants: seq<VariantRow>)
  {
    forall i, j | 0 <= i < j < |variants| :: variants[i].id != variants[j].id
  }

  lemma {:induction false} VariantsWithoutDistinct(variants: seq<VariantRow>, id: Id)
    requires DistinctVariantIds(variants)
    ensures DistinctVariantIds(VariantsWithout(variants, id))
    decreases |variants|
  {
    if variants != [] {
      var init := variants[..|variants| - 1];
      var last := variants[|variants| - 1];
      assert DistinctVariantIds(init) by {
        forall i, j | 0 <= i < j < |init| ensures init[i].id != init[j].id {
          assert init[i] == variants[i] && init[j] == variants[j];
        }
      }
      VariantsWithoutDistinct(init, id);
      var w := VariantsWithout(init, id);
      forall k | 0 <= k < |w| ensures w[k].id != last.id {
        assert w[k] in init;
        var i :| 0 <= i < |init| && init[i] == w[k];
        assert variants[i] == w[k];
      }
    }
  }

  /** The product's variants (`where: { productId }`), in table order. */
  function VariantsOfProduct(variants: seq<VariantRow>, productId: Id): (r: seq<VariantRow>)
    ensures forall v :: v in r <==> v in variants && v.productId == productId
    decreases |variants|
  {
    if variants == [] then []
    else VariantsOfProduct(variants[..|variants| - 1], productId)
         + (if variants[|variants| - 1].productId == productId then [variants[|variants| - 1]] else [])
  }

  /** `productVariants.map(v => v.variant).flat(2)`. */
  function FlatIds(variants: seq<VariantRow>): (r: seq<Id>)
    ensures forall id :: id in r <==> exists v | v in variants :: id in v.variant
    decreases |variants|
  {
    if variants == [] then []
    else
      var init := variants[..|variants| - 1];
      var last := variants[|variants| - 1];
      var r := FlatIds(init) + last.variant;
      assert forall v | v in variants :: v in init || v == last;
      r
  }

  /** The options named `name` (`where: { name }`), in table order. */
  function OptionsNamed(options: seq<OptionRow>, name: string): (r: seq<OptionRow>)
    ensures forall o :: o in r <==> o in options && o.name == name
    decreases |options|
  {
    if options == [] then []
    else OptionsNamed(options[..|options| - 1], name)
         + (if options[|options| - 1].name == name then [options[|options| - 1]] else [])
  }

  // ----- outcomes -----

  /** `VariantCreateThrew` is the foreign-key error `productVariant.create` throws out of the handler. */
  datatype CreateVariantOutcome =
    | InvalidIds(invalidIds: seq<Id>)
    | VariantCreateThrew
    | VariantCreated(productVariant: VariantRow)

  datatype VariantListing = VariantListing(productVariants: seq<VariantRow>, options: seq<OptionRow>)

  /** The database error a delete can meet. */
  datatype DeleteError = RecordNotFound | ForeignKeyViolation

  datatype DeleteOutcome = VariantDeleted | VariantNotFoundReply

  datatype OptionLookup = InvalidName | NoSuchOption | OptionsFound(options: seq<OptionRow>)

  /** The catch block of `deleteProductVariant` as written: `e.code = 'P2025'` assigns a truthy
      string, so every failure is answered 400 "product variant not found". */
  function DeleteFailureReply(e: DeleteError): (r: DeleteOutcome)
    ensures r == VariantNotFoundReply
  {
    var code := "P2025";  // the assignment's value
    if code != "" then VariantNotFoundReply else VariantDeleted
  }

  /** The comparison the catch block evidently meant: only a missing record is "not found";
      any other failure propagates (None). */
  function DeleteFailureReplyIntended(e: DeleteError): (r: Option<DeleteOutcome>)
    ensures r == Some(VariantNotFoundReply) <==> e == RecordNotFound
    ensures r.None? <==> e != RecordNotFound
  {
    if e == RecordNotFound then Some(VariantNotFoundReply) else None
  }

  /** A variant that still exists but cannot be deleted (a cart row refers to it) is reported
      as not found. */
  lemma ExistingVariantReportedMissing()
    ensures DeleteFailureReply(ForeignKeyViolation) == VariantNotFoundReply
    ensures DeleteFailureReplyIntended(ForeignKeyViolation).None?
  {
  }

  // ----- the tables -----

  class VariantStore {
    var options: seq<OptionRow>
    var variants: seq<VariantRow>

    ghost predicate Valid()
      reads this
    {
      DistinctVariantIds(variants)
    }

    constructor (options: seq<OptionRow>)
      ensures Valid() && this.options == options && variants == []
    {
      this.options := options;
      variants := [];
    }

    /** `createProductVariant` on the validated draft (`productId`, option ids). Nothing before
        the create checks that the product exists: `products` holds the existing product ids,
        and a draft for any other id fails the create's foreign key. `newId` is the id the
        database assigns. */
    method CreateProductVariant(productId: Id, optionIds: seq<Id>, products: set<Id>, newId: Id)
      returns (r: CreateVariantOutcome)
      requires Valid()
      requires forall i | 0 <= i < |variants| :: variants[i].id != newId
      modifies this
      ensures Valid() && options == old(options)
      ensures r.InvalidIds? <==> MissingIds(optionIds, old(options)) != []
      ensures r.InvalidIds? ==> r.invalidIds == MissingIds(optionIds, old(options))
      ensures r == VariantCreateThrew <==> MissingIds(optionIds, old(options)) == [] && productId !in products
      ensures !r.VariantCreated? ==> variants == old(variants)
      ensures r.VariantCreated? ==>
                && r.productVariant == VariantRow(newId, productId, optionIds, GenerateSku(productId, OptionsWithIds(old(options), optionIds)))
                && variants == old(variants) + [r.productVariant]
    {
      var found := OptionsWithIds(options, optionIds);
      var invalidIds := MissingIds(optionIds, found);
      MissingAgainstFound(optionIds, options, optionIds);
      if |invalidIds| > 0 {
        return InvalidIds(invalidIds);
      }
      if productId !in products {
        return VariantCreateThrew;
      }
      var row := VariantRow(newId, productId, optionIds, GenerateSku(productId, found));
      variants := variants + [row];
      return VariantCreated(row);
    }

    /** `getAllVariants`: the product's variants and every option any of them names. */
    function GetAllVariants(productId: Id): (r: VariantListing)
      reads this
      ensures forall v :: v in r.productVariants <==> v in variants && v.productId == productId
      ensures forall o :: o in r.options <==>
                o in options && exists v | v in variants && v.productId == productId :: o.id in v.variant
    {
      var mine := VariantsOfProduct(variants, productId);
      VariantListing(mine, OptionsWithIds(options, FlatIds(mine)))
    }

    /** `deleteProductVariant`. `referenced` holds the variant ids other rows still refer to,
        whose deletion the database refuses. */
    method DeleteProductVariant(id: Id, referenced: set<Id>) returns (r: DeleteOutcome)
      requires Valid()
      modifies this
      ensures Valid() && options == old(options)
      ensures r == VariantDeleted <==> (exists i | 0 <= i < |old(variants)| :: old(variants)[i].id == id) && id !in referenced
      ensures r == VariantDeleted ==> variants == VariantsWithout(old(variants), id)
      ensures r == VariantNotFoundReply ==> variants == old(variants)
    {
      if !exists i | 0 <= i < |variants| :: variants[i].id == id {
        return DeleteFailureReply(RecordNotFound);
      }
      if id in referenced {
        return DeleteFailureReply(ForeignKeyViolation);
      }
      VariantsWithoutDistinct(variants, id);
      variants := VariantsWithout(variants, id);
      return VariantDeleted;
    }

    /** `getOptionByName`. */
    function GetOptionByName(name: string): (r: OptionLookup)
      reads this
      ensures r == InvalidName <==> name == ""
      ensures r == NoSuchOption <==> name != "" && forall o | o in options :: o.name != name
      ensures r.OptionsFound? ==> r.options != [] && forall o :: o in r.options <==> o in options && o.name == name
    {
      if name == "" then InvalidName
      else
        var found := OptionsNamed(options, name);
        assert |found| > 0 ==> found[0] in found;
        if |found| <= 0 then NoSuchOption else OptionsFound(found)
    }
  }
}
