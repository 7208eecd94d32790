/** The product rows the order workflow reads and writes: a catalogue price and the two
    stock counters, `stock` (units owned) and `reservedStock` (units held by unpaid orders). */
module Catalogue {
  import opened Common

  datatype ProductRow = ProductRow(price: int, stock: int, reservedStock: int)

  /** The product table, keyed by product id. */
  type ProductTable = map<Id, ProductRow>

  /** A variant option such as Size = M. */
  datatype OptionRow = OptionRow(id: Id, name: string, value: string)

  /** A product variant: its product, the ids of its options, and its SKU. */
  datatype VariantRow = VariantRow(id: Id, productId: Id, variant: seq<Id>, sku: string)

  /** `stock - (reservedStock || 0)`: the units an order may still reserve. */
  function Available(p: ProductRow): int
  {
    p.stock - p.reservedStock
  }

  /** The ledger invariant: `0 <= reservedStock <= stock` for every product. */
  ghost predicate StockInvariant(products: ProductTable)
  {
    forall id | id in products :: 0 <= products[id].reservedStock <= products[id].stock
  }

  /** The set of elements of a sequence (`new Set(array)`). */
  function ToSet<T>(s: seq<T>): (r: set<T>)
    ensures forall x | x in r :: x in s
    ensures forall i | 0 <= i < |s| :: s[i] in r
  {
    set x | x in s
  }

  lemma {:induction false} ToSetCardinality<T>(s: seq<T>)
    ensures |ToSet(s)| <= |s|
    ensures |ToSet(s)| == |s| <==> Distinct(s)
    decreases |s|
  {
    if s != [] {
      var init, last := s[..|s| - 1], s[|s| - 1];
      ToSetCardinality(init);
      assert s == init + [last];
      assert ToSet(s) == ToSet(init) + {last};
      if last in init {
        assert ToSet(s) == ToSet(init);
        var k :| 0 <= k < |init| && init[k] == last;
        assert s[k] == s[|s| - 1];
      } else {
        assert |ToSet(s)| == |ToSet(init)| + 1;
        if Distinct(init) {
          forall i, j | 0 <= i < j < |s| ensures s[i] != s[j] {
            if j == |s| - 1 { assert s[i] == init[i]; }
            else { assert s[i] == init[i] && s[j] == init[j]; }
          }
        } else {
          var i, j :| 0 <= i < j < |init| && init[i] == init[j];
          assert s[i] == s[j];
        }
      }
    }
  }

  /** A subset of a finite set with as many elements is the whole set. */
  lemma SubsetSameSize<T>(a: set<T>, b: set<T>)
    requires a <= b && |a| == |b|
    ensures a == b
  {
    var rest := b - a;
    assert b == a + rest && a !! rest;
    assert |rest| == 0;
  }
}
