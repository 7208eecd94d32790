/** The product page (client/src/components/pages/ProductDetails.jsx): the variant options
    grouped by name for the pickers, the selection of one option per group, the check of the
    selection against the product's variants, and the image carousel. */
module ProductDetails {
  import opened Common
  import opened Catalogue

  // ----- grouping the options -----

  datatype OptionValue = OptionValue(id: Id, value: string)

  /** `{ name, values }`, one per option name. */
  datatype OptionGroup = OptionGroup(name: string, values: seq<OptionValue>)

  function ValueOf(o: OptionRow): OptionValue
  {
    OptionValue(o.id, o.value)
  }

  /** `acc.findIndex((opt) => opt.name === optionName)`: the first group with that name, or -1. */
  function GroupIndex(groups: seq<OptionGroup>, name: string): (r: int)
    ensures -1 <= r < |groups|
    ensures r == -1 <==> forall i | 0 <= i < |groups| :: groups[i].name != name
    ensures r >= 0 ==> groups[r].name == name && forall j | 0 <= j < r :: groups[j].name != name
    decreases |groups|
  {
    if groups == [] then -1
    else if groups[0].name == name then 0
    else
      var r := GroupIndex(groups[1..], name);
      assert forall i | 1 <= i < |groups| :: groups[i] == groups[1..][i - 1];
      if r == -1 then -1 else r + 1
  }

  /** One step of the `reduce`: a new group for a new name, else the value joins its group. */
  function AddToGroups(groups: seq<OptionGroup>, o: OptionRow): seq<OptionGroup>
  {
    var k := GroupIndex(groups, o.name);
    if k == -1 then groups + [OptionGroup(o.name, [ValueOf(o)])]
    else groups[k := groups[k].(values := groups[k].values + [ValueOf(o)])]
  }

  /** The accumulator after the `reduce` has seen `options`. */
  function Grouped(options: seq<OptionRow>): seq<OptionGroup>
    decreases |options|
  {
    if options == [] then [] else AddToGroups(Grouped(options[..|options| - 1]), options[|options| - 1])
  }

  /** The values of the options with that name, in the order they came. */
  function ValuesNamed(options: seq<OptionRow>, name: string): (r: seq<OptionValue>)
    ensures r == [] <==> forall k | 0 <= k < |options| :: options[k].name != name
    decreases |options|
  {
    if options == [] then []
    else ValuesNamed(options[..|options| - 1], name) + (if options[|options| - 1].name == name then [ValueOf(options[|options| - 1])] else [])
  }

  predicate NamesDistinct(groups: seq<OptionGroup>)
  {
    forall i, j | 0 <= i < j < |groups| :: groups[i].name != groups[j].name
  }

  /** Each group holds exactly the values of its name's options, in their order. */
  predicate HoldsValuesOf(groups: seq<OptionGroup>, options: seq<OptionRow>)
  {
    forall i | 0 <= i < |groups| :: groups[i].values == ValuesNamed(options, groups[i].name) && groups[i].values != []
  }

  /** Every option's name has a group. */
  predicate Covers(groups: seq<OptionGroup>, options: seq<OptionRow>)
  {
    forall k | 0 <= k < |options| :: exists i | 0 <= i < |groups| :: groups[i].name == options[k].name
  }

  lemma ValuesNamedSnoc(init: seq<OptionRow>, o: OptionRow, name: string)
    ensures ValuesNamed(init + [o], name) == ValuesNamed(init, name) + (if o.name == name then [ValueOf(o)] else [])
  {
    assert (init + [o])[..|init|] == init;
  }

  lemma AddKeepsNamesDistinct(g: seq<OptionGroup>, o: OptionRow)
    requires NamesDistinct(g)
    ensures NamesDistinct(AddToGroups(g, o))
  {
    var r := AddToGroups(g, o);
    if GroupIndex(g, o.name) == -1 {
      assert forall i | 0 <= i < |g| :: r[i] == g[i];
    } else {
      assert forall i | 0 <= i < |g| :: r[i].name == g[i].name;
    }
  }

  lemma AddHoldsValues(g: seq<OptionGroup>, init: seq<OptionRow>, o: OptionRow)
    requires NamesDistinct(g) && HoldsValuesOf(g, init) && Covers(g, init)
    ensures HoldsValuesOf(AddToGroups(g, o), init + [o])
  {
    var r := AddToGroups(g, o);
    var k := GroupIndex(g, o.name);
    forall i | 0 <= i < |r|
      ensures r[i].values == ValuesNamed(init + [o], r[i].name) && r[i].values != []
    {
      ValuesNamedSnoc(init, o, r[i].name);
      if k == -1 && i == |g| {
        assert ValuesNamed(init, o.name) == [] by {
          forall kk | 0 <= kk < |init| ensures init[kk].name != o.name {
            var j :| 0 <= j < |g| && g[j].name == init[kk].name;
          }
        }
      } else if i != k {
        assert r[i] == g[i];
      }
    }
  }

  lemma AddCovers(g: seq<OptionGroup>, init: seq<OptionRow>, o: OptionRow)
    requires Covers(g, init)
    ensures Covers(AddToGroups(g, o), init + [o])
  {
    var r := AddToGroups(g, o);
    assert forall i | 0 <= i < |g| :: r[i].name == g[i].name;
    assert exists i | 0 <= i < |r| :: r[i].name == o.name by {
      var k := GroupIndex(g, o.name);
      if k == -1 {
        assert r[|g|].name == o.name;
      } else {
        assert r[k].name == o.name;
      }
    }
  }

  /** Each option lands in the group of its name, there is one group per name, and every
      group holds its name's values in the order they came. */
  lemma {:induction false} GroupedIsGrouping(options: seq<OptionRow>)
    ensures NamesDistinct(Grouped(options))
    ensures HoldsValuesOf(Grouped(options), options)
    ensures Covers(Grouped(options), options)
    decreases |options|
  {
    if options != [] {
      var init := options[..|options| - 1];
      var o := options[|options| - 1];
      assert options == init + [o];
      GroupedIsGrouping(init);
      AddKeepsNamesDistinct(Grouped(init), o);
      AddHoldsValues(Grouped(init), init, o);
      AddCovers(Grouped(init), init, o);
    }
  }

  // ----- ordering the groups and their values -----

  const SizeOrder: seq<string> := ["XS", "S", "M", "L", "XL", "XXL", "2XL", "3XL"]

  /** `sizeOrder.indexOf(value.toUpperCase())`: the position of the first match, or -1. */
  function IndexOf(s: seq<string>, x: string): (r: int)
    ensures -1 <= r < |s|
    ensures r == -1 <==> x !in s
    ensures r >= 0 ==> s[r] == x && x !in s[..r]
    decreases |s|
  {
    if s == [] then -1
    else if s[0] == x then 0
    else
      var r := IndexOf(s[1..], x);
      assert s == [s[0]] + s[1..];
      if r == -1 then -1
      else
        assert s[..r + 1] == [s[0]] + s[1..][..r];
        r + 1
  }

  function SizeIndex(value: string): int
  {
    IndexOf(SizeOrder, Upper(value))
  }

  /** The "Size" comparator, `indexA - indexB <= 0`: unknown sizes (index -1) come first. */
  predicate SizeLe(a: OptionValue, b: OptionValue)
  {
    SizeIndex(a.value) <= SizeIndex(b.value)
  }

  /** The other groups' comparator, `a.value.localeCompare(b.value) <= 0`. */
  predicate ValueLe(a: OptionValue, b: OptionValue)
  {
    LexLe(a.value, b.value)
  }

  /** The groups' comparator, `a.name.localeCompare(b.name) <= 0`. */
  predicate GroupNameLe(a: OptionGroup, b: OptionGroup)
  {
    LexLe(a.name, b.name)
  }

  function ValueOrder(name: string): (OptionValue, OptionValue) -> bool
  {
    if name == "Size" then SizeLe else ValueLe
  }

  lemma ComparatorsArePreorders()
    ensures TotalPreorder(SizeLe)
    ensures TotalPreorder(ValueLe)
    ensures TotalPreorder(GroupNameLe)
  {
    forall a: OptionValue, b: OptionValue ensures ValueLe(a, b) || ValueLe(b, a) {
      LexLeTotal(a.value, b.value);
    }
    forall a: OptionValue, b: OptionValue, c: OptionValue | ValueLe(a, b) && ValueLe(b, c) ensures ValueLe(a, c) {
      LexLeTransitive(a.value, b.value, c.value);
    }
    forall a: OptionGroup, b: OptionGroup ensures GroupNameLe(a, b) || GroupNameLe(b, a) {
      LexLeTotal(a.name, b.name);
    }
    forall a: OptionGroup, b: OptionGroup, c: OptionGroup | GroupNameLe(a, b) && GroupNameLe(b, c) ensures GroupNameLe(a, c) {
      LexLeTransitive(a.name, b.name, c.name);
    }
  }

  /** The `.map` step: a group's values sorted in place by its comparator. */
  function Arranged(g: OptionGroup): OptionGroup
  {
    g.(values := Sort(g.values, ValueOrder(g.name)))
  }

  /** The `.map` over all groups. */
  function ArrangedGroups(g: seq<OptionGroup>): (r: seq<OptionGroup>)
    ensures |r| == |g| && forall i | 0 <= i < |g| :: r[i] == Arranged(g[i])
  {
    seq(|g|, i requires 0 <= i < |g| => Arranged(g[i]))
  }

  /** `groupedOptions`: nothing without options, else the groups with their values ordered,
      sorted by name. */
  function GroupedOptions(options: Option<seq<OptionRow>>): seq<OptionGroup>
  {
    if options.None? || |options.value| == 0 then []
    else Sort(ArrangedGroups(Grouped(options.value)), GroupNameLe)
  }

  /** Each group's values, rearranged and sorted by its comparator, are its name's values. */
  predicate ArrangedValuesOf(groups: seq<OptionGroup>, options: seq<OptionRow>)
  {
    forall i | 0 <= i < |groups| ::
      && multiset(groups[i].values) == multiset(ValuesNamed(options, groups[i].name))
      && Sorted(groups[i].values, ValueOrder(groups[i].name))
  }

  lemma ArrangedGroupsShape(g: seq<OptionGroup>, options: seq<OptionRow>)
    requires NamesDistinct(g) && HoldsValuesOf(g, options) && Covers(g, options)
    ensures NamesDistinct(ArrangedGroups(g)) && ArrangedValuesOf(ArrangedGroups(g), options)
    ensures Covers(ArrangedGroups(g), options)
  {
    var a := ArrangedGroups(g);
    ComparatorsArePreorders();
    forall i | 0 <= i < |a|
      ensures multiset(a[i].values) == multiset(ValuesNamed(options, a[i].name))
      ensures Sorted(a[i].values, ValueOrder(a[i].name))
    {
      assert TotalPreorder(ValueOrder(g[i].name));
      SortPermutation(g[i].values, ValueOrder(g[i].name));
      SortSorted(g[i].values, ValueOrder(g[i].name));
    }
    assert forall i | 0 <= i < |g| :: a[i].name == g[i].name;
  }

  lemma CoversAt(groups: seq<OptionGroup>, options: seq<OptionRow>, k: int)
    requires Covers(groups, options) && 0 <= k < |options|
    ensures exists i | 0 <= i < |groups| :: groups[i].name == options[k].name
  {
    var o := options[k];
    assert exists i | 0 <= i < |groups| :: groups[i].name == o.name;
  }

  /** Reordering the groups keeps what each holds and which names are covered. */
  lemma PermutedShape(a: seq<OptionGroup>, r: seq<OptionGroup>, options: seq<OptionRow>)
    requires multiset(a) == multiset(r)
    requires NamesDistinct(a) && ArrangedValuesOf(a, options) && Covers(a, options)
    ensures NamesDistinct(r) && ArrangedValuesOf(r, options) && Covers(r, options)
  {
    DistinctKeysAfterPermutation(a, r, (x: OptionGroup) => x.name);
    forall i | 0 <= i < |r|
      ensures multiset(r[i].values) == multiset(ValuesNamed(options, r[i].name))
      ensures Sorted(r[i].values, ValueOrder(r[i].name))
    {
      assert r[i] in multiset(a);
      var p :| 0 <= p < |a| && a[p] == r[i];
    }
    forall k | 0 <= k < |options|
      ensures exists i | 0 <= i < |r| :: r[i].name == options[k].name
    {
      CoversAt(a, options, k);
      var p :| 0 <= p < |a| && a[p].name == options[k].name;
      assert a[p] in multiset(r);
      var i :| 0 <= i < |r| && r[i] == a[p];
    }
  }

  /** The groups as the page shows them: sorted by name, one per distinct option name, each
      holding its name's values rearranged and sorted by its comparator. */
  lemma GroupedOptionsShape(options: seq<OptionRow>)
    requires options != []
    ensures var r := GroupedOptions(Some(options));
            && Sorted(r, GroupNameLe)
            && NamesDistinct(r)
            && ArrangedValuesOf(r, options)
            && Covers(r, options)
  {
    var g := Grouped(options);
    GroupedIsGrouping(options);
    ArrangedGroupsShape(g, options);
    var a := ArrangedGroups(g);
    ComparatorsArePreorders();
    SortSorted(a, GroupNameLe);
    SortPermutation(a, GroupNameLe);
    PermutedShape(a, Sort(a, GroupNameLe), options);
  }

  /** In a sorted "Size" group, unrecognised sizes come before every recognised one. */
  lemma UnknownSizesFirst(values: seq<OptionValue>)
    requires Sorted(values, SizeLe)
    ensures forall i, j | 0 <= i < j < |values| && SizeIndex(values[j].value) == -1 :: SizeIndex(values[i].value) == -1
  {
    forall i, j | 0 <= i < j < |values| && SizeIndex(values[j].value) == -1
      ensures SizeIndex(values[i].value) == -1
    {
      assert SizeLe(values[i], values[j]);
    }
  }

  /** The `useMemo`: the `reduce` pushes into an accumulator, then every group's values are
      sorted and the groups are sorted by name. */
  method GroupOptions(options: Option<seq<OptionRow>>) returns (groupedOptions: seq<OptionGroup>)
    ensures groupedOptions == GroupedOptions(options)
  {
    if options.None? || |options.value| == 0 {
      return [];
    }
    var opts := options.value;
    var acc: seq<OptionGroup> := [];
    var n := 0;
    while n < |opts|
      invariant 0 <= n <= |opts|
      invariant acc == Grouped(opts[..n])
    {
      var currentOption := opts[n];
      var optionIndex := GroupIndex(acc, currentOption.name);
      if optionIndex == -1 {
        acc := acc + [OptionGroup(currentOption.name, [OptionValue(currentOption.id, currentOption.value)])];
      } else {
        acc := acc[optionIndex := acc[optionIndex].(values := acc[optionIndex].values + [OptionValue(currentOption.id, currentOption.value)])];
      }
      assert opts[..n + 1][..n] == opts[..n];
      n := n + 1;
    }
    assert opts[..n] == opts;
    groupedOptions := Sort(ArrangedGroups(acc), GroupNameLe);
  }

  // ----- the carousel -----

  /** JavaScript's `%` for a positive divisor: the sign follows the dividend. */
  function JsRemainder(a: int, n: int): (r: int)
    requires n > 0
    ensures a >= 0 ==> r == a % n
    ensures a < 0 ==> -n < r <= 0
  {
    if a >= 0 then a % n else -((-a) % n)
  }

  /** `nextImage`: `(prev + 1) % images.length`; None stands for NaN with no images. */
  function NextImageIndex(prev: int, count: nat): (r: Option<int>)
    ensures r.None? <==> count == 0
    ensures count > 0 && 0 <= prev < count ==>
              && 0 <= r.value < count
              && r.value == (if prev == count - 1 then 0 else prev + 1)
  {
    if count == 0 then None else Some(JsRemainder(prev + 1, count))
  }

  /** `prevImage`: `(prev - 1 + images.length) % images.length`. */
  function PrevImageIndex(prev: int, count: nat): (r: Option<int>)
    ensures r.None? <==> count == 0
    ensures count > 0 && 0 <= prev < count ==>
              && 0 <= r.value < count
              && r.value == (if prev == 0 then count - 1 else prev - 1)
  {
    if count == 0 then None else Some(JsRemainder(prev - 1 + count, count))
  }

  /** Forward then back, or back then forward, returns to the same image. */
  lemma NextPrevInverse(i: int, count: nat)
    requires 0 <= i < count
    ensures PrevImageIndex(NextImageIndex(i, count).value, count) == Some(i)
    ensures NextImageIndex(PrevImageIndex(i, count).value, count) == Some(i)
  {
  }

  // ----- the selection -----

  /** The fetched variant data: either part may be missing. */
  datatype VariantDetails = VariantDetails(options: Option<seq<OptionRow>>, variants: Option<seq<VariantRow>>)

  /** A variant whose every option id is among the selected ones. */
  predicate Matches(v: VariantRow, selected: set<Id>)
  {
    forall id | id in v.variant :: id in selected
  }

  class ProductPage {
    /** `selectedVariant`: option name to the picked option id, `''` while unpicked. */
    var selectedVariant: map<string, Id>
    /** Despite its name, true while no variant matches the selection: the page then says
        "Selected variant is not available". */
    var isVariantAvailable: bool

    constructor ()
      ensures selectedVariant == map[] && isVariantAvailable
    {
      selectedVariant := map[];
      isVariantAvailable := true;
    }

    /** The effect on `groupedOptions`: every group name starts unpicked. */
    method InitSelection(groupedOptions: seq<OptionGroup>)
      modifies this
      ensures groupedOptions == [] ==> selectedVariant == old(selectedVariant)
      ensures groupedOptions != [] ==>
                && (forall name :: name in selectedVariant <==> exists g | g in groupedOptions :: g.name == name)
                && (forall name | name in selectedVariant :: selectedVariant[name] == "")
      ensures isVariantAvailable == old(isVariantAvailable)
    {
      if |groupedOptions| > 0 {
        selectedVariant := map g | g in groupedOptions :: g.name := "";
      }
    }

    /** A click on an option: it becomes the pick for its name, the other picks stay. */
    method SelectOption(name: string, id: Id)
      modifies this
      ensures selectedVariant == old(selectedVariant)[name := id]
      ensures isVariantAvailable == old(isVariantAvailable)
    {
      selectedVariant := selectedVariant[name := id];
    }

    /** `getSelectedVariantDetails`: with data and every group picked, the flag is cleared
        exactly when some variant's option ids are all among the picks. */
    method UpdateAvailability(variantDetails: Option<VariantDetails>)
      modifies this
      ensures selectedVariant == old(selectedVariant)
      ensures variantDetails.None? || "" in selectedVariant.Values ==> isVariantAvailable == old(isVariantAvailable)
      ensures variantDetails.Some? && "" !in selectedVariant.Values ==>
                (!isVariantAvailable <==>
                   && variantDetails.value.variants.Some?
                   && exists v | v in variantDetails.value.variants.value :: Matches(v, selectedVariant.Values))
    {
      var variantIds := selectedVariant.Values;
      if variantDetails.None? || "" in variantIds {
        return;
      }
      var variantFound := variantDetails.value.variants.Some? &&
                          exists v | v in variantDetails.value.variants.value :: Matches(v, variantIds);
      isVariantAvailable := !variantFound;
    }
  }

  /** Right after the selection starts, no option is picked and the flag is left alone. */
  lemma FreshSelectionIsIncomplete(groupedOptions: seq<OptionGroup>, selected: map<string, Id>)
    requires groupedOptions != []
    requires forall name :: name in selected <==> exists g | g in groupedOptions :: g.name == name
    requires forall name | name in selected :: selected[name] == ""
    ensures "" in selected.Values
  {
    assert groupedOptions[0].name in selected;
  }
}
