/** The shipping-address section of the checkout (client/src/components/user/ShippingAddress.jsx):
    when the address list arrives it selects the default address, or the first one; the
    customer may pick another from the list; the "change" and "add" buttons show only when
    there is something to change to and room for one more address. */
module ShippingAddress {
  import opened Common
  import opened Accounts

  /** `addresses.find((a) => a.isDefault)`. */
  function FirstDefault(addresses: seq<Address>): (r: Option<Address>)
    ensures r.None? <==> forall i | 0 <= i < |addresses| :: !addresses[i].isDefault
    ensures r.Some? ==>
              exists i | 0 <= i < |addresses| ::
                && addresses[i] == r.value && r.value.isDefault
                && forall j | 0 <= j < i :: !addresses[j].isDefault
    decreases |addresses|
  {
    if addresses == [] then None
    else if addresses[0].isDefault then Some(addresses[0])
    else
      var rest := FirstDefault(addresses[1..]);
      assert rest.Some? ==> exists i | 0 <= i < |addresses[1..]| ::
        addresses[1..][i] == rest.value && forall j | 0 <= j < i :: !addresses[1..][j].isDefault;
      assert rest.Some? ==> exists i | 1 <= i < |addresses| ::
        addresses[i] == rest.value && forall j | 0 <= j < i :: !addresses[j].isDefault by {
        if rest.Some? {
          var k :| 0 <= k < |addresses[1..]| &&
                   addresses[1..][k] == rest.value && forall j | 0 <= j < k :: !addresses[1..][j].isDefault;
          assert addresses[k + 1] == rest.value;
          assert forall j | 0 <= j < k + 1 :: !addresses[j].isDefault by {
            forall j | 0 <= j < k + 1
              ensures !addresses[j].isDefault
            {
              if j > 0 {
                assert addresses[j] == addresses[1..][j - 1];
              }
            }
          }
        }
      }
      assert rest.None? ==> forall i | 1 <= i < |addresses| :: !addresses[i].isDefault by {
        if rest.None? {
          forall i | 1 <= i < |addresses|
            ensures !addresses[i].isDefault
          {
            assert addresses[i] == addresses[1..][i - 1];
          }
        }
      }
      rest
  }

  /** `addresses.find((a) => a.isDefault)?.id || addresses[0]?.id` on a non-empty list: the
      effect only runs when `addresses.length` is truthy. */
  function DefaultChoice(addresses: seq<Address>): (r: Id)
    requires addresses != []
    // the first default with a truthy id, else the first address
    ensures (exists i | 0 <= i < |addresses| :: addresses[i].isDefault && addresses[i].id != "" &&
               forall j | 0 <= j < i :: !addresses[j].isDefault) ==>
              r != "" && exists i | 0 <= i < |addresses| :: addresses[i].isDefault && addresses[i].id == r
    ensures (forall i | 0 <= i < |addresses| :: !addresses[i].isDefault || addresses[i].id == "" ||
               exists j | 0 <= j < i :: addresses[j].isDefault) ==>
              r == addresses[0].id
  {
    var found := FirstDefault(addresses);
    if found.Some? && found.value.id != "" then found.value.id else addresses[0].id
  }

  /** The choice always names an address of the list, so the selected card is shown. */
  lemma ChoiceIsListed(addresses: seq<Address>)
    requires addresses != []
    ensures exists i | 0 <= i < |addresses| :: addresses[i].id == DefaultChoice(addresses)
  {
    var found := FirstDefault(addresses);
    if found.Some? && found.value.id != "" {
      var i :| 0 <= i < |addresses| && addresses[i] == found.value;
      assert addresses[i].id == DefaultChoice(addresses);
    } else {
      assert addresses[0].id == DefaultChoice(addresses);
    }
  }

  /** With exactly one default address, it is the one selected. */
  lemma SoleDefaultChosen(addresses: seq<Address>, i: int)
    requires 0 <= i < |addresses| && addresses[i].isDefault && addresses[i].id != ""
    requires forall j | 0 <= j < |addresses| && j != i :: !addresses[j].isDefault
    ensures DefaultChoice(addresses) == addresses[i].id
  {
    var found := FirstDefault(addresses);
    var k :| 0 <= k < |addresses| && addresses[k] == found.value && found.value.isDefault;
    assert k == i;
  }

  /** With no default address, the first one is selected. */
  lemma NoDefaultChoosesFirst(addresses: seq<Address>)
    requires addresses != []
    requires forall j | 0 <= j < |addresses| :: !addresses[j].isDefault
    ensures DefaultChoice(addresses) == addresses[0].id
  {
  }

  /** `SelectedShippingAddress`: the listed address with the selected id, if any. */
  function SelectedAddress(addresses: seq<Address>, shippingAddressId: Option<Id>): (r: Option<Address>)
    ensures r.Some? ==> r.value in addresses && shippingAddressId == Some(r.value.id)
    ensures r.None? ==> shippingAddressId.None? || forall a | a in addresses :: a.id != shippingAddressId.value
    decreases |addresses|
  {
    if addresses == [] || shippingAddressId.None? then None
    else if addresses[0].id == shippingAddressId.value then Some(addresses[0])
    else SelectedAddress(addresses[1..], shippingAddressId)
  }

  /** The "Change" button shows for more than one address. */
  function ShowChange(addresses: seq<Address>): (r: bool)
    ensures r <==> addresses != [] && addresses[1..] != []
  {
    |addresses| > 1
  }

  /** The "Add new address" button shows while the server would still accept one more. */
  function ShowAdd(addresses: seq<Address>): (r: bool)
    ensures r <==> |addresses| < MaxAddresses
  {
    |addresses| < 3
  }

  class ShippingSelection {
    /** The checkout's `shippingAddressId`, None while null or undefined. */
    var shippingAddressId: Option<Id>
    var changeModalOpen: bool

    constructor ()
      ensures shippingAddressId.None? && !changeModalOpen
    {
      shippingAddressId := None;
      changeModalOpen := false;
    }

    /** The effect run when the address list changes. */
    method OnAddresses(addresses: seq<Address>)
      modifies this
      ensures addresses == [] ==> shippingAddressId == old(shippingAddressId)
      ensures addresses != [] ==> shippingAddressId == Some(DefaultChoice(addresses))
      ensures addresses != [] ==> SelectedAddress(addresses, shippingAddressId).Some?
      ensures changeModalOpen == old(changeModalOpen)
    {
      if |addresses| > 0 {
        shippingAddressId := Some(DefaultChoice(addresses));
        ChoiceIsListed(addresses);
      }
    }

    /** A click on a card in the "change" dialog: select it and close the dialog. */
    method PickAddress(addresses: seq<Address>, i: int)
      requires 0 <= i < |addresses|
      modifies this
      ensures shippingAddressId == Some(addresses[i].id)
      ensures SelectedAddress(addresses, shippingAddressId).Some?
      ensures !changeModalOpen
    {
      shippingAddressId := Some(addresses[i].id);
      changeModalOpen := false;
      assert addresses[i] in addresses;
    }
  }
}
