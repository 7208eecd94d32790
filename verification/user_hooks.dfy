/** The account cache updaters (client/src/hooks/user.js): the cached address list after an
    address is added, removed or updated, and the cached profile after a profile update.
    The update's reply is taken to be the whole address row, so spreading it over the cached
    entry yields the reply itself. */
module UserHooks {
  import opened Common
  import opened Accounts

  /** `onSuccess` of adding: `(oldAddresses = [])`, the new address goes last. */
  function AddressAdded(cached: Option<seq<Address>>, newAddress: Address): (r: seq<Address>)
    ensures var before := if cached.Some? then cached.value else [];
            |r| == |before| + 1 && r[..|before|] == before && r[|before|] == newAddress
  {
    (if cached.Some? then cached.value else []) + [newAddress]
  }

  /** `onSuccess` of removing: `addresses?.filter(...)`, so a missing cache stays missing. */
  function AddressRemoved(cached: Option<seq<Address>>, removedId: Id): (r: Option<seq<Address>>)
    ensures cached.None? <==> r.None?
    ensures r.Some? ==>
              && (forall a | a in r.value :: a in cached.value && a.id != removedId)
              && (forall a | a in cached.value && a.id != removedId :: a in r.value)
  {
    if cached.None? then None else Some(Filter(cached.value, (ad: Address) => ad.id != removedId))
  }

  /** One entry of the `map` in `onSuccess` of updating. */
  function UpdatedEntry(addr: Address, updatedAddress: Address): Address
  {
    if addr.id == updatedAddress.id then updatedAddress
    else if updatedAddress.isDefault && addr.isDefault then addr.(isDefault := false)
    else addr
  }

  /** `onSuccess` of updating: `(oldAddresses = [])`; the entry with the reply's id becomes the
      reply; when the reply is the default, every other entry stops being one; nothing else
      changes. */
  function AddressUpdated(cached: Option<seq<Address>>, updatedAddress: Address): (r: seq<Address>)
    ensures var before := if cached.Some? then cached.value else [];
            && |r| == |before|
            && (forall i | 0 <= i < |before| && before[i].id == updatedAddress.id :: r[i] == updatedAddress)
            && (forall i | 0 <= i < |before| && before[i].id != updatedAddress.id ::
                  r[i] == before[i].(isDefault := before[i].isDefault && !updatedAddress.isDefault))
  {
    var oldAddresses := if cached.Some? then cached.value else [];
    seq(|oldAddresses|, i requires 0 <= i < |oldAddresses| => UpdatedEntry(oldAddresses[i], updatedAddress))
  }

  /** After an update that makes an address the default, it is the only default cached. */
  lemma UpdatedDefaultIsSoleDefault(cached: seq<Address>, updatedAddress: Address)
    requires updatedAddress.isDefault
    requires exists i | 0 <= i < |cached| :: cached[i].id == updatedAddress.id
    ensures var r := AddressUpdated(Some(cached), updatedAddress);
            && (exists i | 0 <= i < |r| :: r[i] == updatedAddress)
            && forall i | 0 <= i < |r| && r[i].isDefault :: r[i] == updatedAddress
  {
    var r := AddressUpdated(Some(cached), updatedAddress);
    var i :| 0 <= i < |cached| && cached[i].id == updatedAddress.id;
    assert r[i] == updatedAddress;
  }

  /** A non-default update touches only its own entry. */
  lemma NonDefaultUpdateIsLocal(cached: seq<Address>, updatedAddress: Address)
    requires !updatedAddress.isDefault
    ensures var r := AddressUpdated(Some(cached), updatedAddress);
            forall i | 0 <= i < |r| && cached[i].id != updatedAddress.id :: r[i] == cached[i]
  {
  }

  /** `onSuccess` of a profile update: the reply replaces the cached profile whatever it was. */
  function ProfileUpdated<P>(cached: Option<P>, updatedUser: P): (r: Option<P>)
    ensures r == Some(updatedUser)
  {
    Some(updatedUser)
  }
}
