/**
  Saved addresses and the delivery-address selection
  (server/src/Controller/auth.controller.js:1060-1126, with the address schema
  of server/src/DB-Models/user.model.js:3-13). Order creation ships to the
  first address flagged `recentlyUsed`.
*/
module Addresses {
  import opened Wrappers
  import opened Domain

  function IsRecentlyUsed(): Address -> bool {
    (a: Address) => a.recentlyUsed
  }

  /** The position of the delivery address: the first one flagged recently used. */
  function DeliveryAddress(addresses: seq<Address>): (r: Option<nat>)
    ensures r.Some? ==> r.value < |addresses| && addresses[r.value].recentlyUsed
    ensures r.Some? ==> forall j :: 0 <= j < r.value ==> !addresses[j].recentlyUsed
    ensures r.None? <==> forall j :: 0 <= j < |addresses| ==> !addresses[j].recentlyUsed
  {
    FirstIndex(addresses, IsRecentlyUsed())
  }

  /** At most one address is flagged: the selection is unambiguous. */
  predicate SingleRecent(addresses: seq<Address>) {
    forall i, j :: 0 <= i < j < |addresses| && addresses[i].recentlyUsed ==> !addresses[j].recentlyUsed
  }

  /** Every address with its flag cleared, as the `$[]` update does. */
  function ClearRecent(addresses: seq<Address>): (r: seq<Address>)
    ensures |r| == |addresses|
    ensures forall i :: 0 <= i < |r| ==> r[i] == addresses[i].(recentlyUsed := false)
  {
    seq(|addresses|, i requires 0 <= i < |addresses| => addresses[i].(recentlyUsed := false))
  }

  /**
    addAddress: every saved address loses the flag and the new one, in India,
    is appended with it, so it becomes the delivery address.
  */
  function AddAddress(account: Account, fields: AddressFields, newAddressId: Id): (r: Account)
    ensures r == account.(addresses := r.addresses)
    ensures |r.addresses| == |account.addresses| + 1
    ensures forall i :: 0 <= i < |account.addresses| ==>
      r.addresses[i].fields == account.addresses[i].fields && r.addresses[i].addressId == account.addresses[i].addressId
    ensures SingleRecent(r.addresses)
    ensures DeliveryAddress(r.addresses) == Some(|account.addresses|)
    ensures r.addresses[|account.addresses|] == Address(newAddressId, fields, "India", true)
  {
    var cleared := ClearRecent(account.addresses);
    var addresses := cleared + [Address(newAddressId, fields, "India", true)];
    FirstIndexIs(addresses, IsRecentlyUsed(), |cleared|);
    account.(addresses := addresses)
  }

  /**
    changeAddress: every saved address loses the flag, then the first one
    with the id gets it. An unknown id leaves no address flagged.
  */
  function ChangeAddress(account: Account, addressId: Id): (r: Account)
    ensures r == account.(addresses := r.addresses)
    ensures |r.addresses| == |account.addresses|
    ensures forall i :: 0 <= i < |account.addresses| ==>
      r.addresses[i] == account.addresses[i].(recentlyUsed := r.addresses[i].recentlyUsed)
    ensures SingleRecent(r.addresses)
    ensures DeliveryAddress(r.addresses).Some? <==> exists i :: 0 <= i < |account.addresses| && account.addresses[i].addressId == addressId
    ensures DeliveryAddress(r.addresses).Some? ==> r.addresses[DeliveryAddress(r.addresses).value].addressId == addressId
  {
    var cleared := ClearRecent(account.addresses);
    match FirstIndex(cleared, (a: Address) => a.addressId == addressId)
    case None => account.(addresses := cleared)
    case Some(k) =>
      var addresses := cleared[k := cleared[k].(recentlyUsed := true)];
      FirstIndexIs(addresses, IsRecentlyUsed(), k);
      account.(addresses := addresses)
  }

  /** Changing to an id makes the first address carrying it the delivery address. */
  lemma ChangeSelectsFirstWithId(account: Account, addressId: Id, k: nat)
    requires k < |account.addresses| && account.addresses[k].addressId == addressId
    requires forall j :: 0 <= j < k ==> account.addresses[j].addressId != addressId
    ensures DeliveryAddress(ChangeAddress(account, addressId).addresses) == Some(k)
  {
    var cleared := ClearRecent(account.addresses);
    FirstIndexIs(cleared, (a: Address) => a.addressId == addressId, k);
  }
}
