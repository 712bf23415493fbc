/** WalletManager.canSaveWallet(alias:) and canSaveWallet(address:): whether a
    name or an address may still be added to the stored wallets. */
module DuplicateGuard {
  import opened WalletTypes

  /** The stored wallets whose name is exactly `alias` (the Realm filter). */
  function WithName(records: seq<WalletRecord>, alias: string): (r: seq<WalletRecord>)
    ensures forall w :: w in r <==> w in records && w.name == alias
  {
    if records == [] then []
    else (if records[0].name == alias then [records[0]] else []) + WithName(records[1..], alias)
  }

  /** The stored wallets whose address equals `address` once both are lowercased. */
  function WithAddress(records: seq<WalletRecord>, address: string): (r: seq<WalletRecord>)
    ensures forall w :: w in r <==> w in records && Lower(w.address) == Lower(address)
  {
    if records == [] then []
    else (if Lower(records[0].address) == Lower(address) then [records[0]] else [])
         + WithAddress(records[1..], address)
  }

  /** canSaveWallet(alias:): no stored wallet has exactly this name; the
      comparison is case-sensitive. */
  function CanSaveAlias(records: seq<WalletRecord>, alias: string): (r: bool)
    ensures r <==> forall i :: 0 <= i < |records| ==> records[i].name != alias
  {
    if |WithName(records, alias)| == 0 then
      assert forall i :: 0 <= i < |records| ==> records[i] !in WithName(records, alias);
      true
    else
      assert WithName(records, alias)[0] in records;
      false
  }

  /** canSaveWallet(address:): no stored wallet has this address, ignoring case. */
  function CanSaveAddress(records: seq<WalletRecord>, address: string): (r: bool)
    ensures !r <==> exists i :: 0 <= i < |records| && Lower(records[i].address) == Lower(address)
  {
    if |WithAddress(records, address)| == 0 then
      assert forall i :: 0 <= i < |records| ==> records[i] !in WithAddress(records, address);
      true
    else
      assert WithAddress(records, address)[0] in records;
      false
  }

  /** The store invariant the guards protect: no two wallets share an address
      (ignoring case) or a name. */
  ghost predicate DuplicateFree(records: seq<WalletRecord>) {
    forall i, j :: 0 <= i < j < |records| ==>
      Lower(records[i].address) != Lower(records[j].address) && records[i].name != records[j].name
  }

  /** Adding a wallet that passes both guards keeps the store duplicate-free. */
  lemma GuardedAppendKeepsDuplicateFree(records: seq<WalletRecord>, w: WalletRecord)
    requires DuplicateFree(records)
    requires CanSaveAddress(records, w.address) && CanSaveAlias(records, w.name)
    ensures DuplicateFree(records + [w])
  {
    var r := records + [w];
    forall i, j | 0 <= i < j < |r|
      ensures Lower(r[i].address) != Lower(r[j].address) && r[i].name != r[j].name
    {
      if j == |records| {
        assert r[i] == records[i] && r[j] == w;
      } else {
        assert r[i] == records[i] && r[j] == records[j];
      }
    }
  }

  /** Once a wallet is stored, neither its address, in any letter case, nor
      its name can be saved again. */
  lemma StoredWalletBlocksItself(records: seq<WalletRecord>, w: WalletRecord, address: string)
    requires Lower(address) == Lower(w.address)
    ensures !CanSaveAddress(records + [w], address)
    ensures !CanSaveAlias(records + [w], w.name)
  {
    assert (records + [w])[|records|] == w;
  }
}
