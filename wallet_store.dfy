/** The wallet table of the database, reduced to the contract the managers
    consume: list the records, save one, delete by address. Creation dates
    come from a logical clock that every successful save advances. */
module WalletStorage {
  import opened Wrappers
  import opened WalletTypes
  import opened DuplicateGuard

  /** The records and the clock at one instant. */
  datatype StoreState = StoreState(records: seq<WalletRecord>, clock: int)

  /** The database's own verdict on a write, which the model does not see into. */
  type Acceptance = (seq<WalletRecord>, WalletRecord) -> bool

  /** The record a save of `w` creates now. */
  function RecordOf(s: StoreState, name: string, address: string, coin: CoinType,
                    tokens: Option<seq<TokenInfo>>): WalletRecord {
    WalletRecord(name, address, coin, s.clock, tokens)
  }

  /** Saving `rec` appends it when the database accepts the write and leaves
      the store as it was when the write throws. */
  function SaveState(s: StoreState, rec: WalletRecord, accepts: Acceptance): (r: StoreState)
    ensures r.records == s.records || r.records == s.records + [rec]
    ensures r.records == s.records + [rec] <==> accepts(s.records, rec)
  {
    if accepts(s.records, rec) then StoreState(s.records + [rec], s.clock + 1) else s
  }

  /** The records left after deleting the wallet stored under `address`. */
  function WithoutAddress(records: seq<WalletRecord>, address: string): (r: seq<WalletRecord>)
    ensures forall w :: w in r <==> w in records && w.address != address
    ensures |r| <= |records|
  {
    if records == [] then []
    else (if records[0].address == address then [] else [records[0]])
         + WithoutAddress(records[1..], address)
  }

  /** Deleting a stored wallet from a duplicate-free store makes its address
      savable again. */
  lemma DeleteMakesAddressSavable(records: seq<WalletRecord>, k: nat)
    requires DuplicateFree(records) && k < |records|
    ensures CanSaveAddress(WithoutAddress(records, records[k].address), records[k].address)
  {
    var a := records[k].address;
    var r := WithoutAddress(records, a);
    forall i | 0 <= i < |r| ensures Lower(r[i].address) != Lower(a) {
      assert r[i] in records;
      var j :| 0 <= j < |records| && records[j] == r[i];
      assert j != k;
    }
  }

  class WalletStore {
    var records: seq<WalletRecord>
    var clock: int
    const accepts: Acceptance

    function State(): StoreState reads this {
      StoreState(records, clock)
    }

    constructor (accepts: Acceptance, records: seq<WalletRecord>, clock: int)
      ensures State() == StoreState(records, clock) && this.accepts == accepts
    {
      this.records, this.clock := records, clock;
      this.accepts := accepts;
    }

    /** saveICXWallet / saveETHWallet: persist a wallet; `ok` is false when
        the write throws. */
    method Save(rec: WalletRecord) returns (ok: bool)
      modifies this
      ensures State() == SaveState(old(State()), rec, accepts)
      ensures ok == accepts(old(records), rec)
    {
      ok := accepts(records, rec);
      if ok {
        records, clock := records + [rec], clock + 1;
      }
    }

    /** DB.deleteWallet: remove the wallet stored under `address`; `removed`
        says whether there was one. */
    method Delete(address: string) returns (removed: bool)
      modifies this`records
      ensures records == WithoutAddress(old(records), address)
      ensures removed <==> exists i :: 0 <= i < |old(records)| && old(records)[i].address == address
    {
      removed := exists i :: 0 <= i < |records| && records[i].address == address;
      records := WithoutAddress(records, address);
    }
  }
}
