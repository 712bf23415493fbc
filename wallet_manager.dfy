/** WalletManager: the in-memory wallet list, the balance caches and the
    de-duplicated balance refresh. Network fetches are not run: a fetch the
    manager issues is recorded in `pending`, and its completion, delivered on
    the main queue in the source, is a call of CompleteIcxFetch or
    CompleteEthFetch. */
module WalletManagement {
  import opened Wrappers
  import opened WalletTypes
  import opened WalletStorage
  import opened WalletList
  import opened BalanceRefresh

  /** The fetches left after the completion for `address` is delivered. */
  function WithoutFetch(fs: seq<Fetch>, address: string): (r: seq<Fetch>)
    ensures forall f :: f in r <==> f in fs && f.address != address
  {
    if fs == [] then []
    else (if fs[0].address == address then [] else [fs[0]]) + WithoutFetch(fs[1..], address)
  }

  /** Dropping fetches keeps the issued ones pairwise distinct. */
  lemma {:induction false} WithoutFetchDistinct(fs: seq<Fetch>, address: string)
    requires DistinctAddresses(fs)
    ensures DistinctAddresses(WithoutFetch(fs, address))
  {
    if fs != [] {
      WithoutFetchDistinct(fs[1..], address);
      var rest := WithoutFetch(fs[1..], address);
      assert forall f :: f in rest ==> f in fs[1..];
      forall k | 0 <= k < |rest| ensures rest[k].address != fs[0].address {
        var m :| 0 <= m < |fs[1..]| && fs[1..][m] == rest[k];
        assert fs[m + 1] == rest[k];
      }
    }
  }

  class WalletManager {
    const store: WalletStore
    /** `_queued`: the addresses whose balance is being fetched. */
    var queued: set<string>
    /** The fetches issued to the balance queue whose completion has not yet
        been delivered. */
    var pending: seq<Fetch>
    var walletInfoList: seq<WalletInfo>
    var walletBalanceList: map<string, nat>
    var tokenBalanceList: map<string, map<string, nat>>

    /** At most one outstanding fetch per address, and every outstanding
        fetch is for a queued address. */
    ghost predicate Valid() reads this {
      DistinctAddresses(pending) &&
      forall k :: 0 <= k < |pending| ==> pending[k].address in queued
    }

    constructor (store: WalletStore)
      ensures Valid() && this.store == store
      ensures queued == {} && pending == [] && walletBalanceList == map[] && tokenBalanceList == map[]
      ensures walletInfoList == Infos(NewestFirst(store.records))
    {
      this.store := store;
      queued, pending := {}, [];
      walletBalanceList, tokenBalanceList := map[], map[];
      walletInfoList := [];
      new;
      LoadWalletList();
    }

    /** isBalanceLoadCompleted. */
    function IsBalanceLoadCompleted(): (r: bool)
      reads this
      ensures r <==> queued == {}
    {
      |queued| == 0
    }

    /** loadWalletList: empty the list, then append one info per stored
        wallet, newest first. */
    method LoadWalletList()
      modifies this`walletInfoList
      ensures walletInfoList == Infos(NewestFirst(store.records))
    {
      walletInfoList := [];
      var list := NewestFirst(store.records);
      for i := 0 to |list|
        invariant walletInfoList == Infos(list[..i])
      {
        walletInfoList := walletInfoList + [InfoOf(list[i])];
      }
      assert list[..|list|] == list;
    }

    /** getWalletsBalance: queue every wallet's address that is not queued
        already and issue one fetch for it. */
    method GetWalletsBalance()
      requires Valid()
      modifies this`queued, this`pending
      ensures Valid()
      ensures var a := Admit(store.records, old(queued), walletInfoList);
        queued == a.queued && pending == old(pending) + a.issued
    {
      ghost var q0 := queued;
      for i := 0 to |walletInfoList|
        invariant var a := Admit(store.records, q0, walletInfoList[..i]);
          queued == a.queued && pending == old(pending) + a.issued
      {
        assert walletInfoList[..i + 1][..i] == walletInfoList[..i];
        var info := walletInfoList[i];
        // loadWalletBy(info:) and its address
        if !Resolves(store.records, info) { continue; }
        var address := info.address;
        if address in queued { continue; }
        queued := queued + {address};
        if info.coin == Icx {
          pending := pending + [Fetch(address, Icx)];
        } else if info.coin == Eth {
          pending := pending + [Fetch(address, Eth)];
        }
      }
      assert walletInfoList[..|walletInfoList|] == walletInfoList;
      AdmitIssuesFresh(store.records, q0, walletInfoList);
    }

    /** The completion of an icx balance fetch: the balance is written only
        when the response carries one, and the address leaves the queue
        either way. */
    method CompleteIcxFetch(address: string, response: Option<nat>)
      requires Valid() && Fetch(address, Icx) in pending
      modifies this`queued, this`pending, this`walletBalanceList
      ensures Valid()
      ensures queued == old(queued) - {address} && pending == WithoutFetch(old(pending), address)
      ensures walletBalanceList ==
        if response.Some? then old(walletBalanceList)[address := response.value] else old(walletBalanceList)
    {
      if response.Some? {
        walletBalanceList := walletBalanceList[address := response.value];
      }
      queued := queued - {address};
      WithoutFetchDistinct(pending, address);
      pending := WithoutFetch(pending, address);
    }

    /** The completion of an eth balance fetch: the ether balance and the
        token balances are each written when present. */
    method CompleteEthFetch(address: string, ethValue: Option<nat>, tokenValues: Option<map<string, nat>>)
      requires Valid() && Fetch(address, Eth) in pending
      modifies this`queued, this`pending, this`walletBalanceList, this`tokenBalanceList
      ensures Valid()
      ensures queued == old(queued) - {address} && pending == WithoutFetch(old(pending), address)
      ensures walletBalanceList ==
        if ethValue.Some? then old(walletBalanceList)[address := ethValue.value] else old(walletBalanceList)
      ensures tokenBalanceList ==
        if tokenValues.Some? then old(tokenBalanceList)[address := tokenValues.value] else old(tokenBalanceList)
    {
      if ethValue.Some? {
        walletBalanceList := walletBalanceList[address := ethValue.value];
      }
      if tokenValues.Some? {
        tokenBalanceList := tokenBalanceList[address := tokenValues.value];
      }
      queued := queued - {address};
      WithoutFetchDistinct(pending, address);
      pending := WithoutFetch(pending, address);
    }

    /** deleteWallet: delete the stored wallet, then rebuild the list from the
        store; when the database throws, nothing changes and the result is
        false. */
    method DeleteWallet(address: string, dbThrows: bool) returns (result: bool)
      modifies store`records, this`walletInfoList
      ensures dbThrows ==> !result && store.records == old(store.records) && walletInfoList == old(walletInfoList)
      ensures !dbThrows ==>
        && store.records == WithoutAddress(old(store.records), address)
        && walletInfoList == Infos(NewestFirst(store.records))
        && (result <==> exists i :: 0 <= i < |old(store.records)| && old(store.records)[i].address == address)
    {
      if dbThrows {
        return false;
      }
      result := store.Delete(address);
      LoadWalletList();
    }
  }
}
