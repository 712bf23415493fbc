/** Transaction.recentTransactionList: the recent transfers of one coin
    type, without those sent to the excluded address, each shown with the
    name of the wallet it went to when there is one. */
module Transactions {
  import opened Wrappers

  /** TransactionModel as stored. */
  datatype TransactionModel = TransactionModel(
    from: string, to: string, txHash: string, value: string, date: int, tokenSymbol: Option<string>)

  /** TransactionInfo shown in the list. */
  datatype TransactionInfo = TransactionInfo(
    name: string, address: string, date: int, hexAmount: string, tokenSymbol: Option<string>)

  /** DB.findWalletName(with:exclude:). */
  type WalletNameLookup = (TransactionModel, string) -> Option<string>

  /** The info for one transfer: named after the wallet found, "" if none. */
  function InfoFor(m: TransactionModel, exclude: string, walletName: WalletNameLookup): (r: TransactionInfo)
    ensures r.address == m.to && r.date == m.date && r.hexAmount == m.value && r.tokenSymbol == m.tokenSymbol
    ensures r.name == if walletName(m, exclude).Some? then walletName(m, exclude).value else ""
  {
    var name := match walletName(m, exclude) case Some(n) => n case None => "";
    TransactionInfo(name, m.to, m.date, m.value, m.tokenSymbol)
  }

  /** The list the loop builds from `models`. */
  function Recent(models: seq<TransactionModel>, exclude: string, walletName: WalletNameLookup): seq<TransactionInfo>
    decreases |models|
  {
    if models == [] then []
    else
      var m := models[|models| - 1];
      Recent(models[..|models| - 1], exclude, walletName)
        + (if m.to == exclude then [] else [InfoFor(m, exclude, walletName)])
  }

  /** The list of a concatenation is the concatenation of the lists: the
      filter keeps the order of the transfers. */
  lemma {:induction false} RecentConcat(a: seq<TransactionModel>, b: seq<TransactionModel>, exclude: string, walletName: WalletNameLookup)
    ensures Recent(a + b, exclude, walletName) == Recent(a, exclude, walletName) + Recent(b, exclude, walletName)
    decreases |b|
  {
    if b == [] {
      assert a + b == a;
    } else {
      var n := |b| - 1;
      assert (a + b)[..|a + b| - 1] == a + b[..n];
      assert (a + b)[|a + b| - 1] == b[n];
      RecentConcat(a, b[..n], exclude, walletName);
    }
  }

  /** Exactly the transfers not sent to `exclude` appear: each shown info is
      the info of such a transfer, and each such transfer is shown. */
  lemma {:induction false} RecentMembers(models: seq<TransactionModel>, exclude: string, walletName: WalletNameLookup)
    ensures var r := Recent(models, exclude, walletName);
      && (forall x :: x in r ==> exists k :: 0 <= k < |models| && models[k].to != exclude && x == InfoFor(models[k], exclude, walletName))
      && (forall k :: 0 <= k < |models| && models[k].to != exclude ==> InfoFor(models[k], exclude, walletName) in r)
    decreases |models|
  {
    if models != [] {
      var n := |models| - 1;
      var p := models[..n];
      RecentMembers(p, exclude, walletName);
      assert forall k :: 0 <= k < n ==> models[k] == p[k];
    }
  }

  /** No shown info goes to the excluded address. */
  lemma RecentExcludes(models: seq<TransactionModel>, exclude: string, walletName: WalletNameLookup)
    ensures forall x :: x in Recent(models, exclude, walletName) ==> x.address != exclude
  {
    RecentMembers(models, exclude, walletName);
  }

  /** recentTransactionList(type:exclude:). `models` is what
      DB.transactionList(type:) returns for the coin type. */
  method RecentTransactionList(models: Option<seq<TransactionModel>>, exclude: string, walletName: WalletNameLookup)
    returns (infos: seq<TransactionInfo>)
    ensures infos == if models.None? then [] else Recent(models.value, exclude, walletName)
  {
    infos := [];
    if models.Some? {
      var list := models.value;
      for i := 0 to |list|
        invariant infos == Recent(list[..i], exclude, walletName)
      {
        assert list[..i + 1][..i] == list[..i];
        var model := list[i];
        if model.to == exclude { continue; }
        var name := "";
        var found := walletName(model, exclude);
        if found.Some? {
          name := found.value;
        }
        infos := infos + [TransactionInfo(name, model.to, model.date, model.value, model.tokenSymbol)];
      }
      assert list[..|list|] == list;
    }
  }
}
