/** The de-duplication rule of WalletManager.getWalletsBalance: which
    wallets get a balance fetch, and how the set of queued addresses grows. */
module BalanceRefresh {
  import opened WalletTypes

  /** A balance fetch handed to the operation queue (an ICXClient or an
      EthereumClient request). */
  datatype Fetch = Fetch(address: string, coin: CoinType)

  /** The queued addresses together with the fetches issued so far. */
  datatype Admission = Admission(queued: set<string>, issued: seq<Fetch>)

  /** loadWalletBy(info) finds the wallet, so its address is known. */
  predicate Resolves(records: seq<WalletRecord>, info: WalletInfo) {
    exists i :: 0 <= i < |records| && records[i].address == info.address
  }

  /** No two fetches are for the same address. */
  ghost predicate DistinctAddresses(fs: seq<Fetch>) {
    forall i, j :: 0 <= i < j < |fs| ==> fs[i].address != fs[j].address
  }

  /** One turn of the loop: an unresolvable wallet or an address already
      queued is skipped; any other address is queued, and a fetch is issued
      for it when the wallet is an icx or an eth wallet. */
  function AdmitStep(records: seq<WalletRecord>, a: Admission, info: WalletInfo): Admission {
    if !Resolves(records, info) || info.address in a.queued then a
    else
      Admission(a.queued + {info.address},
                a.issued + (if info.coin == Icx || info.coin == Eth then [Fetch(info.address, info.coin)] else []))
  }

  /** The whole loop over `infos`, starting from the queued set `queued`. */
  function Admit(records: seq<WalletRecord>, queued: set<string>, infos: seq<WalletInfo>): Admission
    decreases |infos|
  {
    if infos == [] then Admission(queued, [])
    else AdmitStep(records, Admit(records, queued, infos[..|infos| - 1]), infos[|infos| - 1])
  }

  /** The addresses of the wallets in `infos` that resolve. */
  ghost function ResolvedAddresses(records: seq<WalletRecord>, infos: seq<WalletInfo>): set<string> {
    set i | 0 <= i < |infos| && Resolves(records, infos[i]) :: infos[i].address
  }

  /** Afterwards the queued set is the old one plus every resolvable address
      that was visited, whether or not a fetch was issued for it. */
  lemma {:induction false} AdmitQueued(records: seq<WalletRecord>, queued: set<string>, infos: seq<WalletInfo>)
    ensures Admit(records, queued, infos).queued == queued + ResolvedAddresses(records, infos)
    decreases |infos|
  {
    if infos != [] {
      var n := |infos| - 1;
      var p := infos[..n];
      AdmitQueued(records, queued, p);
      var rp := ResolvedAddresses(records, p);
      var ri := ResolvedAddresses(records, infos);
      assert forall i :: 0 <= i < n ==> infos[i] == p[i];
      if Resolves(records, infos[n]) {
        assert ri == rp + {infos[n].address};
      } else {
        assert ri == rp;
      }
    }
  }

  /** Every fetch issued is for an address that was not queued before and is
      queued now, and no two issued fetches share an address: an address
      already being fetched is never fetched twice. */
  lemma {:induction false} AdmitIssuesFresh(records: seq<WalletRecord>, queued: set<string>, infos: seq<WalletInfo>)
    ensures var a := Admit(records, queued, infos);
      && queued <= a.queued
      && (forall k :: 0 <= k < |a.issued| ==> a.issued[k].address !in queued && a.issued[k].address in a.queued)
      && DistinctAddresses(a.issued)
    decreases |infos|
  {
    if infos != [] {
      var n := |infos| - 1;
      AdmitIssuesFresh(records, queued, infos[..n]);
    }
  }

  /** `f` is the fetch that the visited wallet `infos[j]` calls for. */
  ghost predicate IssuedFor(records: seq<WalletRecord>, infos: seq<WalletInfo>, f: Fetch) {
    (f.coin == Icx || f.coin == Eth) &&
    exists j :: 0 <= j < |infos| && Resolves(records, infos[j]) && f == Fetch(infos[j].address, infos[j].coin)
  }

  /** Every issued fetch comes from a visited icx or eth wallet of the same
      address and coin. */
  lemma {:induction false} AdmitIssuesFromInfos(records: seq<WalletRecord>, queued: set<string>, infos: seq<WalletInfo>)
    ensures forall f :: f in Admit(records, queued, infos).issued ==> IssuedFor(records, infos, f)
    decreases |infos|
  {
    if infos != [] {
      var n := |infos| - 1;
      var p := infos[..n];
      AdmitIssuesFromInfos(records, queued, p);
      var ap := Admit(records, queued, p);
      var a := Admit(records, queued, infos);
      assert a == AdmitStep(records, ap, infos[n]);
      forall f | f in a.issued ensures IssuedFor(records, infos, f) {
        if f in ap.issued {
          assert IssuedFor(records, p, f);
          var j :| 0 <= j < |p| && Resolves(records, p[j]) && f == Fetch(p[j].address, p[j].coin);
          assert infos[j] == p[j];
        } else {
          assert f == Fetch(infos[n].address, infos[n].coin);
        }
      }
    }
  }

  /** A visited icx or eth wallet whose address was neither queued before
      nor visited earlier in the loop gets a fetch for its address. (A wallet
      of any other coin is queued without one, so its address stays queued.) */
  lemma {:induction false} AdmitCoversWallets(records: seq<WalletRecord>, queued: set<string>, infos: seq<WalletInfo>, j: nat)
    requires j < |infos| && Resolves(records, infos[j]) && infos[j].address !in queued
    requires infos[j].coin == Icx || infos[j].coin == Eth
    requires forall i :: 0 <= i < j ==> infos[i].address != infos[j].address
    ensures Fetch(infos[j].address, infos[j].coin) in Admit(records, queued, infos).issued
    decreases |infos|
  {
    var n := |infos| - 1;
    var p := infos[..n];
    var ap := Admit(records, queued, p);
    var a := Admit(records, queued, infos);
    assert a == AdmitStep(records, ap, infos[n]);
    if j < n {
      assert p[j] == infos[j];
      AdmitCoversWallets(records, queued, p, j);
    } else {
      AdmitQueued(records, queued, p);
      assert infos[n].address !in ResolvedAddresses(records, p);
    }
  }

  /** A resolving wallet of another coin type, whose address no icx or eth
      wallet of the list shares, is queued but gets no fetch; since only a
      fetch's completion dequeues an address, it stays queued. */
  lemma OtherCoinQueuedWithoutFetch(records: seq<WalletRecord>, queued: set<string>, infos: seq<WalletInfo>, j: nat)
    requires j < |infos| && Resolves(records, infos[j]) && infos[j].coin == OtherCoin
    requires forall i :: 0 <= i < |infos| && (infos[i].coin == Icx || infos[i].coin == Eth) ==>
      infos[i].address != infos[j].address
    ensures var a := Admit(records, queued, infos);
      && infos[j].address in a.queued
      && forall f :: f in a.issued ==> f.address != infos[j].address
  {
    AdmitQueued(records, queued, infos);
    assert infos[j].address in ResolvedAddresses(records, infos);
    AdmitIssuesFromInfos(records, queued, infos);
    forall f | f in Admit(records, queued, infos).issued ensures f.address != infos[j].address {
      assert IssuedFor(records, infos, f);
      var k :| 0 <= k < |infos| && Resolves(records, infos[k]) && f == Fetch(infos[k].address, infos[k].coin);
    }
  }
}
