/** The order in which WalletManager.loadWalletList lists the stored
    wallets: sorted by creation date, then reversed, so newest first. */
module WalletList {
  import opened WalletTypes

  ghost predicate NewestFirstOrder(s: seq<WalletRecord>) {
    forall i, j :: 0 <= i < j < |s| ==> s[i].createdDate >= s[j].createdDate
  }

  /** Place `x` after every record at least as new as it. */
  function InsertByDate(x: WalletRecord, s: seq<WalletRecord>): (r: seq<WalletRecord>)
    requires NewestFirstOrder(s)
    ensures NewestFirstOrder(r)
    ensures multiset(r) == multiset(s) + multiset{x}
  {
    if s == [] || s[0].createdDate < x.createdDate then [x] + s
    else
      var rest := InsertByDate(x, s[1..]);
      assert s == [s[0]] + s[1..];
      HeadStaysNewest(s[0], x, s[1..], rest);
      [s[0]] + rest
  }

  /** A record at least as new as `x` and as everything in `tail` can head
      any newest-first arrangement of `tail` with `x` added. */
  lemma HeadStaysNewest(h: WalletRecord, x: WalletRecord, tail: seq<WalletRecord>, rest: seq<WalletRecord>)
    requires x.createdDate <= h.createdDate
    requires forall k :: 0 <= k < |tail| ==> tail[k].createdDate <= h.createdDate
    requires multiset(rest) == multiset(tail) + multiset{x}
    requires NewestFirstOrder(rest)
    ensures NewestFirstOrder([h] + rest)
  {
    forall j | 0 <= j < |rest| ensures rest[j].createdDate <= h.createdDate {
      assert rest[j] in multiset(rest);
      if rest[j] != x {
        assert rest[j] in multiset(tail);
        var k :| 0 <= k < |tail| && tail[k] == rest[j];
      }
    }
  }

  /** Realm's `sorted(byKeyPath: "createdDate").reversed()`. The order of
      records with equal dates is not documented; this model puts the
      latest-stored first, and no contract depends on that choice. */
  function NewestFirst(records: seq<WalletRecord>): (r: seq<WalletRecord>)
    ensures NewestFirstOrder(r)
    ensures multiset(r) == multiset(records)
  {
    if records == [] then []
    else
      assert records == [records[0]] + records[1..];
      InsertByDate(records[0], NewestFirst(records[1..]))
  }

  /** The wallet infos of a list of records, in the same order. */
  function Infos(rs: seq<WalletRecord>): (r: seq<WalletInfo>)
    ensures |r| == |rs| && forall i :: 0 <= i < |rs| ==> r[i] == InfoOf(rs[i])
  {
    seq(|rs|, i requires 0 <= i < |rs| => InfoOf(rs[i]))
  }

  /** The reloaded list shows every stored wallet, once per record, newest
      first. */
  lemma ReloadedListShowsStore(records: seq<WalletRecord>)
    ensures var list := Infos(NewestFirst(records));
      && |list| == |records|
      && (forall i, j :: 0 <= i < j < |list| ==> list[i].createdDate >= list[j].createdDate)
      && (forall w :: w in records ==> InfoOf(w) in list)
  {
    var s := NewestFirst(records);
    forall w | w in records ensures InfoOf(w) in Infos(s) {
      assert w in multiset(s);
      var i :| 0 <= i < |s| && s[i] == w;
      assert Infos(s)[i] == InfoOf(w);
    }
    assert |s| == |multiset(s)| == |multiset(records)| == |records|;
  }
}
