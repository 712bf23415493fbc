/** WalletCreator.saveBundle: restoring the wallets of a bundle file, one
    entry at a time, skipping duplicates and entries that cannot be saved and
    carrying on with the rest. */
module BundleRestore {
  import opened Wrappers
  import opened WalletTypes
  import opened DuplicateGuard
  import opened WalletStorage

  /** The TokenInfo built from a bundle token for the eth wallet at `owner`. */
  function TokenInfoOf(t: TokenExport, owner: string): TokenInfo {
    TokenInfo(t.name, t.defaultName, t.symbol, t.decimals, t.defaultDecimals, owner, t.address, "eth")
  }

  function TokenInfos(ts: seq<TokenExport>, owner: string): (r: seq<TokenInfo>)
    ensures |r| == |ts| && forall i :: 0 <= i < |ts| ==> r[i] == TokenInfoOf(ts[i], owner)
  {
    seq(|ts|, i requires 0 <= i < |ts| => TokenInfoOf(ts[i], owner))
  }

  /** The token list an eth wallet is saved with: none unless the bundle
      lists at least one token. */
  function EthTokens(tokens: Option<seq<TokenExport>>, owner: string): (r: Option<seq<TokenInfo>>)
    ensures r.Some? <==> tokens.Some? && |tokens.value| > 0
    ensures r.Some? ==> r.value == TokenInfos(tokens.value, owner)
  {
    match tokens
    case None => None
    case Some(ts) => if |ts| > 0 then Some(TokenInfos(ts, owner)) else None
  }

  /** The record an entry is saved as: its name, the address read from its
      keystore text, and for eth its tokens. None when the type is neither
      "icx" nor "eth" (nothing is saved) or the keystore cannot be read (the
      save throws). */
  function RecordFor(s: StoreState, value: ExportBundle, keys: KeyService): (r: Option<WalletRecord>)
    ensures r.Some? ==>
      && ReaderFor(keys, value.tag).Some?
      && ReaderFor(keys, value.tag).value(value.priv).Some?
      && r.value.address == ReaderFor(keys, value.tag).value(value.priv).value.address
      && r.value.name == value.name
      && r.value.coin == (if value.tag == "icx" then Icx else Eth)
      && r.value.createdDate == s.clock
      && r.value.tokens == (if value.tag == "icx" then None else EthTokens(value.tokens, r.value.address))
    // an icx or eth entry whose keystore text reads always yields a record
    ensures ReaderFor(keys, value.tag).Some? && ReaderFor(keys, value.tag).value(value.priv).Some? ==> r.Some?
  {
    if value.tag == "icx" then
      match keys.readIcx(value.priv)
      case None => None
      case Some(k) => Some(RecordOf(s, value.name, k.address, Icx, None))
    else if value.tag == "eth" then
      match keys.readEth(value.priv)
      case None => None
      case Some(k) => Some(RecordOf(s, value.name, k.address, Eth, EthTokens(value.tokens, k.address)))
    else None
  }

  /** An entry passes at state `s` when it has a key, its key address and
      its name are both free, its keystore text reads as an icx or eth wallet
      and the database accepts the record. */
  predicate Passes(s: StoreState, item: BundleItem, keys: KeyService, accepts: Acceptance) {
    && |item.pairs| > 0
    && CanSaveAddress(s.records, item.pairs[0].0)
    && CanSaveAlias(s.records, item.pairs[0].1.name)
    && RecordFor(s, item.pairs[0].1, keys).Some?
    && accepts(s.records, RecordFor(s, item.pairs[0].1, keys).value)
  }

  /** One turn of the loop. An entry with no key, whose key address or name
      is already stored, or that cannot be saved leaves the store unchanged;
      otherwise its record is appended. */
  function RestoreItem(s: StoreState, item: BundleItem, keys: KeyService, accepts: Acceptance): (r: StoreState)
    ensures Passes(s, item, keys, accepts) ==>
      && r.records == s.records + [RecordFor(s, item.pairs[0].1, keys).value]
      && r.clock == s.clock + 1
    ensures !Passes(s, item, keys, accepts) ==> r == s
  {
    if |item.pairs| == 0 then s
    else
      var (keyAddress, value) := item.pairs[0];
      if !CanSaveAddress(s.records, keyAddress) then s
      else if !CanSaveAlias(s.records, value.name) then s
      else
        match RecordFor(s, value, keys)
        case None => s
        case Some(rec) => SaveState(s, rec, accepts)
  }

  /** The whole loop over the bundle's entries, in order. */
  function Restore(s: StoreState, items: seq<BundleItem>, keys: KeyService, accepts: Acceptance): StoreState
    decreases |items|
  {
    if items == [] then s
    else RestoreItem(Restore(s, items[..|items| - 1], keys, accepts), items[|items| - 1], keys, accepts)
  }

  /** Restoring two bundles one after the other is restoring their
      concatenation. */
  lemma {:induction false} RestoreConcat(s: StoreState, a: seq<BundleItem>, b: seq<BundleItem>, keys: KeyService, accepts: Acceptance)
    ensures Restore(s, a + b, keys, accepts) == Restore(Restore(s, a, keys, accepts), b, keys, accepts)
    decreases |b|
  {
    if b == [] {
      assert a + b == a;
    } else {
      var n := |b| - 1;
      assert (a + b)[..|a + b| - 1] == a + b[..n];
      assert (a + b)[|a + b| - 1] == b[n];
      RestoreConcat(s, a, b[..n], keys, accepts);
      var t := Restore(s, a + b[..n], keys, accepts);
      assert t == Restore(Restore(s, a, keys, accepts), b[..n], keys, accepts);
      assert Restore(s, a + b, keys, accepts) == RestoreItem(t, b[n], keys, accepts);
    }
  }

  /** Skip-and-continue: an entry that is skipped at its turn has no effect
      on the entries after it; the outcome is that of the bundle without it. */
  lemma SkippedEntryHasNoEffect(s: StoreState, a: seq<BundleItem>, x: BundleItem, b: seq<BundleItem>, keys: KeyService, accepts: Acceptance)
    requires var t := Restore(s, a, keys, accepts); RestoreItem(t, x, keys, accepts) == t
    ensures Restore(s, a + [x] + b, keys, accepts) == Restore(s, a + b, keys, accepts)
  {
    RestoreConcat(s, a + [x], b, keys, accepts);
    RestoreConcat(s, a, b, keys, accepts);
    assert (a + [x])[..|a + [x]| - 1] == a;
  }

  /** Every entry that passes at its turn is saved: its record is among the
      records after the whole bundle has been restored. */
  lemma RestoreSavesPassingEntries(s: StoreState, items: seq<BundleItem>, keys: KeyService, accepts: Acceptance, j: nat)
    requires j < |items|
    requires Passes(Restore(s, items[..j], keys, accepts), items[j], keys, accepts)
    ensures RecordFor(Restore(s, items[..j], keys, accepts), items[j].pairs[0].1, keys).value
            in Restore(s, items, keys, accepts).records
  {
    var t := Restore(s, items[..j], keys, accepts);
    var rec := RecordFor(t, items[j].pairs[0].1, keys).value;
    assert items[..j + 1][..j] == items[..j];
    var u := Restore(s, items[..j + 1], keys, accepts);
    assert u.records == t.records + [rec];
    assert items == items[..j + 1] + items[j + 1..];
    RestoreConcat(s, items[..j + 1], items[j + 1..], keys, accepts);
    RestoreOnlyAppends(u, items[j + 1..], keys, accepts);
    var r := Restore(s, items, keys, accepts);
    assert r.records[|t.records|] == rec;
  }

  /** Restoring never loses a stored wallet: the old records are a prefix of
      the new ones, and every added record is named after some entry. */
  lemma {:induction false} RestoreOnlyAppends(s: StoreState, items: seq<BundleItem>, keys: KeyService, accepts: Acceptance)
    ensures var r := Restore(s, items, keys, accepts);
      && s.records <= r.records
      && forall k :: |s.records| <= k < |r.records| ==>
           exists j :: 0 <= j < |items| && |items[j].pairs| > 0 && r.records[k].name == items[j].pairs[0].1.name
    decreases |items|
  {
    if items != [] {
      var n := |items| - 1;
      var p := items[..n];
      RestoreOnlyAppends(s, p, keys, accepts);
      var t := Restore(s, p, keys, accepts);
      var r := Restore(s, items, keys, accepts);
      forall k | |s.records| <= k < |r.records|
        ensures exists j :: 0 <= j < |items| && |items[j].pairs| > 0 && r.records[k].name == items[j].pairs[0].1.name
      {
        if k < |t.records| {
          assert r.records[k] == t.records[k];
          var j :| 0 <= j < |p| && |p[j].pairs| > 0 && t.records[k].name == p[j].pairs[0].1.name;
          assert items[j] == p[j];
        } else {
          assert r.records[k].name == items[n].pairs[0].1.name;
        }
      }
    }
  }

  /** A bundle is consistent when every keystore text reads back with the
      address (ignoring case) it is keyed by. Bundles written by the export
      are; see BundleExport.ExportedBundleIsConsistent. */
  ghost predicate Consistent(items: seq<BundleItem>, keys: KeyService) {
    forall j :: 0 <= j < |items| && |items[j].pairs| > 0 ==>
      var (key, value) := items[j].pairs[0];
      ReaderFor(keys, value.tag).Some? && ReaderFor(keys, value.tag).value(value.priv).Some? ==>
        Lower(ReaderFor(keys, value.tag).value(value.priv).value.address) == Lower(key)
  }

  /** Restoring a consistent bundle into a duplicate-free store leaves it
      duplicate-free: no two wallets share an address or a name. */
  lemma {:induction false} RestoreKeepsDuplicateFree(s: StoreState, items: seq<BundleItem>, keys: KeyService, accepts: Acceptance)
    requires DuplicateFree(s.records) && Consistent(items, keys)
    ensures DuplicateFree(Restore(s, items, keys, accepts).records)
    decreases |items|
  {
    if items != [] {
      var n := |items| - 1;
      var p := items[..n];
      assert Consistent(p, keys) by {
        forall j | 0 <= j < |p| ensures p[j] == items[j] { }
      }
      RestoreKeepsDuplicateFree(s, p, keys, accepts);
      var t := Restore(s, p, keys, accepts);
      var r := RestoreItem(t, items[n], keys, accepts);
      if r != t {
        var (key, value) := items[n].pairs[0];
        var rec := RecordFor(t, value, keys).value;
        assert Lower(rec.address) == Lower(key);
        GuardedAppendKeepsDuplicateFree(t.records, rec);
      }
    }
  }

  /** The guard looks at the bundle's key, but the record stores the address
      read from the keystore text: an entry keyed by a fresh address whose
      keystore holds an address already stored passes the guard and stores
      that address a second time. */
  lemma SpoofedKeyBypassesGuard(keys: KeyService, accepts: Acceptance)
    requires keys.readIcx("forged") == Some(Keystore("hxa", "forged"))
    requires forall rs, w :: accepts(rs, w)
    ensures var stored := WalletRecord("mine", "hxa", Icx, 0, None);
      var entry := BundleItem([("hxb", ExportBundle("other", "icx", "forged", None))]);
      var r := Restore(StoreState([stored], 1), [entry], keys, accepts);
      && DuplicateFree([stored])
      && r.records == [stored, WalletRecord("other", "hxa", Icx, 1, None)]
      && !DuplicateFree(r.records)
  {
    var stored := WalletRecord("mine", "hxa", Icx, 0, None);
    var entry := BundleItem([("hxb", ExportBundle("other", "icx", "forged", None))]);
    var s := StoreState([stored], 1);
    assert Lower("hxa") == "hxa" && Lower("hxb") == "hxb";
    assert CanSaveAddress(s.records, "hxb");
    assert CanSaveAlias(s.records, "other");
    var rec := WalletRecord("other", "hxa", Icx, 1, None);
    assert RecordFor(s, entry.pairs[0].1, keys) == Some(rec);
    assert RestoreItem(s, entry, keys, accepts) == StoreState([stored, rec], 2);
    assert [entry][..0] == [];
    assert Restore(s, [entry], keys, accepts) == RestoreItem(s, entry, keys, accepts);
    var rs := [stored, rec];
    assert Lower(rs[0].address) == Lower(rs[1].address);
  }
}
