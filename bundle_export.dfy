/** BundleCreator.createBundle: export a list of wallets as one bundle,
    every wallet re-encrypted under one new password. It is all or nothing:
    any keystore failure aborts the export and no file is written. */
module BundleExport {
  import opened Wrappers
  import opened WalletTypes
  import opened BundleRestore

  /** WalletBundleItem: a wallet to export with its plain private key. */
  datatype BundleSource = BundleSource(name: string, privKey: string, coin: CoinType)

  predicate IsExportable(item: BundleSource) { item.coin == Icx || item.coin == Eth }

  /** The items the loop turns into entries (icx and eth), in input order. */
  function Exportable(items: seq<BundleSource>): (r: seq<BundleSource>)
    ensures forall x :: x in r ==> x in items && IsExportable(x)
    ensures forall x :: x in items && IsExportable(x) ==> x in r
    decreases |items|
  {
    if items == [] then []
    else
      var last := items[|items| - 1];
      Exportable(items[..|items| - 1]) + (if IsExportable(last) then [last] else [])
  }

  /** The filter keeps input order: the exportable items of a concatenation
      are those of the first part followed by those of the second. */
  lemma {:induction false} ExportableConcat(a: seq<BundleSource>, b: seq<BundleSource>)
    ensures Exportable(a + b) == Exportable(a) + Exportable(b)
    decreases |b|
  {
    if b == [] {
      assert a + b == a;
    } else {
      var n := |b| - 1;
      assert (a + b)[..|a + b| - 1] == a + b[..n];
      assert (a + b)[|a + b| - 1] == b[n];
      ExportableConcat(a, b[..n]);
      assert Exportable(a + b) == Exportable(a + b[..n]) + (if IsExportable(b[n]) then [b[n]] else []);
      assert Exportable(b) == Exportable(b[..n]) + (if IsExportable(b[n]) then [b[n]] else []);
    }
  }

  /** generateICXKeyStore / generateETHKeyStore under the new password. */
  function KeystoreFor(item: BundleSource, keys: KeyService, password: string): Option<Keystore>
    requires IsExportable(item)
  {
    if item.coin == Icx then keys.icxKeystore(item.privKey, password)
    else keys.ethKeystore(item.privKey, password)
  }

  /** `[wallet.address!: wallet.exportBundle()]` for a freshly generated
      wallet, which has no tokens. */
  function EntryOf(item: BundleSource, k: Keystore): BundleItem
    requires IsExportable(item)
  {
    BundleItem([(k.address, ExportBundle(item.name, if item.coin == Icx then "icx" else "eth", k.text, None))])
  }

  /** The export list the loop builds, or None when some keystore generation
      throws. */
  function ExportList(items: seq<BundleSource>, keys: KeyService, password: string): Option<seq<BundleItem>>
    decreases |items|
  {
    if items == [] then Some([])
    else
      match ExportList(items[..|items| - 1], keys, password)
      case None => None
      case Some(list) =>
        var item := items[|items| - 1];
        if !IsExportable(item) then Some(list)
        else
          match KeystoreFor(item, keys, password)
          case None => None
          case Some(k) => Some(list + [EntryOf(item, k)])
  }

  /** Once an item has failed, the export of any longer list fails too. */
  lemma {:induction false} ExportFailureIsFinal(items: seq<BundleSource>, keys: KeyService, password: string, i: nat)
    requires i <= |items| && ExportList(items[..i], keys, password).None?
    ensures ExportList(items, keys, password).None?
    decreases |items| - i
  {
    if i < |items| {
      assert items[..i + 1][..i] == items[..i];
      ExportFailureIsFinal(items, keys, password, i + 1);
    } else {
      assert items[..i] == items;
    }
  }

  /** The export fails exactly when some icx or eth item's keystore
      generation throws. */
  lemma {:induction false} ExportFailsIff(items: seq<BundleSource>, keys: KeyService, password: string)
    ensures ExportList(items, keys, password).None? <==>
      exists k :: 0 <= k < |items| && IsExportable(items[k]) && KeystoreFor(items[k], keys, password).None?
    decreases |items|
  {
    if items != [] {
      var n := |items| - 1;
      var p := items[..n];
      ExportFailsIff(p, keys, password);
      assert forall k :: 0 <= k < n ==> items[k] == p[k];
    }
  }

  /** A successful export has one entry per icx or eth item, in input order,
      each keyed by the address of the keystore generated for its item. */
  lemma {:induction false} ExportEntries(items: seq<BundleSource>, keys: KeyService, password: string)
    requires ExportList(items, keys, password).Some?
    ensures var list := ExportList(items, keys, password).value;
      var ex := Exportable(items);
      && |list| == |ex|
      && forall j :: 0 <= j < |ex| ==>
           KeystoreFor(ex[j], keys, password).Some? &&
           list[j] == EntryOf(ex[j], KeystoreFor(ex[j], keys, password).value)
    decreases |items|
  {
    if items != [] {
      var n := |items| - 1;
      ExportEntries(items[..n], keys, password);
    }
  }

  /** The keystore reader gives back every keystore the generator made. */
  ghost predicate ReadsBackGenerated(keys: KeyService) {
    && (forall priv, pw :: keys.icxKeystore(priv, pw).Some? ==>
          keys.readIcx(keys.icxKeystore(priv, pw).value.text) == keys.icxKeystore(priv, pw))
    && (forall priv, pw :: keys.ethKeystore(priv, pw).Some? ==>
          keys.readEth(keys.ethKeystore(priv, pw).value.text) == keys.ethKeystore(priv, pw))
  }

  /** Export then restore: when keystores read back, every bundle the export
      writes is keyed consistently, so restoring it keeps a duplicate-free
      store duplicate-free. */
  lemma ExportedBundleIsConsistent(items: seq<BundleSource>, keys: KeyService, password: string)
    requires ReadsBackGenerated(keys)
    requires ExportList(items, keys, password).Some?
    ensures Consistent(ExportList(items, keys, password).value, keys)
  {
    var list := ExportList(items, keys, password).value;
    var ex := Exportable(items);
    ExportEntries(items, keys, password);
    forall j | 0 <= j < |list|
      ensures var (key, value) := list[j].pairs[0];
        ReaderFor(keys, value.tag).Some? && ReaderFor(keys, value.tag).value(value.priv).Some? ==>
          Lower(ReaderFor(keys, value.tag).value(value.priv).value.address) == Lower(key)
    {
      var k := KeystoreFor(ex[j], keys, password).value;
      assert list[j] == EntryOf(ex[j], k);
    }
  }

  class BundleCreator {
    var items: seq<BundleSource>

    constructor (items: seq<BundleSource>)
      ensures this.items == items
    {
      this.items := items;
    }

    /** createBundle(newPassword:completion:). The completion's arguments are
        returned; `written` is the export list stored in the file, None when
        no file is written. `documents` is the documents directory,
        `zuluTime` the current UTC time, and `writeSucceeds` whether encoding,
        creating the ICONex directory and the atomic write all succeed. */
    method CreateBundle(newPassword: string, keys: KeyService, documents: string, zuluTime: string, writeSucceeds: bool)
      returns (isSuccess: bool, filePath: Option<string>, written: Option<seq<BundleItem>>)
      ensures isSuccess <==> ExportList(items, keys, newPassword).Some? && writeSucceeds
      ensures isSuccess ==> filePath == Some(documents + "/ICONex/ICONex_" + zuluTime)
                            && written == ExportList(items, keys, newPassword)
      ensures !isSuccess ==> filePath == None && written == None
    {
      var exportList: seq<BundleItem> := [];
      for i := 0 to |items|
        invariant ExportList(items[..i], keys, newPassword) == Some(exportList)
      {
        assert items[..i + 1][..i] == items[..i];
        var item := items[i];
        if item.coin == Icx {
          var generated := keys.icxKeystore(item.privKey, newPassword);
          if generated.None? {
            ExportFailureIsFinal(items, keys, newPassword, i + 1);
            return false, None, None;
          }
          exportList := exportList + [EntryOf(item, generated.value)];
        } else if item.coin == Eth {
          var generated := keys.ethKeystore(item.privKey, newPassword);
          if generated.None? {
            ExportFailureIsFinal(items, keys, newPassword, i + 1);
            return false, None, None;
          }
          exportList := exportList + [EntryOf(item, generated.value)];
        }
      }
      assert items[..|items|] == items;
      if !writeSucceeds {
        return false, None, None;
      }
      var filename := "ICONex_" + zuluTime;
      var path := documents + "/ICONex";
      assert path + "/" + filename == documents + "/ICONex/ICONex_" + zuluTime;
      return true, Some(path + "/" + filename), Some(exportList);
    }
  }
}
