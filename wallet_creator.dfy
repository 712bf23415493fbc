/** WalletCreator: the wallet-creation session. Its fields hold the coin
    chosen, the private key, the alias, the wallet built and the bundle
    loaded; each step checks the fields it needs and throws a named error
    when one is missing. Key generation is a parameter (`generated`), the
    cryptographic library is `keys`, and the shared WalletManager, with the
    store behind it, is passed in. */
module WalletCreation {
  import opened Wrappers
  import opened WalletTypes
  import opened DuplicateGuard
  import opened WalletStorage
  import opened WalletList
  import opened BundleRestore
  import opened WalletManagement

  class WalletCreator {
    var newType: Option<CoinType>
    var newPrivateKey: Option<string>
    var newAlias: Option<string>
    var newWallet: Option<Wallet>
    var newBundle: Option<seq<BundleItem>>
    var importStyle: int

    constructor ()
      ensures newType == None && newPrivateKey == None && newAlias == None
      ensures newWallet == None && newBundle == None && importStyle == 0
    {
      newType, newPrivateKey, newAlias, newWallet, newBundle := None, None, None, None, None;
      importStyle := 0;
    }

    /** createWallet(alias:password:completion:). `completed` says whether
        the completion was called. The new wallet is not saved. */
    method CreateWallet(alias: string, password: string, keys: KeyService, generated: string)
      returns (result: Outcome<Error>, completed: bool)
      modifies this`newAlias, this`newPrivateKey, this`newWallet
      ensures completed ==> result == Pass
      ensures old(newType).None? ==>
        && result == Fail(InvalidCoinType) && !completed
        && newAlias == old(newAlias) && newPrivateKey == old(newPrivateKey) && newWallet == old(newWallet)
      ensures old(newType).Some? ==> newAlias == Some(alias)
      ensures old(newType) == Some(Icx) ==>
        var ks := keys.icxKeystore(generated, password);
        && newPrivateKey == Some(generated)
        && (ks.None? ==> result == Fail(KeystoreFailure) && !completed && newWallet == old(newWallet))
        && (ks.Some? ==> completed && newWallet == Some(Wallet(alias, Icx, ks.value)))
      ensures old(newType) == Some(Eth) ==>
        var ks := keys.ethKeystore(generated, password);
        && (ks.None? ==> result == Fail(KeystoreFailure) && !completed
                         && newWallet == old(newWallet) && newPrivateKey == old(newPrivateKey))
        && (ks.Some? ==>
              var pk := keys.ethPrivateKey(ks.value, password);
              && newWallet == Some(Wallet(alias, Eth, ks.value))
              && (pk.None? ==> result == Fail(KeystoreFailure) && !completed && newPrivateKey == old(newPrivateKey))
              && (pk.Some? ==> completed && newPrivateKey == pk))
      ensures old(newType) == Some(OtherCoin) ==>
        result == Pass && !completed && newPrivateKey == old(newPrivateKey) && newWallet == old(newWallet)
    {
      if newType.None? {
        return Fail(InvalidCoinType), false;
      }
      var coinType := newType.value;
      newAlias := Some(alias);
      match coinType
      case Icx =>
        newPrivateKey := Some(generated);
        var ks := keys.icxKeystore(generated, password);
        if ks.None? {
          return Fail(KeystoreFailure), false;
        }
        newWallet := Some(Wallet(alias, Icx, ks.value));
        return Pass, true;
      case Eth =>
        var ks := keys.ethKeystore(generated, password);
        if ks.None? {
          return Fail(KeystoreFailure), false;
        }
        newWallet := Some(Wallet(alias, Eth, ks.value));
        var pk := keys.ethPrivateKey(ks.value, password);
        if pk.None? {
          return Fail(KeystoreFailure), false;
        }
        newPrivateKey := pk;
        return Pass, true;
      case OtherCoin =>
        return Pass, false;
    }

    /** createSwapWallet(alias:password:privateKey:): always an icx wallet,
        once some coin has been chosen. */
    method CreateSwapWallet(alias: string, password: string, privateKey: string, keys: KeyService)
      returns (result: Outcome<Error>)
      modifies this`newAlias, this`newPrivateKey, this`newWallet
      ensures old(newType).None? ==>
        && result == Fail(InvalidCoinType)
        && newAlias == old(newAlias) && newPrivateKey == old(newPrivateKey) && newWallet == old(newWallet)
      ensures old(newType).Some? ==>
        var ks := keys.icxKeystore(privateKey, password);
        && newAlias == Some(alias) && newPrivateKey == Some(privateKey)
        && (ks.None? ==> result == Fail(KeystoreFailure) && newWallet == old(newWallet))
        && (ks.Some? ==> result == Pass && newWallet == Some(Wallet(alias, Icx, ks.value)))
    {
      if newType.None? {
        return Fail(InvalidCoinType);
      }
      newAlias := Some(alias);
      newPrivateKey := Some(privateKey);
      var ks := keys.icxKeystore(privateKey, password);
      if ks.None? {
        return Fail(KeystoreFailure);
      }
      newWallet := Some(Wallet(alias, Icx, ks.value));
      return Pass;
    }

    /** importWallet(alias:password:completion:): encrypt the staged private
        key and save the wallet at once. It does not run the duplicate guard
        itself and does not reload the wallet list. */
    method ImportWallet(alias: string, password: string, keys: KeyService, manager: WalletManager)
      returns (result: Outcome<Error>, completed: bool)
      modifies this`newAlias, manager.store
      ensures completed ==> result == Pass
      ensures old(newType).None? ==>
        result == Fail(InvalidCoinType) && !completed && newAlias == old(newAlias)
      ensures old(newType).Some? ==> newAlias == Some(alias)
      ensures old(newType) == Some(OtherCoin) ==> result == Pass && !completed
      ensures old(newType) in {Some(Icx), Some(Eth)} && old(newPrivateKey).None? ==>
        result == Fail(EmptyPrivateKey) && !completed
      ensures
        (old(newType) in {Some(Icx), Some(Eth)} && old(newPrivateKey).Some?) ==>
          var coin := old(newType).value;
          var ks := if coin == Icx then keys.icxKeystore(old(newPrivateKey).value, password)
                    else keys.ethKeystore(old(newPrivateKey).value, password);
          && (ks.None? ==> result == Fail(KeystoreFailure) && !completed)
          && (ks.Some? ==>
                var rec := RecordOf(old(manager.store.State()), alias, ks.value.address, coin, None);
                && manager.store.State() == SaveState(old(manager.store.State()), rec, manager.store.accepts)
                && (completed <==> manager.store.accepts(old(manager.store.records), rec))
                && (!completed ==> result == Fail(StoreFailure))
                && (completed ==> !CanSaveAddress(manager.store.records, ks.value.address)))
      ensures !completed ==> manager.store.State() == old(manager.store.State())
    {
      if newType.None? {
        return Fail(InvalidCoinType), false;
      }
      var coinType := newType.value;
      newAlias := Some(alias);
      if coinType == OtherCoin {
        return Pass, false;
      }
      if newPrivateKey.None? {
        return Fail(EmptyPrivateKey), false;
      }
      var prv := newPrivateKey.value;
      var ks := if coinType == Icx then keys.icxKeystore(prv, password) else keys.ethKeystore(prv, password);
      if ks.None? {
        return Fail(KeystoreFailure), false;
      }
      var rec := RecordOf(manager.store.State(), alias, ks.value.address, coinType, None);
      ghost var before := manager.store.records;
      var saved := manager.store.Save(rec);
      if !saved {
        return Fail(StoreFailure), false;
      }
      StoredWalletBlocksItself(before, rec, ks.value.address);
      return Pass, true;
    }

    /** saveWallet(alias:): rename the staged wallet and save it. */
    method SaveWallet(alias: string, manager: WalletManager) returns (result: Outcome<Error>)
      modifies this`newAlias, this`newWallet, manager.store
      ensures newAlias == Some(alias)
      ensures old(newWallet).None? ==>
        result == Fail(InvalidKeystore) && newWallet == None && manager.store.State() == old(manager.store.State())
      ensures old(newWallet).Some? ==>
        var w := old(newWallet).value.(alias := alias);
        && newWallet == Some(w)
        && (w.coin == OtherCoin ==> result == Pass && manager.store.State() == old(manager.store.State()))
        && (w.coin != OtherCoin ==>
              var rec := RecordOf(old(manager.store.State()), alias, w.keystore.address, w.coin, None);
              && manager.store.State() == SaveState(old(manager.store.State()), rec, manager.store.accepts)
              && (result == Pass <==> manager.store.accepts(old(manager.store.records), rec))
              && (result != Pass ==> result == Fail(StoreFailure)))
    {
      newAlias := Some(alias);
      if newWallet.None? {
        return Fail(InvalidKeystore);
      }
      var w := newWallet.value.(alias := alias);
      newWallet := Some(w);
      if w.coin == OtherCoin {
        return Pass;
      }
      var saved := manager.store.Save(RecordOf(manager.store.State(), alias, w.keystore.address, w.coin, None));
      result := if saved then Pass else Fail(StoreFailure);
    }

    /** resetData: end the session; `importStyle` is kept. */
    method ResetData()
      modifies this`newType, this`newPrivateKey, this`newAlias, this`newWallet, this`newBundle
      ensures newType == None && newPrivateKey == None && newAlias == None && newWallet == None && newBundle == None
    {
      newType := None;
      newPrivateKey := None;
      newAlias := None;
      newWallet := None;
      newBundle := None;
    }

    /** checkWalletBundle(url:): `decoded` is the bundle file decoded, None
        when it cannot be read or decoded. */
    method CheckWalletBundle(decoded: Option<seq<BundleItem>>) returns (ok: bool)
      modifies this`newBundle
      ensures ok <==> decoded.Some?
      ensures newBundle == if ok then decoded else old(newBundle)
    {
      if decoded.None? {
        return false;
      }
      newBundle := decoded;
      return true;
    }

    /** validateBundlePassword(password:): only the first entry of the bundle
        is decrypted, and the password is taken to unlock every entry. The
        force-unwraps of the first entry and its key are the precondition. */
    method ValidateBundlePassword(password: string, keys: KeyService) returns (ok: bool)
      requires newBundle.Some? && |newBundle.value| > 0 && |newBundle.value[0].pairs| > 0
      modifies this`newPrivateKey
      ensures var value := newBundle.value[0].pairs[0].1;
        var pk := if value.tag == "icx" then
                    (match keys.readIcx(value.priv) case None => None case Some(k) => keys.icxPrivateKey(k, password))
                  else if value.tag == "eth" then
                    (match keys.readEth(value.priv) case None => None case Some(k) => keys.ethPrivateKey(k, password))
                  else None;
        && (value.tag in {"icx", "eth"} ==> (ok <==> pk.Some?) && newPrivateKey == if ok then pk else old(newPrivateKey))
        && (value.tag !in {"icx", "eth"} ==> ok && newPrivateKey == old(newPrivateKey))
    {
      var value := newBundle.value[0].pairs[0].1;
      if value.tag == "icx" {
        var ks := keys.readIcx(value.priv);
        var pk := if ks.None? then None else keys.icxPrivateKey(ks.value, password);
        if pk.None? {
          return false;
        }
        newPrivateKey := pk;
      } else if value.tag == "eth" {
        var ks := keys.readEth(value.priv);
        var pk := if ks.None? then None else keys.ethPrivateKey(ks.value, password);
        if pk.None? {
          return false;
        }
        newPrivateKey := pk;
      }
      return true;
    }

    /** validateICXPrivateKey(): whether the staged icx key's address may be
        saved. */
    method ValidateIcxPrivateKey(keys: KeyService, manager: WalletManager) returns (r: Result<bool, Error>)
      ensures newPrivateKey.None? ==> r == Failure(KeyMalformed)
      ensures newPrivateKey.Some? && keys.icxPublicKey(newPrivateKey.value).None? ==> r == Failure(CopyPublicKey)
      ensures newPrivateKey.Some? && keys.icxPublicKey(newPrivateKey.value).Some? ==>
        var address := keys.icxAddress(newPrivateKey.value, keys.icxPublicKey(newPrivateKey.value).value);
        r.Success? && (r.value <==> forall i :: 0 <= i < |manager.store.records| ==>
                                      Lower(manager.store.records[i].address) != Lower(address))
    {
      if newPrivateKey.None? {
        return Failure(KeyMalformed);
      }
      var prvKey := newPrivateKey.value;
      var publicKey := keys.icxPublicKey(prvKey);
      if publicKey.None? {
        return Failure(CopyPublicKey);
      }
      var address := keys.icxAddress(prvKey, publicKey.value);
      return Success(CanSaveAddress(manager.store.records, address));
    }

    /** validateETHPrivateKey(): whether the staged eth key's address may be
        saved. */
    method ValidateEthPrivateKey(keys: KeyService, manager: WalletManager) returns (r: Result<bool, Error>)
      ensures newPrivateKey.None? || keys.ethAddress(newPrivateKey.value).None? ==> r == Failure(KeyMalformed)
      ensures newPrivateKey.Some? && keys.ethAddress(newPrivateKey.value).Some? ==>
        var address := keys.ethAddress(newPrivateKey.value).value;
        r.Success? && (r.value <==> forall i :: 0 <= i < |manager.store.records| ==>
                                      Lower(manager.store.records[i].address) != Lower(address))
    {
      if newPrivateKey.None? {
        return Failure(KeyMalformed);
      }
      var address := keys.ethAddress(newPrivateKey.value);
      if address.None? {
        return Failure(KeyMalformed);
      }
      return Success(CanSaveAddress(manager.store.records, address.value));
    }

    /** saveBundle(): restore every entry of the loaded bundle, skipping
        duplicates and failures, then reload the wallet list. Without a
        loaded bundle nothing happens. */
    method SaveBundle(manager: WalletManager, keys: KeyService)
      modifies manager.store, manager`walletInfoList
      ensures newBundle.None? ==>
        manager.store.State() == old(manager.store.State()) && manager.walletInfoList == old(manager.walletInfoList)
      ensures newBundle.Some? ==>
        && manager.store.State() == Restore(old(manager.store.State()), newBundle.value, keys, manager.store.accepts)
        && manager.walletInfoList == Infos(NewestFirst(manager.store.records))
      ensures newBundle.Some? && DuplicateFree(old(manager.store.records)) && Consistent(newBundle.value, keys) ==>
        DuplicateFree(manager.store.records)
    {
      if newBundle.None? {
        return;
      }
      var bundle := newBundle.value;
      var store := manager.store;
      ghost var s0 := store.State();
      for i := 0 to |bundle|
        invariant store.State() == Restore(s0, bundle[..i], keys, store.accepts)
      {
        assert bundle[..i + 1][..i] == bundle[..i];
        var item := bundle[i];
        if |item.pairs| == 0 { continue; }
        var (keyAddress, value) := item.pairs[0];
        if !CanSaveAddress(store.records, keyAddress) { continue; }  // duplicated address
        if !CanSaveAlias(store.records, value.name) { continue; }    // duplicated name
        if value.tag == "icx" {
          var ks := keys.readIcx(value.priv);
          if ks.None? { continue; }  // saveICXWallet throws
          var _ := store.Save(RecordOf(store.State(), value.name, ks.value.address, Icx, None));
        } else if value.tag == "eth" {
          var ks := keys.readEth(value.priv);
          if ks.None? { continue; }  // saveETHWallet throws
          var tokens := EthTokens(value.tokens, ks.value.address);
          var _ := store.Save(RecordOf(store.State(), value.name, ks.value.address, Eth, tokens));
        }
      }
      assert bundle[..|bundle|] == bundle;
      if DuplicateFree(s0.records) && Consistent(bundle, keys) {
        RestoreKeepsDuplicateFree(s0, bundle, keys, store.accepts);
      }
      manager.LoadWalletList();
    }
  }
}
