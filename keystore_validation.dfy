/** WalletCreator.validateKeystore: how an imported keystore file is read.
    The file is tried as a PBKDF2 (ICON) keystore first and as a SCRYPT
    (Ethereum) keystore only when that fails; the address prefix and length
    then choose the coin. The JSON decoders are abstract parsers. */
module KeystoreValidation {
  import opened Wrappers
  import opened WalletTypes
  import opened DuplicateGuard

  type Bytes = seq<bv8>

  /** A keystore file being imported, seen through the address it states.
      Unlike WalletTypes.Keystore, which is the keystore text kept inside a
      saved wallet or a bundle entry, it carries the raw file bytes, and it
      is kept apart because the ICON and the Ethereum decoders yield
      different documents from the same bytes. */
  datatype KeystoreDoc = KeystoreDoc(address: string, body: Bytes)

  datatype Parsers = Parsers(
    // validatePBKDF2Keystore: decoding the file as an ICON.Keystore
    pbkdf2: Bytes -> Option<KeystoreDoc>,
    // validateSCRYPTKeystore: decoding the file as an ETH.KeyStore
    scrypt: Bytes -> Option<KeystoreDoc>,
    // ETHWallet(alias:from:).keyStore
    ethWallet: Bytes -> Option<KeystoreDoc>)

  predicate IsIcxAddress(a: string) { HasPrefix(a, "hx") && |a| == 42 }
  predicate IsEthAddress(a: string) { HasPrefix(a, "0x") && |a| == 42 }

  /** String.add0xPrefix(). */
  function Add0xPrefix(a: string): (r: string)
    ensures HasPrefix(r, "0x")
    ensures HasPrefix(a, "0x") ==> r == a
    ensures !HasPrefix(a, "0x") ==> |r| == |a| + 2 && r[2..] == a
  {
    if HasPrefix(a, "0x") then a else "0x" + a
  }

  /** The force-unwrap `ethWallet.keyStore!` succeeds whenever it is reached:
      a PBKDF2 file with a fresh `0x` address also loads as an ETH wallet. */
  ghost predicate UnwrapSafe(records: seq<WalletRecord>, content: Option<Bytes>, p: Parsers) {
    content.Some? && p.pbkdf2(content.value).Some? ==>
      var a := p.pbkdf2(content.value).value.address;
      !IsIcxAddress(a) && IsEthAddress(a) && CanSaveAddress(records, a) ==> p.ethWallet(content.value).Some?
  }

  /** validateKeystore(urlOfData:). `content` is None when the file cannot be
      read. */
  function ValidateKeystore(records: seq<WalletRecord>, content: Option<Bytes>, p: Parsers)
    : (r: Result<(KeystoreDoc, CoinType), Error>)
    requires UnwrapSafe(records, content, p)
    ensures r.Failure? ==> r.error in {ReadFailure, DuplicateAddress, InvalidFiles}
    ensures r == Failure(ReadFailure) <==> content.None?
    // an icx result is a PBKDF2 file with a fresh `hx` address of length 42
    ensures r.Success? && r.value.1 == Icx ==>
      && p.pbkdf2(content.value).Some?
      && r.value.0 == p.pbkdf2(content.value).value
      && IsIcxAddress(r.value.0.address)
      && CanSaveAddress(records, r.value.0.address)
    // an eth result is a PBKDF2 file with a fresh `0x` address of length 42,
    // reread as an ETH wallet, or else a SCRYPT file whose address, with `0x`
    // added, is fresh
    ensures r.Success? && r.value.1 == Eth ==>
      if p.pbkdf2(content.value).Some? then
        var a := p.pbkdf2(content.value).value.address;
        && !IsIcxAddress(a) && IsEthAddress(a) && CanSaveAddress(records, a)
        && r.value.0 == p.ethWallet(content.value).value
      else
        && p.scrypt(content.value).Some?
        && r.value.0 == p.scrypt(content.value).value
        && CanSaveAddress(records, Add0xPrefix(r.value.0.address))
    ensures r.Success? ==> r.value.1 != OtherCoin
    // and conversely: a PBKDF2 file with an `hx` or `0x` address of length 42
    // is accepted when that address is fresh and a duplicate otherwise
    ensures content.Some? && p.pbkdf2(content.value).Some? ==>
      var doc := p.pbkdf2(content.value).value;
      && (IsIcxAddress(doc.address) ==>
            r == if CanSaveAddress(records, doc.address) then Success((doc, Icx)) else Failure(DuplicateAddress))
      && (!IsIcxAddress(doc.address) && IsEthAddress(doc.address) ==>
            r == if CanSaveAddress(records, doc.address) then Success((p.ethWallet(content.value).value, Eth))
                 else Failure(DuplicateAddress))
    // a SCRYPT file is accepted when its `0x`-prefixed address is fresh
    ensures content.Some? && p.pbkdf2(content.value).None? && p.scrypt(content.value).Some? ==>
      var doc := p.scrypt(content.value).value;
      r == if CanSaveAddress(records, Add0xPrefix(doc.address)) then Success((doc, Eth)) else Failure(DuplicateAddress)
  {
    if content.None? then Failure(ReadFailure)
    else
      var data := content.value;
      match p.pbkdf2(data)
      case Some(icx) =>
        var address := icx.address;
        if IsIcxAddress(address) then
          if !CanSaveAddress(records, icx.address) then Failure(DuplicateAddress)
          else Success((icx, Icx))
        else if IsEthAddress(address) then
          if !CanSaveAddress(records, icx.address) then Failure(DuplicateAddress)
          else Success((p.ethWallet(data).value, Eth))
        else Failure(InvalidFiles)
      case None =>
        match p.scrypt(data)
        case Some(eth) =>
          var address := eth.address;
          if HasPrefix(address, "0x") then
            if !CanSaveAddress(records, address) then Failure(DuplicateAddress)
            else Success((eth, Eth))
          else
            var prefixed := Add0xPrefix(address);
            if !CanSaveAddress(records, prefixed) then Failure(DuplicateAddress)
            else Success((eth, Eth))
        case None => Failure(InvalidFiles)
  }

  /** A file that parses as PBKDF2 is never tried as SCRYPT: the outcome is
      the same whatever the SCRYPT decoder would say. */
  lemma Pbkdf2ShadowsScrypt(records: seq<WalletRecord>, data: Bytes, p: Parsers, scrypt: Bytes -> Option<KeystoreDoc>)
    requires p.pbkdf2(data).Some?
    requires UnwrapSafe(records, Some(data), p)
    ensures UnwrapSafe(records, Some(data), p.(scrypt := scrypt))
    ensures ValidateKeystore(records, Some(data), p) == ValidateKeystore(records, Some(data), p.(scrypt := scrypt))
  {
  }

  /** A PBKDF2 file whose address is neither an `hx` nor a `0x` address of
      length 42 is refused as invalid, even when it would parse as SCRYPT. */
  lemma Pbkdf2OtherAddressInvalid(records: seq<WalletRecord>, data: Bytes, p: Parsers)
    requires p.pbkdf2(data).Some?
    requires !IsIcxAddress(p.pbkdf2(data).value.address) && !IsEthAddress(p.pbkdf2(data).value.address)
    ensures ValidateKeystore(records, Some(data), p) == Failure(InvalidFiles)
  {
  }

  /** A file refused as invalid either parses as PBKDF2 with an address of
      neither shape, or parses as neither format. */
  lemma InvalidFilesCases(records: seq<WalletRecord>, data: Bytes, p: Parsers)
    requires UnwrapSafe(records, Some(data), p)
    ensures ValidateKeystore(records, Some(data), p) == Failure(InvalidFiles) <==>
      if p.pbkdf2(data).Some? then
        !IsIcxAddress(p.pbkdf2(data).value.address) && !IsEthAddress(p.pbkdf2(data).value.address)
      else p.scrypt(data).None?
  {
  }

  /** A PBKDF2 file with an `hx` or `0x` address of length 42 is refused as
      a duplicate exactly when a stored wallet has that address, ignoring
      case. */
  lemma Pbkdf2DuplicateIff(records: seq<WalletRecord>, data: Bytes, p: Parsers)
    requires UnwrapSafe(records, Some(data), p)
    requires p.pbkdf2(data).Some?
    requires var a := p.pbkdf2(data).value.address; IsIcxAddress(a) || IsEthAddress(a)
    ensures var a := p.pbkdf2(data).value.address;
      ValidateKeystore(records, Some(data), p) == Failure(DuplicateAddress) <==>
        exists i :: 0 <= i < |records| && Lower(records[i].address) == Lower(a)
  {
  }

  /** The duplicate check of a SCRYPT file holds its address with `0x`
      added: the file is refused exactly when a stored wallet has that
      prefixed address, ignoring case. */
  lemma ScryptDuplicateUsesPrefixedAddress(records: seq<WalletRecord>, data: Bytes, p: Parsers)
    requires p.pbkdf2(data).None? && p.scrypt(data).Some?
    ensures var a := Add0xPrefix(p.scrypt(data).value.address);
      ValidateKeystore(records, Some(data), p) == Failure(DuplicateAddress) <==>
        exists i :: 0 <= i < |records| && Lower(records[i].address) == Lower(a)
  {
  }
}
