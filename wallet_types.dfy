/** The entities the wallet managers work on, and the foreign collaborators
    (key generation, keystore encryption and decryption, address derivation)
    as uninterpreted, possibly failing functions. */
module WalletTypes {
  import opened Wrappers

  /** COINTYPE: icx and eth are the two coins the managers act on; any other
      case of the enumeration falls into the `default` branches. */
  datatype CoinType = Icx | Eth | OtherCoin

  /** The errors the managers throw (IXError), plus one kind for each foreign
      library whose own error is propagated by `try`. */
  datatype Error =
    | InvalidCoinType
    | EmptyPrivateKey
    | InvalidKeystore
    | InvalidFiles
    | DuplicateAddress
    | DuplicateName
    | KeyMalformed
    | CopyPublicKey
    | KeystoreFailure   // thrown by keystore generation or decryption
    | StoreFailure      // thrown by the wallet database
    | ReadFailure       // thrown when a file cannot be read

  /** A sub-asset (token) attached to an eth wallet (TokenInfo). */
  datatype TokenInfo = TokenInfo(
    name: string, defaultName: string, symbol: string,
    decimal: int, defaultDecimal: int,
    dependedAddress: string, contractAddress: string, parentType: string)

  /** One stored wallet (WalletModel): its name, address, coin, creation
      date and, for eth wallets, its tokens. */
  datatype WalletRecord = WalletRecord(
    name: string, address: string, coin: CoinType, createdDate: int,
    tokens: Option<seq<TokenInfo>>)

  /** The in-memory summary of a stored wallet (WalletInfo). */
  datatype WalletInfo = WalletInfo(name: string, address: string, coin: CoinType, createdDate: int)

  function InfoOf(r: WalletRecord): WalletInfo {
    WalletInfo(r.name, r.address, r.coin, r.createdDate)
  }

  /** An encrypted keystore document: the address it states and its text. */
  datatype Keystore = Keystore(address: string, text: string)

  /** A wallet object that has a keystore (ICXWallet / ETHWallet). */
  datatype Wallet = Wallet(alias: string, coin: CoinType, keystore: Keystore)

  /** TokenExportBundle: a token as written into an export bundle. */
  datatype TokenExport = TokenExport(
    address: string, createdAt: string, decimals: int, defaultDecimals: int,
    defaultName: string, name: string, defaultSymbol: string, symbol: string)

  /** WalletExportBundle: one wallet as written into an export bundle; `tag`
      is the bundle's `type` string ("icx" or "eth"). */
  datatype ExportBundle = ExportBundle(
    name: string, tag: string, priv: string, tokens: Option<seq<TokenExport>>)

  /** One element of a bundle file, a dictionary from address to wallet,
      listed in the dictionary's iteration order. */
  datatype BundleItem = BundleItem(pairs: seq<(string, ExportBundle)>)

  /** The cryptographic library, seen only through its results. Every `None`
      stands for a thrown error. */
  datatype KeyService = KeyService(
    // ICXWallet.generateICXKeyStore(privateKey:password:)
    icxKeystore: (string, string) -> Option<Keystore>,
    // ETHWallet.generateETHKeyStore(privateKey:password:)
    ethKeystore: (string, string) -> Option<Keystore>,
    // ICXWallet.extractICXPrivateKey(password:)
    icxPrivateKey: (Keystore, string) -> Option<string>,
    // ETHWallet.extractETHPrivateKey(password:)
    ethPrivateKey: (Keystore, string) -> Option<string>,
    // the keystore ICXWallet(alias:from:) reads from a keystore text
    readIcx: string -> Option<Keystore>,
    // the keystore ETHWallet(alias:from:) reads from a keystore text
    readEth: string -> Option<Keystore>,
    // ICONUtil.createPublicKey(privateKey:)
    icxPublicKey: string -> Option<string>,
    // ICONUtil.makeAddress(_:_:)
    icxAddress: (string, string) -> string,
    // EthereumKeystoreV3(privateKey:)?.getAddress()?.address
    ethAddress: string -> Option<string>)

  /** The keystore reader for a bundle `type` string. */
  function ReaderFor(keys: KeyService, tag: string): Option<string -> Option<Keystore>> {
    if tag == "icx" then Some(keys.readIcx)
    else if tag == "eth" then Some(keys.readEth)
    else None
  }

  /** String.lowercased(), restricted to the ASCII letters. */
  function LowerChar(c: char): (r: char)
    ensures 'A' <= c <= 'Z' ==> 'a' <= r <= 'z'
    ensures !('A' <= c <= 'Z') ==> r == c
  {
    if 'A' <= c <= 'Z' then (c as int + 32) as char else c
  }

  function Lower(s: string): (r: string)
    ensures |r| == |s|
    ensures forall i :: 0 <= i < |s| ==> r[i] == LowerChar(s[i])
  {
    seq(|s|, i requires 0 <= i < |s| => LowerChar(s[i]))
  }

  predicate HasPrefix(s: string, p: string) {
    |p| <= |s| && s[..|p|] == p
  }
}
