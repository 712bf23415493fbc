# ICONex wallet bookkeeping, modelled in Dafny

This project models the wallet bookkeeping of the ICONex iOS wallet, found in
`Managers.swift`. The model covers:

- **The duplicate guard.** `canSaveWallet(alias:)` matches names exactly.
  `canSaveWallet(address:)` matches addresses ignoring case.
- **`WalletManager`.** The in-memory wallet list is rebuilt newest first by
  `loadWalletList` and `deleteWallet`. The balance refresh queues each address
  at most once; its fetch completions arrive later.
- **`WalletCreator`.** This is the wallet-creation session: create, import,
  save, reset, reading a keystore file, checking a bundle password and
  restoring a bundle.
- **`BundleCreator`.** It exports a list of wallets, all or nothing.
- **Two static helpers.** The rename step of the address book, and the
  recent-transactions filter.

## How the pieces are modelled

- **The wallet database.** Its wallet table is the `WalletStore` class
  (`wallet_store.dfy`). It holds a sequence of records (name, address, coin,
  creation date, tokens) and a logical clock that gives each saved record its
  creation date.
  - A save appends the record when the database accepts the write. The
    database's verdict is the store's `accepts` function, which the model does
    not look into.
  - A delete removes the records stored under exactly that address.
  - `loadWalletBy(info:)` succeeds when a record has the info's address. Attaching the cached balance to the loaded wallet is not modelled; `getWalletsBalance` never reads it.
- **Cryptography.** Key generation, keystore encryption, decryption and
  address derivation make up the `KeyService` datatype: uninterpreted
  functions, where `None` stands for a thrown error. Fresh random keys are a
  parameter (`generated`).
- **Keystore files.** Reading one as PBKDF2 or as SCRYPT is an abstract
  parser that returns an `Option`.
- **Balance fetches.** `getWalletsBalance` never runs a network call. Each
  fetch it hands to the operation queue goes into `pending`. Its completion,
  which the source delivers on the main queue, is a separate method call:
  `CompleteIcxFetch` or `CompleteEthFetch`. Completions can arrive in any
  order.
- **Singletons.** `WManager` and `WCreator` are explicit objects. The manager
  is passed to the creator's methods.
- **Proof style.**
  - Each outer loop of the modelled functions is a method whose `ensures` ties
    the result or the new state to a specification function. The token loop
    inside `saveBundle` is the exception: it is the comprehension `TokenInfos`.
    The outer loops are in
    `getWalletsBalance`, `loadWalletList`, `saveBundle`, `createBundle` and
    `recentTransactionList`.
  - The specification functions are `Admit`, `NewestFirst`, `Restore`,
    `ExportList` and `Recent`. Lemmas prove what the source promises about
    them.

Two consequences of the code as written are stated and proved:

- **`saveBundle` checks one address but saves another.** The guard checks the
  bundle entry's key address. The record stores the address read from the
  entry's keystore text.
  - That a restore keeps the store duplicate-free is proved only for bundles
    whose keys agree with their keystores
    (`BundleRestore.RestoreKeepsDuplicateFree`).
  - Bundles written by `createBundle` agree whenever the keystore reader
    reads back every keystore the generator made (`ReadsBackGenerated`,
    the hypothesis of `BundleExport.ExportedBundleIsConsistent`).
  - A forged entry gets past the guard (`BundleRestore.SpoofedKeyBypassesGuard`).
- **Non-icx/eth wallets stay queued forever.** `getWalletsBalance` puts an
  address into `_queued` before it looks at the coin. A wallet that is neither
  icx nor eth is therefore queued with no fetch. Its address is never removed,
  so `isBalanceLoadCompleted` stays false (`BalanceRefresh.OtherCoinQueuedWithoutFetch`,
  from `AdmitQueued` and `AdmitIssuesFromInfos`).

## Model

| member | source | states |
|---|---|---|
| DuplicateGuard.CanSaveAlias | iconex_ios/Sources/ICONex/Wallet/Managers.swift:192-202 | true iff no stored wallet has exactly that name (case-sensitive) |
| DuplicateGuard.CanSaveAddress | iconex_ios/Sources/ICONex/Wallet/Managers.swift:204-213 | false iff some stored wallet's address equals the argument once both are lowercased |
| DuplicateGuard.GuardedAppendKeepsDuplicateFree | iconex_ios/Sources/ICONex/Wallet/Managers.swift:192-213 | adding a wallet that passes both guards to a duplicate-free store keeps no two wallets sharing an address or a name |
| DuplicateGuard.StoredWalletBlocksItself | iconex_ios/Sources/ICONex/Wallet/Managers.swift:204-213 | once a wallet is stored, its address in any letter case and its name are refused |
| WalletStorage.WalletStore.Save | iconex_ios/Sources/ICONex/Wallet/Managers.swift:334 | a save appends the record as given and advances the clock when the database accepts it, and changes nothing when the write throws; callers stamp the record with the current clock through RecordOf |
| WalletStorage.WalletStore.Delete | iconex_ios/Sources/ICONex/Wallet/Managers.swift:226 | the records stored under the address are removed; the result says whether there was one |
| WalletStorage.DeleteMakesAddressSavable | iconex_ios/Sources/ICONex/Wallet/Managers.swift:224-234 | after deleting a wallet from a duplicate-free store, its address passes the address guard again |
| WalletList.NewestFirst | iconex_ios/Sources/ICONex/Wallet/Managers.swift:83 | the records sorted by creation date, newest first, and a permutation of the stored records |
| WalletList.ReloadedListShowsStore | iconex_ios/Sources/ICONex/Wallet/Managers.swift:78-96 | the reloaded list has one info per stored record, every stored wallet appears, newest first |
| WalletManagement.WalletManager.constructor | iconex_ios/Sources/ICONex/Wallet/Managers.swift:24-37 | a new manager has nothing queued, empty balance maps, and the list loaded from the store |
| WalletManagement.WalletManager.LoadWalletList | iconex_ios/Sources/ICONex/Wallet/Managers.swift:78-96 | the list is emptied and rebuilt as the infos of the stored records, newest first |
| WalletManagement.WalletManager.IsBalanceLoadCompleted | iconex_ios/Sources/ICONex/Wallet/Managers.swift:31-33 | true iff no address is queued |
| WalletManagement.WalletManager.GetWalletsBalance | iconex_ios/Sources/ICONex/Wallet/Managers.swift:146-190 | queued set and outstanding fetches become those of the admission rule over the wallet list; at most one outstanding fetch per address is kept |
| WalletManagement.WalletManager.CompleteIcxFetch | iconex_ios/Sources/ICONex/Wallet/Managers.swift:155-166 | the address leaves the queue and its fetch is dropped; the balance is written only when the response carries one |
| WalletManagement.WalletManager.CompleteEthFetch | iconex_ios/Sources/ICONex/Wallet/Managers.swift:172-186 | the address leaves the queue; the ether balance and the token balances are each written only when present |
| WalletManagement.WalletManager.DeleteWallet | iconex_ios/Sources/ICONex/Wallet/Managers.swift:223-234 | a throwing delete returns false and changes nothing; otherwise the wallet is removed and the list rebuilt from the store |
| BalanceRefresh.AdmitQueued | iconex_ios/Sources/ICONex/Wallet/Managers.swift:147-151 | afterwards the queued set is the old one plus every visited address that resolves |
| BalanceRefresh.AdmitIssuesFresh | iconex_ios/Sources/ICONex/Wallet/Managers.swift:149-151 | every issued fetch is for an address not queued before and queued now, and no two issued fetches share an address |
| BalanceRefresh.AdmitIssuesFromInfos | iconex_ios/Sources/ICONex/Wallet/Managers.swift:152-188 | every issued fetch is for an icx or eth wallet of the list, with its address and coin |
| BalanceRefresh.AdmitCoversWallets | iconex_ios/Sources/ICONex/Wallet/Managers.swift:147-188 | an icx or eth wallet whose address was neither queued nor visited earlier gets a fetch |
| BalanceRefresh.OtherCoinQueuedWithoutFetch | iconex_ios/Sources/ICONex/Wallet/Managers.swift:147-188 | a resolving wallet of another coin type, whose address no icx or eth wallet shares, is queued and gets no fetch |
| KeystoreValidation.Add0xPrefix | iconex_ios/Sources/ICONex/Wallet/Managers.swift:469 | an address that starts with 0x is kept; any other becomes 0x followed by the address |
| KeystoreValidation.ValidateKeystore | iconex_ios/Sources/ICONex/Wallet/Managers.swift:443-476 | icx only for a PBKDF2 file with a fresh hx 42-char address; eth for a PBKDF2 file with a fresh 0x 42-char address (reread as an ETH wallet) or a SCRYPT file whose 0x-prefixed address is fresh; only ReadFailure, DuplicateAddress or InvalidFiles are thrown; conversely a PBKDF2 hx (or 0x) 42-char file is accepted as icx (eth) iff its address is fresh and is a duplicate otherwise, and a SCRYPT file is accepted iff its 0x-prefixed address is fresh |
| KeystoreValidation.Pbkdf2ShadowsScrypt | iconex_ios/Sources/ICONex/Wallet/Managers.swift:447-462 | a PBKDF2-parsable file's outcome does not depend on the SCRYPT decoder |
| KeystoreValidation.Pbkdf2OtherAddressInvalid | iconex_ios/Sources/ICONex/Wallet/Managers.swift:447-475 | a PBKDF2 file with any other address throws invalidFiles |
| KeystoreValidation.InvalidFilesCases | iconex_ios/Sources/ICONex/Wallet/Managers.swift:447-475 | invalidFiles iff the PBKDF2 address has neither shape, or the file parses as neither format |
| KeystoreValidation.Pbkdf2DuplicateIff | iconex_ios/Sources/ICONex/Wallet/Managers.swift:451-458 | a PBKDF2 file with an hx or 0x 42-char address is refused as a duplicate iff a stored address equals it, ignoring case |
| KeystoreValidation.ScryptDuplicateUsesPrefixedAddress | iconex_ios/Sources/ICONex/Wallet/Managers.swift:462-472 | a SCRYPT file is refused as a duplicate iff a stored address equals its 0x-prefixed address, ignoring case |
| BundleRestore.EthTokens | iconex_ios/Sources/ICONex/Wallet/Managers.swift:420-427 | an eth wallet gets a token list iff the bundle lists at least one token, and the list is one TokenInfo per bundle token, owned by the wallet's address with parent type eth |
| BundleRestore.RecordFor | iconex_ios/Sources/ICONex/Wallet/Managers.swift:409-433 | a record exists iff the entry is icx or eth and its keystore text reads; it has the entry's name, the keystore's address, the tag's coin, the current date and (for eth) the bundle's tokens |
| BundleRestore.RestoreItem | iconex_ios/Sources/ICONex/Wallet/Managers.swift:396-437 | an entry that has a key, passes both guards against the current store, reads and is accepted appends its record; any other entry changes nothing |
| BundleRestore.RestoreSavesPassingEntries | iconex_ios/Sources/ICONex/Wallet/Managers.swift:396-437 | every entry that passes at its turn has its record in the store after the whole restore |
| BundleRestore.RestoreConcat | iconex_ios/Sources/ICONex/Wallet/Managers.swift:395-438 | restoring a concatenation is restoring the parts in turn |
| BundleRestore.SkippedEntryHasNoEffect | iconex_ios/Sources/ICONex/Wallet/Managers.swift:395-438 | skip-and-continue: a skipped entry leaves the outcome of the rest as if it were absent |
| BundleRestore.RestoreOnlyAppends | iconex_ios/Sources/ICONex/Wallet/Managers.swift:395-438 | stored wallets are never lost, and every added record carries the name of some entry |
| BundleRestore.RestoreKeepsDuplicateFree | iconex_ios/Sources/ICONex/Wallet/Managers.swift:400-428 | a consistent bundle restored into a duplicate-free store leaves no two wallets sharing an address or a name |
| BundleRestore.SpoofedKeyBypassesGuard | iconex_ios/Sources/ICONex/Wallet/Managers.swift:396-415 | an entry keyed by a fresh address whose keystore holds a stored address is saved and duplicates it |
| BundleExport.Exportable | iconex_ios/Sources/ICONex/Wallet/Managers.swift:571-603 | the items that produce entries are exactly the icx and eth items of the input |
| BundleExport.ExportableConcat | iconex_ios/Sources/ICONex/Wallet/Managers.swift:571-603 | the filter keeps input order: it distributes over concatenation |
| BundleExport.ExportFailureIsFinal | iconex_ios/Sources/ICONex/Wallet/Managers.swift:579-585 | once an item fails, the whole export fails |
| BundleExport.ExportFailsIff | iconex_ios/Sources/ICONex/Wallet/Managers.swift:571-603 | the export fails iff some icx or eth item's keystore generation throws |
| BundleExport.ExportEntries | iconex_ios/Sources/ICONex/Wallet/Managers.swift:571-603 | a successful export has one entry per icx/eth item, in input order, keyed by its generated keystore's address |
| BundleExport.ExportedBundleIsConsistent | iconex_ios/Sources/ICONex/Wallet/Managers.swift:576-594 | when keystores read back, every exported bundle is keyed by its keystores' addresses |
| BundleExport.BundleCreator.constructor | iconex_ios/Sources/ICONex/Wallet/Managers.swift:564-566 | the creator holds the given items |
| BundleExport.BundleCreator.CreateBundle | iconex_ios/Sources/ICONex/Wallet/Managers.swift:568-634 | success iff every keystore generation and the write succeed; then the file ICONex/ICONex_time holds the export list; otherwise (false, nil) and no file |
| WalletCreation.WalletCreator.constructor | iconex_ios/Sources/ICONex/Wallet/Managers.swift:261-268 | a new session has every field empty and import style 0 |
| WalletCreation.WalletCreator.CreateWallet | iconex_ios/Sources/ICONex/Wallet/Managers.swift:270-301 | invalidCoinType with no type and nothing changed; otherwise the alias is staged and the new key and wallet staged per coin, completion only on success |
| WalletCreation.WalletCreator.CreateSwapWallet | iconex_ios/Sources/ICONex/Wallet/Managers.swift:303-315 | invalidCoinType with no type; otherwise alias and key staged and an icx wallet built |
| WalletCreation.WalletCreator.ImportWallet | iconex_ios/Sources/ICONex/Wallet/Managers.swift:317-354 | invalidCoinType with no type, emptyPrivateKey with no key for icx/eth; otherwise the encrypted wallet is saved, after which its address is refused |
| WalletCreation.WalletCreator.SaveWallet | iconex_ios/Sources/ICONex/Wallet/Managers.swift:526-548 | invalidKeystore with no staged wallet; otherwise the wallet is renamed and saved (not for other coins) |
| WalletCreation.WalletCreator.ResetData | iconex_ios/Sources/ICONex/Wallet/Managers.swift:550-556 | the five session fields are cleared; import style is kept |
| WalletCreation.WalletCreator.CheckWalletBundle | iconex_ios/Sources/ICONex/Wallet/Managers.swift:356-368 | true and the bundle staged iff the file decodes |
| WalletCreation.WalletCreator.ValidateBundlePassword | iconex_ios/Sources/ICONex/Wallet/Managers.swift:370-390 | only the first entry is decrypted; true iff it decrypts (or has another tag), staging its key |
| WalletCreation.WalletCreator.ValidateIcxPrivateKey | iconex_ios/Sources/ICONex/Wallet/Managers.swift:498-510 | keyMalformed with no key, copyPublicKey when no public key; else whether the derived address is savable |
| WalletCreation.WalletCreator.ValidateEthPrivateKey | iconex_ios/Sources/ICONex/Wallet/Managers.swift:512-524 | keyMalformed with no key or no address; else whether the derived address is savable |
| WalletCreation.WalletCreator.SaveBundle | iconex_ios/Sources/ICONex/Wallet/Managers.swift:392-441 | nothing without a bundle; otherwise the store becomes the restore of the bundle (so every passing entry is saved, by RestoreSavesPassingEntries), the list is reloaded, and a consistent bundle keeps the store duplicate-free |
| AddressBooks.CanSaveAddressBookName | iconex_ios/Sources/ICONex/Wallet/Managers.swift:713-715 | true iff no entry has exactly that name (assumed semantics of the database query) |
| AddressBooks.ModifyAddressBook | iconex_ios/Sources/ICONex/Wallet/Managers.swift:725-731 | duplicateName iff the new name is taken; storeFailure iff the name is free and the write throws; otherwise every entry named oldName is renamed (assumed semantics of the database write) |
| AddressBooks.ModifyKeepsNamesUnique | iconex_ios/Sources/ICONex/Wallet/Managers.swift:725-731 | a successful rename keeps names unique and adds no name but the new one |
| Transactions.InfoFor | iconex_ios/Sources/ICONex/Wallet/Managers.swift:777-782 | the info carries the transfer's fields, named after the wallet found or "" |
| Transactions.RecentConcat | iconex_ios/Sources/ICONex/Wallet/Managers.swift:769-790 | the filter preserves order: the list of a concatenation is the concatenation of the lists |
| Transactions.RecentMembers | iconex_ios/Sources/ICONex/Wallet/Managers.swift:775-785 | exactly the transfers not sent to the excluded address are shown |
| Transactions.RecentExcludes | iconex_ios/Sources/ICONex/Wallet/Managers.swift:776 | no shown info goes to the excluded address |
| Transactions.RecentTransactionList | iconex_ios/Sources/ICONex/Wallet/Managers.swift:769-790 | the empty list when the query gives nothing, otherwise the filtered list in order |

## Left out

- `getTotalBalances`: not modelled. It sums `Double` values from an exchange-rate conversion that is not part of this model.
- Database internals are not modelled (`DB.*`, Realm queries, `DB.importLocalTokenList`). The wallet table is reduced to list, save and delete.
- `CanSaveAddressBookName` and `ModifyAddressBook`: `DB.canSaveAddressBook(name:)` and `DB.modifyAddressBook` are not part of this model. Their exact-name match and "rename every entry named oldName" are assumed semantics.
- `loadWalletList`: if `Realm()` fails to open, the source leaves the list empty. The model has no such failure. Likewise the crash of `try! Realm()` in `canSaveWallet`.
- One-line forwards to the database are not modelled: on `WalletManager`, `changeWalletName`, `changeWalletPassword`, `walletTypes`, `tokenTypes`, `coinInfoListBy` and `countOfWalletType`; on `AddressBook`, `canSaveAddressBook(address:)`, `addAddressBook` and `deleteAddressBook`; on `Transaction`, `saveTransaction`, `transactionList` and `updateTransactionCompleted`.
- Outside the bookkeeping core and not modelled:
  - `loadWalletBy(address:type:)` looks the wallet up by address and type, then attaches the cached balance from `walletBalanceList`.
  - `getBalance(wallet:)` branches on the coin type. It issues a single ICX or Ethereum balance request and, in the completion, writes `walletBalanceList` and reports success. `getWalletsBalance` and its completions cover the same writes for the whole list.
  - `getWalletInfo(alias:)` reads a file from the documents directory. File I/O is not modelled.
  - `AddressBook.loadAddressBookList(by:)` loops over the database's address-book list, wrapping each entry as an `AddressBookInfo`. It returns the empty list when the query throws.
- `CanSaveAlias`: compares names code point by code point. Swift's `==` treats canonically equivalent strings as equal ("é" against "e" plus a combining accent). The same holds for the `hasPrefix` tests (`HasPrefix`), the `length == 42` tests in `IsIcxAddress` and `IsEthAddress` (which count code points, where the source's `String.length` extension is not part of this model), and the bundle tag tests in `RestoreItem` and `ReaderFor`. Unicode normalisation is not modelled.
- `CanSaveAddress`: lowercases ASCII letters only, where Swift's `lowercased()` also folds other scripts.
- `CompleteIcxFetch`: a response without an error is taken to carry a balance. The source force-unwraps `response!.value!`, which crashes on a nil response.
- `GetWalletsBalance`: the eth branch repeats `loadWalletBy(info:)`. That is the same query, and the model lets it succeed again.
- Not modelled: the `OperationQueue` (one operation at a time), `DispatchQueue` hops and `NotificationCenter` posts. Completions are separate method calls, in any order.
- `ValidateKeystore`: the generic cast `as! T` is not modelled. The force-unwrap of `ethWallet.keyStore!` is its precondition.
- `RecordFor`: the source force-unwraps `ethWallet.address!` for an eth entry with tokens whose keystore cannot be read, and so crashes. The model treats every unreadable keystore as a failed save, and skips the entry.
- `ValidateBundlePassword`: its `requires` asks for a staged bundle with a first entry that has a key. The source force-unwraps `newBundle!.first!`, `item.keys.first!` and `item[address]!`, and crashes otherwise.
- `ValidateEthPrivateKey`: a failed `hexToData()!` (a crash) and an error thrown by the keystore library are both reported as `keyMalformed`.
- `exportBundle()`: modelled as name, type tag, keystore text and no tokens. A freshly generated wallet has none.
- Dates and file paths are not modelled: `Date.currentZuluTime` and the documents directory are parameters, and creation dates come from the store's clock.
- JSON encoding and decoding and file reads are not modelled: decoded values are parameters, and read failures are `None`.
- `SwapManager`, `Preference`, `BalanceInfo` and `WalletBalanceOperation` are holders with no behaviour. `Log.Debug` is not modelled.
- `MainViewController.swift` and `LaunchViewController.swift`: user interface, not modelled.
