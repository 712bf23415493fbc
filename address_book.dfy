/** AddressBook.modifyAddressBook: rename an address-book entry once the new
    name is known to be free. The address book is the database's table of
    entries, passed in and returned as a value. */
module AddressBooks {
  import opened Wrappers
  import opened WalletTypes

  datatype AddressBookEntry = AddressBookEntry(name: string, address: string, coin: CoinType)

  /** canSaveAddressBook(name:): no entry has exactly this name. */
  function CanSaveAddressBookName(book: seq<AddressBookEntry>, name: string): (r: bool)
    ensures r <==> forall i :: 0 <= i < |book| ==> book[i].name != name
  {
    if book == [] then true
    else book[0].name != name && CanSaveAddressBookName(book[1..], name)
  }

  /** DB.modifyAddressBook(oldName:newName:): the entries named `oldName`
      take the name `newName`. */
  function Renamed(book: seq<AddressBookEntry>, oldName: string, newName: string): (r: seq<AddressBookEntry>)
    ensures |r| == |book|
    ensures forall i :: 0 <= i < |book| ==>
      r[i].address == book[i].address && r[i].coin == book[i].coin &&
      r[i].name == (if book[i].name == oldName then newName else book[i].name)
  {
    if book == [] then []
    else [if book[0].name == oldName then book[0].(name := newName) else book[0]]
         + Renamed(book[1..], oldName, newName)
  }

  /** modifyAddressBook(oldName:newName:); `dbThrows` says whether the
      database write throws. */
  function ModifyAddressBook(book: seq<AddressBookEntry>, oldName: string, newName: string, dbThrows: bool)
    : (r: Result<seq<AddressBookEntry>, Error>)
    ensures r == Failure(DuplicateName) <==> exists i :: 0 <= i < |book| && book[i].name == newName
    ensures r.Failure? ==> r.error in {DuplicateName, StoreFailure}
    ensures r == Failure(StoreFailure) <==> dbThrows && CanSaveAddressBookName(book, newName)
    ensures r.Success? ==> !dbThrows && r.value == Renamed(book, oldName, newName)
  {
    if CanSaveAddressBookName(book, newName) then
      if dbThrows then Failure(StoreFailure) else Success(Renamed(book, oldName, newName))
    else Failure(DuplicateName)
  }

  ghost predicate UniqueNames(book: seq<AddressBookEntry>) {
    forall i, j :: 0 <= i < j < |book| ==> book[i].name != book[j].name
  }

  /** A successful rename keeps the entry names unique, and the only name
      added is the new one. */
  lemma ModifyKeepsNamesUnique(book: seq<AddressBookEntry>, oldName: string, newName: string)
    requires UniqueNames(book)
    requires ModifyAddressBook(book, oldName, newName, false).Success?
    ensures var r := ModifyAddressBook(book, oldName, newName, false).value;
      && UniqueNames(r)
      && forall i :: 0 <= i < |r| ==> r[i].name == newName || exists j :: 0 <= j < |book| && book[j].name == r[i].name
  {
    var r := Renamed(book, oldName, newName);
    forall i, j | 0 <= i < j < |r| ensures r[i].name != r[j].name {
      if book[i].name == oldName {
        assert book[j].name != oldName;
      } else if book[j].name == oldName {
        assert book[i].name != newName;
      }
    }
    forall i | 0 <= i < |r| && r[i].name != newName
      ensures exists j :: 0 <= j < |book| && book[j].name == r[i].name
    {
      assert book[i].name == r[i].name;
    }
  }
}
