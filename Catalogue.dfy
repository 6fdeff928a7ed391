/**
 * What each operation of the SWIFT codes service does to the two stores it
 * works on: banks keyed by SWIFT code and countries keyed by ISO code. Each
 * function gives the outcome of one call (its return value or exception,
 * and the stores afterwards) as a value; the class in module Service
 * performs the same steps in place and is proved to agree with these.
 */
module Catalogue {
  import opened Wrappers
  import opened Codes
  import opened Items

  /** The exceptions the service throws. */
  datatype ServiceError =
    | BankNotFound
    | BankAlreadyExists
    | HeadBankNotFound
    | CountryNotExists
    | ChildBranchesFound
      /** A NullPointerException from dereferencing a headquarters' null `branches`. */
    | NullBranches
      /** A StringIndexOutOfBoundsException from `substring(0, 8)` on a branch code shorter than eight characters. */
    | CodeTooShort

  /** The two repositories. */
  datatype Store = Store(banks: map<string, Bank>, countries: map<string, Country>)

  /** What a call returns (or throws) and the stores it leaves behind. */
  datatype Outcome<T> = Outcome(result: Result<T, ServiceError>, store: Store)

  /** The answer to a country query: the stored country and the banks that refer to it. */
  datatype CountryBanks = CountryBanks(countryISO2: string, countryName: string, swiftCodes: set<Bank>)

  /**
   * The shape every store reached through the service keeps: records are
   * keyed by their own code, every headquarters has a branch list, and the
   * record stored under a headquarters-shaped code (eight characters and
   * "XXX") is a headquarters.
   */
  predicate Consistent(s: Store) {
    && (forall k :: k in s.banks ==> s.banks[k].swiftCode == k)
    && (forall k :: k in s.banks && s.banks[k].headquarter ==> s.banks[k].branches.Some?)
    && (forall k :: k in s.banks && |k| >= 8 && HeadCode(k) == k ==> s.banks[k].headquarter)
    && (forall c :: c in s.countries ==> s.countries[c].countryISO2 == c)
  }

  /** `getBankBySwiftCode`: the stored record, or BankNotFound. */
  function GetBank(s: Store, swiftCode: string): (r: Result<Bank, ServiceError>)
    ensures r.Success? <==> swiftCode in s.banks
    ensures r.Success? ==> r.value == s.banks[swiftCode]
    ensures r.Failure? ==> r.error == BankNotFound
  {
    if swiftCode in s.banks then Success(s.banks[swiftCode]) else Failure(BankNotFound)
  }

  /** `getCountryByCountryISO2`: the stored country, or CountryNotExists. */
  function GetCountry(s: Store, countryISO2: string): (r: Result<Country, ServiceError>)
    ensures r.Success? <==> countryISO2 in s.countries
    ensures r.Success? ==> r.value == s.countries[countryISO2]
    ensures r.Failure? ==> r.error == CountryNotExists
  {
    if countryISO2 in s.countries then Success(s.countries[countryISO2]) else Failure(CountryNotExists)
  }

  /**
   * `getBanksByCountryISO2`: CountryNotExists for an unregistered country;
   * otherwise the stored country's code and name with exactly the banks whose
   * country code is that code (possibly none).
   */
  function GetBanksByCountry(s: Store, countryISO2: string): (r: Result<CountryBanks, ServiceError>)
    ensures r.Failure? <==> countryISO2 !in s.countries
    ensures r.Failure? ==> r.error == CountryNotExists
    ensures r.Success? ==>
      && r.value.countryISO2 == s.countries[countryISO2].countryISO2
      && r.value.countryName == s.countries[countryISO2].countryName
      && (forall b :: b in r.value.swiftCodes <==>
            b in s.banks.Values && b.countryISO2 == s.countries[countryISO2].countryISO2)
  {
    match GetCountry(s, countryISO2)
    case Failure(e) => Failure(e)
    case Success(c) =>
      Success(CountryBanks(c.countryISO2, c.countryName,
        set b | b in s.banks.Values && b.countryISO2 == c.countryISO2))
  }

  /** The country store after the get-or-create of `addBank`: an existing entry always wins. */
  function RegisterCountry(countries: map<string, Country>, countryISO2: string, countryName: string): (r: map<string, Country>)
    ensures r.Keys == countries.Keys + {countryISO2}
    ensures forall c :: c in countries ==> r[c] == countries[c]
    ensures countryISO2 !in countries ==> r[countryISO2] == Country(countryISO2, countryName)
  {
    if countryISO2 in countries then countries
    else countries[countryISO2 := Country(countryISO2, countryName)]
  }

  /**
   * `addBank`, for a bank whose country is `bank.countryISO2` and whose
   * country name, as the caller supplied it, is `countryName`. The path
   * taken is decided by the caller's `headquarter` flag alone. A branch
   * code shorter than eight characters makes `substring(0, 8)` throw, after
   * the country was saved.
   */
  function AddBank(s: Store, bank: Bank, countryName: string): (o: Outcome<Bank>)
    // a duplicate code is refused before anything is written
    ensures bank.swiftCode in s.banks ==> o == Outcome(Failure(BankAlreadyExists), s)
    // the country is saved only when absent; an existing entry is never overwritten
    ensures forall c :: c in s.countries ==> c in o.store.countries && o.store.countries[c] == s.countries[c]
    ensures bank.swiftCode !in s.banks ==>
      o.store.countries.Keys == s.countries.Keys + {bank.countryISO2}
      && (bank.countryISO2 !in s.countries ==>
            o.store.countries[bank.countryISO2] == Country(bank.countryISO2, countryName))
    // a failed call stores no bank (the country may already have been added)
    ensures o.result.Failure? ==> o.store.banks == s.banks
    // the headquarters path never fails after the duplicate check
    ensures bank.headquarter && bank.swiftCode !in s.banks ==>
      && o.result.Success?
      && o.result.value == bank.(branches := if bank.branches.None? then Some([]) else bank.branches)
      && o.store.banks == s.banks[bank.swiftCode := o.result.value]
    // the branch path throws on a code too short to take its prefix from
    ensures !bank.headquarter && bank.swiftCode !in s.banks ==>
      (o.result == Failure(CodeTooShort) <==> |bank.swiftCode| < 8)
    // otherwise it fails exactly when no record is stored under the headquarters code
    ensures !bank.headquarter && bank.swiftCode !in s.banks && |bank.swiftCode| >= 8 ==>
      (o.result == Failure(HeadBankNotFound) <==> HeadCode(bank.swiftCode) !in s.banks)
    // and succeeds exactly when that record is there with a list to append to
    ensures !bank.headquarter && bank.swiftCode !in s.banks && |bank.swiftCode| >= 8 ==>
      (o.result.Success? <==> HeadCode(bank.swiftCode) in s.banks && s.banks[HeadCode(bank.swiftCode)].branches.Some?)
    // a created branch is stored as given and appended at the end of its headquarters' list
    ensures !bank.headquarter && o.result.Success? ==>
      |bank.swiftCode| >= 8
      && var hc := HeadCode(bank.swiftCode);
      && o.result.value == bank
      && bank.swiftCode !in s.banks && hc in s.banks && s.banks[hc].branches.Some?
      && o.store.banks.Keys == s.banks.Keys + {bank.swiftCode}
      && o.store.banks[bank.swiftCode] == bank
      && o.store.banks[hc] == s.banks[hc].(branches := Some(s.banks[hc].branches.value + [bank.swiftCode]))
      && (forall k :: k in s.banks && k != hc ==> o.store.banks[k] == s.banks[k])
  {
    if bank.swiftCode in s.banks then
      Outcome(Failure(BankAlreadyExists), s)
    else
      var countries := RegisterCountry(s.countries, bank.countryISO2, countryName);
      if !bank.headquarter then
        if |bank.swiftCode| < 8 then
          Outcome(Failure(CodeTooShort), Store(s.banks, countries))
        else
          var hc := HeadCode(bank.swiftCode);
          if hc !in s.banks then
            Outcome(Failure(HeadBankNotFound), Store(s.banks, countries))
          else
            match s.banks[hc].branches
            case None => Outcome(Failure(NullBranches), Store(s.banks, countries))
            case Some(bs) =>
              var head := s.banks[hc].(branches := Some(bs + [bank.swiftCode]));
              Outcome(Success(bank), Store(s.banks[bank.swiftCode := bank][hc := head], countries))
      else
        var created := if bank.branches.None? then bank.(branches := Some([])) else bank;
        Outcome(Success(created), Store(s.banks[bank.swiftCode := created], countries))
  }

  /**
   * `deleteBank`: BankNotFound for a missing code, ChildBranchesFound for a
   * headquarters whose branch list is not empty; otherwise exactly that key
   * is removed.
   */
  function DeleteBank(s: Store, swiftCode: string): (o: Outcome<()>)
    ensures o.result.Failure? ==> o.store == s
    ensures swiftCode !in s.banks ==> o.result == Failure(BankNotFound)
    // a headquarters without a list throws when its emptiness is tested
    ensures swiftCode in s.banks && s.banks[swiftCode].headquarter && s.banks[swiftCode].branches.None? ==>
      o.result == Failure(NullBranches)
    ensures swiftCode in s.banks && s.banks[swiftCode].headquarter && s.banks[swiftCode].branches.Some? ==>
      (o.result == Failure(ChildBranchesFound) <==> |s.banks[swiftCode].branches.value| > 0)
    ensures o.result.Success? <==>
      swiftCode in s.banks && (s.banks[swiftCode].headquarter ==> s.banks[swiftCode].branches == Some([]))
    // nothing else changes: in particular no headquarters' branch list is pruned
    ensures o.result.Success? ==> o.store == Store(s.banks - {swiftCode}, s.countries)
  {
    if swiftCode !in s.banks then
      Outcome(Failure(BankNotFound), s)
    else
      var b := s.banks[swiftCode];
      if b.headquarter && b.branches.None? then
        Outcome(Failure(NullBranches), s)
      else if b.headquarter && |b.branches.value| > 0 then
        Outcome(Failure(ChildBranchesFound), s)
      else
        Outcome(Success(()), Store(s.banks - {swiftCode}, s.countries))
  }

  // ---------------------------------------------------------------------
  // The store invariant
  // ---------------------------------------------------------------------

  /** The record stored under a branch's headquarters code in a consistent store is a headquarters with a list. */
  lemma HeadRecordHasList(s: Store, code: string)
    requires Consistent(s) && |code| >= 8 && HeadCode(code) in s.banks
    ensures s.banks[HeadCode(code)].headquarter && s.banks[HeadCode(code)].branches.Some?
  {
    HeadCodeIdempotent(code);
  }

  /** On a consistent store `addBank` never dereferences a null list, and it keeps the store consistent. */
  lemma AddBankKeepsConsistent(s: Store, bank: Bank, countryName: string)
    requires Consistent(s)
    ensures AddBank(s, bank, countryName).result != Failure(NullBranches)
    ensures Consistent(AddBank(s, bank, countryName).store)
  {
    if bank.swiftCode in s.banks {
    } else if bank.headquarter {
      AddHeadKeepsConsistent(s, bank, countryName);
    } else if |bank.swiftCode| >= 8 {
      AddBranchKeepsConsistent(s, bank, countryName);
    }
  }

  /** The headquarters path of `addBank` stores a headquarters with a list under its own code. */
  lemma AddHeadKeepsConsistent(s: Store, bank: Bank, countryName: string)
    requires Consistent(s) && bank.headquarter && bank.swiftCode !in s.banks
    ensures Consistent(AddBank(s, bank, countryName).store)
  {
    var t := AddBank(s, bank, countryName).store;
    assert t.banks == s.banks[bank.swiftCode := t.banks[bank.swiftCode]];
  }

  /** The branch path of `addBank` finds a list on a consistent store and stores a non-headquarters code. */
  lemma AddBranchKeepsConsistent(s: Store, bank: Bank, countryName: string)
    requires Consistent(s) && !bank.headquarter && |bank.swiftCode| >= 8 && bank.swiftCode !in s.banks
    ensures AddBank(s, bank, countryName).result != Failure(NullBranches)
    ensures Consistent(AddBank(s, bank, countryName).store)
  {
    if HeadCode(bank.swiftCode) in s.banks {
      HeadRecordHasList(s, bank.swiftCode);
      // a branch is never stored under a headquarters-shaped code: that code would be its own headquarters
      assert HeadCode(bank.swiftCode) != bank.swiftCode;
      var t := AddBank(s, bank, countryName).store;
      forall k | k in t.banks && |k| >= 8 && HeadCode(k) == k ensures t.banks[k].headquarter {
        if k == bank.swiftCode {
          assert false;
        }
      }
    }
  }

  /** `deleteBank` keeps a consistent store consistent and never dereferences a null list there. */
  lemma DeleteBankKeepsConsistent(s: Store, swiftCode: string)
    requires Consistent(s)
    ensures DeleteBank(s, swiftCode).result != Failure(NullBranches)
    ensures Consistent(DeleteBank(s, swiftCode).store)
  {
  }

  // ---------------------------------------------------------------------
  // Properties that relate several calls
  // ---------------------------------------------------------------------

  /** A created record can be read back unchanged. */
  lemma AddThenGet(s: Store, bank: Bank, countryName: string)
    requires AddBank(s, bank, countryName).result.Success?
    ensures GetBank(AddBank(s, bank, countryName).store, bank.swiftCode) == AddBank(s, bank, countryName).result
  {
  }

  /** Registering a country twice keeps the name of the first registration. */
  lemma CountryFirstNameWins(s: Store, b1: Bank, n1: string, b2: Bank, n2: string)
    requires b1.swiftCode !in s.banks && b1.countryISO2 !in s.countries
    requires b2.countryISO2 == b1.countryISO2
    ensures var t := AddBank(AddBank(s, b1, n1).store, b2, n2).store;
      b1.countryISO2 in t.countries && t.countries[b1.countryISO2] == Country(b1.countryISO2, n1)
  {
  }

  /**
   * A branch whose headquarters is missing is refused, but its country has
   * already been registered by then and stays registered.
   */
  lemma FailedBranchRegistersCountry(s: Store, branch: Bank, countryName: string)
    requires !branch.headquarter && |branch.swiftCode| >= 8
    requires branch.swiftCode !in s.banks && HeadCode(branch.swiftCode) !in s.banks
    requires branch.countryISO2 !in s.countries
    ensures var o := AddBank(s, branch, countryName);
      && o.result == Failure(HeadBankNotFound)
      && o.store.banks == s.banks
      && o.store.countries == s.countries[branch.countryISO2 := Country(branch.countryISO2, countryName)]
  {
  }

  /**
   * Adding a branch under an existing headquarters and then deleting it leaves
   * the branch gone but still listed by its headquarters: the list is a cache
   * that deletion does not prune.
   */
  lemma DeletedBranchStaysListed(s: Store, branch: Bank, countryName: string)
    requires Consistent(s)
    requires !branch.headquarter && |branch.swiftCode| >= 8
    requires branch.swiftCode !in s.banks && HeadCode(branch.swiftCode) in s.banks
    ensures var t := AddBank(s, branch, countryName);
      t.result.Success?
      && var u := DeleteBank(t.store, branch.swiftCode);
      u.result.Success?
      && branch.swiftCode !in u.store.banks
      && var hc := HeadCode(branch.swiftCode);
      hc in u.store.banks
      && u.store.banks[hc].branches.Some?
      && branch.swiftCode in u.store.banks[hc].branches.value
  {
    HeadRecordHasList(s, branch.swiftCode);
    var hc := HeadCode(branch.swiftCode);
    assert hc != branch.swiftCode;
    var t := AddBank(s, branch, countryName);
    var bs := s.banks[hc].branches.value;
    assert t.store.banks[hc].branches.value == bs + [branch.swiftCode];
    assert branch.swiftCode in t.store.banks[hc].branches.value;
  }

  /** Once a branch is linked, its headquarters cannot be deleted. */
  lemma HeadWithBranchCannotBeDeleted(s: Store, branch: Bank, countryName: string)
    requires Consistent(s)
    requires !branch.headquarter && |branch.swiftCode| >= 8
    requires branch.swiftCode !in s.banks && HeadCode(branch.swiftCode) in s.banks
    ensures var t := AddBank(s, branch, countryName);
      t.result.Success?
      && DeleteBank(t.store, HeadCode(branch.swiftCode)) == Outcome(Failure(ChildBranchesFound), t.store)
  {
    HeadRecordHasList(s, branch.swiftCode);
  }

  /**
   * The flag, not the code, picks the path: a bank declared a headquarters is
   * stored as one whatever its code looks like, with no headquarters lookup.
   */
  lemma FlagDecidesPath(s: Store, bank: Bank, countryName: string)
    requires bank.headquarter && bank.swiftCode !in s.banks
    ensures AddBank(s, bank, countryName).result.Success?
    ensures AddBank(s, bank, countryName).store.banks[bank.swiftCode].headquarter
  {
  }
}
