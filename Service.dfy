/**
 * `SwiftCodesServiceImpl`: the service object over the bank and country
 * repositories, here two map fields that its methods update in place. Every
 * method is proved to agree with the outcome module Catalogue gives for it.
 */
module Service {
  import opened Wrappers
  import opened Codes
  import opened Items
  import opened Catalogue

  class SwiftCodesService {
    /** The banks repository, keyed by SWIFT code. */
    var banks: map<string, Bank>
    /** The countries repository, keyed by ISO code. */
    var countries: map<string, Country>

    /** Both repositories as one value. */
    function State(): Store
      reads this
    {
      Store(banks, countries)
    }

    /** A service over repositories that already hold `banks` and `countries`. */
    constructor (banks: map<string, Bank>, countries: map<string, Country>)
      ensures State() == Store(banks, countries)
    {
      this.banks := banks;
      this.countries := countries;
    }

    method GetBankBySwiftCode(swiftCode: string) returns (r: Result<Bank, ServiceError>)
      ensures r == GetBank(State(), swiftCode)
    {
      if swiftCode !in banks {
        return Failure(BankNotFound);
      }
      r := Success(banks[swiftCode]);
    }

    method GetCountryByCountryISO2(countryISO2: string) returns (r: Result<Country, ServiceError>)
      ensures r == GetCountry(State(), countryISO2)
    {
      if countryISO2 !in countries {
        return Failure(CountryNotExists);
      }
      r := Success(countries[countryISO2]);
    }

    method GetBanksByCountryISO2(countryISO2: string) returns (r: Result<CountryBanks, ServiceError>)
      ensures r == GetBanksByCountry(State(), countryISO2)
    {
      var country := GetCountryByCountryISO2(countryISO2);
      if country.Failure? {
        return Failure(country.error);
      }
      var c := country.value;
      var found := set b | b in banks.Values && b.countryISO2 == c.countryISO2;
      r := Success(CountryBanks(c.countryISO2, c.countryName, found));
    }

    /**
     * The duplicate check, the country get-or-create, then either the
     * headquarters save or the headquarters lookup, the append to its list
     * and the two saves, in the order the service performs them.
     */
    method AddBank(bank: Bank, countryName: string) returns (r: Result<Bank, ServiceError>)
      modifies this
      ensures Outcome(r, State()) == Catalogue.AddBank(old(State()), bank, countryName)
      ensures Consistent(old(State())) ==> Consistent(State()) && r != Failure(NullBranches)
    {
      ghost var before := State();
      if Consistent(before) {
        AddBankKeepsConsistent(before, bank, countryName);
      }
      if bank.swiftCode in banks {
        return Failure(BankAlreadyExists);
      }
      if bank.countryISO2 !in countries {
        countries := countries[bank.countryISO2 := Country(bank.countryISO2, countryName)];
      }
      if !bank.headquarter {
        if |bank.swiftCode| < 8 {
          return Failure(CodeTooShort);
        }
        var headCode := HeadCode(bank.swiftCode);
        if headCode !in banks {
          return Failure(HeadBankNotFound);
        }
        var head := banks[headCode];
        if head.branches.None? {
          return Failure(NullBranches);
        }
        head := head.(branches := Some(head.branches.value + [bank.swiftCode]));
        banks := banks[bank.swiftCode := bank];
        banks := banks[headCode := head];
        r := Success(bank);
      } else {
        var created := bank;
        if created.branches.None? {
          created := created.(branches := Some([]));
        }
        banks := banks[bank.swiftCode := created];
        r := Success(created);
      }
    }

    method DeleteBank(swiftCode: string) returns (r: Result<(), ServiceError>)
      modifies this
      ensures Outcome(r, State()) == Catalogue.DeleteBank(old(State()), swiftCode)
      ensures Consistent(old(State())) ==> Consistent(State()) && r != Failure(NullBranches)
    {
      if Consistent(State()) {
        DeleteBankKeepsConsistent(State(), swiftCode);
      }
      if swiftCode !in banks {
        return Failure(BankNotFound);
      }
      var bank := banks[swiftCode];
      if bank.headquarter && bank.branches.None? {
        return Failure(NullBranches);
      }
      if bank.headquarter && |bank.branches.value| > 0 {
        return Failure(ChildBranchesFound);
      }
      banks := banks - {swiftCode};
      r := Success(());
    }
  }
}
