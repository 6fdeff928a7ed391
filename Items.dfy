/** The records the catalogue stores and the flat rows the bulk feed supplies. */
module Items {
  import opened Wrappers

  /** A country, keyed by its two-letter ISO code; `CountryItem`. */
  datatype Country = Country(countryISO2: string, countryName: string)

  /**
   * A bank, keyed by its SWIFT code; `BankItem`. The country is held by its
   * code only (the document store keeps a reference to the country document),
   * and `branches` is the headquarters' list of branch codes, or null.
   */
  datatype Bank = Bank(
    swiftCode: string,
    name: string,
    address: string,
    headquarter: bool,
    countryISO2: string,
    branches: Option<seq<string>>)

  /** One row of the bulk CSV feed; `BankCSVEntry`. */
  datatype Entry = Entry(
    swiftCode: string,
    name: string,
    address: string,
    countryName: string,
    countryISO2: string)
}
