# SWIFT codes catalogue — a Dafny model

The catalogue stores banks keyed by their SWIFT code and countries keyed by
their ISO code. A code ending in "XXX" is a headquarters. The first eight
characters of a code identify the headquarters a branch belongs to, and a
headquarters keeps the list of its branches. The model covers three parts:

- **The service** (`SwiftCodesServiceImpl`): lookups, creation and deletion of
  banks over the two repositories.
  - Module `Catalogue` gives the outcome of each call as a value: the result
    or exception, and the stores afterwards.
  - Module `Service` holds the class `SwiftCodesService`. Its two map fields
    are updated in place, and every method is proved equal to the
    `Catalogue` outcome.
  - The store invariant `Catalogue.Consistent` is proved to be kept by
    `addBank` and `deleteBank`. Under it, neither call can dereference a null
    branch list.
- **The two bulk linkers**, which turn CSV rows that are already read into
  country and bank outputs.
  - `CSVParser.parseCSV` (module `CsvParser`) splits the rows into
    headquarters and branches. It registers every headquarters first, then
    links each branch, and it drops branches that find no headquarters.
  - `BankCSVParser.parseEntries` (module `BankCsvParser`) sorts the rows by
    their last three characters, descending, with a stable sort. One pass
    then links the rows and keeps orphans.
  - Both are imperative methods. Their loops are proved against a
    specification shared in module `Linking`: `HeadBefore` is the
    headquarters the prefix map holds when a row is visited, and `Attached`
    is the list a headquarters collects. Module `CsvPhases` holds the loop
    states of `parseCSV`.
- **The request validators**: the `@SwiftCode` length and pattern constraint,
  the `@HeadquarterMatch` class check and the `@Uppercase` check (module
  `Validators`).

Supporting modules:

- `Strings` models Java's `trim()` and an ASCII `toUpperCase()`.
- `Codes` models the code shape: the prefix, the suffix and the headquarters
  code.
- `Items` holds the records.
- `Wrappers` holds `Option` and `Result`.

The parser outputs are Java hash sets. They are modelled as sequences in the
order the parser adds to them. In `CSVParser` the prefix map and the output
set hold the same headquarters record. In `BankCSVParser` the builder is
built twice, once for the map and once for the output, and the two records
share only the branch list. Either way a branch appended through the map
shows in the output. The model keeps the record's position in the output in
the map and appends a branch to the list at that position.

## Model

| member | source | states |
|---|---|---|
| Codes.HeadCode | rest-api/src/main/java/io/github/kappa243/remitly2025/services/SwiftCodesServiceImpl.java:61 | The headquarters code of a branch is eleven characters, keeps the branch's eight-character prefix and ends in "XXX" (at offset 8 too) |
| Codes.HeadCodeFixedIff | rest-api/src/main/java/io/github/kappa243/remitly2025/services/SwiftCodesServiceImpl.java:61 | A code is its own headquarters code iff it has eleven characters and ends in "XXX" |
| Codes.HeadCodeIdempotent | rest-api/src/main/java/io/github/kappa243/remitly2025/services/SwiftCodesServiceImpl.java:61 | The headquarters code of a headquarters code is itself |
| Catalogue.GetBank | rest-api/src/main/java/io/github/kappa243/remitly2025/services/SwiftCodesServiceImpl.java:32-39 | Success iff the code is stored, with the stored record; otherwise BankNotFound |
| Catalogue.GetCountry | rest-api/src/main/java/io/github/kappa243/remitly2025/services/SwiftCodesServiceImpl.java:84-91 | Success iff the country is stored, with the stored country; otherwise CountryNotExists |
| Catalogue.GetBanksByCountry | rest-api/src/main/java/io/github/kappa243/remitly2025/services/SwiftCodesServiceImpl.java:94-102 | CountryNotExists iff the country is unknown; otherwise the stored code and name, and exactly the stored banks whose country code is that code (possibly none) |
| Catalogue.AddBank | rest-api/src/main/java/io/github/kappa243/remitly2025/services/SwiftCodesServiceImpl.java:42-81 | A duplicate code fails before any write, with both stores unchanged. The country is added only when absent and is never overwritten, even when the call then fails. A failed call stores no bank. A branch fails with CodeTooShort iff its code is shorter than 8 characters, and otherwise with HeadBankNotFound iff no record is stored under its headquarters code. Otherwise a new branch succeeds iff that record has a list to append to. A created branch is stored as given and appended at the end of its headquarters' list, and no other bank changes. A headquarters always succeeds, with a null list replaced by an empty one and a given list kept |
| Catalogue.RegisterCountry | rest-api/src/main/java/io/github/kappa243/remitly2025/services/SwiftCodesServiceImpl.java:50-53 | The country store gains the bank's country code and nothing else. Every stored country is kept as it was, and a new code maps to the given country |
| Catalogue.DeleteBank | rest-api/src/main/java/io/github/kappa243/remitly2025/services/SwiftCodesServiceImpl.java:105-118 | A failure leaves the store unchanged. A missing code gives BankNotFound. A headquarters with a non-empty list gives ChildBranchesFound. A headquarters whose list is null throws NullBranches when its emptiness is tested. Success iff the code is stored and is not a headquarters with a non-empty or null list, and then exactly that key is removed and every other record, branch lists included, is kept |
| Catalogue.HeadRecordHasList | rest-api/src/main/java/io/github/kappa243/remitly2025/services/SwiftCodesServiceImpl.java:61-68 | In a consistent store the record under a branch's headquarters code is a headquarters with a list |
| Catalogue.AddBankKeepsConsistent | rest-api/src/main/java/io/github/kappa243/remitly2025/services/SwiftCodesServiceImpl.java:42-81 | On a consistent store `addBank` never dereferences a null list and leaves the store consistent |
| Catalogue.AddHeadKeepsConsistent | rest-api/src/main/java/io/github/kappa243/remitly2025/services/SwiftCodesServiceImpl.java:72-78 | The headquarters path keeps the store consistent |
| Catalogue.AddBranchKeepsConsistent | rest-api/src/main/java/io/github/kappa243/remitly2025/services/SwiftCodesServiceImpl.java:60-71 | The branch path never meets a null list on a consistent store and keeps it consistent |
| Catalogue.DeleteBankKeepsConsistent | rest-api/src/main/java/io/github/kappa243/remitly2025/services/SwiftCodesServiceImpl.java:105-118 | `deleteBank` never meets a null list on a consistent store and keeps it consistent |
| Catalogue.AddThenGet | rest-api/src/main/java/io/github/kappa243/remitly2025/services/SwiftCodesServiceImpl.java:32-81 | A created record is read back exactly as `addBank` returned it |
| Catalogue.CountryFirstNameWins | rest-api/src/main/java/io/github/kappa243/remitly2025/services/SwiftCodesServiceImpl.java:50-56 | Two creations in one country, headquarters or branch, succeeding or failing after the country step, keep the country name of the first |
| Catalogue.FailedBranchRegistersCountry | rest-api/src/main/java/io/github/kappa243/remitly2025/services/SwiftCodesServiceImpl.java:50-65 | A new branch whose headquarters is missing fails with HeadBankNotFound and stores no bank, but its country stays registered with the given name |
| Catalogue.DeletedBranchStaysListed | rest-api/src/main/java/io/github/kappa243/remitly2025/services/SwiftCodesServiceImpl.java:60-118 | Adding then deleting a branch succeeds, and the branch is gone from the store but still in its headquarters' list |
| Catalogue.HeadWithBranchCannotBeDeleted | rest-api/src/main/java/io/github/kappa243/remitly2025/services/SwiftCodesServiceImpl.java:68-115 | Once a branch is added, deleting its headquarters fails with ChildBranchesFound and changes nothing |
| Catalogue.FlagDecidesPath | rest-api/src/main/java/io/github/kappa243/remitly2025/services/SwiftCodesServiceImpl.java:60-78 | A bank flagged as a headquarters is created and stored as a headquarters whatever its code |
| Service.SwiftCodesService.constructor | rest-api/src/main/java/io/github/kappa243/remitly2025/services/SwiftCodesServiceImpl.java:26-28 | The service starts over the given repositories |
| Service.SwiftCodesService.GetBankBySwiftCode | rest-api/src/main/java/io/github/kappa243/remitly2025/services/SwiftCodesServiceImpl.java:32-39 | Returns what `Catalogue.GetBank` gives for the current store |
| Service.SwiftCodesService.GetCountryByCountryISO2 | rest-api/src/main/java/io/github/kappa243/remitly2025/services/SwiftCodesServiceImpl.java:84-91 | Returns what `Catalogue.GetCountry` gives for the current store |
| Service.SwiftCodesService.GetBanksByCountryISO2 | rest-api/src/main/java/io/github/kappa243/remitly2025/services/SwiftCodesServiceImpl.java:94-102 | Returns what `Catalogue.GetBanksByCountry` gives for the current store |
| Service.SwiftCodesService.AddBank | rest-api/src/main/java/io/github/kappa243/remitly2025/services/SwiftCodesServiceImpl.java:42-81 | The result and new repositories are the `Catalogue.AddBank` outcome, and a consistent store stays consistent with no null dereference |
| Service.SwiftCodesService.DeleteBank | rest-api/src/main/java/io/github/kappa243/remitly2025/services/SwiftCodesServiceImpl.java:105-118 | The result and new repositories are the `Catalogue.DeleteBank` outcome, and a consistent store stays consistent |
| Strings.TrimStartShape | rest-api/src/main/java/io/github/kappa243/remitly2025/parser/CSVParser.java:35-36 | Dropping leading blanks leaves the suffix that starts at the first non-blank |
| Strings.TrimEndShape | rest-api/src/main/java/io/github/kappa243/remitly2025/parser/CSVParser.java:35-36 | Dropping trailing blanks leaves the prefix that ends at the last non-blank |
| Strings.TrimShape | rest-api/src/main/java/io/github/kappa243/remitly2025/parser/CSVParser.java:35-36 | `trim()` returns the slice between the first and last non-blank, and only blanks lie outside it |
| Strings.ToUpperShape | rest-api/src/main/java/io/github/kappa243/remitly2025/parser/CSVParser.java:35-36 | `toUpperCase()` keeps the length and capitalises each character in place |
| Strings.TrimOfTrimmed | rest-api/src/main/java/io/github/kappa243/remitly2025/parser/CSVParser.java:35-36 | A string with no blank end is its own `trim()` |
| Strings.ToUpperIdempotent | rest-api/src/main/java/io/github/kappa243/remitly2025/model/validators/UppercaseValidator.java:19 | Upper-casing leaves no lower-case letter, and upper-casing twice is upper-casing once |
| Validators.MatchLength | rest-api/src/main/java/io/github/kappa243/remitly2025/model/validators/SwiftCode.java:14 | A string matching an anchored sequence of bounded groups has the pattern's length |
| Validators.SwiftPatternMeaning | rest-api/src/main/java/io/github/kappa243/remitly2025/model/validators/SwiftCode.java:14 | The pattern accepts exactly the eleven-character strings whose first six characters are A-Z and whose last five are A-Z or 0-9 |
| Validators.SwiftCodeViolations | rest-api/src/main/java/io/github/kappa243/remitly2025/model/validators/SwiftCode.java:13-14 | Null passes. The length message is reported iff the length is not 11, and the pattern message iff the position-by-position shape fails |
| Validators.PatternImpliesLength | rest-api/src/main/java/io/github/kappa243/remitly2025/model/validators/SwiftCode.java:13-14 | Every wrong-length code also fails the pattern, so the size check is implied |
| Validators.ShortCodeRejected | rest-api/src/main/java/io/github/kappa243/remitly2025/model/validators/SwiftCode.java:13-14 | "ABC" is reported with the length message (and the pattern message) |
| Validators.DigitLeadCodeRejected | rest-api/src/main/java/io/github/kappa243/remitly2025/model/validators/SwiftCode.java:14 | "123DEFGHIJK" is reported with the pattern message only |
| Validators.WellFormedCodesAccepted | rest-api/src/main/java/io/github/kappa243/remitly2025/model/validators/SwiftCode.java:13-14 | "ABCDEFGHXXX" and "BREXPLPWWAL" pass |
| Validators.HeadquarterMatchValid | rest-api/src/main/java/io/github/kappa243/remitly2025/model/validators/HeadquarterMatchValidator.java:14-16 | A request passes iff it is flagged a headquarters exactly when its code has at least eleven characters and its first eleven are its own headquarters code |
| Codes.HasXXXAt8Iff | rest-api/src/main/java/io/github/kappa243/remitly2025/model/validators/HeadquarterMatchValidator.java:15 | For a code of eleven or more characters, "XXX" at offset 8 iff the first eleven characters are the prefix followed by "XXX" |
| Validators.HeadquarterMatchOnElevenChars | rest-api/src/main/java/io/github/kappa243/remitly2025/model/validators/HeadquarterMatchValidator.java:15 | For eleven characters, valid iff the flag equals "ends in XXX" |
| Validators.HeadquarterMatchOnShortCode | rest-api/src/main/java/io/github/kappa243/remitly2025/model/validators/HeadquarterMatchValidator.java:15 | Below eleven characters, valid iff the flag is false |
| Validators.HeadquarterMatchIgnoresTail | rest-api/src/main/java/io/github/kappa243/remitly2025/model/validators/HeadquarterMatchValidator.java:15 | "ABCDEFGHXXXZ" passes as a headquarters although it does not end in "XXX" |
| Validators.HeadquarterMatchViolations | rest-api/src/main/java/io/github/kappa243/remitly2025/model/validators/HeadquarterMatch.java:15 | No violation iff the request passes the check, and otherwise exactly the "SWIFT code does not match headquarter status" message |
| Validators.HeadquarterMatchExamples | rest-api/src/main/java/io/github/kappa243/remitly2025/model/validators/HeadquarterMatchValidator.java:15 | "ABCDEFGHABC" flagged as a headquarters gets exactly the "SWIFT code does not match headquarter status" message; "ABCDEFGHXXX" flagged as one and "ABCDEFGHABC" flagged as a branch get none |
| Validators.ValidRequestShape | rest-api/src/main/java/io/github/kappa243/remitly2025/model/validators/HeadquarterMatchValidator.java:15 | A request passing both checks is a headquarters iff its code is its own headquarters code |
| Validators.UppercaseValid | rest-api/src/main/java/io/github/kappa243/remitly2025/model/validators/UppercaseValidator.java:15-20 | Null passes, and a non-null value passes iff it has no lower-case letter |
| Validators.UppercaseViolations | rest-api/src/main/java/io/github/kappa243/remitly2025/model/validators/UppercaseValidator.java:15-20 | No violation iff the value passes, and otherwise exactly the "must be uppercase" message |
| Strings.ToUpperFixedIff | rest-api/src/main/java/io/github/kappa243/remitly2025/model/validators/UppercaseValidator.java:19 | A string equals its upper-cased form iff it has no lower-case letter |
| Validators.UpperCasedIsValid | rest-api/src/main/java/io/github/kappa243/remitly2025/model/validators/UppercaseValidator.java:19 | Every upper-cased string passes |
| Validators.UppercaseExamples | rest-api/src/main/java/io/github/kappa243/remitly2025/model/validators/UppercaseValidator.java:15-20 | "Main street bank" gets exactly the "must be uppercase" message and null gets none |
| Validators.LowerCaseRejected | rest-api/src/main/java/io/github/kappa243/remitly2025/model/validators/UppercaseValidator.java:19 | One lower-case letter anywhere rejects the value |
| Validators.NoLettersIsValid | rest-api/src/main/java/io/github/kappa243/remitly2025/model/validators/UppercaseValidator.java:19 | Digits, blanks and punctuation pass |
| Linking.HeadBefore | rest-api/src/main/java/io/github/kappa243/remitly2025/parser/CSVParser.java:81-92 | The headquarters the prefix map holds for a prefix when a row is visited is the last earlier headquarters row with that prefix, or none if there is no such row |
| Linking.HeadMapAgrees | rest-api/src/main/java/io/github/kappa243/remitly2025/parser/BankCSVParser.java:72-77 | The map built by the `put`s holds a prefix iff `HeadBefore` finds a headquarters for it, and holds that one |
| Linking.Clean | rest-api/src/main/java/io/github/kappa243/remitly2025/parser/CSVParser.java:35-36 | A cleaned name or address is no longer than the field and has no lower-case letter |
| Linking.Record | rest-api/src/main/java/io/github/kappa243/remitly2025/parser/BankCSVParser.java:60-74 | A row's record holds its name and address already in cleaned form, has a list iff it is a headquarters, and that list starts empty |
| Linking.CleanShape | rest-api/src/main/java/io/github/kappa243/remitly2025/parser/BankCSVParser.java:62-63 | A cleaned name or address is the upper-cased middle of the field between its blank ends |
| Linking.CleanIdempotent | rest-api/src/main/java/io/github/kappa243/remitly2025/parser/BankCSVParser.java:62-63 | A cleaned field has no blank end and no lower-case letter, and cleaning it again changes nothing |
| Linking.ItemFields | rest-api/src/main/java/io/github/kappa243/remitly2025/parser/BankCSVParser.java:55-74 | A record copies code and country code, cleans name and address, is a headquarters iff its code ends in "XXX", and only then has a list |
| Linking.NothingAttachedYet | rest-api/src/main/java/io/github/kappa243/remitly2025/parser/CSVParser.java:74 | A headquarters' list starts empty |
| Linking.NothingAttachedUnlessLinked | rest-api/src/main/java/io/github/kappa243/remitly2025/parser/CSVParser.java:92-98 | A list stays empty while no visited branch finds that headquarters |
| Linking.AttachedFrom | rest-api/src/main/java/io/github/kappa243/remitly2025/parser/BankCSVParser.java:76-82 | Every listed code comes from a later branch row that found this headquarters |
| Linking.AttachedContains | rest-api/src/main/java/io/github/kappa243/remitly2025/parser/BankCSVParser.java:76-82 | A branch row that found this headquarters is listed once visited |
| Linking.AttachedSharePrefix | rest-api/src/main/java/io/github/kappa243/remitly2025/parser/CSVParser.java:91-98 | Every listed code is a branch code with the headquarters' prefix |
| Linking.ItemUnchanged | rest-api/src/main/java/io/github/kappa243/remitly2025/parser/BankCSVParser.java:76-82 | Visiting a row changes no earlier record unless the row links to it |
| Linking.ItemExtended | rest-api/src/main/java/io/github/kappa243/remitly2025/parser/BankCSVParser.java:82 | A row that finds a headquarters is appended at the end of that headquarters' list |
| Linking.NoAttach | rest-api/src/main/java/io/github/kappa243/remitly2025/parser/BankCSVParser.java:66-80 | A row that links to none of the earlier records leaves them all as they are |
| Linking.Attach | rest-api/src/main/java/io/github/kappa243/remitly2025/parser/BankCSVParser.java:82 | Appending through the prefix map updates exactly the record that was found |
| Linking.AppendFresh | rest-api/src/main/java/io/github/kappa243/remitly2025/parser/BankCSVParser.java:87 | Adding a new row's plain record extends the output correctly |
| Linking.ItemFresh | rest-api/src/main/java/io/github/kappa243/remitly2025/parser/BankCSVParser.java:69-70 | A record just built is the plain record with an empty list |
| Linking.LinkedBranchIsListed | rest-api/src/main/java/io/github/kappa243/remitly2025/parser/BankCSVParser.java:76-82 | In a pass's output, a branch that found a headquarters is in the list of that earlier headquarters record, which has its prefix |
| Linking.Heads | rest-api/src/main/java/io/github/kappa243/remitly2025/parser/CSVParser.java:63-66 | The headquarters partition holds exactly the input rows ending in "XXX" |
| Linking.Branches | rest-api/src/main/java/io/github/kappa243/remitly2025/parser/CSVParser.java:63-67 | The branch partition holds exactly the other input rows |
| Linking.HeadsFirst | rest-api/src/main/java/io/github/kappa243/remitly2025/parser/CSVParser.java:63-67 | Headquarters then branches contains exactly the input rows |
| Linking.HeadsFirstIsPermutation | rest-api/src/main/java/io/github/kappa243/remitly2025/parser/CSVParser.java:63-67 | The partition loses and invents no row: a permutation |
| Linking.HeadBeforeSettled | rest-api/src/main/java/io/github/kappa243/remitly2025/parser/CSVParser.java:84-103 | The branch loop never changes the prefix map |
| Linking.HeadsFirstShape | rest-api/src/main/java/io/github/kappa243/remitly2025/parser/CSVParser.java:63-67 | All headquarters rows come before all branch rows |
| Linking.HeadsFirstLinkedIff | rest-api/src/main/java/io/github/kappa243/remitly2025/parser/CSVParser.java:63-92 | With headquarters first, a branch finds a headquarters iff the input has a headquarters with its prefix |
| CsvPhases.BranchSkipped | rest-api/src/main/java/io/github/kappa243/remitly2025/parser/CSVParser.java:94-96 | An orphan branch leaves both outputs unchanged |
| CsvPhases.KeptTailExtended | rest-api/src/main/java/io/github/kappa243/remitly2025/parser/CSVParser.java:101-102 | A kept branch's record and country extend the kept part of the outputs |
| CsvPhases.BranchKept | rest-api/src/main/java/io/github/kappa243/remitly2025/parser/CSVParser.java:97-102 | A branch that finds a headquarters is appended to its list and added with its country |
| CsvPhases.HeadsStart | rest-api/src/main/java/io/github/kappa243/remitly2025/parser/CSVParser.java:47-50 | Both outputs and the map start empty |
| CsvPhases.HeadsDone | rest-api/src/main/java/io/github/kappa243/remitly2025/parser/CSVParser.java:69-84 | After the headquarters loop the branch loop starts with nothing kept |
| CsvParser.MapEntry | rest-api/src/main/java/io/github/kappa243/remitly2025/parser/CSVParser.java:27-41 | Country copied. Code and country code copied. Name and address cleaned. Neither the flag nor a list is set |
| CsvParser.VisitHead | rest-api/src/main/java/io/github/kappa243/remitly2025/parser/CSVParser.java:69-82 | One headquarters row is recorded with an empty list, its country is added, and it is registered under its prefix |
| CsvParser.VisitBranch | rest-api/src/main/java/io/github/kappa243/remitly2025/parser/CSVParser.java:84-103 | One branch row is linked and kept, or skipped as an orphan |
| CsvParser.RegisterHeads | rest-api/src/main/java/io/github/kappa243/remitly2025/parser/CSVParser.java:69-82 | The headquarters loop records every headquarters row in order, with their countries, and builds the prefix map |
| CsvParser.LinkBranches | rest-api/src/main/java/io/github/kappa243/remitly2025/parser/CSVParser.java:84-103 | The branch loop links every branch that finds a headquarters, keeps exactly those, and lists each in input order |
| CsvParser.BranchesDone | rest-api/src/main/java/io/github/kappa243/remitly2025/parser/CSVParser.java:63-103 | After both loops the outputs are those `IsCsvOutput` describes |
| CsvParser.ParseCsv | rest-api/src/main/java/io/github/kappa243/remitly2025/parser/CSVParser.java:63-103 | The outputs: every headquarters record (listing the branches that found it) with its country, then every kept branch with its country |
| CsvParser.KeptBranchesIff | rest-api/src/main/java/io/github/kappa243/remitly2025/parser/CSVParser.java:84-103 | A row is kept iff one of its occurrences among the branches finds a headquarters |
| CsvParser.KeptBranchAt | rest-api/src/main/java/io/github/kappa243/remitly2025/parser/CSVParser.java:84-103 | Each kept row is a branch row that found a headquarters |
| CsvParser.KeptRowHasHead | rest-api/src/main/java/io/github/kappa243/remitly2025/parser/CSVParser.java:63-103 | A kept row is an input branch whose prefix some input headquarters has |
| CsvParser.BranchWithHeadIsKept | rest-api/src/main/java/io/github/kappa243/remitly2025/parser/CSVParser.java:63-103 | An input branch whose prefix some input headquarters has is kept |
| CsvParser.BranchKeptIff | rest-api/src/main/java/io/github/kappa243/remitly2025/parser/CSVParser.java:63-103 | A row is kept iff it is an input branch and the input has a headquarters with its prefix. Orphans are dropped |
| CsvParser.KeptIgnoresOrder | rest-api/src/main/java/io/github/kappa243/remitly2025/parser/CSVParser.java:63-84 | Which rows are kept is the same for every permutation of the input |
| CsvParser.HeadRecordsAreHeads | rest-api/src/main/java/io/github/kappa243/remitly2025/parser/CSVParser.java:69-82 | Every headquarters row gives a headquarters record with a list and that row's code |
| CsvParser.KeptIsListed | rest-api/src/main/java/io/github/kappa243/remitly2025/parser/CSVParser.java:92-98 | Each kept branch is listed by a headquarters record with its prefix |
| CsvParser.OutputIsClosed | rest-api/src/main/java/io/github/kappa243/remitly2025/parser/CSVParser.java:79-102 | Every branch record in the output is listed by a headquarters record in the output with the same prefix |
| CsvParser.CountryOfEveryRecord | rest-api/src/main/java/io/github/kappa243/remitly2025/parser/CSVParser.java:79-102 | Every record is added with a country that has its country code |
| CsvParser.EarlierDuplicateHeadListsNothing | rest-api/src/main/java/io/github/kappa243/remitly2025/parser/CSVParser.java:81 | Of two headquarters rows with one prefix, the earlier lists nothing, because the later one overwrote it in the map |
| CsvParser.ShadowedHeadListsNothing | rest-api/src/main/java/io/github/kappa243/remitly2025/parser/CSVParser.java:81-92 | A headquarters overwritten in the map before the branches are visited gets no branch |
| BankCsvParser.InsertDesc | rest-api/src/main/java/io/github/kappa243/remitly2025/parser/BankCSVParser.java:53 | Inserting a row adds exactly that row |
| BankCsvParser.SortBySuffixDesc | rest-api/src/main/java/io/github/kappa243/remitly2025/parser/BankCSVParser.java:53 | The sort returns a permutation of its input |
| BankCsvParser.SortedDescAnyRows | rest-api/src/main/java/io/github/kappa243/remitly2025/parser/BankCSVParser.java:53 | The sort's output is in descending order of the last three characters |
| BankCsvParser.InsertDescLinkable | rest-api/src/main/java/io/github/kappa243/remitly2025/parser/BankCSVParser.java:53 | Sorting keeps every code long enough for `substring(0, 8)` |
| BankCsvParser.InsertDescSorted | rest-api/src/main/java/io/github/kappa243/remitly2025/parser/BankCSVParser.java:53 | Insertion keeps the order descending |
| BankCsvParser.InsertInFrontSorted | rest-api/src/main/java/io/github/kappa243/remitly2025/parser/BankCSVParser.java:53 | A row above the first goes in front and the order stays descending |
| BankCsvParser.InsertBehindHeadSorted | rest-api/src/main/java/io/github/kappa243/remitly2025/parser/BankCSVParser.java:53 | A row not above the first goes behind it and the order stays descending |
| BankCsvParser.KeyAboveFirstAbsent | rest-api/src/main/java/io/github/kappa243/remitly2025/parser/BankCSVParser.java:53 | In descending order, a suffix above the first one occurs nowhere |
| BankCsvParser.InsertKeepsOrderOfEquals | rest-api/src/main/java/io/github/kappa243/remitly2025/parser/BankCSVParser.java:53 | Insertion places a row after every row with the same suffix |
| BankCsvParser.SortIsStable | rest-api/src/main/java/io/github/kappa243/remitly2025/parser/BankCSVParser.java:53 | The sort is stable: the rows with any one suffix come out in input order |
| BankCsvParser.VisitEntry | rest-api/src/main/java/io/github/kappa243/remitly2025/parser/BankCSVParser.java:54-88 | One row: a headquarters is registered under its prefix, a branch is appended to the headquarters found so far (if any), and the row's record is added |
| BankCsvParser.LinkRows | rest-api/src/main/java/io/github/kappa243/remitly2025/parser/BankCSVParser.java:54-88 | The pass keeps every row. The outputs hold one record and one country per row, in visiting order, and each headquarters lists the later branches that found it |
| BankCsvParser.ParseEntries | rest-api/src/main/java/io/github/kappa243/remitly2025/parser/BankCSVParser.java:52-88 | As written: the pass runs over the rows sorted by suffix, descending |
| BankCsvParser.ParseEntriesHeadsFirst | rest-api/src/main/java/io/github/kappa243/remitly2025/parser/BankCSVParser.java:52-88 | Corrected: the same pass over headquarters first, then branches |
| BankCsvParser.SuffixAbove | rest-api/src/main/java/io/github/kappa243/remitly2025/parser/BankCSVParser.java:53 | Only three-character suffixes are compared, and one that sorts above another never has a smaller first character |
| BankCsvParser.SuffixAboveIff | rest-api/src/main/java/io/github/kappa243/remitly2025/parser/BankCSVParser.java:53 | One three-character suffix sorts above another iff at the first position where they differ its character is greater |
| BankCsvParser.Key | rest-api/src/main/java/io/github/kappa243/remitly2025/parser/BankCSVParser.java:53 | A row's sort key is "XXX" iff its code ends in "XXX" |
| BankCsvParser.KeyShape | rest-api/src/main/java/io/github/kappa243/remitly2025/parser/BankCSVParser.java:53 | The sort key is the last three characters of the code, or the whole of a shorter code |
| BankCsvParser.EveryRowKept | rest-api/src/main/java/io/github/kappa243/remitly2025/parser/BankCSVParser.java:79-87 | Every input row, orphan or not, gives a record with its code and flag and its country. Output sizes equal the input size |
| BankCsvParser.ListedCodesNotAboveXXX | rest-api/src/main/java/io/github/kappa243/remitly2025/parser/BankCSVParser.java:53-82 | Every listed code has a suffix not above "XXX" |
| BankCsvParser.HighSuffixBranchIsOrphan | rest-api/src/main/java/io/github/kappa243/remitly2025/parser/BankCSVParser.java:53-80 | A row whose suffix is above "XXX" is listed by no headquarters, even when its headquarters is in the input |
| BankCsvParser.SortedPairOrphan | rest-api/src/main/java/io/github/kappa243/remitly2025/parser/BankCSVParser.java:53-80 | A headquarters and a branch whose suffix sorts above it: the branch comes first unlinked, and the headquarters lists nothing |
| BankCsvParser.SortPairOrder | rest-api/src/main/java/io/github/kappa243/remitly2025/parser/BankCSVParser.java:53 | Two rows where the second's suffix is above the first's are swapped by the sort |
| BankCsvParser.BranchFirstOrphan | rest-api/src/main/java/io/github/kappa243/remitly2025/parser/BankCSVParser.java:77-80 | A branch visited before its only headquarters is an orphan, and the headquarters' list is empty |
| BankCsvParser.ZzzBranchNotLinked | rest-api/src/main/java/io/github/kappa243/remitly2025/parser/BankCSVParser.java:53-80 | "ABCDEFGHXXX" with "ABCDEFGHZZZ": the branch is output first and the headquarters lists nothing |
| BankCsvParser.HeadThenBranchOrder | rest-api/src/main/java/io/github/kappa243/remitly2025/parser/CSVParser.java:63-67 | A headquarters and a branch stay in that order with headquarters first |
| BankCsvParser.HeadThenBranchLinked | rest-api/src/main/java/io/github/kappa243/remitly2025/parser/BankCSVParser.java:76-82 | A branch visited after its headquarters is that headquarters' only listed code |
| BankCsvParser.HeadsFirstPairLinked | rest-api/src/main/java/io/github/kappa243/remitly2025/parser/BankCSVParser.java:76-82 | With headquarters first, a headquarters and its branch end up linked |
| BankCsvParser.ZzzBranchLinkedHeadsFirst | rest-api/src/main/java/io/github/kappa243/remitly2025/parser/BankCSVParser.java:76-82 | The same two rows with headquarters first: the headquarters lists "ABCDEFGHZZZ" |
| BankCsvParser.HeadsFirstLinksEveryBranch | rest-api/src/main/java/io/github/kappa243/remitly2025/parser/BankCSVParser.java:76-87 | With headquarters first, no row is lost, and every branch whose prefix has a headquarters in the input is listed by one |
| BankCsvParser.LastDuplicateHeadWins | rest-api/src/main/java/io/github/kappa243/remitly2025/parser/BankCSVParser.java:72 | With two headquarters under one prefix before a branch, the branch never links to the earlier one |

## Left out

- HTTP layer: the controller, the exception handler, request and response DTOs and Spring projections are not part of this model. The service's return values stand for what it hands to them.
- Catalogue.GetBanksByCountry: the repository query's list of projected bank responses is modelled as the set of matching stored records. Its order and the projection are left out.
- Document-store references: a bank holds its country by code and a headquarters holds its branches as codes. How a dangling reference resolves on read is not modelled.
- CSV reading: resource loading, the column mappings, header handling, `withIgnoreLeadingWhiteSpace` and logging are foreign calls. The parsers take the rows already read as a sequence.
- Hash sets: the parsers' `countries` and `banks` outputs are sequences in the order of the `add` calls. Duplicate removal by value equality, and the effect on hash codes of lists changed after insertion, are not modelled.
- CsvParser.OutputIsClosed: holds for the output sequence, not for Java's hash set when two headquarters rows are identical. For rows [H, H, B] with H = "ABCDEFGHXXX" and B = "ABCDEFGH123", `banks.add` refuses the second, equal H, but `headBanks.put` keeps it, so B is appended to a record that is not in the set (CSVParser.java:80-81 and 98).
- CsvParser.KeptIsListed: the same identical-headquarters case. The record that lists B is the refused duplicate, and the H in the set lists nothing.
- Linking.LinkedBranchIsListed: the same identical-headquarters case, in both parsers. In `BankCSVParser` the second H's list is a new list, and only the record put in the map at line 72 gets B (lines 72, 82 and 87).
- BankCsvParser.EveryRowKept: the output sizes equal the input size only for the sequences. Java's sets drop rows equal to one already added, including identical headquarters rows.
- BankCsvParser.HeadsFirstLinksEveryBranch: the same identical-headquarters case. A branch behind two equal headquarters rows is listed only by the one that the set refused.
- CsvParser.ParseCsv: requires every code to have the eight characters `substring(0, 8)` needs. A shorter code makes Java throw out of `parseCSV`, and that exception path is not modelled.
- BankCsvParser.ParseEntries: has the same eight-character requirement. In Java a short code throws part-way through the pass and leaves the caller's sets partly filled, which is not modelled.
- BankCsvParser.SortBySuffixDesc: the comparator's `substring(length - 3)` throws on a code under three characters. This is unreachable under the eight-character requirement above.
- Accessor and builder names that do not match the records' fields. In `BankCSVParser`, `entry.getCountryCode()` (line 56) and the "countryCode" column mapping (line 34) name no property of `BankCSVEntry`, whose field is `countryISO2`; `BankItem.builder().countryCode(...)` (line 64) should be `countryISO2`; and `isHeadquarter(...)` (lines 69 and 74) should be `headquarter`. In `CSVParser`, `CountryItem.builder().countryISO2(...)` (line 29) should be `countryCode`. In `SwiftCodesServiceImpl`, `getCountryISO2()` is called on a `CountryItem` (lines 50, 98 and 100), which has only `getCountryCode()`. The model follows the evident meaning: the row's country code and the headquarters flag.
- Startup seeding (`DatabaseInitializer`, `InitParser`) is I/O with no invariant of its own.
- `toUpperCase()` is modelled over ASCII letters only. Locale and the rest of Unicode are left out, and `trim()` removes characters up to U+0020 as Java does.
- Validators.SwiftCodeViolations: `@Size` counts UTF-16 code units, while a character here is a Unicode scalar value. A code with a character outside the Basic Multilingual Plane is one unit longer per such character in Java, so the length bounds agree with Java only for codes without such characters.
- Null strings are not modelled, except the null value the `@Uppercase` and `@SwiftCode` checks accept, and a null branch list.
- Concurrency: the check-then-act races in `addBank` between lookup and save are not modelled.
- `CountryCode`, `CountryCodeValidator` and `SwiftCodeRequest` are not part of this model. The first is a size-2 check plus `@Uppercase`, and the other two are unused.

## Findings

| source | as written | input that shows it | evidently intended | confidence | as-written member | corrected member |
|---|---|---|---|---|---|---|
| rest-api/src/main/java/io/github/kappa243/remitly2025/parser/BankCSVParser.java:53 | Rows are sorted by their last three characters, descending, so that "XXX" headquarters come before their branches. Branch suffixes above "XXX" (such as "XYZ" or "ZZZ") sort before it, and such a branch is visited before its headquarters and kept as an orphan | Rows "ABCDEFGHXXX" and "ABCDEFGHZZZ": the headquarters' branch list stays empty | Every headquarters is registered before any branch is looked up, as `CSVParser` does by partitioning, so every branch with a headquarters in the input is linked | not executed | BankCsvParser.ParseEntries, BankCsvParser.HighSuffixBranchIsOrphan, BankCsvParser.ZzzBranchNotLinked | BankCsvParser.ParseEntriesHeadsFirst, BankCsvParser.HeadsFirstLinksEveryBranch, BankCsvParser.ZzzBranchLinkedHeadsFirst |
