/**
 * `CSVParser.parseCSV`: the rows are split into headquarters and branches
 * (each group in input order); every headquarters is recorded and registered
 * under its prefix first, then each branch that finds a headquarters is
 * appended to it and recorded, and a branch that finds none is skipped.
 */
module CsvParser {
  import opened Wrappers
  import opened Codes
  import opened Items
  import opened Linking
  import opened CsvPhases

  /**
   * `mapEntry`: the country as given, and a bank record with code and
   * country code copied, name and address cleaned, and neither the
   * headquarters flag nor a branch list set.
   */
  function MapEntry(e: Entry): (r: (Country, Bank))
    ensures r.0.countryISO2 == e.countryISO2 && r.0.countryName == e.countryName
    ensures r.1.swiftCode == e.swiftCode && r.1.countryISO2 == e.countryISO2
    ensures r.1.name == Clean(e.name) && r.1.address == Clean(e.address)
    ensures !r.1.headquarter && r.1.branches.None?
  {
    (CountryOf(e), Record(e, false))
  }

  /** The branches `parseCSV` keeps for these entries. */
  function Kept(entries: seq<Entry>): seq<Entry>
    requires Linkable(entries)
  {
    var rows := HeadsFirst(entries);
    KeptBranches(rows, |Heads(entries)|, |rows|)
  }

  /**
   * What `parseCSV` returns, in the order it adds: first one record and one
   * country per headquarters row, each headquarters listing the branches that
   * found it; then one plain record and one country per kept branch.
   */
  predicate IsCsvOutput(entries: seq<Entry>, countries: seq<Country>, banks: seq<Bank>)
    requires Linkable(entries)
  {
    var rows, nh, kept := HeadsFirst(entries), |Heads(entries)|, Kept(entries);
    && |banks| == nh + |kept| && |countries| == nh + |kept|
    && (forall j :: 0 <= j < nh ==> banks[j] == Item(rows, j, |rows|) && countries[j] == CountryOf(rows[j]))
    && (forall t :: 0 <= t < |kept| ==> banks[nh + t] == Record(kept[t], false) && countries[nh + t] == CountryOf(kept[t]))
  }

  /** The first `forEach` body, for the headquarters row `i`. */
  method VisitHead(entry: Entry, ghost rows: seq<Entry>, i: nat, headBanks: map<string, nat>, countries: seq<Country>, banks: seq<Bank>)
    returns (headBanks': map<string, nat>, countries': seq<Country>, banks': seq<Bank>)
    requires Linkable(rows) && i < |rows| && entry == rows[i] && IsHeadRow(entry)
    requires HeadPhase(rows, i, headBanks, countries, banks)
    ensures HeadPhase(rows, i + 1, headBanks', countries', banks')
  {
    var mapped := MapEntry(entry);
    var bankItem := mapped.1.(headquarter := true, branches := Some([]));
    var swiftInit := Prefix(entry.swiftCode);
    NoAttach(rows, banks, i, i);
    AppendFresh(rows, banks, i);
    countries' := countries + [mapped.0];
    banks' := banks + [bankItem];
    headBanks' := headBanks[swiftInit := i];
  }

  /** The second `forEach` body, for the branch row `n`: linked and kept, or skipped. */
  method VisitBranch(entry: Entry, ghost rows: seq<Entry>, ghost nh: nat, ghost n: nat,
                     headBanks: map<string, nat>, countries: seq<Country>, banks: seq<Bank>)
    returns (countries': seq<Country>, banks': seq<Bank>)
    requires Linkable(rows) && nh <= n < |rows| && entry == rows[n]
    requires forall k :: nh <= k < |rows| ==> !IsHeadRow(rows[k])
    requires BranchPhase(rows, nh, n, headBanks, countries, banks)
    ensures BranchPhase(rows, nh, n + 1, headBanks, countries', banks')
  {
    var mapped := MapEntry(entry);
    var bankItem := mapped.1.(headquarter := false);
    var swiftInit := Prefix(entry.swiftCode);
    HeadBeforeSettled(rows, nh, n, swiftInit);
    HeadMapAgrees(rows, nh, swiftInit);
    if swiftInit !in headBanks {
      BranchSkipped(rows, nh, n, headBanks, countries, banks);
      return countries, banks;
    }
    var h := headBanks[swiftInit];
    BranchKept(rows, nh, n, headBanks, countries, banks, h);
    banks' := banks[h := banks[h].(branches := Some(banks[h].branches.value + [bankItem.swiftCode]))];
    countries' := countries + [mapped.0];
    banks' := banks' + [bankItem];
  }

  /** Once every branch row is visited, the state is the output of `parseCSV`. */
  lemma {:induction false} BranchesDone(entries: seq<Entry>, headBanks: map<string, nat>, countries: seq<Country>, banks: seq<Bank>)
    requires Linkable(entries)
    requires var rows := HeadsFirst(entries);
      |Heads(entries)| <= |rows| && BranchPhase(rows, |Heads(entries)|, |rows|, headBanks, countries, banks)
    ensures IsCsvOutput(entries, countries, banks)
  {
  }

  /** The first `forEach`: every headquarters row, in order, recorded and registered under its prefix. */
  method RegisterHeads(headEntries: seq<Entry>, ghost rows: seq<Entry>)
    returns (headBanks: map<string, nat>, countries: seq<Country>, banks: seq<Bank>)
    requires Linkable(rows) && |headEntries| <= |rows|
    requires forall i :: 0 <= i < |headEntries| ==> headEntries[i] == rows[i] && IsHeadRow(rows[i])
    ensures HeadPhase(rows, |headEntries|, headBanks, countries, banks)
  {
    headBanks, countries, banks := map[], [], [];
    HeadsStart(rows);
    var i := 0;
    while i < |headEntries|
      invariant i <= |headEntries|
      invariant HeadPhase(rows, i, headBanks, countries, banks)
    {
      headBanks, countries, banks := VisitHead(headEntries[i], rows, i, headBanks, countries, banks);
      i := i + 1;
    }
  }

  /** The second `forEach`: every branch row, in order, linked and kept or skipped. */
  method LinkBranches(branchEntries: seq<Entry>, ghost rows: seq<Entry>, ghost nh: nat,
                      headBanks: map<string, nat>, countries0: seq<Country>, banks0: seq<Bank>)
    returns (countries: seq<Country>, banks: seq<Bank>)
    requires Linkable(rows) && nh + |branchEntries| == |rows|
    requires forall t :: 0 <= t < |branchEntries| ==> branchEntries[t] == rows[nh + t]
    requires forall k :: nh <= k < |rows| ==> !IsHeadRow(rows[k])
    requires BranchPhase(rows, nh, nh, headBanks, countries0, banks0)
    ensures BranchPhase(rows, nh, |rows|, headBanks, countries, banks)
  {
    countries, banks := countries0, banks0;
    var t := 0;
    ghost var n := nh;
    while t < |branchEntries|
      invariant t <= |branchEntries| && n == nh + t <= |rows|
      invariant BranchPhase(rows, nh, n, headBanks, countries, banks)
    {
      countries, banks := VisitBranch(branchEntries[t], rows, nh, n, headBanks, countries, banks);
      t, n := t + 1, n + 1;
    }
  }

  /** `parseCSV` over the already-read rows: headquarters first, then branches, each group in input order. */
  method ParseCsv(entries: seq<Entry>) returns (countries: seq<Country>, banks: seq<Bank>)
    requires Linkable(entries)
    ensures IsCsvOutput(entries, countries, banks)
  {
    var headEntries, branchEntries := Heads(entries), Branches(entries);
    ghost var rows := HeadsFirst(entries);
    assert rows == headEntries + branchEntries;
    forall t | 0 <= t < |branchEntries| ensures branchEntries[t] == rows[|headEntries| + t] {
    }
    HeadsFirstShape(entries);
    var headBanks;
    headBanks, countries, banks := RegisterHeads(headEntries, rows);
    HeadsDone(rows, |headEntries|, headBanks, countries, banks);
    countries, banks := LinkBranches(branchEntries, rows, |headEntries|, headBanks, countries, banks);
    BranchesDone(entries, headBanks, countries, banks);
  }

  // ---------------------------------------------------------------------
  // What the output promises
  // ---------------------------------------------------------------------

  /** A row is kept exactly when some occurrence of it among the branch rows finds a headquarters. */
  lemma {:induction false} KeptBranchesIff(rows: seq<Entry>, nh: nat, n: nat, e: Entry)
    requires Linkable(rows) && nh <= n <= |rows|
    ensures e in KeptBranches(rows, nh, n) <==> exists m :: nh <= m < n && rows[m] == e && Linked(rows, m)
  {
    if n > nh {
      KeptBranchesIff(rows, nh, n - 1, e);
    }
  }

  /** The kept branch at position `t` is a branch row after the headquarters that found one. */
  lemma {:induction false} KeptBranchAt(rows: seq<Entry>, nh: nat, n: nat, t: nat)
    requires Linkable(rows) && nh <= n <= |rows| && t < |KeptBranches(rows, nh, n)|
    ensures exists m :: nh <= m < n && rows[m] == KeptBranches(rows, nh, n)[t] && Linked(rows, m)
  {
    KeptBranchesIff(rows, nh, n, KeptBranches(rows, nh, n)[t]);
  }

  /** A kept row is an input branch whose prefix some input headquarters carries. */
  lemma {:induction false} KeptRowHasHead(entries: seq<Entry>, e: Entry)
    requires Linkable(entries) && e in Kept(entries)
    ensures e in entries && !IsHeadRow(e)
    ensures exists hq :: hq in entries && IsHeadRow(hq) && Prefix(hq.swiftCode) == Prefix(e.swiftCode)
  {
    var rows, nh := HeadsFirst(entries), |Heads(entries)|;
    KeptBranchesIff(rows, nh, |rows|, e);
    var m :| nh <= m < |rows| && rows[m] == e && Linked(rows, m);
    assert rows[m] in rows;
    HeadsFirstLinkedIff(entries, m);
  }

  /** An input branch whose prefix some input headquarters carries is kept. */
  lemma {:induction false} BranchWithHeadIsKept(entries: seq<Entry>, e: Entry, hq: Entry)
    requires Linkable(entries) && e in entries && !IsHeadRow(e)
    requires hq in entries && IsHeadRow(hq) && Prefix(hq.swiftCode) == Prefix(e.swiftCode)
    ensures e in Kept(entries)
  {
    var rows, nh := HeadsFirst(entries), |Heads(entries)|;
    HeadsFirstShape(entries);
    assert e in rows;
    var m :| 0 <= m < |rows| && rows[m] == e;
    HeadsFirstLinkedIff(entries, m);
    assert nh <= m;
    KeptBranchesIff(rows, nh, |rows|, e);
  }

  /**
   * A branch of the input is kept exactly when the input holds a
   * headquarters with its prefix; a kept row is always an input branch.
   */
  lemma {:induction false} BranchKeptIff(entries: seq<Entry>, e: Entry)
    requires Linkable(entries)
    ensures e in Kept(entries) <==>
      e in entries && !IsHeadRow(e)
      && exists hq :: hq in entries && IsHeadRow(hq) && Prefix(hq.swiftCode) == Prefix(e.swiftCode)
  {
    if e in Kept(entries) {
      KeptRowHasHead(entries, e);
    }
    if hq :| e in entries && !IsHeadRow(e) && hq in entries && IsHeadRow(hq) && Prefix(hq.swiftCode) == Prefix(e.swiftCode) {
      BranchWithHeadIsKept(entries, e, hq);
    }
  }

  /** Which rows are kept does not depend on the order of the input. */
  lemma {:induction false} KeptIgnoresOrder(entries: seq<Entry>, shuffled: seq<Entry>, e: Entry)
    requires Linkable(entries) && Linkable(shuffled) && multiset(entries) == multiset(shuffled)
    ensures e in Kept(entries) <==> e in Kept(shuffled)
  {
    forall x ensures x in entries <==> x in shuffled {
      assert x in entries <==> x in multiset(entries);
      assert x in shuffled <==> x in multiset(shuffled);
    }
    BranchKeptIff(entries, e);
    BranchKeptIff(shuffled, e);
  }

  /** Every headquarters row yields a headquarters record with a branch list. */
  lemma {:induction false} HeadRecordsAreHeads(entries: seq<Entry>, countries: seq<Country>, banks: seq<Bank>, j: nat)
    requires Linkable(entries) && IsCsvOutput(entries, countries, banks) && j < |Heads(entries)|
    ensures banks[j].headquarter && banks[j].branches.Some? && EndsWithXXX(banks[j].swiftCode)
    ensures banks[j].swiftCode == Heads(entries)[j].swiftCode
  {
    HeadsFirstShape(entries);
  }

  /** The kept row at position `t` is listed by a headquarters record among the first `nh`. */
  lemma {:induction false} KeptIsListed(rows: seq<Entry>, nh: nat, banks: seq<Bank>, t: nat)
    requires Linkable(rows) && nh <= |rows| && ItemsAt(rows, banks, nh, |rows|)
    requires forall k :: nh <= k < |rows| ==> !IsHeadRow(rows[k])
    requires t < |KeptBranches(rows, nh, |rows|)|
    ensures var e := KeptBranches(rows, nh, |rows|)[t];
      && |e.swiftCode| >= 8
      && exists h :: (0 <= h < nh && banks[h].headquarter && banks[h].branches.Some?
        && Prefix(banks[h].swiftCode) == Prefix(e.swiftCode) && e.swiftCode in banks[h].branches.value)
  {
    KeptBranchAt(rows, nh, |rows|, t);
    var m :| nh <= m < |rows| && rows[m] == KeptBranches(rows, nh, |rows|)[t] && Linked(rows, m);
    var h := HeadBefore(rows, m, Prefix(rows[m].swiftCode)).value;
    assert LinkedTo(rows, m, h);
    AttachedContains(rows, h, m, |rows|);
    ItemFields(rows, h, |rows|);
  }

  /**
   * Closure: every branch record in the output is listed by a headquarters
   * record in the output with the same prefix.
   */
  lemma {:induction false} OutputIsClosed(entries: seq<Entry>, countries: seq<Country>, banks: seq<Bank>, t: nat)
    requires Linkable(entries) && IsCsvOutput(entries, countries, banks)
    requires t < |Kept(entries)|
    ensures var b := banks[|Heads(entries)| + t];
      !b.headquarter && |b.swiftCode| >= 8
      && exists h :: (0 <= h < |Heads(entries)| && banks[h].headquarter && banks[h].branches.Some?
        && Prefix(banks[h].swiftCode) == Prefix(b.swiftCode) && b.swiftCode in banks[h].branches.value)
  {
    var rows, nh := HeadsFirst(entries), |Heads(entries)|;
    HeadsFirstShape(entries);
    assert ItemsAt(rows, banks, nh, |rows|);
    KeptIsListed(rows, nh, banks, t);
    assert banks[nh + t] == Record(Kept(entries)[t], false);
  }

  /** Every record is added together with a country carrying its country code. */
  lemma {:induction false} CountryOfEveryRecord(entries: seq<Entry>, countries: seq<Country>, banks: seq<Bank>, i: nat)
    requires Linkable(entries) && IsCsvOutput(entries, countries, banks) && i < |banks|
    ensures countries[i].countryISO2 == banks[i].countryISO2
  {
    var rows, nh := HeadsFirst(entries), |Heads(entries)|;
    if i >= nh {
      assert banks[nh + (i - nh)] == Record(Kept(entries)[i - nh], false);
    } else {
      assert banks[i] == Item(rows, i, |rows|) && countries[i] == CountryOf(rows[i]);
      ItemFields(rows, i, |rows|);
    }
  }

  /**
   * With two headquarters rows under one prefix, the map keeps the later:
   * the earlier one's list stays empty.
   */
  lemma {:induction false} EarlierDuplicateHeadListsNothing(entries: seq<Entry>, countries: seq<Country>, banks: seq<Bank>, i: nat, i2: nat)
    requires Linkable(entries) && IsCsvOutput(entries, countries, banks)
    requires i < i2 < |Heads(entries)|
    requires Prefix(Heads(entries)[i].swiftCode) == Prefix(Heads(entries)[i2].swiftCode)
    ensures banks[i].headquarter && banks[i].branches == Some([])
  {
    var rows, nh := HeadsFirst(entries), |Heads(entries)|;
    HeadsFirstShape(entries);
    ShadowedHeadListsNothing(rows, nh, i, i2);
    ItemFields(rows, i, |rows|);
  }

  /** A headquarters row followed by another with its prefix before any branch never gets a branch. */
  lemma {:induction false} ShadowedHeadListsNothing(rows: seq<Entry>, nh: nat, i: nat, i2: nat)
    requires Linkable(rows) && i < i2 < nh <= |rows|
    requires forall k :: 0 <= k < nh ==> IsHeadRow(rows[k])
    requires HeadAt(rows, i2, Prefix(rows[i].swiftCode))
    ensures Attached(rows, i, |rows|) == []
  {
    forall m | 0 <= m < |rows| ensures !LinkedTo(rows, m, i) {
      if LinkedTo(rows, m, i) {
        assert !IsHeadRow(rows[m]);
        assert HeadAt(rows, i2, Prefix(rows[m].swiftCode));
        assert false;
      }
    }
    NothingAttachedUnlessLinked(rows, i, |rows|);
  }
}
