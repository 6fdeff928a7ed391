/**
 * What the two bulk parsers compute, stated once over the sequence of rows
 * in the order a parser visits them. A parser keeps a map from the first
 * eight characters of a headquarters code to the headquarters record it
 * created last; a branch visited later looks its prefix up there and, if it
 * finds a headquarters, is appended to that record's branch list.
 */
module Linking {
  import opened Wrappers
  import opened Strings
  import opened Codes
  import opened Items

  /** Every row's code has the eight characters `substring(0, 8)` needs. */
  predicate Linkable(rows: seq<Entry>) {
    forall i :: 0 <= i < |rows| ==> |rows[i].swiftCode| >= 8
  }

  /** A row is a headquarters when its code ends in "XXX". */
  predicate IsHeadRow(e: Entry) {
    EndsWithXXX(e.swiftCode)
  }

  /** Row `i` is a headquarters registered under prefix `p`. */
  predicate HeadAt(rows: seq<Entry>, i: nat, p: string)
    requires Linkable(rows) && i < |rows|
  {
    IsHeadRow(rows[i]) && Prefix(rows[i].swiftCode) == p
  }

  /**
   * What the prefix map holds for `p` after the first `m` rows: the last
   * headquarters among them registered under `p` (a later `put` overwrites).
   */
  function HeadBefore(rows: seq<Entry>, m: nat, p: string): (r: Option<nat>)
    requires Linkable(rows) && m <= |rows|
    ensures r.Some? ==> r.value < m && HeadAt(rows, r.value, p)
    ensures r.Some? ==> forall i :: r.value < i < m ==> !HeadAt(rows, i, p)
    ensures r.None? ==> forall i :: 0 <= i < m ==> !HeadAt(rows, i, p)
  {
    if m == 0 then None
    else if HeadAt(rows, m - 1, p) then Some(m - 1)
    else HeadBefore(rows, m - 1, p)
  }

  /** Row `m` is a branch that finds the headquarters at row `h` when it is visited. */
  predicate LinkedTo(rows: seq<Entry>, m: nat, h: nat)
    requires Linkable(rows) && m < |rows|
  {
    !IsHeadRow(rows[m]) && HeadBefore(rows, m, Prefix(rows[m].swiftCode)) == Some(h)
  }

  /** Row `m` is a branch that finds some headquarters; otherwise a branch row is an orphan. */
  predicate Linked(rows: seq<Entry>, m: nat)
    requires Linkable(rows) && m < |rows|
  {
    !IsHeadRow(rows[m]) && HeadBefore(rows, m, Prefix(rows[m].swiftCode)).Some?
  }

  /** The codes appended to the list of the headquarters at row `h` while visiting the first `n` rows. */
  function Attached(rows: seq<Entry>, h: nat, n: nat): seq<string>
    requires Linkable(rows) && n <= |rows|
  {
    if n == 0 then []
    else Attached(rows, h, n - 1) + (if LinkedTo(rows, n - 1, h) then [rows[n - 1].swiftCode] else [])
  }

  /** Name and address are stored trimmed and upper-cased. */
  function Clean(s: string): (r: string)
    // never longer than the field, and with no lower-case letter left
    ensures |r| <= |s|
    ensures forall i :: 0 <= i < |r| ==> !IsLowerAscii(r[i])
  {
    TrimShape(s);
    ToUpperIdempotent(Trim(s));
    ToUpper(Trim(s))
  }

  /**
   * A cleaned field is the upper-cased middle of the original between its
   * blank ends.
   */
  lemma {:induction false} CleanShape(s: string)
    ensures var c, lead := Clean(s), |s| - |TrimStart(s)|;
      && 0 <= lead && lead + |c| <= |s| && c == ToUpper(s[lead..lead + |c|])
      && (forall i :: 0 <= i < lead ==> IsBlank(s[i]))
      && (forall i :: lead + |c| <= i < |s| ==> IsBlank(s[i]))
  {
    var t, lead := Trim(s), |s| - |TrimStart(s)|;
    TrimShape(s);
    ToUpperShape(t);
    assert |Clean(s)| == |t|;
    assert Clean(s) == ToUpper(s[lead..lead + |t|]);
  }

  /** A cleaned field has no lower-case letter and no blank end, so cleaning it again changes nothing. */
  lemma {:induction false} CleanIdempotent(s: string)
    ensures var c := Clean(s);
      && (c == [] || (!IsBlank(c[0]) && !IsBlank(c[|c| - 1])))
      && (forall i :: 0 <= i < |c| ==> !IsLowerAscii(c[i]))
      && Clean(c) == c
  {
    var t := Trim(s);
    var c := ToUpper(t);
    TrimShape(s);
    ToUpperShape(t);
    ToUpperIdempotent(t);
    if c != [] {
      assert c[0] == UpperChar(t[0]) && c[|c| - 1] == UpperChar(t[|t| - 1]);
    }
    TrimOfTrimmed(c);
  }

  /**
   * The record built for a row: code and country code copied, name and
   * address cleaned; a headquarters gets a fresh empty branch list, a branch
   * none.
   */
  function Record(e: Entry, headquarter: bool): (r: Bank)
    // the stored name and address are already in their cleaned form
    ensures Clean(r.name) == r.name && Clean(r.address) == r.address
    // only a headquarters has a list, and it starts empty
    ensures r.branches.Some? <==> r.headquarter
    ensures r.branches.Some? ==> r.branches.value == []
  {
    CleanIdempotent(e.name);
    CleanIdempotent(e.address);
    Bank(e.swiftCode, Clean(e.name), Clean(e.address), headquarter, e.countryISO2,
      if headquarter then Some([]) else None)
  }

  function CountryOf(e: Entry): Country {
    Country(e.countryISO2, e.countryName)
  }

  /** The record for row `j` after the first `n` rows were visited. */
  function Item(rows: seq<Entry>, j: nat, n: nat): Bank
    requires Linkable(rows) && j < |rows| && n <= |rows|
  {
    if IsHeadRow(rows[j]) then Record(rows[j], true).(branches := Some(Attached(rows, j, n)))
    else Record(rows[j], false)
  }

  /** The fields of a record: copied or cleaned from its row, flagged by the row's code. */
  lemma ItemFields(rows: seq<Entry>, j: nat, n: nat)
    requires Linkable(rows) && j < |rows| && n <= |rows|
    ensures var b := Item(rows, j, n);
      && b.swiftCode == rows[j].swiftCode && b.countryISO2 == rows[j].countryISO2
      && b.name == Clean(rows[j].name) && b.address == Clean(rows[j].address)
      && b.headquarter == IsHeadRow(rows[j]) && b.branches.Some? == IsHeadRow(rows[j])
      && (b.branches.Some? ==> b.branches.value == Attached(rows, j, n))
  {
  }

  // ---------------------------------------------------------------------
  // Lemmas about the branch lists
  // ---------------------------------------------------------------------

  /** A headquarters' list is empty until rows after it are visited. */
  lemma {:induction false} NothingAttachedYet(rows: seq<Entry>, h: nat, n: nat)
    requires Linkable(rows) && n <= |rows| && n <= h + 1
    ensures Attached(rows, h, n) == []
  {
    if n > 0 {
      NothingAttachedYet(rows, h, n - 1);
    }
  }

  /** A list stays empty while no visited row links to it. */
  lemma {:induction false} NothingAttachedUnlessLinked(rows: seq<Entry>, h: nat, n: nat)
    requires Linkable(rows) && n <= |rows|
    requires forall m :: 0 <= m < n ==> !LinkedTo(rows, m, h)
    ensures Attached(rows, h, n) == []
  {
    if n > 0 {
      NothingAttachedUnlessLinked(rows, h, n - 1);
    }
  }

  /** Every listed code comes from a later branch row that found this headquarters. */
  lemma {:induction false} AttachedFrom(rows: seq<Entry>, h: nat, n: nat, c: string)
    requires Linkable(rows) && n <= |rows|
    requires c in Attached(rows, h, n)
    ensures exists m :: h < m < n && LinkedTo(rows, m, h) && rows[m].swiftCode == c
  {
    if n > 0 {
      if c in Attached(rows, h, n - 1) {
        AttachedFrom(rows, h, n - 1, c);
      } else {
        assert LinkedTo(rows, n - 1, h) && rows[n - 1].swiftCode == c;
      }
    }
  }

  /** A branch row that found this headquarters is listed once visited. */
  lemma {:induction false} AttachedContains(rows: seq<Entry>, h: nat, m: nat, n: nat)
    requires Linkable(rows) && m < n <= |rows|
    requires LinkedTo(rows, m, h)
    ensures rows[m].swiftCode in Attached(rows, h, n)
  {
    if m < n - 1 {
      AttachedContains(rows, h, m, n - 1);
    }
  }

  /** Every listed code is a branch code with the headquarters' own prefix. */
  lemma AttachedSharePrefix(rows: seq<Entry>, h: nat, n: nat, c: string)
    requires Linkable(rows) && n <= |rows| && h < |rows|
    requires c in Attached(rows, h, n)
    ensures |c| >= 8 && Prefix(c) == Prefix(rows[h].swiftCode) && !EndsWithXXX(c)
  {
    AttachedFrom(rows, h, n, c);
  }

  /** The prefix map itself after the first `m` rows: each headquarters `put` under its prefix in turn. */
  function HeadMap(rows: seq<Entry>, m: nat): map<string, nat>
    requires Linkable(rows) && m <= |rows|
  {
    if m == 0 then map[]
    else if IsHeadRow(rows[m - 1]) then HeadMap(rows, m - 1)[Prefix(rows[m - 1].swiftCode) := m - 1]
    else HeadMap(rows, m - 1)
  }

  /** The map holds exactly what `HeadBefore` says: the last headquarters under each prefix. */
  lemma {:induction false} HeadMapAgrees(rows: seq<Entry>, m: nat, p: string)
    requires Linkable(rows) && m <= |rows|
    ensures p in HeadMap(rows, m) <==> HeadBefore(rows, m, p).Some?
    ensures p in HeadMap(rows, m) ==> HeadBefore(rows, m, p) == Some(HeadMap(rows, m)[p])
  {
    if m > 0 {
      HeadMapAgrees(rows, m - 1, p);
    }
  }

  /** Visiting row `n` leaves the record of an earlier row alone unless row `n` links to it. */
  lemma {:induction false} ItemUnchanged(rows: seq<Entry>, j: nat, n: nat)
    requires Linkable(rows) && j < n < |rows| && !LinkedTo(rows, n, j)
    ensures Item(rows, j, n + 1) == Item(rows, j, n)
  {
    assert Attached(rows, j, n + 1) == Attached(rows, j, n);
    if IsHeadRow(rows[j]) {
      assert Item(rows, j, n + 1) == Record(rows[j], true).(branches := Some(Attached(rows, j, n + 1)));
    }
  }

  /** A branch row that finds the headquarters at row `j` is appended to its list. */
  lemma {:induction false} ItemExtended(rows: seq<Entry>, j: nat, n: nat)
    requires Linkable(rows) && j < n < |rows| && LinkedTo(rows, n, j)
    ensures IsHeadRow(rows[j])
    ensures Item(rows, j, n + 1) == Item(rows, j, n).(branches := Some(Attached(rows, j, n) + [rows[n].swiftCode]))
  {
    assert HeadAt(rows, j, Prefix(rows[n].swiftCode));
  }

  /** The first `k` records are those of the first `k` rows after `n` rows were visited. */
  predicate ItemsAt(rows: seq<Entry>, banks: seq<Bank>, k: nat, n: nat)
    requires Linkable(rows) && k <= n <= |rows|
  {
    k <= |banks| && forall j :: 0 <= j < k ==> banks[j] == Item(rows, j, n)
  }

  /** Visiting a row that finds no headquarters among the first `k` leaves their records as they are. */
  lemma {:induction false} NoAttach(rows: seq<Entry>, banks: seq<Bank>, k: nat, n: nat)
    requires Linkable(rows) && k <= n < |rows| && ItemsAt(rows, banks, k, n)
    requires forall j :: 0 <= j < k ==> !LinkedTo(rows, n, j)
    ensures ItemsAt(rows, banks, k, n + 1)
  {
    forall j | 0 <= j < k ensures banks[j] == Item(rows, j, n + 1) {
      ItemUnchanged(rows, j, n);
    }
  }

  /** Visiting a branch that finds the headquarters at row `h` appends its code to that record. */
  lemma {:induction false} Attach(rows: seq<Entry>, banks: seq<Bank>, k: nat, n: nat, h: nat)
    requires Linkable(rows) && k <= n < |rows| && ItemsAt(rows, banks, k, n)
    requires h < k && LinkedTo(rows, n, h)
    ensures banks[h].branches.Some?
    ensures ItemsAt(rows, banks[h := banks[h].(branches := Some(banks[h].branches.value + [rows[n].swiftCode]))], k, n + 1)
  {
    ItemExtended(rows, h, n);
    var banks' := banks[h := banks[h].(branches := Some(banks[h].branches.value + [rows[n].swiftCode]))];
    forall j | 0 <= j < k ensures banks'[j] == Item(rows, j, n + 1) {
      if j != h {
        ItemUnchanged(rows, j, n);
      }
    }
  }

  /** Appending the plain record of row `n` after `n` records. */
  lemma {:induction false} AppendFresh(rows: seq<Entry>, banks: seq<Bank>, n: nat)
    requires Linkable(rows) && n < |rows| && |banks| == n && ItemsAt(rows, banks, n, n + 1)
    ensures ItemsAt(rows, banks + [Record(rows[n], IsHeadRow(rows[n]))], n + 1, n + 1)
  {
    ItemFresh(rows, n);
  }

  /** The record of a row just visited is the plain record: nothing can have found it yet. */
  lemma {:induction false} ItemFresh(rows: seq<Entry>, n: nat)
    requires Linkable(rows) && n < |rows|
    ensures Item(rows, n, n + 1) == Record(rows[n], IsHeadRow(rows[n]))
  {
    NothingAttachedYet(rows, n, n + 1);
  }

  // ---------------------------------------------------------------------
  // The parsers' output, stated as a relation
  // ---------------------------------------------------------------------

  /**
   * `banks` and `countries` are what a single pass over `rows` that keeps
   * every row yields: one record and one country per row, in visiting order.
   */
  predicate IsPassOutput(rows: seq<Entry>, countries: seq<Country>, banks: seq<Bank>)
    requires Linkable(rows)
  {
    && |banks| == |rows| && |countries| == |rows|
    && (forall j :: 0 <= j < |rows| ==> banks[j] == Item(rows, j, |rows|))
    && (forall j :: 0 <= j < |rows| ==> countries[j] == CountryOf(rows[j]))
  }

  /**
   * In the output of a pass, a branch row that found a headquarters is listed
   * by that headquarters' record, which is the last headquarters with its
   * prefix visited before it.
   */
  lemma LinkedBranchIsListed(rows: seq<Entry>, countries: seq<Country>, banks: seq<Bank>, m: nat)
    requires Linkable(rows) && IsPassOutput(rows, countries, banks)
    requires m < |rows| && Linked(rows, m)
    ensures var h := HeadBefore(rows, m, Prefix(rows[m].swiftCode)).value;
      h < m && banks[h].headquarter && banks[h].branches.Some?
      && Prefix(banks[h].swiftCode) == Prefix(rows[m].swiftCode)
      && rows[m].swiftCode in banks[h].branches.value
  {
    var h := HeadBefore(rows, m, Prefix(rows[m].swiftCode)).value;
    AttachedContains(rows, h, m, |rows|);
  }

  // ---------------------------------------------------------------------
  // Partitioning rows into headquarters and branches, order kept
  // ---------------------------------------------------------------------

  /** The headquarters rows, in input order. */
  function Heads(es: seq<Entry>): (r: seq<Entry>)
    ensures |r| <= |es|
    ensures forall e :: e in r <==> e in es && IsHeadRow(e)
    ensures Linkable(es) ==> Linkable(r)
  {
    if es == [] then [] else (if IsHeadRow(es[0]) then [es[0]] else []) + Heads(es[1..])
  }

  /** The branch rows, in input order. */
  function Branches(es: seq<Entry>): (r: seq<Entry>)
    ensures |r| <= |es|
    ensures forall e :: e in r <==> e in es && !IsHeadRow(e)
    ensures Linkable(es) ==> Linkable(r)
  {
    if es == [] then [] else (if IsHeadRow(es[0]) then [] else [es[0]]) + Branches(es[1..])
  }

  /** The rows with every headquarters moved before every branch. */
  function HeadsFirst(es: seq<Entry>): (r: seq<Entry>)
    ensures forall e :: e in r <==> e in es
    ensures Linkable(es) ==> Linkable(r)
  {
    var hs, bs := Heads(es), Branches(es);
    assert forall i :: |hs| <= i < |hs| + |bs| ==> (hs + bs)[i] == bs[i - |hs|];
    hs + bs
  }

  /** Partitioning loses and invents no row. */
  lemma {:induction false} HeadsFirstIsPermutation(es: seq<Entry>)
    ensures multiset(HeadsFirst(es)) == multiset(es)
  {
    if es != [] {
      HeadsFirstIsPermutation(es[1..]);
      assert es == [es[0]] + es[1..];
    }
  }

  /** Past the headquarters, the prefix map no longer changes. */
  lemma {:induction false} HeadBeforeSettled(rows: seq<Entry>, nh: nat, n: nat, p: string)
    requires Linkable(rows) && nh <= n <= |rows|
    requires forall i :: nh <= i < |rows| ==> !IsHeadRow(rows[i])
    ensures HeadBefore(rows, n, p) == HeadBefore(rows, nh, p)
  {
    if n > nh {
      HeadBeforeSettled(rows, nh, n - 1, p);
    }
  }

  /** In the partitioned rows the first `|Heads(es)|` are the headquarters, the rest the branches. */
  lemma HeadsFirstShape(es: seq<Entry>)
    ensures var rows, nh := HeadsFirst(es), |Heads(es)|;
      && nh <= |rows|
      && (forall i :: 0 <= i < nh ==> rows[i] == Heads(es)[i] && IsHeadRow(rows[i]))
      && (forall i :: nh <= i < |rows| ==> !IsHeadRow(rows[i]))
  {
    var hs, bs := Heads(es), Branches(es);
    forall i | 0 <= i < |hs| ensures (hs + bs)[i] == hs[i] && IsHeadRow(hs[i]) {
      assert hs[i] in hs;
    }
    forall i | |hs| <= i < |hs| + |bs| ensures !IsHeadRow((hs + bs)[i]) {
      assert (hs + bs)[i] == bs[i - |hs|] && bs[i - |hs|] in bs;
    }
  }

  /**
   * With every headquarters visited first, a branch finds a headquarters
   * exactly when some row of the input is a headquarters with its prefix.
   */
  lemma HeadsFirstLinkedIff(es: seq<Entry>, m: nat)
    requires Linkable(es)
    requires m < |HeadsFirst(es)| && !IsHeadRow(HeadsFirst(es)[m])
    ensures var rows := HeadsFirst(es);
      Linked(rows, m) <==>
        exists e :: e in es && IsHeadRow(e) && Prefix(e.swiftCode) == Prefix(rows[m].swiftCode)
  {
    var rows, nh := HeadsFirst(es), |Heads(es)|;
    var p := Prefix(rows[m].swiftCode);
    HeadsFirstShape(es);
    assert nh <= m;
    HeadBeforeSettled(rows, nh, m, p);
    if e :| e in es && IsHeadRow(e) && Prefix(e.swiftCode) == p {
      assert e in Heads(es);
      var i :| 0 <= i < nh && Heads(es)[i] == e;
      assert HeadAt(rows, i, p);
    }
    if Linked(rows, m) {
      var i := HeadBefore(rows, m, p).value;
      assert rows[i] in rows;
    }
  }
}
