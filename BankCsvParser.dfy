/**
 * `BankCSVParser.parseEntries`: the rows are sorted by the last three
 * characters of their code, descending, with a stable sort; then one pass
 * registers each headquarters under its prefix, appends each branch to the
 * headquarters registered under its prefix so far, and keeps every row,
 * orphans included.
 */
module BankCsvParser {
  import opened Wrappers
  import opened Codes
  import opened Items
  import opened Linking

  // ---------------------------------------------------------------------
  // The sort
  // ---------------------------------------------------------------------

  /** `String.compareTo(a, b) > 0` for two three-character strings: lexicographic order by character. */
  predicate SuffixAbove(a: string, b: string)
    // only three-character suffixes compare, and the first character leads
    ensures SuffixAbove(a, b) ==> |a| == 3 && |b| == 3 && a[0] >= b[0]
  {
    && |a| == 3 && |b| == 3
    && (a[0] > b[0] || (a[0] == b[0] && (a[1] > b[1] || (a[1] == b[1] && a[2] > b[2]))))
  }

  /** `compareTo` on suffixes: the first position where the two differ decides. */
  lemma SuffixAboveIff(a: string, b: string)
    ensures SuffixAbove(a, b) <==> |a| == 3 && |b| == 3 && exists k :: 0 <= k < 3 && a[..k] == b[..k] && a[k] > b[k]
  {
  }

  /** The sort key of a row. */
  function Key(e: Entry): (r: string)
    // a headquarters row is exactly one whose key is "XXX"
    ensures EndsWithXXX(e.swiftCode) <==> r == HeadMarker
  {
    if |e.swiftCode| >= 3 then Suffix(e.swiftCode) else e.swiftCode
  }

  /** The key is the last three characters of the code, or all of a shorter one. */
  lemma KeyShape(e: Entry)
    ensures |Key(e)| == if |e.swiftCode| >= 3 then 3 else |e.swiftCode|
    ensures e.swiftCode == e.swiftCode[..|e.swiftCode| - |Key(e)|] + Key(e)
  {
  }

  /** Row `b` may follow row `a`: its key is not above `a`'s. */
  predicate NotAbove(b: Entry, a: Entry) {
    !SuffixAbove(Key(b), Key(a))
  }

  /** No row's key is above the key of a row before it. */
  predicate SortedDesc(rows: seq<Entry>) {
    forall i, j {:trigger NotAbove(rows[j], rows[i])} :: 0 <= i < j < |rows| ==> NotAbove(rows[j], rows[i])
  }

  /** Places `x` after every row whose key is not below its own. */
  function InsertDesc(x: Entry, s: seq<Entry>): (r: seq<Entry>)
    ensures |r| == |s| + 1 && multiset(r) == multiset(s) + multiset{x}
  {
    if s == [] then [x]
    else if SuffixAbove(Key(x), Key(s[0])) then [x] + s
    else
      assert s == [s[0]] + s[1..];
      [s[0]] + InsertDesc(x, s[1..])
  }

  /** The sort's output is in descending key order, whatever the input. */
  lemma {:induction false} SortedDescAnyRows(rows: seq<Entry>)
    ensures SortedDesc(SortBySuffixDesc(rows))
  {
    if rows != [] {
      var init := rows[..|rows| - 1];
      SortedDescAnyRows(init);
      InsertDescSorted(rows[|rows| - 1], SortBySuffixDesc(init));
    }
  }

  /** Inserting a row with an eight-character code keeps every code long enough for `substring(0, 8)`. */
  lemma {:induction false} InsertDescLinkable(x: Entry, s: seq<Entry>)
    ensures |x.swiftCode| >= 8 && Linkable(s) ==> Linkable(InsertDesc(x, s))
  {
    if |x.swiftCode| >= 8 && Linkable(s) {
      var r := InsertDesc(x, s);
      forall i | 0 <= i < |r| ensures |r[i].swiftCode| >= 8 {
        assert r[i] in multiset(s) + multiset{x};
      }
    }
  }

  /** A key not above `b`'s is below any key above `b`'s. */
  lemma {:induction false} NotAboveBelow(c: Entry, b: Entry, a: Entry)
    requires NotAbove(c, b) && SuffixAbove(Key(a), Key(b))
    ensures NotAbove(c, a)
  {
  }

  /** Inserting into a descending sequence keeps it descending. */
  lemma {:induction false} InsertDescSorted(x: Entry, s: seq<Entry>)
    requires SortedDesc(s)
    ensures SortedDesc(InsertDesc(x, s))
  {
    if s == [] {
    } else if SuffixAbove(Key(x), Key(s[0])) {
      InsertInFrontSorted(x, s);
    } else {
      SortedDescTail(s);
      InsertDescSorted(x, s[1..]);
      InsertBehindHeadSorted(x, s);
    }
  }

  /** A row whose key is above the first key goes in front and keeps the order. */
  lemma {:induction false} InsertInFrontSorted(x: Entry, s: seq<Entry>)
    requires SortedDesc(s) && s != [] && SuffixAbove(Key(x), Key(s[0]))
    ensures SortedDesc(InsertDesc(x, s))
  {
    var r := InsertDesc(x, s);
    assert r == [x] + s;
    forall i, j | 0 <= i < j < |r| ensures NotAbove(r[j], r[i]) {
      if i == 0 {
        if j > 1 {
          assert NotAbove(s[j - 1], s[0]);
          NotAboveBelow(s[j - 1], s[0], x);
        }
      } else {
        assert NotAbove(s[j - 1], s[i - 1]);
      }
    }
  }

  /** A row going behind the first one keeps the order when its insertion into the rest does. */
  lemma {:induction false} InsertBehindHeadSorted(x: Entry, s: seq<Entry>)
    requires SortedDesc(s) && s != [] && !SuffixAbove(Key(x), Key(s[0]))
    requires SortedDesc(InsertDesc(x, s[1..]))
    ensures SortedDesc(InsertDesc(x, s))
  {
    var r, t := InsertDesc(x, s), s[1..];
    var rest := InsertDesc(x, t);
    assert r == [s[0]] + rest;
    forall i, j | 0 <= i < j < |r| ensures NotAbove(r[j], r[i]) {
      if i == 0 {
        assert r[j] == rest[j - 1];
        assert rest[j - 1] in multiset(t) + multiset{x};
        if rest[j - 1] != x {
          assert rest[j - 1] in multiset(t);
          var k :| 0 <= k < |t| && t[k] == rest[j - 1];
          assert NotAbove(s[k + 1], s[0]);
        }
      } else {
        assert NotAbove(rest[j - 1], rest[i - 1]);
      }
    }
  }

  /** The stable descending sort of `parseEntries`, as insertion of each row in input order. */
  function SortBySuffixDesc(rows: seq<Entry>): (r: seq<Entry>)
    ensures |r| == |rows| && multiset(r) == multiset(rows)
    ensures Linkable(rows) ==> Linkable(r)
  {
    if rows == [] then []
    else
      var init := rows[..|rows| - 1];
      assert rows == init + [rows[|rows| - 1]];
      InsertDescLinkable(rows[|rows| - 1], SortBySuffixDesc(init));
      InsertDesc(rows[|rows| - 1], SortBySuffixDesc(init))
  }

  /** The rows whose key is `k`, in order. */
  function WithKey(rows: seq<Entry>, k: string): seq<Entry> {
    if rows == [] then [] else (if Key(rows[0]) == k then [rows[0]] else []) + WithKey(rows[1..], k)
  }

  /** `WithKey` distributes over concatenation. */
  lemma {:induction false} WithKeyAppend(a: seq<Entry>, b: seq<Entry>, k: string)
    ensures WithKey(a + b, k) == WithKey(a, k) + WithKey(b, k)
  {
    if a == [] {
      assert a + b == b;
    } else {
      var t := a[1..];
      assert a == [a[0]] + t && a + b == [a[0]] + (t + b);
      WithKeyCons(a[0], t + b, k);
      WithKeyCons(a[0], t, k);
      WithKeyAppend(t, b, k);
    }
  }

  /** No row with key `k`, nothing selected. */
  lemma {:induction false} WithKeyNone(rows: seq<Entry>, k: string)
    requires forall i :: 0 <= i < |rows| ==> Key(rows[i]) != k
    ensures WithKey(rows, k) == []
  {
    if rows != [] {
      WithKeyNone(rows[1..], k);
    }
  }

  /** In a descending sequence, a key above the first one is nowhere. */
  lemma {:induction false} KeyAboveFirstAbsent(s: seq<Entry>, k: string)
    requires s != [] && SortedDesc(s) && SuffixAbove(k, Key(s[0]))
    ensures WithKey(s, k) == []
  {
    forall i | 0 <= i < |s| ensures Key(s[i]) != k {
      if i > 0 {
        assert NotAbove(s[i], s[0]);
      }
    }
    WithKeyNone(s, k);
  }

  /** `WithKey` of one row followed by more. */
  lemma {:induction false} WithKeyCons(e: Entry, t: seq<Entry>, k: string)
    ensures WithKey([e] + t, k) == (if Key(e) == k then [e] else []) + WithKey(t, k)
  {
    assert ([e] + t)[0] == e && ([e] + t)[1..] == t;
  }

  /** The tail of a descending sequence is descending. */
  lemma {:induction false} SortedDescTail(s: seq<Entry>)
    requires s != [] && SortedDesc(s)
    ensures SortedDesc(s[1..])
  {
    var t := s[1..];
    forall i, j | 0 <= i < j < |t| ensures NotAbove(t[j], t[i]) {
      assert NotAbove(s[j + 1], s[i + 1]);
    }
  }

  /** Inserting into a descending sequence adds `x` after every row with its key. */
  lemma {:induction false} InsertKeepsOrderOfEquals(x: Entry, s: seq<Entry>, k: string)
    requires SortedDesc(s)
    ensures WithKey(InsertDesc(x, s), k) == WithKey(s, k) + (if Key(x) == k then [x] else [])
  {
    if s == [] {
      WithKeyCons(x, [], k);
    } else if SuffixAbove(Key(x), Key(s[0])) {
      WithKeyCons(x, s, k);
      if Key(x) == k {
        KeyAboveFirstAbsent(s, k);
      }
    } else {
      SortedDescTail(s);
      InsertKeepsOrderOfEquals(x, s[1..], k);
      InsertBehindFirst(x, s, k);
    }
  }

  /** The step case: `x` goes behind the first row, so that row comes first in both. */
  lemma {:induction false} InsertBehindFirst(x: Entry, s: seq<Entry>, k: string)
    requires s != [] && !SuffixAbove(Key(x), Key(s[0]))
    requires WithKey(InsertDesc(x, s[1..]), k) == WithKey(s[1..], k) + (if Key(x) == k then [x] else [])
    ensures WithKey(InsertDesc(x, s), k) == WithKey(s, k) + (if Key(x) == k then [x] else [])
  {
    InsertDescBehind(x, s);
    WithKeyBehindFirst(s, InsertDesc(x, s[1..]), if Key(x) == k then [x] else [], k);
  }

  /** Putting the first row of `s` in front of rows that select like `s[1..]` plus `tail`. */
  lemma {:induction false} WithKeyBehindFirst(s: seq<Entry>, rest: seq<Entry>, tail: seq<Entry>, k: string)
    requires s != [] && WithKey(rest, k) == WithKey(s[1..], k) + tail
    ensures WithKey([s[0]] + rest, k) == WithKey(s, k) + tail
  {
    var h, t := s[0], s[1..];
    assert s == [h] + t;
    WithKeyCons(h, rest, k);
    WithKeyCons(h, t, k);
  }

  /** A row whose key is not below `x`'s stays in front of it. */
  lemma InsertDescBehind(x: Entry, s: seq<Entry>)
    requires s != [] && !SuffixAbove(Key(x), Key(s[0]))
    ensures InsertDesc(x, s) == [s[0]] + InsertDesc(x, s[1..])
  {
  }

  /** One step of the sort: the last row inserted into the sorted rows before it. */
  lemma {:induction false} SortStep(rows: seq<Entry>)
    requires rows != []
    ensures SortBySuffixDesc(rows) == InsertDesc(rows[|rows| - 1], SortBySuffixDesc(rows[..|rows| - 1]))
  {
  }

  /** `WithKey` of rows ending in one more row. */
  lemma {:induction false} WithKeySnoc(rows: seq<Entry>, k: string)
    requires rows != []
    ensures var last := rows[|rows| - 1];
      WithKey(rows, k) == WithKey(rows[..|rows| - 1], k) + (if Key(last) == k then [last] else [])
  {
    var init, last := rows[..|rows| - 1], rows[|rows| - 1];
    assert rows == init + [last];
    WithKeyAppend(init, [last], k);
    WithKeyCons(last, [], k);
    assert [last] + [] == [last];
  }

  /** The sort is stable: rows with equal keys keep their input order. */
  lemma {:induction false} SortIsStable(rows: seq<Entry>, k: string)
    ensures WithKey(SortBySuffixDesc(rows), k) == WithKey(rows, k)
  {
    if rows != [] {
      var init, last := rows[..|rows| - 1], rows[|rows| - 1];
      SortStep(rows);
      SortIsStable(init, k);
      SortedDescAnyRows(init);
      InsertKeepsOrderOfEquals(last, SortBySuffixDesc(init), k);
      WithKeySnoc(rows, k);
    }
  }

  // ---------------------------------------------------------------------
  // The pass
  // ---------------------------------------------------------------------

  /**
   * The body of the `forEach` lambda for row `n`. `headBanks` maps a prefix
   * to the position of the headquarters record in `banks`. The record in the
   * map and the one added to the output are built separately from one
   * builder, but they share its branch list, so appending through the map
   * changes the output.
   */
  method VisitEntry(rows: seq<Entry>, n: nat, headBanks: map<string, nat>, banks: seq<Bank>)
    returns (headBanks': map<string, nat>, banks': seq<Bank>)
    requires Linkable(rows) && n < |rows|
    requires |banks| == n && ItemsAt(rows, banks, n, n) && headBanks == HeadMap(rows, n)
    ensures |banks'| == n + 1 && ItemsAt(rows, banks', n + 1, n + 1) && headBanks' == HeadMap(rows, n + 1)
  {
    var entry := rows[n];
    var swiftInit := Prefix(entry.swiftCode);
    HeadMapAgrees(rows, n, swiftInit);
    headBanks', banks' := headBanks, banks;
    if EndsWithXXX(entry.swiftCode) {
      NoAttach(rows, banks', n, n);
      headBanks' := headBanks'[swiftInit := n];
    } else if swiftInit in headBanks' {
      var h := headBanks'[swiftInit];
      Attach(rows, banks', n, n, h);
      banks' := banks'[h := banks'[h].(branches := Some(banks'[h].branches.value + [entry.swiftCode]))];
    } else {
      NoAttach(rows, banks', n, n);
    }
    AppendFresh(rows, banks', n);
    banks' := banks' + [Record(entry, EndsWithXXX(entry.swiftCode))];
  }

  /** The `forEach` over rows already in visiting order; every row is kept. */
  method LinkRows(rows: seq<Entry>) returns (countries: seq<Country>, banks: seq<Bank>)
    requires Linkable(rows)
    ensures IsPassOutput(rows, countries, banks)
  {
    var headBanks: map<string, nat> := map[];
    countries, banks := [], [];
    var n := 0;
    while n < |rows|
      invariant n <= |rows| && |banks| == n && |countries| == n
      invariant ItemsAt(rows, banks, n, n)
      invariant forall j :: 0 <= j < n ==> countries[j] == CountryOf(rows[j])
      invariant headBanks == HeadMap(rows, n)
    {
      headBanks, banks := VisitEntry(rows, n, headBanks, banks);
      countries := countries + [CountryOf(rows[n])];
      n := n + 1;
    }
  }

  /** `parseEntries` as written: sort by suffix, descending, then one pass. */
  method ParseEntries(entries: seq<Entry>) returns (countries: seq<Country>, banks: seq<Bank>)
    requires Linkable(entries)
    ensures IsPassOutput(SortBySuffixDesc(entries), countries, banks)
  {
    var rows := SortBySuffixDesc(entries);
    countries, banks := LinkRows(rows);
  }

  /**
   * The evidently intended order: every headquarters before every branch,
   * each group in input order; then the same pass.
   */
  method ParseEntriesHeadsFirst(entries: seq<Entry>) returns (countries: seq<Country>, banks: seq<Bank>)
    requires Linkable(entries)
    ensures IsPassOutput(HeadsFirst(entries), countries, banks)
  {
    var rows := HeadsFirst(entries);
    countries, banks := LinkRows(rows);
  }

  // ---------------------------------------------------------------------
  // What the output promises
  // ---------------------------------------------------------------------

  /** Orphans are kept: every input row yields one record and one country. */
  lemma {:induction false} EveryRowKept(entries: seq<Entry>, countries: seq<Country>, banks: seq<Bank>, i: nat)
    requires Linkable(entries) && IsPassOutput(SortBySuffixDesc(entries), countries, banks)
    requires i < |entries|
    ensures |banks| == |entries| && |countries| == |entries|
    ensures exists j :: (0 <= j < |banks|
      && banks[j].swiftCode == entries[i].swiftCode
      && banks[j].headquarter == IsHeadRow(entries[i])
      && countries[j] == CountryOf(entries[i]))
  {
    var rows := SortBySuffixDesc(entries);
    assert entries[i] in multiset(rows);
    var j :| 0 <= j < |rows| && rows[j] == entries[i];
    assert banks[j] == Item(rows, j, |rows|);
  }

  /** Only rows whose suffix is not above "XXX" can be listed by a headquarters. */
  lemma {:induction false} ListedCodesNotAboveXXX(entries: seq<Entry>, countries: seq<Country>, banks: seq<Bank>, h: nat, c: string)
    requires Linkable(entries) && IsPassOutput(SortBySuffixDesc(entries), countries, banks)
    requires h < |banks| && banks[h].branches.Some? && c in banks[h].branches.value
    ensures |c| >= 3 && !SuffixAbove(Suffix(c), HeadMarker)
  {
    var rows := SortBySuffixDesc(entries);
    assert banks[h] == Item(rows, h, |rows|);
    assert IsHeadRow(rows[h]);
    assert c in Attached(rows, h, |rows|);
    AttachedFrom(rows, h, |rows|, c);
    var m :| h < m < |rows| && LinkedTo(rows, m, h) && rows[m].swiftCode == c;
    SortedDescAnyRows(entries);
    assert NotAbove(rows[m], rows[h]);
    assert Key(rows[h]) == HeadMarker;
  }

  /**
   * So a branch whose suffix is above "XXX" is never listed, even when its
   * headquarters is among the rows: it is visited before the headquarters.
   */
  lemma {:induction false} HighSuffixBranchIsOrphan(entries: seq<Entry>, countries: seq<Country>, banks: seq<Bank>, b: Entry)
    requires Linkable(entries) && IsPassOutput(SortBySuffixDesc(entries), countries, banks)
    requires b in entries && SuffixAbove(Key(b), HeadMarker)
    ensures forall h :: 0 <= h < |banks| && banks[h].branches.Some? ==> b.swiftCode !in banks[h].branches.value
  {
    forall h | 0 <= h < |banks| && banks[h].branches.Some?
      ensures b.swiftCode !in banks[h].branches.value
    {
      if b.swiftCode in banks[h].branches.value {
        ListedCodesNotAboveXXX(entries, countries, banks, h, b.swiftCode);
        assert false;
      }
    }
  }

  /**
   * A concrete case: a headquarters and its branch "ABCDEFGHZZZ". The branch
   * sorts first, finds no headquarters, and the headquarters' list stays empty.
   */
  lemma {:induction false} ZzzBranchNotLinked(countries: seq<Country>, banks: seq<Bank>)
    requires var es := [Entry("ABCDEFGHXXX", "bank", "street", "POLAND", "PL"),
                        Entry("ABCDEFGHZZZ", "bank", "street", "POLAND", "PL")];
      Linkable(es) && IsPassOutput(SortBySuffixDesc(es), countries, banks)
    ensures |banks| == 2
    ensures banks[1].swiftCode == "ABCDEFGHXXX" && banks[1].headquarter && banks[1].branches == Some([])
    ensures banks[0].swiftCode == "ABCDEFGHZZZ" && !banks[0].headquarter
  {
    var head := Entry("ABCDEFGHXXX", "bank", "street", "POLAND", "PL");
    var branch := Entry("ABCDEFGHZZZ", "bank", "street", "POLAND", "PL");
    assert Key(head) == "XXX" && Key(branch) == "ZZZ";
    assert IsHeadRow(head) && !IsHeadRow(branch);
    SortedPairOrphan(head, branch, countries, banks);
  }

  /**
   * A headquarters and a branch whose suffix sorts above "XXX": the branch is
   * visited first and finds nothing, and the headquarters' list stays empty.
   */
  lemma {:induction false} SortedPairOrphan(head: Entry, branch: Entry, countries: seq<Country>, banks: seq<Bank>)
    requires |head.swiftCode| >= 8 && |branch.swiftCode| >= 8 && Linkable([head, branch])
    requires IsHeadRow(head) && !IsHeadRow(branch) && SuffixAbove(Key(branch), Key(head))
    requires IsPassOutput(SortBySuffixDesc([head, branch]), countries, banks)
    ensures |banks| == 2
    ensures banks[1].swiftCode == head.swiftCode && banks[1].headquarter && banks[1].branches == Some([])
    ensures banks[0].swiftCode == branch.swiftCode && !banks[0].headquarter
  {
    SortPairOrder(head, branch);
    var rows := SortBySuffixDesc([head, branch]);
    BranchFirstOrphan(rows);
    assert banks[1] == Item(rows, 1, 2) && banks[0] == Item(rows, 0, 2);
  }

  /** Two rows, the second's suffix above the first's: sorting swaps them. */
  lemma {:induction false} SortPairOrder(a: Entry, b: Entry)
    requires SuffixAbove(Key(b), Key(a))
    ensures SortBySuffixDesc([a, b]) == [b, a]
  {
    var es := [a, b];
    assert SortBySuffixDesc([a]) == [a];
    assert es[..1] == [a];
  }

  /** A branch visited before the only headquarters finds nothing, and the headquarters lists nothing. */
  lemma {:induction false} BranchFirstOrphan(rows: seq<Entry>)
    requires Linkable(rows) && |rows| == 2 && !IsHeadRow(rows[0]) && IsHeadRow(rows[1])
    ensures Item(rows, 1, 2).swiftCode == rows[1].swiftCode && Item(rows, 1, 2).headquarter
    ensures Item(rows, 1, 2).branches == Some([])
    ensures Item(rows, 0, 2).swiftCode == rows[0].swiftCode && !Item(rows, 0, 2).headquarter
  {
    assert HeadBefore(rows, 0, Prefix(rows[0].swiftCode)) == None;
    assert !LinkedTo(rows, 0, 1) && !LinkedTo(rows, 1, 1);
    NothingAttachedUnlessLinked(rows, 1, 2);
  }

  /** The same rows in heads-first order: the branch is listed by its headquarters. */
  lemma {:induction false} ZzzBranchLinkedHeadsFirst(countries: seq<Country>, banks: seq<Bank>)
    requires var es := [Entry("ABCDEFGHXXX", "bank", "street", "POLAND", "PL"),
                        Entry("ABCDEFGHZZZ", "bank", "street", "POLAND", "PL")];
      Linkable(es) && IsPassOutput(HeadsFirst(es), countries, banks)
    ensures |banks| == 2
    ensures banks[0].swiftCode == "ABCDEFGHXXX" && banks[0].branches == Some(["ABCDEFGHZZZ"])
  {
    var head := Entry("ABCDEFGHXXX", "bank", "street", "POLAND", "PL");
    var branch := Entry("ABCDEFGHZZZ", "bank", "street", "POLAND", "PL");
    assert Suffix(head.swiftCode) == "XXX" && Suffix(branch.swiftCode) == "ZZZ";
    assert Prefix(head.swiftCode) == Prefix(branch.swiftCode);
    HeadsFirstPairLinked(head, branch, countries, banks);
  }

  /** A headquarters and a branch with its prefix, heads first: the branch is the one code listed. */
  lemma {:induction false} HeadsFirstPairLinked(head: Entry, branch: Entry, countries: seq<Country>, banks: seq<Bank>)
    requires |head.swiftCode| >= 8 && |branch.swiftCode| >= 8 && Linkable([head, branch])
    requires IsHeadRow(head) && !IsHeadRow(branch) && Prefix(head.swiftCode) == Prefix(branch.swiftCode)
    requires IsPassOutput(HeadsFirst([head, branch]), countries, banks)
    ensures |banks| == 2
    ensures banks[0].swiftCode == head.swiftCode && banks[0].branches == Some([branch.swiftCode])
  {
    HeadThenBranchOrder(head, branch);
    var rows := HeadsFirst([head, branch]);
    assert rows[0] == head && rows[1] == branch;
    HeadThenBranchLinked(rows);
    assert banks[0] == Item(rows, 0, 2);
  }

  /** A headquarters and a branch are visited in that order once headquarters go first. */
  lemma {:induction false} HeadThenBranchOrder(head: Entry, branch: Entry)
    requires IsHeadRow(head) && !IsHeadRow(branch)
    ensures HeadsFirst([head, branch]) == [head, branch]
  {
    var es := [head, branch];
    assert es[1..] == [branch] && es[1..][1..] == [];
    assert Heads(es[1..]) == [] && Branches(es[1..]) == [branch];
    assert Heads(es) == [head] && Branches(es) == [branch];
  }

  /** Two rows, a headquarters then a branch with its prefix: the branch is its only listed code. */
  lemma {:induction false} HeadThenBranchLinked(rows: seq<Entry>)
    requires Linkable(rows) && |rows| == 2
    requires HeadAt(rows, 0, Prefix(rows[1].swiftCode)) && !IsHeadRow(rows[1])
    ensures Item(rows, 0, 2).swiftCode == rows[0].swiftCode
    ensures Item(rows, 0, 2).branches == Some([rows[1].swiftCode])
  {
    assert HeadBefore(rows, 1, Prefix(rows[1].swiftCode)) == Some(0);
    NothingAttachedYet(rows, 0, 1);
    assert Attached(rows, 0, 2) == Attached(rows, 0, 1) + [rows[1].swiftCode];
    assert Attached(rows, 0, 2) == [rows[1].swiftCode];
  }

  /**
   * With heads first, every branch whose prefix has a headquarters anywhere
   * in the input is listed by one, and no row is dropped.
   */
  lemma {:induction false} HeadsFirstLinksEveryBranch(entries: seq<Entry>, countries: seq<Country>, banks: seq<Bank>, m: nat)
    requires Linkable(entries) && IsPassOutput(HeadsFirst(entries), countries, banks)
    requires m < |banks| && !IsHeadRow(HeadsFirst(entries)[m])
    requires exists e :: e in entries && IsHeadRow(e) && Prefix(e.swiftCode) == Prefix(HeadsFirst(entries)[m].swiftCode)
    ensures multiset(HeadsFirst(entries)) == multiset(entries)
    ensures exists h :: (0 <= h < |banks| && banks[h].headquarter && banks[h].branches.Some?
      && Prefix(banks[h].swiftCode) == Prefix(HeadsFirst(entries)[m].swiftCode)
      && HeadsFirst(entries)[m].swiftCode in banks[h].branches.value)
  {
    HeadsFirstIsPermutation(entries);
    HeadsFirstLinkedIff(entries, m);
    LinkedBranchIsListed(HeadsFirst(entries), countries, banks, m);
  }

  /** With a repeated headquarters prefix, later branches join only the last one visited. */
  lemma {:induction false} LastDuplicateHeadWins(rows: seq<Entry>, i: nat, i2: nat, m: nat)
    requires Linkable(rows) && i < i2 < m < |rows|
    requires HeadAt(rows, i, Prefix(rows[m].swiftCode)) && HeadAt(rows, i2, Prefix(rows[m].swiftCode))
    ensures !LinkedTo(rows, m, i)
  {
  }
}
