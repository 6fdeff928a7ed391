/**
 * The state `CSVParser.parseCSV` builds up between two rows: after some
 * headquarters rows (HeadPhase), and after all headquarters and some branch
 * rows (BranchPhase), with the step lemmas that carry each state over one row.
 */
module CsvPhases {
  import opened Wrappers
  import opened Codes
  import opened Items
  import opened Linking

  /** The branch rows among rows `nh .. n-1` that find a headquarters, in order: the ones kept. */
  function KeptBranches(rows: seq<Entry>, nh: nat, n: nat): seq<Entry>
    requires Linkable(rows) && nh <= n <= |rows|
    decreases n
  {
    if n == nh then []
    else KeptBranches(rows, nh, n - 1) + (if Linked(rows, n - 1) then [rows[n - 1]] else [])
  }

  /** The state after the first `i` headquarters rows: one record and one country each, all registered. */
  predicate HeadPhase(rows: seq<Entry>, i: nat, headBanks: map<string, nat>, countries: seq<Country>, banks: seq<Bank>)
    requires Linkable(rows) && i <= |rows|
  {
    && |banks| == i && |countries| == i
    && ItemsAt(rows, banks, i, i)
    && (forall j :: 0 <= j < i ==> countries[j] == CountryOf(rows[j]))
    && headBanks == HeadMap(rows, i)
  }

  /**
   * The state after the branch rows `nh .. n-1`: the headquarters records
   * list the branches that found them, followed by the kept branches.
   */
  predicate BranchPhase(rows: seq<Entry>, nh: nat, n: nat, headBanks: map<string, nat>, countries: seq<Country>, banks: seq<Bank>)
    requires Linkable(rows) && nh <= n <= |rows|
  {
    var kept := KeptBranches(rows, nh, n);
    && headBanks == HeadMap(rows, nh)
    && |banks| == nh + |kept| && |countries| == nh + |kept|
    && ItemsAt(rows, banks, nh, n)
    && (forall j :: 0 <= j < nh ==> countries[j] == CountryOf(rows[j]))
    && (forall t :: 0 <= t < |kept| ==> banks[nh + t] == Record(kept[t], false))
    && (forall t :: 0 <= t < |kept| ==> countries[nh + t] == CountryOf(kept[t]))
  }

  /** A branch that finds no headquarters leaves the state as it is, one row further on. */
  lemma {:induction false} BranchSkipped(rows: seq<Entry>, nh: nat, n: nat, headBanks: map<string, nat>, countries: seq<Country>, banks: seq<Bank>)
    requires Linkable(rows) && nh <= n < |rows| && !Linked(rows, n)
    requires BranchPhase(rows, nh, n, headBanks, countries, banks)
    ensures BranchPhase(rows, nh, n + 1, headBanks, countries, banks)
  {
    assert KeptBranches(rows, nh, n + 1) == KeptBranches(rows, nh, n);
    forall j | 0 <= j < nh ensures !LinkedTo(rows, n, j) {
    }
    NoAttach(rows, banks, nh, n);
  }

  /** Appending one kept row's record and country extends the kept tail of the output by that row. */
  lemma {:induction false} KeptTailExtended(nh: nat, kept: seq<Entry>, e: Entry, countries: seq<Country>, banks: seq<Bank>, banks': seq<Bank>)
    requires |banks| == nh + |kept| && |countries| == nh + |kept|
    requires forall t :: 0 <= t < |kept| ==> banks[nh + t] == Record(kept[t], false)
    requires forall t :: 0 <= t < |kept| ==> countries[nh + t] == CountryOf(kept[t])
    requires |banks'| == |banks| + 1 && banks'[|banks|] == Record(e, false)
    requires forall k :: nh <= k < |banks| ==> banks'[k] == banks[k]
    ensures forall t :: 0 <= t < |kept + [e]| ==> banks'[nh + t] == Record((kept + [e])[t], false)
    ensures forall t :: 0 <= t < |kept + [e]| ==> (countries + [CountryOf(e)])[nh + t] == CountryOf((kept + [e])[t])
  {
    forall t | 0 <= t < |kept + [e]|
      ensures banks'[nh + t] == Record((kept + [e])[t], false)
      ensures (countries + [CountryOf(e)])[nh + t] == CountryOf((kept + [e])[t])
    {
      if t < |kept| {
        assert banks'[nh + t] == banks[nh + t];
      }
    }
  }

  /** A branch that finds the headquarters at row `h` is appended to its list and kept. */
  lemma {:induction false} BranchKept(rows: seq<Entry>, nh: nat, n: nat, headBanks: map<string, nat>, countries: seq<Country>, banks: seq<Bank>, h: nat)
    requires Linkable(rows) && nh <= n < |rows| && h < nh && LinkedTo(rows, n, h)
    requires BranchPhase(rows, nh, n, headBanks, countries, banks)
    ensures banks[h].branches.Some?
    ensures BranchPhase(rows, nh, n + 1, headBanks, countries + [CountryOf(rows[n])],
      banks[h := banks[h].(branches := Some(banks[h].branches.value + [rows[n].swiftCode]))] + [Record(rows[n], false)])
  {
    var kept := KeptBranches(rows, nh, n);
    assert KeptBranches(rows, nh, n + 1) == kept + [rows[n]];
    Attach(rows, banks, nh, n, h);
    var linked := banks[h := banks[h].(branches := Some(banks[h].branches.value + [rows[n].swiftCode]))];
    var banks' := linked + [Record(rows[n], false)];
    KeptTailExtended(nh, kept, rows[n], countries, banks, banks');
    assert ItemsAt(rows, banks', nh, n + 1) by {
      assert forall j :: 0 <= j < nh ==> banks'[j] == linked[j];
    }
  }

  /** Before the first row, nothing is recorded or registered. */
  lemma {:induction false} HeadsStart(rows: seq<Entry>)
    requires Linkable(rows)
    ensures HeadPhase(rows, 0, map[], [], [])
  {
  }

  /** Once every headquarters row is visited, the branch phase begins with nothing kept. */
  lemma {:induction false} HeadsDone(rows: seq<Entry>, nh: nat, headBanks: map<string, nat>, countries: seq<Country>, banks: seq<Bank>)
    requires Linkable(rows) && nh <= |rows|
    requires HeadPhase(rows, nh, headBanks, countries, banks)
    ensures BranchPhase(rows, nh, nh, headBanks, countries, banks)
  {
    assert KeptBranches(rows, nh, nh) == [];
  }

}
