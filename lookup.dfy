/**
 * Lookup mode, `doLookup` (main.go:220-266): which session rows are
 * reported as desktop clients at or below a given version.
 */
module Lookup {
  import opened Wrappers
  import opened GoStrings
  import opened Versions
  import opened Clients
  import opened Tally

  /** A selected session: the version and OS written to the output, and the user to join. */
  datatype Match = Match(version: string, os: string, userId: string)

  /**
   * The decision for one row: mobile rows are skipped; a desktop row needs
   * exactly one `/` and a version other than "0.0", and is selected unless
   * its version is known to be newer than `lookupVersion`. A version that
   * does not parse selects the row (fail-open).
   */
  function Selection(row: Row, lookupVersion: string): (r: Option<Match>)
    ensures r.Some? ==> Decoded(row).Some? && !MobileSignal(Decoded(row).value)
    ensures r.Some? ==> r.value.userId == row.userId && r.value.version != Placeholder
  {
    match Decoded(row)
    case None => None
    case Some(p) =>
      if MobileSignal(p) then None
      else if !Contains(p.browser, DesktopMarker) then None
      else
        match DesktopVersion(p.browser)
        case None => None
        case Some(version) =>
          match IsOlderOrEqual(version, lookupVersion)
          case Success(older) => if older then Some(Match(version, p.os, row.userId)) else None
          case Failure(_) => Some(Match(version, p.os, row.userId))
  }

  /** Lookup picks its rows among those the tally counts as desktop, under the same version and OS. */
  lemma SelectionIsDesktop(row: Row, lookupVersion: string)
    ensures Selection(row, lookupVersion).Some? ==>
      UnitOf(row, Desktop) == Some(Unit(Selection(row, lookupVersion).value.version, Selection(row, lookupVersion).value.os))
    ensures UnitOf(row, Mobile).Some? ==> Selection(row, lookupVersion) == None
  {
  }

  /** A browser without exactly one `/` is counted in neither tally and never selected. */
  lemma NoSlashNoSelection(row: Row, lookupVersion: string)
    requires Decoded(row).Some? && CountChar(Decoded(row).value.browser, '/') != 1
    ensures UnitOf(row, Desktop) == None && UnitOf(row, Mobile) == None
    ensures Selection(row, lookupVersion) == None
  {
    NoVersionWithoutOneSlash(Decoded(row).value.browser);
  }

  /**
   * A row the desktop tally counts under `v` is selected iff `v` is older than
   * or equal to the lookup version, or the comparison fails.
   */
  lemma SelectionRule(row: Row, lookupVersion: string, u: Unit)
    requires UnitOf(row, Desktop) == Some(u)
    ensures Selection(row, lookupVersion).Some? <==> IsOlderOrEqual(u.version, lookupVersion) != Success(false)
    ensures SplitVersion(u.version).Success? && SplitVersion(lookupVersion).Success? ==>
      (Selection(row, lookupVersion).Some? <==> LexLe(SplitVersion(u.version).value, SplitVersion(lookupVersion).value))
  {
  }

  /** Fail-open: a desktop version that does not parse is selected whatever the lookup version. */
  lemma SelectionFailOpen(row: Row, lookupVersion: string, u: Unit)
    requires UnitOf(row, Desktop) == Some(u)
    requires SplitVersion(u.version).Failure? || SplitVersion(lookupVersion).Failure?
    ensures Selection(row, lookupVersion) == Some(Match(u.version, u.os, row.userId))
  {
  }

  /** Raising the lookup version never drops a selected row. */
  lemma SelectionMonotone(row: Row, lv: string, lv': string)
    requires IsOlderOrEqual(lv, lv') == Success(true)
    requires Selection(row, lv).Some?
    ensures Selection(row, lv') == Selection(row, lv)
  {
    var u := UnitOf(row, Desktop).value;
    SelectionIsDesktop(row, lv);
    if SplitVersion(u.version).Success? {
      OlderOrEqualTransitive(u.version, lv, lv');
    }
  }

  /** The decision for each row, in row order. */
  function Selections(rows: seq<Row>, lookupVersion: string): (r: seq<Option<Match>>)
    ensures |r| == |rows|
    ensures forall i :: 0 <= i < |rows| ==> r[i] == Selection(rows[i], lookupVersion)
  {
    seq(|rows|, i requires 0 <= i < |rows| => Selection(rows[i], lookupVersion))
  }

  /** The matches of all rows, in row order. */
  function Matches(rows: seq<Row>, lookupVersion: string): seq<Match>
  {
    Somes(Selections(rows, lookupVersion))
  }

  /** The scanning loop of `doLookup`, up to the user join (main.go:220-268). */
  method DoLookup(rows: seq<Row>, lookupVersion: string) returns (matches: seq<Match>)
    ensures matches == Matches(rows, lookupVersion)
  {
    matches := [];
    for i := 0 to |rows|
      invariant matches == Matches(rows[..i], lookupVersion)
    {
      MatchesStep(rows, i, lookupVersion);
      match Decoded(rows[i]) {
        case None =>
          // the JSON could not be decoded: only this row is skipped
        case Some(p) =>
          if MobileSignal(p) {
            // mobile devices are skipped in lookup
          } else if Contains(p.browser, DesktopMarker) {
            match DesktopVersion(p.browser) {
              case None =>
              case Some(version) =>
                var processRow: bool;
                match IsOlderOrEqual(version, lookupVersion) {
                  case Success(older) => processRow := older;
                  case Failure(_) => processRow := true;
                }
                if processRow {
                  assert Selection(rows[i], lookupVersion) == Some(Match(version, p.os, rows[i].userId));
                  matches := matches + [Match(version, p.os, rows[i].userId)];
                }
            }
          }
      }
    }
    assert rows[..|rows|] == rows;
  }

  lemma MatchesStep(rows: seq<Row>, i: nat, lookupVersion: string)
    requires i < |rows|
    ensures Matches(rows[..i + 1], lookupVersion) == Matches(rows[..i], lookupVersion)
      + match Selection(rows[i], lookupVersion) case None => [] case Some(m) => [m]
  {
    var s := Selections(rows[..i + 1], lookupVersion);
    assert s[..i] == Selections(rows[..i], lookupVersion);
  }

  /** A match is reported iff some row is selected with it. */
  lemma MatchesSelected(rows: seq<Row>, lookupVersion: string, m: Match)
    ensures m in Matches(rows, lookupVersion) <==>
      exists i :: 0 <= i < |rows| && Selection(rows[i], lookupVersion) == Some(m)
  {
    SomesMember(Selections(rows, lookupVersion), m);
  }

  /** Lookup never reports more sessions than the desktop tally counts. */
  lemma {:induction false} MatchesBounded(rows: seq<Row>, lookupVersion: string)
    ensures |Matches(rows, lookupVersion)| <= |Units(rows, Desktop)|
  {
    if rows != [] {
      var n := |rows| - 1;
      MatchesBounded(rows[..n], lookupVersion);
      MatchesStep(rows, n, lookupVersion);
      UnitsStep(rows, n, Desktop);
      assert rows[..n + 1] == rows;
      SelectionIsDesktop(rows[n], lookupVersion);
    }
  }
}
