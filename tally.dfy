/**
 * The scan of `processDatabase` (main.go:341-409): every session row adds
 * at most one unit entry `{OS, 1}` under its version, to the desktop or to
 * the mobile tally, and both tallies are then consolidated.
 */
module Tally {
  import opened Wrappers
  import opened GoStrings
  import opened Clients
  import opened Aggregate

  /**
   * One active session row: its decoded properties (`None` when the JSON
   * could not be decoded), its device id column and its owning user id.
   */
  datatype Row = Row(props: Option<Props>, deviceId: string, userId: string)

  /** A counted occurrence of a version on an OS. */
  datatype Unit = Unit(version: string, os: string)

  /** The properties of a decodable row, with the device id taken from the row's column. */
  function Decoded(row: Row): (r: Option<Props>)
    ensures r.Some? <==> row.props.Some?
    ensures r.Some? ==> r.value.deviceId == row.deviceId
    ensures r.Some? ==> r.value.(deviceId := "") == row.props.value.(deviceId := "")
  {
    match row.props
    case None => None
    case Some(p) => Some(p.(deviceId := row.deviceId))
  }

  /** The unit a row adds to the tally of class `cls`, if any (main.go:361-397). */
  function UnitOf(row: Row, cls: ClientClass): (r: Option<Unit>)
    ensures cls == Unclassified ==> r == None
    ensures r.Some? ==> Decoded(row).Some? && Classify(Decoded(row).value) == cls
    ensures r.Some? ==> r.value.os == Decoded(row).value.os
    ensures r.Some? && cls == Desktop ==> DesktopVersion(Decoded(row).value.browser) == Some(r.value.version)
    ensures r.Some? && cls == Mobile ==> MobileVersion(Decoded(row).value.browser) == Some(r.value.version)
    ensures (Decoded(row).Some? && Classify(Decoded(row).value) == cls == Desktop
             && DesktopVersion(Decoded(row).value.browser).Some?) ==> r.Some?
    ensures (Decoded(row).Some? && Classify(Decoded(row).value) == cls == Mobile
             && CountChar(Decoded(row).value.browser, '/') == 1) ==> r.Some?
  {
    match Decoded(row)
    case None => None
    case Some(p) =>
      if Classify(p) != cls then None
      else
        var version := if cls == Mobile then MobileVersion(p.browser)
                       else if cls == Desktop then DesktopVersion(p.browser)
                       else None;
        match version
        case None => None
        case Some(v) => Some(Unit(v, p.os))
  }

  /**
   * Mobile signals win: a row with one is never counted as desktop. A
   * desktop unit needs no mobile signal and the desktop marker. An
   * unclassified or undecodable row adds nothing, and no row adds to both
   * tallies.
   */
  lemma ClassificationRule(row: Row)
    ensures Decoded(row).Some? && MobileSignal(Decoded(row).value) ==> UnitOf(row, Desktop) == None
    ensures UnitOf(row, Desktop).Some? ==>
      !MobileSignal(Decoded(row).value) && Contains(Decoded(row).value.browser, DesktopMarker)
    ensures UnitOf(row, Mobile).Some? ==> MobileSignal(Decoded(row).value)
    ensures Decoded(row).Some? && Classify(Decoded(row).value) == Unclassified ==>
      UnitOf(row, Desktop) == None && UnitOf(row, Mobile) == None
    ensures Decoded(row) == None ==> UnitOf(row, Desktop) == None && UnitOf(row, Mobile) == None
    ensures UnitOf(row, Desktop) == None || UnitOf(row, Mobile) == None
  {
  }

  /**
   * A desktop session whose browser is `name/v` is counted under `v` on its
   * OS, except that `name/0.0` is not counted.
   */
  lemma UnitOfDesktopRow(row: Row, name: string, v: string)
    requires Decoded(row).Some? && Decoded(row).value.browser == name + "/" + v
    requires '/' !in name && '/' !in v
    requires !MobileSignal(Decoded(row).value) && Contains(name + "/" + v, DesktopMarker)
    ensures UnitOf(row, Desktop) == if v == Placeholder then None else Some(Unit(v, Decoded(row).value.os))
  {
    DesktopVersionOf(name, v);
  }

  /**
   * A mobile session whose browser is `name/v` or `name/v+build` is counted
   * under `v` on its OS, `0.0` included.
   */
  lemma UnitOfMobileRow(row: Row, name: string, v: string, build: string)
    requires Decoded(row).Some? && MobileSignal(Decoded(row).value)
    requires '/' !in name && '/' !in v && '+' !in v && '/' !in build
    requires Decoded(row).value.browser == name + "/" + v || Decoded(row).value.browser == name + "/" + v + "+" + build
    ensures UnitOf(row, Mobile) == Some(Unit(v, Decoded(row).value.os))
  {
    MobileVersionOf(name, v, build);
  }

  /** What each row adds to the tally of `cls`, in row order. */
  function UnitOpts(rows: seq<Row>, cls: ClientClass): (r: seq<Option<Unit>>)
    ensures |r| == |rows|
    ensures forall i :: 0 <= i < |rows| ==> r[i] == UnitOf(rows[i], cls)
  {
    seq(|rows|, i requires 0 <= i < |rows| => UnitOf(rows[i], cls))
  }

  /** The units the rows add to the tally of `cls`, in row order. */
  function Units(rows: seq<Row>, cls: ClientClass): seq<Unit>
  {
    Somes(UnitOpts(rows, cls))
  }

  /** The units of a single row: none or one. */
  function RowUnits(row: Row, cls: ClientClass): seq<Unit>
  {
    match UnitOf(row, cls)
    case None => []
    case Some(u) => [u]
  }

  /** One more row adds its own units at the end. */
  lemma UnitsStep(rows: seq<Row>, i: nat, cls: ClientClass)
    requires i < |rows|
    ensures Units(rows[..i + 1], cls) == Units(rows[..i], cls) + RowUnits(rows[i], cls)
  {
    var s := UnitOpts(rows[..i + 1], cls);
    assert s[..i] == UnitOpts(rows[..i], cls);
  }

  /** The list stored under `v`; a missing key reads as the empty list, as a nil slice in Go. */
  function Entries(m: VersionCount, v: string): seq<VersionInfo>
  {
    if v in m then m[v] else []
  }

  /** Appending `{OS, 1}` under the unit's version (main.go:378-381 and 392-395). */
  function AddUnit(m: VersionCount, u: Unit): VersionCount
  {
    m[u.version := Entries(m, u.version) + [VersionInfo(u.os, 1)]]
  }

  /** The raw tally: the units appended one by one to an empty map. */
  function Collect(units: seq<Unit>): VersionCount
  {
    if units == [] then map[] else AddUnit(Collect(units[..|units| - 1]), units[|units| - 1])
  }

  /** Number of occurrences of `u` among the units. */
  function Occurrences(units: seq<Unit>, u: Unit): nat
  {
    multiset(units)[u]
  }

  // ---------------------------------------------------------------------
  // What the raw tally holds

  /** A version is a key of the raw tally iff some unit carries it. */
  lemma {:induction false} CollectKeys(units: seq<Unit>)
    ensures forall v :: v in Collect(units) <==> exists k :: 0 <= k < |units| && units[k].version == v
  {
    if units != [] {
      var front := units[..|units| - 1];
      CollectKeys(front);
      forall v ensures v in Collect(units) <==> exists k :: 0 <= k < |units| && units[k].version == v {
        if v in Collect(front) {
          var k :| 0 <= k < |front| && front[k].version == v;
          assert units[k].version == v;
        }
        if exists k :: 0 <= k < |units| && units[k].version == v {
          var k :| 0 <= k < |units| && units[k].version == v;
          if k < |front| { assert front[k].version == v; }
        }
      }
    }
  }

  /** Under every version, the raw tally holds one entry of count 1 per unit for that version and OS. */
  lemma CollectCounts(units: seq<Unit>, v: string, os: string)
    ensures OsTotal(Entries(Collect(units), v), os) == Occurrences(units, Unit(v, os))
    ensures forall k :: 0 <= k < |Entries(Collect(units), v)| ==> Entries(Collect(units), v)[k].count == 1
  {
    CollectOsTotal(units, v, os);
    CollectUnitCounts(units, v);
  }

  lemma {:induction false} CollectOsTotal(units: seq<Unit>, v: string, os: string)
    ensures OsTotal(Entries(Collect(units), v), os) == Occurrences(units, Unit(v, os))
  {
    if units != [] {
      var front, u := units[..|units| - 1], units[|units| - 1];
      assert units == front + [u];
      CollectOsTotal(front, v, os);
      var e := Entries(Collect(front), v);
      assert multiset(units) == multiset(front) + multiset{u};
      if u.version == v {
        assert Entries(Collect(units), v) == e + [VersionInfo(u.os, 1)];
        assert (e + [VersionInfo(u.os, 1)])[..|e|] == e;
      } else {
        assert Entries(Collect(units), v) == e;
      }
    }
  }

  lemma {:induction false} CollectUnitCounts(units: seq<Unit>, v: string)
    ensures forall k :: 0 <= k < |Entries(Collect(units), v)| ==> Entries(Collect(units), v)[k].count == 1
  {
    if units != [] {
      var front, u := units[..|units| - 1], units[|units| - 1];
      CollectUnitCounts(front, v);
      var e := Entries(Collect(front), v);
      if u.version == v {
        assert Entries(Collect(units), v) == e + [VersionInfo(u.os, 1)];
      } else {
        assert Entries(Collect(units), v) == e;
      }
    }
  }

  /** The raw tally holds one count per unit over all versions. */
  lemma {:induction false} CollectMapTotal(units: seq<Unit>)
    ensures MapTotal(Collect(units)) == |units|
  {
    if units != [] {
      var front, u := units[..|units| - 1], units[|units| - 1];
      var m := Collect(front);
      CollectMapTotal(front);
      var m' := AddUnit(m, u);
      MapTotalSplit(m', u.version);
      assert m' - {u.version} == m - {u.version};
      TotalAppend(Entries(m, u.version), [VersionInfo(u.os, 1)]);
      assert Total([VersionInfo(u.os, 1)]) == 1 by { assert [VersionInfo(u.os, 1)][..0] == []; }
      if u.version in m {
        MapTotalSplit(m, u.version);
      } else {
        assert m - {u.version} == m;
      }
    }
  }

  // ---------------------------------------------------------------------
  // The order of the rows does not matter

  /** Rows holding the same sessions in any order yield the same units. */
  lemma {:induction false} UnitsPerm(a: seq<Row>, b: seq<Row>, cls: ClientClass)
    requires multiset(a) == multiset(b)
    ensures multiset(Units(a, cls)) == multiset(Units(b, cls))
  {
    UnitOptsPerm(a, b, cls);
    SomesPerm(UnitOpts(a, cls), UnitOpts(b, cls));
  }

  lemma UnitOptsPerm(a: seq<Row>, b: seq<Row>, cls: ClientClass)
    requires multiset(a) == multiset(b)
    ensures multiset(UnitOpts(a, cls)) == multiset(UnitOpts(b, cls))
  {
    var f := (r: Row) => UnitOf(r, cls);
    MapSeqPerm(f, a, b);
    assert UnitOpts(a, cls) == MapSeq(f, a);
    assert UnitOpts(b, cls) == MapSeq(f, b);
  }

  /** The raw tally of rows in any order has the same versions and the same per-OS counts. */
  lemma TallyOrderIndependent(rows: seq<Row>, rows': seq<Row>, cls: ClientClass)
    requires multiset(rows) == multiset(rows')
    ensures Collect(Units(rows, cls)).Keys == Collect(Units(rows', cls)).Keys
    ensures forall v, os :: OsTotal(Entries(Collect(Units(rows, cls)), v), os)
                         == OsTotal(Entries(Collect(Units(rows', cls)), v), os)
  {
    var us, us' := Units(rows, cls), Units(rows', cls);
    UnitsPerm(rows, rows', cls);
    SameVersions(us, us');
    forall v, os ensures OsTotal(Entries(Collect(us), v), os) == OsTotal(Entries(Collect(us'), v), os) {
      CollectCounts(us, v, os);
      CollectCounts(us', v, os);
    }
  }

  /** Units in another order give a raw tally with the same versions. */
  lemma SameVersions(us: seq<Unit>, us': seq<Unit>)
    requires multiset(us) == multiset(us')
    ensures Collect(us).Keys == Collect(us').Keys
  {
    CollectKeys(us);
    CollectKeys(us');
    forall v | v in Collect(us) ensures v in Collect(us') {
      var k :| 0 <= k < |us| && us[k].version == v;
      assert us[k] in multiset(us');
      var k' :| 0 <= k' < |us'| && us'[k'] == us[k];
    }
    forall v | v in Collect(us') ensures v in Collect(us) {
      var k :| 0 <= k < |us'| && us'[k].version == v;
      assert us'[k] in multiset(us);
      var k' :| 0 <= k' < |us| && us[k'] == us'[k];
    }
  }

  // ---------------------------------------------------------------------
  // processDatabase

  /**
   * The scanning loop of `processDatabase` (main.go:341-398): each row adds
   * at most one unit entry, to the desktop or to the mobile raw tally.
   */
  method ScanRows(rows: seq<Row>) returns (rawDesktop: VersionCount, rawMobile: VersionCount)
    ensures rawDesktop == Collect(Units(rows, Desktop))
    ensures rawMobile == Collect(Units(rows, Mobile))
  {
    rawDesktop, rawMobile := map[], map[];
    for i := 0 to |rows|
      invariant rawDesktop == Collect(Units(rows[..i], Desktop))
      invariant rawMobile == Collect(Units(rows[..i], Mobile))
    {
      CollectStep(rows, i, Desktop);
      CollectStep(rows, i, Mobile);
      match Decoded(rows[i]) {
        case None =>
          // the JSON could not be decoded: only this row is skipped
        case Some(p) =>
          if MobileSignal(p) {
            match MobileVersion(p.browser) {
              case None =>
              case Some(version) =>
                assert UnitOf(rows[i], Mobile) == Some(Unit(version, p.os));
                var entries := if version in rawMobile then rawMobile[version] else [];
                rawMobile := rawMobile[version := entries + [VersionInfo(p.os, 1)]];
            }
          } else if Contains(p.browser, DesktopMarker) {
            match DesktopVersion(p.browser) {
              case None =>
              case Some(version) =>
                assert UnitOf(rows[i], Desktop) == Some(Unit(version, p.os));
                var entries := if version in rawDesktop then rawDesktop[version] else [];
                rawDesktop := rawDesktop[version := entries + [VersionInfo(p.os, 1)]];
            }
          }
      }
    }
    assert rows[..|rows|] == rows;
  }

  /** One more row extends the raw tally by that row's unit, if it has one. */
  lemma CollectStep(rows: seq<Row>, i: nat, cls: ClientClass)
    requires i < |rows|
    ensures Collect(Units(rows[..i + 1], cls)) == match UnitOf(rows[i], cls)
      case None => Collect(Units(rows[..i], cls))
      case Some(u) => AddUnit(Collect(Units(rows[..i], cls)), u)
  {
    UnitsStep(rows, i, cls);
    var us := Units(rows[..i], cls);
    match UnitOf(rows[i], cls) {
      case None =>
        assert Units(rows[..i + 1], cls) == us;
      case Some(u) =>
        assert Units(rows[..i + 1], cls) == us + [u];
        assert (us + [u])[..|us|] == us;
    }
  }

  /**
   * `processDatabase` over the already fetched active rows: scan them, then
   * consolidate both tallies (main.go:341-409).
   */
  method ProcessDatabase(rows: seq<Row>) returns (desktop: VersionCount, mobile: VersionCount)
    ensures desktop.Keys == Collect(Units(rows, Desktop)).Keys
    ensures mobile.Keys == Collect(Units(rows, Mobile)).Keys
    ensures forall v :: v in desktop ==> IsConsolidationOf(desktop[v], Collect(Units(rows, Desktop))[v])
    ensures forall v :: v in mobile ==> IsConsolidationOf(mobile[v], Collect(Units(rows, Mobile))[v])
    ensures forall v, os :: v in desktop ==> OsTotal(desktop[v], os) == Occurrences(Units(rows, Desktop), Unit(v, os))
    ensures forall v, os :: v in mobile ==> OsTotal(mobile[v], os) == Occurrences(Units(rows, Mobile), Unit(v, os))
    ensures MapTotal(desktop) == |Units(rows, Desktop)| && MapTotal(mobile) == |Units(rows, Mobile)|
  {
    var rawDesktop, rawMobile := ScanRows(rows);
    desktop := AggregateCounts(rawDesktop);
    mobile := AggregateCounts(rawMobile);
    ConsolidatedCounts(desktop, Units(rows, Desktop));
    ConsolidatedCounts(mobile, Units(rows, Mobile));
  }

  /** What a consolidated tally says about the units it was built from. */
  lemma ConsolidatedCounts(c: VersionCount, units: seq<Unit>)
    requires c.Keys == Collect(units).Keys
    requires forall v :: v in c ==> IsConsolidationOf(c[v], Collect(units)[v])
    requires forall v :: v in c ==> Total(c[v]) == Total(Collect(units)[v])
    ensures forall v, os :: v in c ==> OsTotal(c[v], os) == Occurrences(units, Unit(v, os))
    ensures MapTotal(c) == |units|
  {
    forall v, os | v in c ensures OsTotal(c[v], os) == Occurrences(units, Unit(v, os)) {
      CollectCounts(units, v, os);
    }
    MapTotalCongruent(c, Collect(units));
    CollectMapTotal(units);
  }
}
