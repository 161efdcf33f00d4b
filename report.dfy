/**
 * The totals and the choice of sections of `printResults`
 * (main.go:426-475), and the tally run of `main` (main.go:525-531).
 */
module Report {
  import opened Wrappers
  import opened GoStrings
  import opened Clients
  import opened Aggregate
  import opened Tally

  /** A class's section: the explicit "No ... Apps Found" line, or its listing with a subtotal. */
  datatype Section = NoneFound | Found(subtotal: int)

  /** The report: the single "No Mattermost Apps Found" line, or both sections and the grand total. */
  datatype Outcome = NoAppsFound | Sections(desktop: Section, mobile: Section, totalActive: int)

  /** The nested summing loops of `printResults` (main.go:433-442); versions in no specified order. */
  method SumClients(vc: VersionCount) returns (total: int)
    ensures total == MapTotal(vc)
  {
    total := 0;
    var rest := vc;
    while rest != map[]
      invariant rest.Keys <= vc.Keys
      invariant total + MapTotal(rest) == MapTotal(vc)
      decreases |rest|
    {
      var v :| v in rest;
      var infos := rest[v];
      MapTotalSplit(rest, v);
      assert infos[..0] == [];
      ghost var before := total;
      for k := 0 to |infos|
        invariant total == before + Total(infos[..k])
      {
        assert infos[..k + 1][..k] == infos[..k];
        assert Total(infos[..k + 1]) == Total(infos[..k]) + infos[k].count;
        total := total + infos[k].count;
      }
      assert infos[..|infos|] == infos;
      assert (rest - {v}).Keys == rest.Keys - {v};
      rest := rest - {v};
    }
  }

  /** `printResults`: subtotals, grand total and which sections appear. */
  method PrintResults(desktop: VersionCount, mobile: VersionCount) returns (report: Outcome)
    ensures report == NoAppsFound <==> |desktop| == 0 && |mobile| == 0
    ensures report.Sections? ==>
      && report.desktop == (if |desktop| > 0 then Found(MapTotal(desktop)) else NoneFound)
      && report.mobile == (if |mobile| > 0 then Found(MapTotal(mobile)) else NoneFound)
      && report.totalActive == MapTotal(desktop) + MapTotal(mobile)
  {
    var hasDesktopApps := |desktop| > 0;
    var hasMobileApps := |mobile| > 0;
    var totalDesktopClients := SumClients(desktop);
    var totalMobileClients := SumClients(mobile);
    var totalActiveClients := totalDesktopClients + totalMobileClients;
    if !hasDesktopApps && !hasMobileApps {
      report := NoAppsFound;
    } else {
      var d := if hasDesktopApps then Found(totalDesktopClients) else NoneFound;
      var m := if hasMobileApps then Found(totalMobileClients) else NoneFound;
      report := Sections(d, m, totalActiveClients);
    }
  }

  /** A raw tally is empty exactly when there are no units. */
  lemma CollectEmpty(units: seq<Unit>)
    ensures |Collect(units)| == 0 <==> units == []
  {
    CollectKeys(units);
    if units != [] {
      assert units[0].version in Collect(units);
    }
  }

  /**
   * The tally run: scan and consolidate, then report. Each subtotal is the
   * number of rows counted for its class, and the grand total their sum.
   */
  method Run(rows: seq<Row>) returns (report: Outcome)
    ensures report == NoAppsFound <==> Units(rows, Desktop) == [] && Units(rows, Mobile) == []
    ensures report.Sections? ==>
      && report.desktop == (if Units(rows, Desktop) == [] then NoneFound else Found(|Units(rows, Desktop)|))
      && report.mobile == (if Units(rows, Mobile) == [] then NoneFound else Found(|Units(rows, Mobile)|))
      && report.totalActive == |Units(rows, Desktop)| + |Units(rows, Mobile)|
  {
    var desktop, mobile := ProcessDatabase(rows);
    CollectEmpty(Units(rows, Desktop));
    CollectEmpty(Units(rows, Mobile));
    assert |desktop| == |Collect(Units(rows, Desktop))| && |mobile| == |Collect(Units(rows, Mobile))|;
    report := PrintResults(desktop, mobile);
  }

  /** Two desktop sessions of `dv` on Windows and one mobile session of `mv` on Mac OS. */
  function ScenarioRows(desktopApp: string, dv: string, mobileApp: string, mv: string): seq<Row>
  {
    var desktop := Props(desktopApp + "/" + dv, "Windows", "", "");
    var mobile := Props(mobileApp + "/" + mv, "Mac OS", "true", "");
    [Row(Some(desktop), "", "u1"), Row(Some(desktop), "", "u2"), Row(Some(mobile), "", "u3")]
  }

  /** Units that are all the same give a raw tally of one version, over one OS. */
  lemma {:induction false} CollectUniform(units: seq<Unit>, u: Unit)
    requires |units| > 0 && forall k :: 0 <= k < |units| ==> units[k] == u
    ensures Collect(units).Keys == {u.version}
    ensures OSes(Collect(units)[u.version]) == {u.os}
  {
    var front := units[..|units| - 1];
    if front == [] {
      OSesSnoc([], VersionInfo(u.os, 1));
    } else {
      CollectUniform(front, u);
      OSesSnoc(Collect(front)[u.version], VersionInfo(u.os, 1));
    }
  }

  /** The consolidated tally of `n` copies of one unit is that unit's single entry with count `n`. */
  lemma {:induction false} ConsolidatedUniform(c: VersionCount, units: seq<Unit>, u: Unit)
    requires |units| > 0 && forall k :: 0 <= k < |units| ==> units[k] == u
    requires c.Keys == Collect(units).Keys
    requires forall v :: v in c ==> IsConsolidationOf(c[v], Collect(units)[v])
    requires forall v, os :: v in c ==> OsTotal(c[v], os) == Occurrences(units, Unit(v, os))
    ensures c == map[u.version := [VersionInfo(u.os, |units|)]]
  {
    CollectUniform(units, u);
    SingleEntry(c[u.version], u.os);
    UniformCount(units, u);
  }

  lemma {:induction false} UniformCount(units: seq<Unit>, u: Unit)
    requires forall k :: 0 <= k < |units| ==> units[k] == u
    ensures Occurrences(units, u) == |units|
  {
    if units != [] {
      var front := units[..|units| - 1];
      UniformCount(front, u);
      assert units == front + [u];
    }
  }

  /*
   * The scenario lemmas take the app names and versions as parameters
   * pinned by `requires` rather than writing the literals in their bodies:
   * the verifier unfolds functions of literal arguments without bound, and
   * a parameter keeps the classification and splitting of the browser
   * strings within the resource limit.
   */

  lemma ScenarioDesktopUnits(desktopApp: string, dv: string, mobileApp: string, mv: string)
    requires desktopApp == "Mattermost Desktop App" && dv == "5.5.0"
    requires mobileApp == "Mattermost Mobile" && mv == "5.5.3"
    ensures Units(ScenarioRows(desktopApp, dv, mobileApp, mv), Desktop) == [Unit(dv, "Windows"), Unit(dv, "Windows")]
  {
    var rows := ScenarioRows(desktopApp, dv, mobileApp, mv);
    ScenarioDesktopRow(desktopApp, dv, rows[0]);
    ScenarioDesktopRow(desktopApp, dv, rows[1]);
    ScenarioMobileRow(mobileApp, mv, rows[2]);
    var d := UnitOpts(rows, Desktop);
    SomesOfThree(d);
    SomesSingleton(d[0]);
    SomesSingleton(d[1]);
    SomesSingleton(d[2]);
  }

  lemma ScenarioMobileUnits(desktopApp: string, dv: string, mobileApp: string, mv: string)
    requires desktopApp == "Mattermost Desktop App" && dv == "5.5.0"
    requires mobileApp == "Mattermost Mobile" && mv == "5.5.3"
    ensures Units(ScenarioRows(desktopApp, dv, mobileApp, mv), Mobile) == [Unit(mv, "Mac OS")]
  {
    var rows := ScenarioRows(desktopApp, dv, mobileApp, mv);
    ScenarioDesktopRow(desktopApp, dv, rows[0]);
    ScenarioDesktopRow(desktopApp, dv, rows[1]);
    ScenarioMobileRow(mobileApp, mv, rows[2]);
    var m := UnitOpts(rows, Mobile);
    SomesOfThree(m);
    SomesSingleton(m[0]);
    SomesSingleton(m[1]);
    SomesSingleton(m[2]);
  }

  lemma ScenarioDesktopRow(desktopApp: string, dv: string, row: Row)
    requires desktopApp == "Mattermost Desktop App" && dv == "5.5.0"
    requires row.props == Some(Props(desktopApp + "/" + dv, "Windows", "", "")) && row.deviceId == ""
    ensures UnitOf(row, Desktop) == Some(Unit(dv, "Windows")) && UnitOf(row, Mobile) == None
  {
    var browser := desktopApp + "/" + dv;
    assert browser[11..22] == DesktopMarker;
    assert OccursAt(browser, DesktopMarker, 11);
    DesktopVersionOf(desktopApp, dv);
  }

  lemma ScenarioMobileRow(mobileApp: string, mv: string, row: Row)
    requires mobileApp == "Mattermost Mobile" && mv == "5.5.3"
    requires row.props == Some(Props(mobileApp + "/" + mv, "Mac OS", "true", ""))
    ensures UnitOf(row, Mobile) == Some(Unit(mv, "Mac OS")) && UnitOf(row, Desktop) == None
  {
    MobileVersionOf(mobileApp, mv, "");
  }

  /**
   * The worked example: the report lists 5.5.0 (Windows) - 2 under Desktop
   * and 5.5.3 (Mac OS) - 1 under Mobile, with subtotals 2 and 1 and a grand
   * total of 3. As in the lemmas above, the texts are parameters pinned by
   * `requires`.
   */
  method Scenario(desktopApp: string, dv: string, mobileApp: string, mv: string)
      returns (desktop: VersionCount, mobile: VersionCount, report: Outcome)
    requires desktopApp == "Mattermost Desktop App" && dv == "5.5.0"
    requires mobileApp == "Mattermost Mobile" && mv == "5.5.3"
    ensures desktop == map[dv := [VersionInfo("Windows", 2)]]
    ensures mobile == map[mv := [VersionInfo("Mac OS", 1)]]
    ensures report == Sections(Found(2), Found(1), 3)
  {
    ScenarioDesktopUnits(desktopApp, dv, mobileApp, mv);
    ScenarioMobileUnits(desktopApp, dv, mobileApp, mv);
    desktop, mobile, report := TallyTwoAndOne(ScenarioRows(desktopApp, dv, mobileApp, mv), Unit(dv, "Windows"), Unit(mv, "Mac OS"));
  }

  /** Any rows that give two equal desktop units and one mobile unit tally and report as the worked example does. */
  method TallyTwoAndOne(rows: seq<Row>, d: Unit, m: Unit) returns (desktop: VersionCount, mobile: VersionCount, report: Outcome)
    requires |Units(rows, Desktop)| == 2 && forall k :: 0 <= k < |Units(rows, Desktop)| ==> Units(rows, Desktop)[k] == d
    requires |Units(rows, Mobile)| == 1 && forall k :: 0 <= k < |Units(rows, Mobile)| ==> Units(rows, Mobile)[k] == m
    ensures desktop == map[d.version := [VersionInfo(d.os, 2)]]
    ensures mobile == map[m.version := [VersionInfo(m.os, 1)]]
    ensures report == Sections(Found(2), Found(1), 3)
  {
    desktop, mobile := ProcessDatabase(rows);
    ConsolidatedUniform(desktop, Units(rows, Desktop), d);
    ConsolidatedUniform(mobile, Units(rows, Mobile), m);
    report := PrintResults(desktop, mobile);
  }
}
