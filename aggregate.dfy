/**
 * Per-version lists of (OS, count) entries and `aggregateCounts`
 * (main.go:412-424), which merges the entries of each version that share
 * an OS into one entry carrying their summed count.
 */
module Aggregate {
  import opened Wrappers

  datatype VersionInfo = VersionInfo(os: string, count: int)

  /** Go's `VersionCount`: version string to its list of entries. */
  type VersionCount = map<string, seq<VersionInfo>>

  /** Sum of the counts of the entries for `os`. */
  function OsTotal(infos: seq<VersionInfo>, os: string): int
  {
    if infos == [] then 0
    else OsTotal(infos[..|infos| - 1], os) + (if infos[|infos| - 1].os == os then infos[|infos| - 1].count else 0)
  }

  /** Sum of all counts. */
  function Total(infos: seq<VersionInfo>): int
  {
    if infos == [] then 0 else Total(infos[..|infos| - 1]) + infos[|infos| - 1].count
  }

  /** The OS values that occur in the list. */
  function OSes(infos: seq<VersionInfo>): (r: set<string>)
    ensures r == {} <==> infos == []
  {
    var r := set k | 0 <= k < |infos| :: infos[k].os;
    assert infos != [] ==> infos[0].os in r;
    r
  }

  /** At most one entry per OS. */
  predicate Consolidated(infos: seq<VersionInfo>)
  {
    forall i, j :: 0 <= i < j < |infos| ==> infos[i].os != infos[j].os
  }

  /** `c` is a consolidation of `infos`: one entry per OS of `infos`, with the same per-OS sums. */
  ghost predicate IsConsolidationOf(c: seq<VersionInfo>, infos: seq<VersionInfo>)
  {
    && Consolidated(c)
    && OSes(c) == OSes(infos)
    && forall os :: OsTotal(c, os) == OsTotal(infos, os)
  }

  // ---------------------------------------------------------------------
  // Facts about the sums

  lemma {:induction false} OsTotalAppend(a: seq<VersionInfo>, b: seq<VersionInfo>, os: string)
    ensures OsTotal(a + b, os) == OsTotal(a, os) + OsTotal(b, os)
    decreases |b|
  {
    if b != [] {
      assert (a + b)[..|a + b| - 1] == a + b[..|b| - 1];
      OsTotalAppend(a, b[..|b| - 1], os);
    } else {
      assert a + b == a;
    }
  }

  lemma {:induction false} TotalAppend(a: seq<VersionInfo>, b: seq<VersionInfo>)
    ensures Total(a + b) == Total(a) + Total(b)
    decreases |b|
  {
    if b != [] {
      assert (a + b)[..|a + b| - 1] == a + b[..|b| - 1];
      TotalAppend(a, b[..|b| - 1]);
    } else {
      assert a + b == a;
    }
  }

  /** An OS absent from the list sums to zero. */
  lemma {:induction false} OsTotalAbsent(infos: seq<VersionInfo>, os: string)
    requires os !in OSes(infos)
    ensures OsTotal(infos, os) == 0
  {
    if infos != [] {
      var front := infos[..|infos| - 1];
      assert OSes(front) <= OSes(infos) by {
        forall x | x in OSes(front) ensures x in OSes(infos) {
          var k :| 0 <= k < |front| && front[k].os == x;
          assert infos[k].os == x;
        }
      }
      assert infos[|infos| - 1].os in OSes(infos);
      OsTotalAbsent(front, os);
    }
  }

  /** In a consolidated list, the sum for the OS of an entry is that entry's count. */
  lemma OsTotalOfEntry(infos: seq<VersionInfo>, j: nat)
    requires Consolidated(infos) && j < |infos|
    ensures OsTotal(infos, infos[j].os) == infos[j].count
  {
    var os := infos[j].os;
    var rest := infos[..j] + infos[j + 1..];
    ConsolidatedRemove(infos, j);
    OsTotalAbsent(rest, os);
    OsTotalRemove(infos, j, os);
  }

  /** Removing the entry at `j` takes its count off its OS's sum and leaves every other sum alone. */
  lemma {:induction false} OsTotalRemove(infos: seq<VersionInfo>, j: nat, os: string)
    requires j < |infos|
    ensures OsTotal(infos, os)
      == OsTotal(infos[..j] + infos[j + 1..], os) + (if infos[j].os == os then infos[j].count else 0)
  {
    assert infos == infos[..j] + [infos[j]] + infos[j + 1..];
    OsTotalAppend(infos[..j] + [infos[j]], infos[j + 1..], os);
    OsTotalAppend(infos[..j], [infos[j]], os);
    OsTotalAppend(infos[..j], infos[j + 1..], os);
    assert [infos[j]][..0] == [];
  }

  /** Lists with the same per-OS sums over the same OS values have the same total. */
  lemma {:induction false} TotalFromOsTotals(a: seq<VersionInfo>, b: seq<VersionInfo>)
    requires OSes(a) == OSes(b)
    requires forall os :: OsTotal(a, os) == OsTotal(b, os)
    ensures Total(a) == Total(b)
    decreases |OSes(a)|
  {
    if OSes(a) == {} {
    } else {
      var os :| os in OSes(a);
      var a', ta := Without(a, os);
      var b', tb := Without(b, os);
      assert OSes(a') == OSes(a) - {os};
      forall x ensures OsTotal(a', x) == OsTotal(b', x) {
        if x == os {
          OsTotalAbsent(a', x);
          OsTotalAbsent(b', x);
        }
      }
      TotalFromOsTotals(a', b');
    }
  }

  /** The list without the entries for `os`, and what it loses: their count. */
  lemma {:induction false} Without(s: seq<VersionInfo>, os: string) returns (s': seq<VersionInfo>, t: int)
    ensures OSes(s') == OSes(s) - {os}
    ensures t == OsTotal(s, os)
    ensures Total(s) == Total(s') + t
    ensures forall x :: x != os ==> OsTotal(s', x) == OsTotal(s, x)
    decreases |s|
  {
    if s == [] {
      s', t := [], 0;
    } else {
      var front, last := s[..|s| - 1], s[|s| - 1];
      var f', ft := Without(front, os);
      assert OSes(s) == OSes(front) + {last.os} by {
        assert s == front + [last];
        forall x | x in OSes(s) ensures x in OSes(front) + {last.os} {
          var k :| 0 <= k < |s| && s[k].os == x;
          if k < |front| { assert front[k].os == x; }
        }
        forall x | x in OSes(front) ensures x in OSes(s) {
          var k :| 0 <= k < |front| && front[k].os == x;
          assert s[k].os == x;
        }
      }
      if last.os == os {
        s', t := f', ft + last.count;
      } else {
        s', t := f' + [last], ft;
        assert (f' + [last])[..|f' + [last]| - 1] == f';
        assert OSes(s') == OSes(f') + {last.os} by {
          forall x | x in OSes(s') ensures x in OSes(f') + {last.os} {
            var k :| 0 <= k < |s'| && s'[k].os == x;
            if k < |f'| { assert f'[k].os == x; }
          }
          forall x | x in OSes(f') ensures x in OSes(s') {
            var k :| 0 <= k < |f'| && f'[k].os == x;
            assert s'[k].os == x;
          }
          assert s'[|f'|].os == last.os;
        }
      }
    }
  }

  lemma OSesSnoc(s: seq<VersionInfo>, x: VersionInfo)
    ensures OSes(s + [x]) == OSes(s) + {x.os}
  {
    var t := s + [x];
    forall y | y in OSes(t) ensures y in OSes(s) + {x.os} {
      var k :| 0 <= k < |t| && t[k].os == y;
      if k < |s| { assert s[k].os == y; }
    }
    forall y | y in OSes(s) ensures y in OSes(t) {
      var k :| 0 <= k < |s| && s[k].os == y;
      assert t[k].os == y;
    }
    assert t[|s|].os == x.os;
  }

  /** Lists holding the same entries in another order have the same OS values. */
  lemma OSesPerm(a: seq<VersionInfo>, b: seq<VersionInfo>)
    requires multiset(a) == multiset(b)
    ensures OSes(a) == OSes(b)
  {
    forall y | y in OSes(a) ensures y in OSes(b) {
      var k :| 0 <= k < |a| && a[k].os == y;
      assert a[k] in multiset(b);
      var j :| 0 <= j < |b| && b[j] == a[k];
    }
    forall y | y in OSes(b) ensures y in OSes(a) {
      var k :| 0 <= k < |b| && b[k].os == y;
      assert b[k] in multiset(a);
      var j :| 0 <= j < |a| && a[j] == b[k];
    }
  }

  /** Per-OS sums do not depend on the order of the entries. */
  lemma {:induction false} OsTotalPerm(a: seq<VersionInfo>, b: seq<VersionInfo>, os: string)
    requires multiset(a) == multiset(b)
    ensures OsTotal(a, os) == OsTotal(b, os)
    decreases |a|
  {
    if a != [] {
      var n := |a| - 1;
      assert a[n] in multiset(b);
      var j :| 0 <= j < |b| && b[j] == a[n];
      SeqRemove(a, n);
      SeqRemove(b, j);
      assert a[..n] + a[n + 1..] == a[..n];
      OsTotalPerm(a[..n], b[..j] + b[j + 1..], os);
      OsTotalRemove(a, n, os);
      OsTotalRemove(b, j, os);
    } else {
      assert b == [];
    }
  }

  /** Removing one entry from a consolidated list keeps it consolidated and drops exactly its OS. */
  lemma ConsolidatedRemove(s: seq<VersionInfo>, j: nat)
    requires Consolidated(s) && j < |s|
    ensures Consolidated(s[..j] + s[j + 1..])
    ensures OSes(s[..j] + s[j + 1..]) == OSes(s) - {s[j].os}
    ensures multiset(s) == multiset(s[..j] + s[j + 1..]) + multiset{s[j]}
  {
    var s' := s[..j] + s[j + 1..];
    RemoveAt(s, j);
    forall y | y in OSes(s') ensures y in OSes(s) - {s[j].os} {
      var k :| 0 <= k < |s'| && s'[k].os == y;
      if k < j { assert s'[k] == s[k]; } else { assert s'[k] == s[k + 1]; }
    }
    forall y | y in OSes(s) - {s[j].os} ensures y in OSes(s') {
      var k :| 0 <= k < |s| && s[k].os == y;
      assert k != j;
      var k' := if k < j then k else k - 1;
      assert s'[k'] == s[k];
    }
    assert s == s[..j] + [s[j]] + s[j + 1..];
    assert multiset(s) == multiset(s[..j]) + multiset{s[j]} + multiset(s[j + 1..]);
  }

  /** The entries left after removing position `j`, by position. */
  lemma RemoveAt(s: seq<VersionInfo>, j: nat)
    requires j < |s|
    ensures |s[..j] + s[j + 1..]| == |s| - 1
    ensures forall k :: 0 <= k < j ==> (s[..j] + s[j + 1..])[k] == s[k]
    ensures forall k :: j < k < |s| ==> (s[..j] + s[j + 1..])[k - 1] == s[k]
  {
  }

  /** Two consolidated lists with the same OS values and per-OS sums hold the same entries. */
  lemma {:induction false} ConsolidatedDetermined(a: seq<VersionInfo>, b: seq<VersionInfo>)
    requires Consolidated(a) && Consolidated(b) && OSes(a) == OSes(b)
    requires forall os :: OsTotal(a, os) == OsTotal(b, os)
    ensures multiset(a) == multiset(b)
    decreases |a|
  {
    if a != [] {
      var i := |a| - 1;
      var x := a[i];
      assert x.os in OSes(b);
      var j :| 0 <= j < |b| && b[j].os == x.os;
      OsTotalOfEntry(a, i);
      OsTotalOfEntry(b, j);
      assert b[j] == x;
      var a', b' := a[..i] + a[i + 1..], b[..j] + b[j + 1..];
      ConsolidatedRemove(a, i);
      ConsolidatedRemove(b, j);
      forall os ensures OsTotal(a', os) == OsTotal(b', os) {
        OsTotalRemove(a, i, os);
        OsTotalRemove(b, j, os);
      }
      ConsolidatedDetermined(a', b');
    }
  }

  lemma FirstTwoOSes(c: seq<VersionInfo>)
    requires Consolidated(c) && |c| > 1
    ensures c[0].os != c[1].os && c[0].os in OSes(c) && c[1].os in OSes(c)
  {
  }

  /** A consolidated list over a single OS is that OS's one entry, carrying its total. */
  lemma SingleEntry(c: seq<VersionInfo>, os: string)
    requires Consolidated(c) && OSes(c) == {os}
    ensures c == [VersionInfo(os, OsTotal(c, os))]
  {
    assert c[0].os in OSes(c);
    if |c| > 1 {
      FirstTwoOSes(c);
      assert false;
    }
    assert c[..0] == [];
  }

  /** Every two consolidations of the same list hold the same entries: only their order is free. */
  lemma ConsolidationUnique(a: seq<VersionInfo>, b: seq<VersionInfo>, infos: seq<VersionInfo>)
    requires IsConsolidationOf(a, infos) && IsConsolidationOf(b, infos)
    ensures multiset(a) == multiset(b)
  {
    ConsolidatedDetermined(a, b);
  }

  /** Consolidating a consolidated list gives back its entries (idempotence). */
  lemma ConsolidationIdempotent(c: seq<VersionInfo>, infos: seq<VersionInfo>, c2: seq<VersionInfo>)
    requires IsConsolidationOf(c, infos) && IsConsolidationOf(c2, c)
    ensures multiset(c2) == multiset(c)
  {
    ConsolidatedDetermined(c2, c);
  }

  /** Consolidation does not depend on the order in which the entries were appended. */
  lemma ConsolidationOrderIndependent(s: seq<VersionInfo>, t: seq<VersionInfo>, a: seq<VersionInfo>, b: seq<VersionInfo>)
    requires multiset(s) == multiset(t)
    requires IsConsolidationOf(a, s) && IsConsolidationOf(b, t)
    ensures multiset(a) == multiset(b)
  {
    OSesPerm(s, t);
    forall os ensures OsTotal(a, os) == OsTotal(b, os) {
      OsTotalPerm(s, t, os);
    }
    ConsolidatedDetermined(a, b);
  }

  /** Consolidation keeps the total count of a version. */
  lemma ConsolidationTotal(c: seq<VersionInfo>, infos: seq<VersionInfo>)
    requires IsConsolidationOf(c, infos)
    ensures Total(c) == Total(infos)
  {
    TotalFromOsTotals(c, infos);
  }

  // ---------------------------------------------------------------------
  // aggregateCounts

  /** The `osCount` accumulator: each OS of `infos` mapped to its summed count (main.go:414-417). */
  method SumByOs(infos: seq<VersionInfo>) returns (osCount: map<string, int>)
    ensures osCount.Keys == OSes(infos)
    ensures forall os :: os in osCount ==> osCount[os] == OsTotal(infos, os)
  {
    osCount := map[];
    for i := 0 to |infos|
      invariant osCount.Keys == OSes(infos[..i])
      invariant forall os :: os in osCount ==> osCount[os] == OsTotal(infos[..i], os)
    {
      var info := infos[i];
      if info.os !in osCount {
        OsTotalAbsent(infos[..i], info.os);
      }
      var prior := if info.os in osCount then osCount[info.os] else 0;
      osCount := osCount[info.os := prior + info.count];
      assert infos[..i + 1] == infos[..i] + [info];
      OSesSnoc(infos[..i], info);
    }
    assert infos[..|infos|] == infos;
  }

  /**
   * One entry per key of `osCount` (main.go:419-422). Go visits the keys of
   * a map in no specified order; the model picks each next key arbitrarily.
   */
  method EntriesOf(osCount: map<string, int>) returns (infos: seq<VersionInfo>)
    ensures Consolidated(infos) && OSes(infos) == osCount.Keys
    ensures forall k :: 0 <= k < |infos| ==> infos[k].os in osCount && infos[k].count == osCount[infos[k].os]
  {
    infos := [];
    var rest := osCount.Keys;
    while rest != {}
      invariant rest <= osCount.Keys
      invariant OSes(infos) == osCount.Keys - rest
      invariant Consolidated(infos)
      invariant forall k :: 0 <= k < |infos| ==> infos[k].os in osCount && infos[k].count == osCount[infos[k].os]
      decreases rest
    {
      var os :| os in rest;
      OSesSnoc(infos, VersionInfo(os, osCount[os]));
      infos := infos + [VersionInfo(os, osCount[os])];
      rest := rest - {os};
    }
  }

  /** The entries written from the accumulator of `infos` consolidate `infos`. */
  lemma EntriesConsolidate(c: seq<VersionInfo>, osCount: map<string, int>, infos: seq<VersionInfo>)
    requires osCount.Keys == OSes(infos)
    requires forall os :: os in osCount ==> osCount[os] == OsTotal(infos, os)
    requires Consolidated(c) && OSes(c) == osCount.Keys
    requires forall k :: 0 <= k < |c| ==> c[k].os in osCount && c[k].count == osCount[c[k].os]
    ensures IsConsolidationOf(c, infos)
  {
    forall os ensures OsTotal(c, os) == OsTotal(infos, os) {
      if os in OSes(c) {
        var j :| 0 <= j < |c| && c[j].os == os;
        OsTotalOfEntry(c, j);
      } else {
        OsTotalAbsent(c, os);
        OsTotalAbsent(infos, os);
      }
    }
  }

  /**
   * `aggregateCounts`: every version keeps its key, and its list is replaced
   * by one entry per OS carrying the summed count (main.go:412-424).
   * Versions are visited in no specified order.
   */
  method AggregateCounts(vc: VersionCount) returns (r: VersionCount)
    ensures r.Keys == vc.Keys
    ensures forall v :: v in r ==> IsConsolidationOf(r[v], vc[v])
    ensures forall v :: v in r ==> Total(r[v]) == Total(vc[v])
  {
    r := vc;
    var todo := vc.Keys;
    while todo != {}
      invariant todo <= vc.Keys && r.Keys == vc.Keys
      invariant forall v :: v in r && v !in todo ==> IsConsolidationOf(r[v], vc[v])
      invariant forall v :: v in todo ==> r[v] == vc[v]
      decreases todo
    {
      var v :| v in todo;
      var osCount := SumByOs(vc[v]);
      var infos := EntriesOf(osCount);
      EntriesConsolidate(infos, osCount, vc[v]);
      r := r[v := infos];
      todo := todo - {v};
    }
    forall v | v in r ensures Total(r[v]) == Total(vc[v]) {
      ConsolidationTotal(r[v], vc[v]);
    }
  }

  // ---------------------------------------------------------------------
  // Sums over a whole tally

  /** Sum of all counts of all versions. */
  ghost function MapTotal(m: VersionCount): int
    decreases |m|
  {
    if m == map[] then 0
    else
      var v :| v in m;
      assert |m - {v}| < |m| by { assert (m - {v}).Keys == m.Keys - {v}; }
      Total(m[v]) + MapTotal(m - {v})
  }

  /** The sum over a tally may start from any version. */
  lemma {:induction false} MapTotalSplit(m: VersionCount, v: string)
    requires v in m
    ensures MapTotal(m) == Total(m[v]) + MapTotal(m - {v})
    decreases |m|
  {
    var w :| w in m && MapTotal(m) == Total(m[w]) + MapTotal(m - {w});
    if w != v {
      assert (m - {w}).Keys == m.Keys - {w};
      assert (m - {v}).Keys == m.Keys - {v};
      MapTotalSplit(m - {w}, v);
      MapTotalSplit(m - {v}, w);
      assert m - {w} - {v} == m - {v} - {w};
    }
  }

  /** Tallies with the same versions and the same total per version have the same overall sum. */
  lemma {:induction false} MapTotalCongruent(a: VersionCount, b: VersionCount)
    requires a.Keys == b.Keys
    requires forall v :: v in a ==> Total(a[v]) == Total(b[v])
    ensures MapTotal(a) == MapTotal(b)
    decreases |a|
  {
    if a != map[] {
      var v :| v in a;
      MapTotalSplit(a, v);
      MapTotalSplit(b, v);
      assert (a - {v}).Keys == a.Keys - {v};
      MapTotalCongruent(a - {v}, b - {v});
    } else {
      assert b == map[];
    }
  }
}
