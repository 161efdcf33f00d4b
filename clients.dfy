/**
 * Telling desktop from mobile clients and reading the app version out of
 * the `browser` property (main.go:246-266 and main.go:369-397).
 */
module Clients {
  import opened Wrappers
  import opened GoStrings

  /** The decoded session properties. `deviceId` is always replaced by the row's own column. */
  datatype Props = Props(browser: string, os: string, isMobile: string, deviceId: string)

  datatype ClientClass = Mobile | Desktop | Unclassified

  /** The marker that identifies a desktop app in the browser string. */
  const DesktopMarker: string := "Desktop App"

  /** The placeholder version of an unrecognised app. */
  const Placeholder: string := "0.0"

  /** Any of the signals that mark a session as coming from a mobile app. */
  predicate MobileSignal(p: Props)
  {
    p.isMobile == "true" || p.deviceId != "" || p.os == "Android" || p.os == "iOS"
  }

  /** Mobile signals are tested first; only then the desktop marker. */
  function Classify(p: Props): (r: ClientClass)
    ensures r == Mobile <==> MobileSignal(p)
    ensures r == Desktop <==> !MobileSignal(p) && Contains(p.browser, DesktopMarker)
  {
    if MobileSignal(p) then Mobile
    else if Contains(p.browser, DesktopMarker) then Desktop
    else Unclassified
  }

  /** `browser` ends with `/` followed by `v`. */
  predicate EndsWithSlash(browser: string, v: string)
  {
    |v| < |browser| && browser[|browser| - |v| - 1..] == ['/'] + v
  }

  /**
   * The version a desktop row is counted under: the second of exactly two
   * `/`-pieces, unless it is the placeholder "0.0".
   */
  function DesktopVersion(browser: string): (r: Option<string>)
    ensures r.Some? ==> CountChar(browser, '/') == 1 && r.value != Placeholder
    ensures r.Some? ==> EndsWithSlash(browser, r.value)
  {
    var parts := Split(browser, '/');
    if |parts| == 2 && parts[1] != Placeholder then
      TwoPieces(browser, '/');
      assert browser[|browser| - |parts[1]| - 1..] == ['/'] + parts[1];
      Some(parts[1])
    else None
  }

  /**
   * The version a mobile row is counted under: the second of exactly two
   * `/`-pieces, cut before its first `+`. The placeholder is kept.
   */
  function MobileVersion(browser: string): (r: Option<string>)
    ensures r.Some? <==> CountChar(browser, '/') == 1
    ensures r.Some? ==> '/' !in r.value && '+' !in r.value
  {
    var parts := Split(browser, '/');
    if |parts| == 2 then Some(Split(parts[1], '+')[0]) else None
  }

  /** `name/v` is counted for a desktop app under `v`, unless `v` is the placeholder. */
  lemma DesktopVersionOf(name: string, v: string)
    requires '/' !in name && '/' !in v
    ensures DesktopVersion(name + "/" + v) == if v == Placeholder then None else Some(v)
  {
    SplitJoin([name, v], '/');
    assert Join([name, v], '/') == name + "/" + v;
  }

  /** `name/v` and `name/v+build` are both counted for a mobile app under `v`, placeholder or not. */
  lemma MobileVersionOf(name: string, v: string, build: string)
    requires '/' !in name && '/' !in v && '+' !in v && '/' !in build
    ensures MobileVersion(name + "/" + v) == Some(v)
    ensures MobileVersion(name + "/" + v + "+" + build) == Some(v)
  {
    SplitJoin([name, v], '/');
    assert Join([name, v], '/') == name + "/" + v;
    SplitFree(v, '+');
    var rest := v + "+" + build;
    assert '/' !in rest;
    SplitJoin([name, rest], '/');
    assert Join([name, rest], '/') == name + "/" + v + "+" + build;
    SplitPrefix(v, build, '+');
    assert v + ['+'] + build == rest;
  }

  /** Without exactly one `/`, neither kind of app yields a version. */
  lemma NoVersionWithoutOneSlash(browser: string)
    requires CountChar(browser, '/') != 1
    ensures DesktopVersion(browser) == None && MobileVersion(browser) == None
  {
  }
}
