# mm-desktop-versions: a verified model of the session tally and the lookup

`mm-desktop-versions` reads the active sessions of a Mattermost server. It
has two modes:

- **Tally mode** reports how many desktop-app and mobile-app clients run
  each app version, on each OS.
- **Lookup mode** lists the desktop-app sessions whose version is at or
  below a given version.

Every session carries a JSON blob of properties: `browser`, `os` and
`isMobile` (and `deviceid`, which is ignored). The row also has its own
`deviceid` column, which replaces the blob's value. A session is classified
as follows:

- It is **mobile** when `isMobile` is `"true"`, or the device id is
  non-empty, or the OS is `Android` or `iOS`.
- Otherwise it is **desktop** when `browser` contains `Desktop App`.
- Otherwise it is unclassified and ignored.

The version is the second piece of `browser` split on `/`, and only when
there are exactly two pieces. Mobile versions are cut before their first
`+`. A desktop version of `0.0` is skipped. A mobile `0.0` is counted, and
the tool only warns about it.

Tally mode builds a map from version to a list of `{OS, 1}` entries. It
then consolidates each list to one entry per OS with the summed count. It
prints each class's section and subtotal and the grand total. When both
maps are empty, it prints a single "No Mattermost Apps Found" line instead.

Lookup mode compares versions numerically as `major.minor.patch` triples,
in lexicographic order. It is fail-open: a desktop version that cannot be
parsed (or a lookup version that cannot be parsed) selects the session.

The model is in nine modules:

- **`Wrappers`**: `Option`, `Result`, and a few sequence helpers.
- **`GoStrings`**: `strings.Split` with a one-character separator, its
  inverse `Join`, and `strings.Contains`.
- **`Strconv`**: `strconv.Atoi` on a 64-bit platform, with the error kinds
  `ErrSyntax` and `ErrRange`. Its partner is `Itoa`.
- **`Versions`**: `splitVersion` and `isOlderOrEqual`.
- **`Clients`**: the classification and version extraction.
- **`Aggregate`**: `aggregateCounts`, as an imperative method with its
  loops over the map and over each list.
- **`Tally`**: the row fold of `processDatabase`, as a loop proved against
  the specification function `Collect`.
- **`Report`**: the totals and section choice of `printResults`, the tally
  run of `main`, and one worked example.
- **`Lookup`**: the row selection of `doLookup`, as a loop proved against
  `Matches`.

Go iterates over a map in no specified order. The model's loops over maps
pick each next key with `:|`. Every result is proved whatever order is
picked.

## Model

| member | source | states |
|---|---|---|
| GoStrings.Split | main.go:126 | `strings.Split` on one char: the piece count is the separator count plus one, no piece contains the separator, and joining the pieces gives back the input |
| GoStrings.SplitJoin | main.go:126 | round trip: splitting the join of separator-free pieces gives back the pieces |
| GoStrings.SplitPrefix | main.go:372-373 | splitting `a + sep + b`, with `a` free of the separator, yields `a` followed by the pieces of `b` |
| GoStrings.Contains | main.go:383 | `strings.Contains` holds iff the substring occurs at some index |
| Strconv.Atoi | main.go:131-143 | success iff the text is an optional sign followed by one or more digits and the value is in int64 range; `ErrRange` iff the leading digit run overflows 64 bits (before any bad character is met) or a well-formed value lies outside int64; `ErrSyntax` in every other malformed case (empty, bare sign, non-digits); the value is the signed decimal value |
| Strconv.AtoiRangeBeforeSyntax | main.go:131-143 | a digit run above 2^64-1 is a range error even when a non-digit follows it |
| Strconv.AtoiTwentyNinesThenLetter | main.go:131-143 | `99999999999999999999x` gives `ErrRange`, not `ErrSyntax` |
| Strconv.AtoiItoa | main.go:131-143 | round trip: every int64 printed in decimal parses back to itself |
| Strconv.AtoiRejectsBareSign | main.go:131-143 | `""`, `"+"` and `"-"` give `ErrSyntax` |
| Strconv.AtoiOverflow | main.go:131-143 | 2^63 is well formed but out of range, so it gives `ErrRange` |
| Versions.SplitVersion | main.go:125-147 | success iff there are exactly three `.`-pieces and each parses; "invalid version format" iff the string does not contain exactly two dots; the triple is the three parsed numbers |
| Versions.SplitFormat | main.go:125-147 | round trip: an int64 triple printed as `a.b.c` splits back to itself |
| Versions.TwoPartsRefused | main.go:127-129 | every `a.b` with integers `a`, `b` written in decimal is refused with "invalid version format" (`SplitVersion`'s own contract refuses every string with one dot) |
| Versions.RefusedShapes | main.go:127-143 | `5.5` is an invalid format; `5..3` fails in `Atoi` with a syntax error |
| Versions.IsOlderOrEqual | main.go:149-177 | fails iff either side fails to split, and the version's own error comes first; otherwise true iff the triple is lexicographically at most the lookup triple |
| Versions.OlderOrEqualReflexive | main.go:149-177 | every parseable version is older than or equal to itself |
| Versions.OlderOrEqualTotal | main.go:149-177 | of two parseable versions, one is older than or equal to the other |
| Versions.OlderOrEqualTransitive | main.go:149-177 | older-or-equal is transitive |
| Versions.OlderOrEqualAntisymmetric | main.go:149-177 | two versions each older than or equal to the other denote the same triple |
| Versions.OlderOrEqualExamples | main.go:160-176 | the triples 5.5.0 ≤ 5.5.3, 5.5.3 ≤ 5.5.3, and 5.6.0 is not ≤ 5.5.3 |
| Versions.FormatVersionExamples | main.go:125-147 | the triples above are written `5.5.0`, `5.5.3` and `5.6.0` |
| Versions.OlderOrEqualTexts | main.go:149-177 | on the texts themselves: `isOlderOrEqual("5.5.0","5.5.3")` and `("5.5.3","5.5.3")` are true, `("5.6.0","5.5.3")` is false |
| Clients.Classify | main.go:369-383 | mobile iff a mobile signal is present (`isMobile` is `"true"`, a device id, or OS `Android`/`iOS`); desktop iff there is no mobile signal and the browser contains `Desktop App`; otherwise unclassified |
| Clients.DesktopVersion | main.go:384-391 | a desktop version exists only for a browser with exactly one `/`; it is never `0.0`, and the browser ends with `/` and the version |
| Clients.MobileVersion | main.go:370-373 | a mobile version exists iff the browser has exactly one `/`; it contains neither `/` nor `+` |
| Clients.DesktopVersionOf | main.go:384-391 | `name/v` yields desktop version `v`, except that `name/0.0` yields none |
| Clients.MobileVersionOf | main.go:370-377 | `name/v` and `name/v+build` both yield mobile version `v`; `0.0` is kept |
| Clients.NoVersionWithoutOneSlash | main.go:369-397 | a browser without exactly one `/` yields no version of either class |
| Tally.Decoded | main.go:361-367 | a row decodes iff its JSON decodes; the decoded props carry the row's `deviceid` column and are otherwise the blob's |
| Tally.UnitOf | main.go:361-397 | the per-row step of `processDatabase`: a unit only for a decoded row of its own class, never for an unclassified one, on the row's OS, under the class's extracted version; a desktop row with a desktop version, and a mobile row with exactly one `/`, always yield a unit |
| Tally.UnitOfDesktopRow | main.go:383-395 | every desktop session with browser `name/v` is counted under `v` on its OS, except that `v = 0.0` is not counted |
| Tally.UnitOfMobileRow | main.go:369-381 | every mobile session with browser `name/v` or `name/v+build` is counted under `v` on its OS, `0.0` included |
| Tally.ClassificationRule | main.go:369-397 | a row with a mobile signal is never a desktop unit; a desktop unit has no mobile signal and contains `Desktop App`; an undecodable or unclassified row is a unit of neither class; no row is a unit of both |
| Tally.CollectKeys | main.go:378-395 | a version is a key of the raw tally iff some counted row carries it |
| Tally.CollectCounts | main.go:378-395 | in the raw tally, every entry has count 1, and the entries for a version and OS sum to the number of rows counted with that version and OS |
| Tally.CollectMapTotal | main.go:378-395 | the raw tally's counts sum to the number of counted rows |
| Tally.UnitsPerm | main.go:344-398 | rows in another order yield the same multiset of counted units |
| Tally.TallyOrderIndependent | main.go:344-398 | rows in another order give a raw tally with the same versions and the same per-OS counts |
| Tally.SameVersions | main.go:378-395 | units in another order give a raw tally with the same versions |
| Tally.ScanRows | main.go:341-398 | the row loop builds exactly the raw tally of the units of its class, for desktop and for mobile |
| Tally.CollectStep | main.go:361-397 | one more row extends the raw tally of a class by exactly that row's `UnitOf` unit, and leaves it unchanged when the row has none |
| Tally.ProcessDatabase | main.go:341-409 | the result has the raw tally's versions; each list is a consolidation of the raw list; each per-OS count equals the number of rows with that version and OS; each map's total equals the number of rows counted for its class |
| Tally.ConsolidatedCounts | main.go:406-409 | a consolidated tally counts, per version and OS, the rows it was built from, and its total is their number |
| Aggregate.OsTotalAppend | main.go:415-417 | per-OS sums add over concatenation |
| Aggregate.TotalAppend | main.go:434-436 | totals add over concatenation |
| Aggregate.OsTotalOfEntry | main.go:420-422 | in a consolidated list, an entry's count is the total for its OS |
| Aggregate.TotalFromOsTotals | main.go:412-424 | two lists with the same OSes and the same per-OS sums have the same total |
| Aggregate.ConsolidatedDetermined | main.go:420-422 | two consolidated lists with the same OSes and per-OS sums are permutations of each other |
| Aggregate.ConsolidationUnique | main.go:412-424 | any two consolidations of a list differ only in order, so map order changes only the order of entries |
| Aggregate.ConsolidationIdempotent | main.go:412-424 | consolidating a consolidated list changes nothing but order |
| Aggregate.ConsolidationOrderIndependent | main.go:412-424 | lists with the same entries in another order consolidate to the same entries |
| Aggregate.ConsolidationTotal | main.go:412-424 | consolidation keeps the total count |
| Aggregate.OsTotalPerm | main.go:415-417 | a per-OS sum does not depend on entry order |
| Aggregate.SumByOs | main.go:414-417 | `osCount` has exactly the OSes of the list, each mapped to its summed count |
| Aggregate.EntriesOf | main.go:419-422 | the rebuilt list has one entry per key of `osCount`, with that key's count |
| Aggregate.EntriesConsolidate | main.go:414-422 | the rebuilt list is a consolidation of the original list |
| Aggregate.AggregateCounts | main.go:412-424 | same versions; every list is replaced by a consolidation of itself; every version's total is unchanged |
| Aggregate.MapTotalSplit | main.go:433-437 | a map's total is one version's total plus the total of the rest, whichever version is taken first |
| Aggregate.MapTotalCongruent | main.go:433-437 | maps with the same versions and per-version totals have the same total |
| Report.SumClients | main.go:433-442 | the nested loops sum every count of every version, in any map order |
| Report.PrintResults | main.go:426-475 | "No Mattermost Apps Found" iff both maps are empty; otherwise each class shows its subtotal when its map is non-empty and its "No ... Found" line when it is empty, and the grand total is the sum of both subtotals |
| Report.CollectEmpty | main.go:427-428 | a raw tally is empty iff no row was counted |
| Report.Run | main.go:525-531 | tally then report: no apps iff no row is counted in either class; each subtotal is the number of rows counted for its class |
| Report.ScenarioDesktopRow | main.go:383-395 | a `Mattermost Desktop App/5.5.0` session on Windows is a desktop unit of 5.5.0 on Windows, and no mobile unit |
| Report.ScenarioMobileRow | main.go:369-381 | a `Mattermost Mobile/5.5.3` session flagged mobile on Mac OS is a mobile unit of 5.5.3 on Mac OS, and no desktop unit |
| Report.ScenarioDesktopUnits | main.go:344-398 | two desktop sessions and one mobile session give two desktop units |
| Report.ScenarioMobileUnits | main.go:344-398 | the same sessions give one mobile unit |
| Report.ConsolidatedUniform | main.go:412-424 | a consolidated tally of `n` copies of one (version, OS) unit is exactly that version mapped to the single entry `{OS, n}` |
| Report.TallyTwoAndOne | main.go:406-475 | rows that give two equal desktop units and one mobile unit tally to one `{OS, 2}` desktop entry and one `{OS, 1}` mobile entry, with totals 2, 1 and 3 |
| Report.Scenario | main.go:406-475 | the worked example: the desktop map is exactly `5.5.0 -> [{Windows, 2}]`, the mobile map exactly `5.5.3 -> [{Mac OS, 1}]`, and the totals are 2, 1 and 3 |
| Lookup.Selection | main.go:238-266 | the per-row decision of `doLookup`: only decoded rows without a mobile signal are selected, with their own user id and never with version `0.0`; `Lookup.SelectionRule`, `Lookup.SelectionFailOpen` and `Lookup.SelectionIsDesktop` state the full rule |
| Lookup.NoSlashNoSelection | main.go:246-266 | a session whose browser does not have exactly one `/` is counted in neither tally and never selected by lookup |
| Lookup.SelectionIsDesktop | main.go:246-266 | a selected row is a desktop row that the tally counts under the same version and OS; a row the mobile tally counts is never selected |
| Lookup.SelectionRule | main.go:248-268 | a counted desktop row is selected iff comparing its version does not give a definite "newer"; with both versions parseable, iff its triple is at most the lookup triple |
| Lookup.SelectionFailOpen | main.go:261-265 | when either version fails to parse, the row is selected |
| Lookup.SelectionMonotone | main.go:246-266 | raising the lookup version never drops a selected row |
| Lookup.DoLookup | main.go:220-268 | the row loop returns exactly the selected rows, in row order |
| Lookup.MatchesSelected | main.go:220-268 | a match is returned iff some row selects it |
| Lookup.MatchesBounded | main.go:220-268 | lookup returns no more rows than the desktop tally counts |

## Left out

- Reading the configuration (`loadConfig`) is external I/O and is left out. So are opening the database (`connectDatabase`), flag parsing and exit codes in `main` (main.go:82-123, 477-533), and the unsupported-database-type path of `connectDatabase`, which returns no handle and no error.
- The SQL queries and the clock are left out. A session row is given to the model already filtered to non-empty, unexpired props.
- Cursor errors are left out. A `rows.Scan` error aborts both `processDatabase` and `doLookup` with an error. `rows.Err` is checked only by `processDatabase` (main.go:400-404), which then aborts. In `doLookup` an iteration failure just ends the `rows.Next()` loop, and the function returns no error (main.go:220, 318).
- `json.Unmarshal` is not modelled as a parser. A row's props are `Option<Props>`, and `None` stands for a blob that does not decode; such a row is skipped, as in the source.
- Missing JSON fields decode to `""` in Go. The model's `Props` simply holds the strings.
- The user query and the CSV writing of `doLookup` (main.go:179-200, 269-313) are I/O. A selected session is modelled as a `Match` carrying its version, OS and user id.
- `LogMessage`, `DebugPrint` and the warning for a mobile `0.0` version only write log lines. They do not change any result.
- The text that `printResults` prints is left out: its `Printf` formatting and the per-entry listing lines. The model's `Outcome` records which sections appear and their subtotals.
- Aggregate.AggregateCounts: the Go function rewrites the lists of the caller's map in place. The model returns the new map as a value, so aliasing of that map is not captured.
- Integer counts and sums are unbounded in the model. Go's `int` could overflow only beyond 2^63 sessions.
- Clients.MobileVersion: the mobile version is the second of exactly two `/`-pieces, as the code does (main.go:370-373). A browser with more than one `/` yields no mobile version: `App/a/5.5.3` is not counted, although taking the last piece would give `5.5.3`.
