# Network security dashboard — data preparation, modelled in Dafny

The dashboard shows intrusion-detection alerts: four summary counters, four
bar/doughnut charts and a searchable, sortable, paged table. Everything it
draws is computed by small data-preparation steps in its components before
the arrays reach the charting library. This project models those steps and
proves what they compute:

- **The alert table** (`AlertTable`, `alert_table.dfy`). It has a substring
  search over five fields, a sort by a chosen field and direction, and
  ten-per-page slicing. Its state — the search term, the page, the sort
  field and the sort direction — is the class `TableState`. The class's
  methods are the sort menu, the search box and the Previous/Next buttons.
- **The three count-by-key charts** (`Counting`, `counting.dfy`, used by
  `TopAttackersChart`, `AlertCategoryChart` and `TargetedPortsChart`). Each
  one runs a `forEach` loop filling a plain object with counts (the method
  `Counting.CountBy`). It then takes `Object.entries` in the key order
  JavaScript prescribes (array-index keys ascending, then the other keys in
  insertion order) and stable-sorts by count, largest first. The
  top-attackers and targeted-ports charts also keep the first ten. The ports
  chart labels each port with a fixed service-name table or `Port N`.
- **The severity histogram** (`AlertSeverityChart`). It is a four-slot
  array incremented in place, with the index clamped into 0..3.
- **The sample-data generator** (`DataUtils`). A loop pushes 200 records
  built from fixed value lists, then the records are sorted newest first.
- **The four summary counters** of the page (`Dashboard`), and how they
  agree with the charts.

Shared pieces:

- `Seqs`: `filter`, `slice`, sums and set sizes.
- `Sorting`: a stable sort by a comparator, with its permutation, order and
  stability lemmas. `Array.prototype.sort` is stable.
- `Text`: `toLowerCase`, `includes`, number ↔ decimal string, array-index
  keys, and the string order.
- `Alerts`: the alert record and the severity labels.

Timestamps are integer milliseconds since the epoch. Each chart's early
return on empty data is the `None` case of its result.

## Model

| member | source | states |
|---|---|---|
| Alerts.SeverityLabel | components/alert-table.tsx:77-90 | the label is "Unknown" exactly when the severity is not 1-4 |
| Alerts.SeverityLabelInjective | components/alert-table.tsx:77-82 | severities 1-4 get four different labels |
| Text.IncludesIsSubstring | components/alert-table.tsx:33-37 | `includes` holds exactly when the needle occurs at some position |
| Text.IncludesEmpty | components/alert-table.tsx:31-38 | every string includes the empty term |
| Text.NumberRoundTrip | components/targeted-ports-chart.tsx:44 | `Number(String(n)) == n` for every integer port |
| Text.IntToStringInjective | components/targeted-ports-chart.tsx:29-36 | distinct ports get distinct object keys |
| Text.IntToStringIsIndex | components/targeted-ports-chart.tsx:39 | a port in [0, 2^32 - 2] is an array-index key |
| Text.NonDigitIsNotIndex | components/top-attackers-chart.tsx:41 | a key with a non-digit (an IP's dot) is not an array index |
| Text.LexLeTotal | components/alert-table.tsx:53 | any two strings are ordered one way or the other |
| Text.LexLeTransitive | components/alert-table.tsx:53 | the string order is transitive |
| Text.LexLeAntisymmetric | components/alert-table.tsx:53 | strings ordered both ways are equal |
| Seqs.FilterIsSubsequence | components/alert-table.tsx:31 | `filter` keeps an order-preserving subsequence |
| Seqs.FilterCounts | components/alert-table.tsx:31 | `filter` keeps as many copies of a satisfying element as the input has, and none of any other |
| Seqs.Slice | components/alert-table.tsx:58 | `slice` with in-range bounds is the sub-sequence between them, and empty from past the end |
| Seqs.Take | components/top-attackers-chart.tsx:43 | `slice(0, k)` is the first `min(k, n)` elements |
| Seqs.DistinctBound | app/page.tsx:38-39 | a `Set` of mapped values has at most as many elements as the list, and at least one when the list is non-empty |
| Sorting.StableSortCorrect | components/top-attackers-chart.tsx:42 | for a consistent comparator the result is sorted, a permutation of the input, and keeps equal elements in input order |
| Sorting.SortedUnique | components/alert-table.tsx:40 | when only identical elements compare equal, two sorted arrangements of the same elements are the same sequence |
| Sorting.StableKeepsOrder | components/top-attackers-chart.tsx:41-42 | any order the input had among equal elements survives the stable sort |
| AlertTable.MatchesMeaning | components/alert-table.tsx:31-38 | an alert passes the search exactly when the term occurs in the source or destination IP or the port's decimal string, case-sensitively, or in the category or protocol, case-insensitively |
| AlertTable.FilteredDataCorrect | components/alert-table.tsx:31-38 | the filtered list is an order-preserving subsequence of the data, holds only matching alerts, keeps every copy of each matching alert the data holds (same multiset count) and no copy of any other, and is the whole data for the empty term |
| AlertTable.LocaleCompareMeaning | components/alert-table.tsx:53 | the string comparison is 0 exactly for equal strings, not positive exactly when the first comes first, and antisymmetric |
| AlertTable.SortLeMeaning | components/alert-table.tsx:40-54 | the comparator orders by the field's key: the instant, the number, or the lower-cased text; ascending for `asc` and descending for `desc` |
| AlertTable.TieMeansSameKey | components/alert-table.tsx:40-54 | two alerts compare equal exactly when their keys are equal |
| AlertTable.SortLeIsPreorder | components/alert-table.tsx:40-54 | for every field and direction the comparator is a total preorder |
| AlertTable.SortedDataCorrect | components/alert-table.tsx:40-54 | the sorted copy is a permutation of the filtered list, non-decreasing (`asc`) or non-increasing (`desc`) in the key, and alerts with equal keys keep their filtered order |
| AlertTable.DirectionReverses | components/alert-table.tsx:40-54 | when no two different filtered alerts share the sort key, the descending table is exactly the ascending table read backwards |
| AlertTable.TotalPagesIsCeiling | components/alert-table.tsx:56 | the page count is `ceil(n / 10)`, and 0 exactly when nothing matches |
| AlertTable.PageOfCorrect | components/alert-table.tsx:56-58 | page p ≥ 1 is `sorted[(p-1)*10 .. min(p*10, n))`, holds at most 10 alerts, is empty past the end, and is non-empty for every p in 1..page count; page 0 is empty |
| AlertTable.SortAfterClickProperties | components/alert-table.tsx:60-67 | clicking the current field flips only the direction, so two clicks restore it; another field is selected descending |
| AlertTable.NavigationStaysInRange | components/alert-table.tsx:177-186 | Previous never goes below 1 and Next never past the page count, so a page in [1, page count] stays there |
| AlertTable.TableState.constructor | components/alert-table.tsx:25-28 | the table starts with no search, on page 1, newest first, with the invariant `Valid` (page at least 1) established |
| AlertTable.TableState.HandleSort | components/alert-table.tsx:60-67 | the new field and direction are `SortAfterClick` of the old ones; the search and the page are kept; `Valid` is preserved |
| AlertTable.TableState.SetSearchTerm | components/alert-table.tsx:103-106 | the new term is stored and the page goes back to 1; the sort is kept; `Valid` is preserved |
| AlertTable.TableState.GoToPreviousPage | components/alert-table.tsx:167-179 | callable only while the button is shown (more than one page) and enabled (not on page 1); the page becomes `max(1, page - 1)`; nothing else changes; `Valid` is preserved |
| AlertTable.TableState.GoToNextPage | components/alert-table.tsx:167-188 | callable only while the button is shown (more than one page) and enabled (not on the last page); the page becomes `min(page count, page + 1)`, stays in [1, page count] when it was there, and `Valid` (page at least 1) is preserved; nothing else changes |
| AlertTable.ViewCorrect | components/alert-table.tsx:31-58 | the table body shows at most 10 alerts on a page ≥ 1, each of them an alert of the data that passes the search |
| AlertSeverityChart.Bucket | components/alert-severity-chart.tsx:32 | the slot is in 0..3: severity ≤ 1 goes to slot 0, ≥ 4 to slot 3, and severity s in 1..4 to slot s - 1 |
| AlertSeverityChart.BuildSeverityCounts | components/alert-severity-chart.tsx:27-34 | the in-place counting loop yields nothing for no data, else the four per-slot counts |
| AlertSeverityChart.BucketsSum | components/alert-severity-chart.tsx:31-34 | the four slot counts add up to the number of alerts |
| AlertSeverityChart.BucketCountsSeverity | components/alert-severity-chart.tsx:31-34 | with every severity in 1..4, slot s - 1 counts exactly the alerts of severity s |
| AlertSeverityChart.SeverityCountsCorrect | components/alert-severity-chart.tsx:29-34 | with data there are exactly four counts, summing to the number of alerts, and count s - 1 is the number of alerts of severity s when all severities are in 1..4 |
| AlertSeverityChart.LabelsMatchTable | components/alert-severity-chart.tsx:36 | slot s - 1 carries the label the table gives severity s |
| Counting.FirstSeen | components/top-attackers-chart.tsx:33-35 | the object's key order has no repeats and holds exactly the keys that occur |
| Counting.FirstSeenSize | components/top-attackers-chart.tsx:30-38 | the object has one key per distinct value |
| Counting.FirstSeenOrder | components/top-attackers-chart.tsx:33-35 | keys are listed in the order of their first occurrence |
| Counting.Tally | components/top-attackers-chart.tsx:30-38 | the object's keys are exactly the values that occur |
| Counting.TallyCounts | components/top-attackers-chart.tsx:30-38 | after the loop each key's count is its number of occurrences |
| Counting.CountBy | components/top-attackers-chart.tsx:30-38 | the `forEach` loop builds exactly `Tally(keys)` with key order `FirstSeen(keys)` |
| Counting.CountAndSort | components/top-attackers-chart.tsx:30-42 | counting then sorting the entries yields `SortedCounts(keys)` |
| Counting.ObjectEntriesPermutes | components/top-attackers-chart.tsx:41 | `Object.entries` lists every `[key, count]` pair once, in some order |
| Counting.ObjectEntriesInsertionOrder | components/alert-category-chart.tsx:41 | with no array-index key, `Object.entries` follows insertion order |
| Counting.ObjectEntriesAscending | components/targeted-ports-chart.tsx:39 | with only array-index keys, `Object.entries` is in ascending numeric order |
| Counting.CountEntriesCorrect | components/top-attackers-chart.tsx:41 | the entries hold each distinct key once with its number of occurrences, and the counts sum to the number of keys |
| Counting.SortedCountsCorrect | components/alert-category-chart.tsx:41 | sorted by count the entries still hold each key once with its count, summing to the number of keys, non-increasing, and with equal counts in entry order |
| Counting.TopCountsCorrect | components/top-attackers-chart.tsx:41-43 | the top k has `min(k, distinct keys)` entries, each a distinct occurring key with its count, non-increasing, summing to at most the number of keys, and to all of them when at most k keys occur |
| Counting.TopCountsLeftOut | components/top-attackers-chart.tsx:42-43 | a key left out of the top k means the top is full and the key occurs no more often than the last key kept |
| Counting.SumOfCountsOf | components/top-attackers-chart.tsx:46 | the chart's `data` array adds up to the counts of the entries it is projected from |
| Counting.KeysOf | components/top-attackers-chart.tsx:45 | the labels are the entries' keys, index by index |
| Counting.CountsOf | components/top-attackers-chart.tsx:46 | the counts are the entries' counts, index by index |
| Counting.TiesInFirstSeenOrder | components/alert-category-chart.tsx:30-41 | for non-index keys, entries with equal counts stay in first-seen order |
| Counting.TiesInAscendingOrder | components/targeted-ports-chart.tsx:39-40 | for array-index keys, entries with equal counts stay in ascending numeric order |
| Counting.TopTiesInAscendingOrder | components/targeted-ports-chart.tsx:39-41 | among the top k array-index keys, tied entries have distinct keys in ascending numeric order |
| TopAttackersChart.SourceIps | components/top-attackers-chart.tsx:32-37 | the keys the loop visits are the alerts' source IPs, in data order |
| TopAttackersChart.BuildTopAttackers | components/top-attackers-chart.tsx:27-46 | the chart's effect yields nothing for no data, else the labels and counts of the ten most frequent IPs |
| TopAttackersChart.TopAttackersCorrect | components/top-attackers-chart.tsx:41-46 | labels and counts are aligned, `min(10, distinct IPs)` long, each label an occurring IP with its number of alerts, no IP twice, counts non-increasing |
| TopAttackersChart.TopAttackersSum | components/top-attackers-chart.tsx:41-43 | the chart's `data` array sums to at most the number of alerts, and to exactly that with at most ten IPs |
| TopAttackersChart.TopAttackersLeftOut | components/top-attackers-chart.tsx:42-43 | an IP not shown has no more alerts than the tenth IP shown |
| TopAttackersChart.TopAttackersTieOrder | components/top-attackers-chart.tsx:30-42 | IPs shown with equal counts appear in the order of their first alert |
| AlertCategoryChart.BuildCategoryCounts | components/alert-category-chart.tsx:27-44 | the chart's effect yields nothing for no data, else the labels and counts of every category, sorted by count |
| AlertCategoryChart.CategoryCountsCorrect | components/alert-category-chart.tsx:30-44 | one bar per distinct category, none missing and none twice, aligned labels and counts, each its number of alerts, non-increasing, and the chart's `data` array sums to the number of alerts |
| AlertCategoryChart.CategoryTieOrder | components/alert-category-chart.tsx:30-41 | categories with equal counts appear in the order of their first alert |
| TargetedPortsChart.DecimalKeys | components/targeted-ports-chart.tsx:32-36 | the object keys are the ports' decimal strings, in data order |
| TargetedPortsChart.PortLabel | components/targeted-ports-chart.tsx:45-66 | the 18 listed ports get their service name; every other port gets `Port N` |
| TargetedPortsChart.FallbackReadsBack | components/targeted-ports-chart.tsx:66 | a `Port N` label reads back as port N |
| TargetedPortsChart.PortLabelInjective | components/targeted-ports-chart.tsx:45-66 | distinct ports get distinct labels |
| TargetedPortsChart.KeyCount | components/targeted-ports-chart.tsx:29-37 | a port's key occurs as often as the port |
| TargetedPortsChart.DistinctKeyCount | components/targeted-ports-chart.tsx:29-37 | there are as many distinct keys as distinct ports |
| TargetedPortsChart.KeyReadsBack | components/targeted-ports-chart.tsx:44 | `Number(key)` of every key is a port of the data, whose key it is |
| TargetedPortsChart.BuildTargetedPorts | components/targeted-ports-chart.tsx:27-69 | the chart's effect yields nothing for no data, else the labels and counts of the ten most targeted ports |
| TargetedPortsChart.TargetedPortsCorrect | components/targeted-ports-chart.tsx:39-69 | labels and counts are aligned, `min(10, distinct ports)` long, each bar an occurring port labelled by `PortLabel` with its number of alerts, no port twice, counts non-increasing |
| TargetedPortsChart.TargetedPortsSum | components/targeted-ports-chart.tsx:39-41 | the chart's `data` array sums to at most the number of alerts, and to exactly that with at most ten distinct ports |
| TargetedPortsChart.TargetedPortsLeftOut | components/targeted-ports-chart.tsx:40-41 | a port not shown has no more alerts than the tenth port shown |
| TargetedPortsChart.ShownPortKey | components/targeted-ports-chart.tsx:39-44 | for non-negative ports, the numeric value of each kept key is the port shown |
| TargetedPortsChart.ShownTieOrder | components/targeted-ports-chart.tsx:39-44 | for ports in [0, 2^32 - 2], two shown ports with equal counts are in strictly ascending order |
| TargetedPortsChart.TargetedPortsTieOrder | components/targeted-ports-chart.tsx:39-41 | ports shown with equal counts appear in ascending port order |
| DataUtils.MakeAlertInDomain | lib/data-utils.ts:53-63 | every pushed record takes its fields from the lists, has destination 138.68.3.71, severity 1-4 and an instant in the window |
| DataUtils.DrawFor | lib/data-utils.ts:13-62 | every record of that domain is produced by some valid draw |
| DataUtils.DomainIsReachable | lib/data-utils.ts:13-63 | a record is in the domain exactly when some valid draw produces it |
| DataUtils.Generated | lib/data-utils.ts:52-64 | the loop pushes one record per draw, in draw order |
| DataUtils.ParseLogData | lib/data-utils.ts:5-67 | the generator returns `SampleData(draws)`: the pushed records, stably sorted newest first |
| DataUtils.NewestFirstIsPreorder | lib/data-utils.ts:67 | the newest-first comparator is a total preorder |
| DataUtils.SampleDataCorrect | lib/data-utils.ts:52-67 | exactly 200 records, a permutation of those generated, all in the domain, non-increasing by instant, equal instants in generation order |
| Dashboard.InitialCounters | app/page.tsx:17-39 | before loading, all four counters are 0 |
| Dashboard.CountersBounded | app/page.tsx:36-39 | critical alerts, attackers and targets never exceed the total; with data there is at least one attacker and one target |
| Dashboard.CriticalIsSeverityOne | app/page.tsx:37 | the critical counter counts exactly the alerts of severity 1 |
| Dashboard.CriticalMatchesSeverityChart | app/page.tsx:37 | with severities in 1..4, the critical counter equals the severity chart's "Critical" bar |
| Dashboard.AttackersMatchChart | app/page.tsx:38 | the top-attackers chart shows `min(10, attackers)` bars |
| Dashboard.TargetsMatchChart | app/page.tsx:39 | the targeted-ports chart shows `min(10, targets)` bars |
| Dashboard.SampleCounters | app/page.tsx:36-39 | on the generated sample: 200 alerts, at most 11 attackers, at most 20 targets |

## Left out

- Chart.js: creating and destroying charts, colours and options. The charts
  are modelled up to the `labels` and `data` arrays they are given. The
  `chartRef.current` guard is not modelled; only the empty-data return is.
- JSX and markup: badge colours and the "Showing X–Y" line. The
  Previous/Next buttons' visibility and disabled flags are kept, as the
  preconditions of `GoToPreviousPage` and `GoToNextPage`.
- The `data` prop can change while the table keeps its page. The model
  passes the data to each call, so the page may then lie past the new page
  count; `PageOfCorrect` states that such a page is empty.
- The alerts-over-time chart and the client clock are not part of this
  model. They depend on local-time `Date` getters, re-parsing formatted
  strings, and timers.
- The loading delay, the loading flag and the error path of the page's data
  fetch. `Dashboard.InitialLogData` is the empty list the page starts with.
- `Math.random` and floating point. Each iteration's random values are a
  `DataUtils.Draw`, already scaled to list indices, a severity step and a
  millisecond offset.
- `Date` parsing and ISO formatting. Instants are integer milliseconds, so
  `new Date(a.timestamp).getTime()` is the integer itself.
- DataUtils.SampleDataCorrect: the instant is proved to lie in
  [StartTime, EndTime], closed at the end, rather than [start, end). The
  product `Math.random() * window` always stays below the window, but
  adding it to the start instant rounds in floating point: doubles near
  1.5e12 are 2^-12 apart, so a product within 2^-13 of the window gives
  exactly the end instant. So `ValidDraw` allows the offset to equal the
  window.
- `localeCompare` is locale-dependent. It is modelled as code-point order
  on the lower-cased strings (`Text.LexLe`): strings are compared character
  by character, by Unicode scalar value. On lower-case strings made only of
  ASCII letters, digits, spaces, `-` and `.`, the root collation ranks these
  characters in the same order (space, `-`, `.`, digits, letters), so both
  orders agree. That covers every IP, protocol and category of the
  generated data. On other strings the model does not capture the
  collation:
  - Accented and other non-ASCII letters sort after every ASCII letter in
    the model. A collation puts "é" between "e" and "f".
  - ASCII punctuation and symbols such as `_`, `~` and `{` sort after
    digits (and `{`, `~` after letters) in the model. A collation puts
    them before digits.
  - A collation returns 0 for distinct but canonically equivalent strings,
    e.g. a precomposed "é" and "e" followed by a combining accent. The
    model orders them and never counts them as ties, so the table's tie
    order and stability for such strings are not modelled.
  - Characters above U+FFFF are ordered by scalar value, not as UTF-16
    surrogate pairs.
- The `number` fields `severity`, `dest_port` and the instant are modelled
  as unbounded integers. Fractional or NaN values are not modelled. A
  severity of 2.5, for instance, would increment a non-existent slot of the
  severity counters and miss all four. The range is not modelled either:
  integers above 2^53 cannot be stored exactly in a double, and `String(n)`
  switches to exponent notation ("1e+21") from 10^21. So `Text.IntToString`,
  the port's search string and the `Port N` label agree with the source
  only for magnitudes up to 2^53.
- `toLowerCase` maps only ASCII letters. Unicode case mapping is not
  modelled.
- The in-place `sort` of the generator and `[...filteredData].sort` of the
  table are library calls. They are modelled by reassigning the stably
  sorted sequence (`Sorting.StableSort`), not by an in-place algorithm on an
  array. Their results are equal: a stable sort by a consistent comparator
  has exactly one possible output.
- The counting objects are modelled as maps from string keys. Keys that
  clash with `Object.prototype` members (such as `constructor`) are not
  modelled. `!counts[key]` is modelled as "key absent"; the two agree
  because a present key always holds at least 1.
- TopAttackersChart.TopAttackersTieOrder: stated for source IPs that
  contain a dot, as every IP does. A source "IP" that is an array-index
  string would be listed in numeric order instead.
- AlertCategoryChart.CategoryTieOrder: stated for categories that are not
  array-index strings, as every category of the generator is not.
- TargetedPortsChart.TargetedPortsTieOrder: stated for ports in
  [0, 2^32 - 2], the range in which a port's key is an array index.
