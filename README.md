# New-restaurant performance report, modelled in Dafny

The application takes two tables: the restaurant registry and the ledger of
orders. It picks the restaurants whose `Created At` falls inside a date
window. Then it computes the performance of every restaurant over its
delivered orders: the number of orders (`Commandes`), the sum of item totals
(`CA_Total`) and the sum of restaurant commissions (`Commissions`). It joins
those figures onto the new restaurants, fills missing figures with 0, keeps
eight columns and sorts the result by `Commandes`, largest first.

This project models that pipeline as pure functions over sequences, one
module per step:

- `wrappers.dfy`: `Option`, which stands for a value that may be missing
  (an unparsable date, a NaN cell).
- `tables.dfy`: the registry row, the order, the three figures (`Stats`)
  and the eight-column report row.
- `filtering.dfy`: row selection by a boolean mask, which keeps the order
  of the rows.
- `sequences.dfy`: two small facts about cutting a sequence at an index.
- `window.dfy`: the creation-date window.
- `performance.dfy`: the `Delivered` selection and the group-by on
  `Restaurant ID`. The grouped table is a sequence sorted by key, because
  pandas groups with `sort=True`. `StatsIn` is an independent reference:
  the figures of a set of Ids, summed over the ledger directly.
- `merge.dfy`: the left merge on `Id` = `Restaurant ID`, and the projection
  with `fillna(0)`.
- `ordering.dfy`: the descending sort on `Commandes`.
- `report.dfy`: the whole pipeline (`Reconcile`) and its end-to-end
  properties.

Timestamps are whole seconds and days are day numbers. The window bounds are
the midnights at which the chosen days begin. The code compares `Created At`
against `pd.to_datetime(start_date)` and `pd.to_datetime(end_date)`, which
are midnight timestamps. So the start day is kept in full, but on the end
day only a creation at exactly 00:00:00 is kept. The model follows the code
here, not a whole-day reading of the window; `Window.InWindowByDay` states
the consequence. pandas' `sort_values` uses an unstable sort by default. So
the model promises no order among rows with equal `Commandes`: `Reconcile`
states only descending order and the exact multiset of rows.

## Model

| member | source | states |
|---|---|---|
| Window.Midnight | app.py:31 | `pd.to_datetime` of a chosen day is the timestamp that starts it: a whole number of days, and the day it starts is the chosen day |
| Window.DayOf | app.py:31 | the day of a timestamp is the one whose midnight is at or before it and whose next midnight is after it |
| Window.InWindow | app.py:31 | the mask holds only for a present `Created At` whose day lies between the start day and the end day |
| Filtering.Filter | app.py:32-36 | `df[mask]` and `.loc[mask]` keep exactly the rows the mask accepts, with their multiplicities, and never add a row |
| Window.NewRestaurants | app.py:31-32 | a registry row is kept iff its `Created At` is present and lies between the start and end midnights, both inclusive; kept rows keep their multiplicity and are never more than the registry |
| Window.MissingDateNeverKept | app.py:23 | a restaurant whose date failed to parse (`errors='coerce'`, NaT) is never selected, because every comparison with NaT is false |
| Window.InWindowByDay | app.py:31 | a present timestamp is in the window iff its day is at least the start day and is either before the end day or exactly the end midnight |
| Window.BoundsInclusive | app.py:31 | the midnights of the start day and of the end day are both inside a non-empty window |
| Performance.IsDelivered | app.py:36 | the status comparison is case-sensitive: `"delivered"` and `"DELIVERED"` do not match |
| Performance.Delivered | app.py:36 | an order is kept iff its status is exactly `"Delivered"`, which is case-sensitive; multiplicities are kept |
| Performance.StatsInCount | app.py:38-42 | a restaurant's order count is between 0 and the ledger length, and a count of 0 means all three figures are 0 |
| Performance.AddOrder | app.py:38-42 | one step of the group-by fold: the keys of the grouped table become its old keys plus the order's Id |
| Performance.Group | app.py:38-42 | the grouped table has strictly ascending keys, so at most one row per Id; every row counts at least one order; its keys are exactly the Ids of the grouped orders |
| Performance.Aggregate | app.py:36-42 | the performance table has one row per Id that has at least one delivered order, and no other rows |
| Performance.AddOrderFind | app.py:38-42 | folding one order into the grouped table adds it to its own key's figures and changes no other key |
| Performance.GroupFind | app.py:38-42 | grouping delivered orders gives each Id exactly its count, item-total sum and commission sum, and gives no row to an Id without orders |
| Performance.StatsInDelivered | app.py:36 | figures computed after the `Delivered` selection equal figures that count delivered orders only |
| Performance.AggregateFind | app.py:36-42 | the performance row of an Id holds exactly the count, item-total sum and commission sum of its delivered orders, and it exists iff that count is positive |
| Performance.AggregateIgnoresOtherStatuses | app.py:36-42 | inserting an order of any other status anywhere in the ledger leaves the performance table unchanged |
| Performance.StatsInUnion | app.py:38-42 | the figures of two disjoint sets of Ids add up to the figures of their union |
| Merge.MergeOne | app.py:45 | a restaurant yields one merged row per matching performance row, or one row without figures if nothing matches; every such row carries the restaurant's own columns |
| Merge.LeftMerge | app.py:45 | a left merge never drops a restaurant: it has at least as many rows as the restaurant list, and every listed restaurant appears in some merged row |
| Merge.MatchesSorted | app.py:38-45 | against a table with at most one row per key, an Id matches its lookup result or nothing |
| Merge.LeftMergeTotal | app.py:45 | merged with the performance table, each new restaurant yields exactly one row, in list order, carrying its key's figures or none |
| Merge.FillRow | app.py:48-51 | `fillna(0)` on one merged row: without figures the row carries zeros, with figures it carries exactly them, and the restaurant's five columns are kept |
| Merge.Project | app.py:48-51 | the projection and `fillna(0)` keep one report row per merged row |
| Report.FillRowExpected | app.py:45-51 | after the merge and `fillna(0)`, a restaurant's row carries its aggregate when it has one and zeros otherwise, which in both cases equal the figures of its delivered orders |
| Report.JoinedRows | app.py:45-51 | merging, filling and projecting give one expected row per new restaurant, in the order of the list |
| Ordering.Insert | app.py:53 | inserting a row into a table sorted by descending `Commandes` keeps it sorted, and the result has that row added and nothing else changed |
| Ordering.SortDesc | app.py:53 | the sorted table has `Commandes` non-increasing and is a permutation of its input |
| Report.Reconcile | app.py:31-53 | the report is in descending `Commandes` order, has exactly one row per new restaurant and, as a multiset, equals the expected rows of the new restaurants |
| Report.InExpectedRows | app.py:45-51 | a row is among the expected rows of a list iff it is the expected row of some restaurant in the list |
| Report.ReportRows | app.py:31-53 | a row is in the report iff it is the expected row of a registry restaurant created inside the window; so every reported row lies in the window |
| Report.ZeroFilled | app.py:45-51 | a new restaurant without a performance row is reported with 0 orders, 0 item total and 0 commission |
| Report.ExactAggregate | app.py:45-51 | a new restaurant with a performance row is reported with exactly that row's figures |
| Report.TotalConcat | app.py:48-51 | the column totals of two stacked tables add up |
| Report.TotalPermutation | app.py:53 | reordering the rows, as the sort does, does not change the column totals |
| Report.ExpectedTotal | app.py:38-51 | for restaurants with distinct Ids, the expected rows total the figures of all delivered orders of those Ids |
| Report.Conservation | app.py:36-53 | when the new restaurants have distinct Ids, the report's column totals equal the count, item-total sum and commission sum of all delivered orders of those restaurants |

## Left out

- The Streamlit user interface is not modelled: page setup, titles, file uploaders, sidebar date inputs, the result header and the table display (app.py:4-14, 26-28, 55-57, 67-68). The window bounds and both tables are parameters.
- CSV reading and writing are not modelled: `read_csv` with `;` and `,` separators, and the download button's CSV export and UTF-8 encoding (app.py:19-20, 59-66). Tables are given as sequences of records.
- The parsing done by `pd.to_datetime(..., dayfirst=True, errors='coerce')` is not modelled. `Created At` arrives already parsed, as `Option<Timestamp>`, with `None` for a value that failed to parse.
- Timestamps are whole seconds, while pandas keeps nanoseconds. For `Created At` values without a fraction of a second the window comparison is the same; a creation at a fraction of a second after the end midnight is excluded by pandas but cannot be written here.
- Monetary columns are integers, for example cents. Floating-point summation and rounding are not modelled.
- Missing cells among the order columns (`order id`, `item total`, `restaurant commission`, `Restaurant ID`) are not modelled. Every order has all four, so `count` counts every order and `sum` adds every value.
- `fillna(0)` on the text columns is not modelled. Those columns are taken as present. `Created At` is never missing in the report, because the window only keeps present dates.
- Merge.LeftMerge: its own contract states only that no restaurant is lost, not how many rows each restaurant yields. Its exact shape against the performance table is stated by `Merge.LeftMergeTotal`.
- The report row leaves out `Id` and the `Restaurant ID` column that the merge adds, because the projection at app.py:48-51 drops both.
- Ordering.SortDesc: the model sorts by insertion and so puts rows with equal `Commandes` in one particular order. pandas promises none, so no contract states a tie order.
- Report.Conservation: it assumes the new restaurants have distinct Ids. With a duplicated `Id`, the left merge repeats that restaurant's figures on each of its rows, and the totals count them more than once.
