# Cutting-plan optimiser, modelled in Dafny

This project models the core of a profile-cutting planner. The planner takes a
demand table, where each row is a profile, a piece length and a quantity. It
also takes a settings table, where each row is a profile and the length of its
raw stock bars. It cuts the demand out of stock bars one profile at a time and
then reports how much of the used stock is waste.

The model follows `co.py`:

- `get_stock_length` looks up a profile's stock length, with a default.
- `optimize_cutting` builds the cutting plan. It takes each distinct profile of
  the settings table in order of first appearance. It reads the stock length
  from that profile's first settings row. It expands the profile's demand rows
  into single pieces and sorts them longest first. Then it packs them
  sequentially with one open bar.
- `calculate_waste_percentage` computes per-profile totals and the waste
  percentage.

Modules, one per concern of `co.py`:

- `Wrappers`: the `Option` type.
- `Seqs`: `Sum`, the descending order, and the descending sort that stands for
  Python's `list.sort(reverse=True)`.
- `Catalog`: the settings table, the first-matching-row lookup,
  `GetStockLength` and `UniqueProfiles`.
- `Demand`: the demand table and its expansion into pieces. `CollectPieces` is
  the row loop.
- `Packing`: bars and the packing loop `PackSorted`. `IsGreedyPlan`
  characterises its result, and that characterisation is proved to have
  exactly one solution.
- `Optimizer`: `OptimizeCutting`, the outer loop over profiles. `IsOptimizedPlan`
  specifies it, and the shape, conservation and determinism lemmas are proved
  about it.
- `Waste`: `CalculateWastePercentage`.

The source's behaviour is modelled as it is, quirks included:

- The `defaultLength` argument of `OptimizeCutting` is never used.
- `OptimizeCutting` does not call `GetStockLength`.
- Profiles that appear only in the demand table are skipped.
- A piece longer than its stock raises no error. When no length is negative,
  it becomes a bar of its own, and its used length is larger than the stock
  length.
- A quantity of zero or less adds no piece, as Python's `[x] * n` does.

Where a stricter planner would behave differently, the model follows the code:

- A fail-fast planner would reject a piece longer than the stock. The code
  raises no error, and neither does the model.
- A planner with a fallback would give a profile missing from the settings the
  default length. The code skips such a profile.
- A tight packing would leave no piece of a bar that fits into the previous
  bar's leftover. The code checks only the first piece of each bar.
  `Packing.LaterPieceCouldFitEarlierBar` shows a later piece that would have
  fitted.
- With a stock length of 0, the total stock is 0. With Python integers, the
  division at co.py:150 raises `ZeroDivisionError`. The model follows these
  semantics: it returns `None` for the whole computation.

## Model

| member | source | states |
|---|---|---|
| `Catalog.FirstMatch` | co.py:31-33 | Returns the index of the first row whose profile matches. Returns None exactly when no row matches. |
| `Catalog.GetStockLength` | co.py:29-34 | Returns the default when no settings row names the profile, and otherwise the stock length of the first row that does. It is total and never fails. |
| `Catalog.UniqueProfiles` | co.py:40 | Lists each profile of the settings table exactly once: no duplicates, nothing missing, nothing extra. The order is strictly increasing by first matching row. |
| `Seqs.SortDescending` | co.py:54 | The result is in descending order and is a permutation (same multiset) of the input. |
| `Seqs.DescendingUnique` | co.py:54 | Two descending sequences with the same multiset are equal, so stability of the sort cannot be observed. |
| `Seqs.SortDescendingCharacterised` | co.py:54 | A list equals the sorted pieces if and only if it is descending and a permutation of them. |
| `Demand.Repeat` | co.py:51 | `[x] * n` has max(n, 0) elements and every one of them is x. |
| `Demand.CollectPieces` | co.py:47-51 | The row loop returns the profile's expansion: the rows of that profile in table order, each repeated by its quantity. |
| `Demand.ExpansionCount` | co.py:47-51 | Each length occurs in the expansion exactly as often as the profile's rows of that length ask for in total. |
| `Demand.ExpansionSum` | co.py:47-51 | The expansion sums to the total of quantity times length over the profile's rows. |
| `Demand.ExpansionNonEmpty` | co.py:45-53 | The expansion is non-empty exactly when some row of the profile has a positive quantity. |
| `Demand.ExpansionFromRows` | co.py:50-51 | Every piece is the length of some demand row of the profile with a positive quantity. |
| `Packing.PackSorted` | co.py:55-70 | The loop's bars, read in order, give back the input list. Every bar is non-empty and records the sum of its pieces as used. Each later piece of a bar fitted into the room left when it was added. The first piece of every bar after the first exceeded the previous bar's leftover. |
| `Packing.GreedyPlanUnique` | co.py:59-70 | At most one list of bars satisfies that characterisation, so the packing is deterministic. |
| `Packing.FirstBarSize` | co.py:59-67 | The first bar holds the first piece plus every following piece that still fits, and no more. |
| `Packing.PlanWithinStock` | co.py:59-67 | If no piece is longer than the stock, every bar's used length is at most the stock, so the leftover is never negative. If no piece is negative either, the used length is also non-negative. |
| `Packing.OversizePieceAlone` | co.py:63-67 | With no negative pieces, a piece longer than the stock is alone in its bar, and that bar's used length exceeds the stock. No error is raised. |
| `Packing.BarsOrdered` | co.py:54-67 | For a sorted list, every bar is non-increasing, and each bar's last piece is at least the next bar's first piece. |
| `Packing.WorkedExample` | co.py:54-70 | With stock 6000, the pieces 4000, 3000, 2500, 1500 give exactly the bars [4000]/4000, [3000, 2500]/5500 and [1500]/1500. |
| `Packing.LaterPieceCouldFitEarlierBar` | co.py:60-67 | With stock 10, the pieces 6, 5, 4 give [6] and [5, 4], although 4 would have fitted the first bar's leftover of 4. |
| `Optimizer.OptimizeCutting` | co.py:36-74 | There is one entry per distinct settings profile that has pieces, in first-appearance order. Each entry has the stock length of its profile's first settings row, and its bars are the sequential packing of the profile's sorted expansion. The default length plays no part. |
| `Optimizer.StockOf` | co.py:42 | The stock length read for a listed profile is that of its first settings row, and it equals `GetStockLength` of that profile for every default. |
| `Optimizer.PlanProfile` | co.py:42-72 | For a listed profile, returns nothing exactly when the profile has no pieces. Otherwise it returns the entry with that profile, the stock length of its first settings row, and the sequential packing of its pieces sorted in descending order. |
| `Optimizer.WithPiecesMembers` | co.py:48-72 | A profile of the list is kept exactly when it has a demand piece. |
| `Optimizer.WithPiecesOrdered` | co.py:40-72 | Keeping only the profiles with pieces preserves first-appearance order. |
| `Optimizer.ResultShape` | co.py:40-72 | A profile has an entry if and only if the settings table lists it and some demand row of it has a positive quantity, so profiles found only in the demand table never appear. Entries follow first appearance in the settings table, no profile appears twice, and every entry has at least one bar. |
| `Optimizer.StockFromFirstRow` | co.py:29-42 | Every entry's stock length equals `GetStockLength` of its profile, whatever default is passed. |
| `Optimizer.Conservation` | co.py:47-70 | An entry's bars, read in order, are the profile's expansion sorted in descending order. They hold every length exactly as many times as the demand rows ask for it. |
| `Optimizer.OptimizeDeterministic` | co.py:36-74 | Any two results for the same tables are identical. |
| `Optimizer.EntryWithinStock` | co.py:59-67 | If every demand row of a profile that yields pieces (positive quantity) is no longer than its stock, every bar's used length is at most the stock. If none of those lengths is negative, the used length is also non-negative. |
| `Optimizer.EmptyInputs` | co.py:40-53 | An empty demand table or an empty settings table gives an empty result. |
| `Waste.CalculateWastePercentage` | co.py:144-156 | The statistics exist exactly when no entry has a total stock of zero. Their keys are the entries' profiles, and each profile maps to the figures of its last entry. |
| `Waste.ProfileWaste` | co.py:147-155 | An entry's statistics are absent exactly when its total stock, bars times stock length, is 0. Otherwise the total stock is bars times stock length, the used length is the sum of all pieces of all bars, and the percentage is the unused share of the total, times 100. |
| `Waste.UsedLengthIsPieceSum` | co.py:149 | The used length of a list of bars is the sum of all their pieces. |
| `Waste.EntryUsedLength` | co.py:149 | For an optimiser entry, the used length is the total of quantity times length over the profile's demand rows. |
| `Waste.EntryWaste` | co.py:147-150 | For an optimiser entry, the statistics exist exactly when the stock length is non-zero. The total stock is the number of bars times the stock length, and the used length is the demanded total. |
| `Waste.StatsPerEntry` | co.py:146-156 | On an optimiser result, there is exactly one statistics entry per result entry. It exists when no stock length is zero and carries that entry's own figures. |
| `Waste.WasteBounds` | co.py:148-150 | When the stock is positive and every piece lies between 0 and the stock, the waste percentage lies in [0, 100]. When every piece is also positive, it is below 100. |
| `Waste.WorkedExampleWaste` | co.py:147-150 | The worked plan has total stock 18000, used length 11000, and waste 7000 / 18000 × 100. |

## Left out

- `load_data` and `clean_data` (Excel reading, dropping empty rows, type coercion) are not modelled. The model takes rows whose lengths and quantities are already integers.
- `draw_cutting_plan` and `export_to_excel` are not modelled. They only render charts and spreadsheets. The export labels a bar's used length "Remaining Length", which stays an export-layer quirk.
- `main` is not modelled: its file outputs and its wrapping of exceptions into a generic `Exception`. A zero total stock, which makes `calculate_waste_percentage` raise under Python-integer semantics, appears here only as `None`.
- The GUI is not modelled: widgets, translations, file dialogs and the kerf-width input, which is never passed to the optimiser.
- Waste.CalculateWastePercentage: keeps the percentage as an exact `real` and does not model `round(…, 2)` or floating-point division.
- Waste.CalculateWastePercentage: returns a `map`, so the insertion order of Python's dictionary is not represented.
- Waste.CalculateWastePercentage: follows Python-integer division for a zero total stock. With the pandas int64 stock column that `gui.py` builds, `.iloc[0]` gives a numpy scalar. Dividing by zero then yields a percentage of -inf (something used) or nan (nothing used) with a warning, not an exception. The model does not represent those values. The GUI cannot produce a zero stock, because its stock-length spin box is limited to 1000..20000 (gui.py:404-405).
- Python's integers and pandas' int64 columns are modelled as unbounded `int`. No width limit is modelled.
- Weight and price statistics are not computed by `co.py` and are not modelled.
