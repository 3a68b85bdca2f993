# Pitch plot generator — a Dafny model of the plotting pipeline

The Streamlit app `make_your_own_pitch_plot_v2.py` lets a user pick a pitcher
from a dropdown and, on a button press, draws that pitcher's pitch movement as
a scatter plot, one colour per pitch type. This project models what the app
computes, as pure Dafny functions over an immutable table of pitch rows:

- **selection** (`Pitches.Where`): the boolean-mask filter `table[table[col] == v]`,
  used once by player name and once per pitch type;
- **pitch types** (`PitchPlot.PitchTypes`, built on `Sequences.Unique`): pandas
  `unique()`, the distinct values in order of first appearance;
- **colours** (`Palette.ColorOf`, `Palette.Colors`): the 13-entry
  `pitch_color_dict` with `'#999999'` for any other code;
- **series** (`PitchPlot.SeriesOf`): one `plt.scatter` call per pitch type, with
  the points `(pfx_x * -12, pfx_z * 12)` (`Pitches.ToPoint`);
- **axes and title**: limits −25..25, ticks `range(-25, 26, 5)` (`PitchPlot.PyRange`),
  the title `'<name> Pitch Plot (2024)'`;
- **the app around it**: the dropdown list `sorted(player_name.unique())`
  (`PitchPlot.PlayerNames`, with Python string order in `Ordering`) and the
  button handler that plots only a name present in the table
  (`PitchPlot.GeneratePitchPlot`).

`plot_pitch_movement` becomes `PitchPlot.PlotPitchMovement`, which returns a
`PlotDescription` (title, series, two axes) instead of drawing. Movement values
are `real`, so the ×12 conversion is exact.

`make_your_own_pitch_plot_v2.py` has no date-range filter and no summary
table; its title always carries the fixed season label, and the only outcomes
are a plot or the "Player not found" message.

## Model

| member | source | states |
|---|---|---|
| `Pitches.Where` | make_your_own_pitch_plot_v2.py:38 | every row of `table[table[col] == v]` has `v` in that column |
| `Pitches.WhereCount` | make_your_own_pitch_plot_v2.py:38 | the selection holds each matching row exactly as many times as the table does, and no other row |
| `Pitches.WhereMembers` | make_your_own_pitch_plot_v2.py:38 | a row is selected if and only if it is in the table and matches |
| `Pitches.WhereAppend` | make_your_own_pitch_plot_v2.py:38 | selection keeps table order: selecting from `a + b` gives the selection from `a` followed by the selection from `b` |
| `Pitches.ColumnValues` | make_your_own_pitch_plot_v2.py:41 | the column has one entry per row, entry `i` being row `i`'s field |
| `Sequences.Unique` | make_your_own_pitch_plot_v2.py:41 | pandas `unique()`: no duplicates, exactly the values of the input, and every occurrence of a later value is preceded by one of each earlier value (first-appearance order) |
| `PitchPlot.PitchTypes` | make_your_own_pitch_plot_v2.py:41 | the pitch-type list has no duplicates, each entry is some row's type, and every row's type is in it |
| `PitchPlot.PitchTypesInOrder` | make_your_own_pitch_plot_v2.py:41 | a row of pitch type `j` is always preceded by a row of every type `i < j` |
| `Palette.ColorOf` | make_your_own_pitch_plot_v2.py:45-51 | `dict.get(code, '#999999')` is defined for every code; a listed code gets its table colour, and the colour is grey exactly when the code is not listed |
| `Palette.TableColorsDistinct` | make_your_own_pitch_plot_v2.py:45-50 | two different listed codes never share a colour |
| `Palette.Colors` | make_your_own_pitch_plot_v2.py:51 | the colour list is as long as the pitch-type list and entry `i` is the colour of type `i` |
| `Pitches.ToPoint` | make_your_own_pitch_plot_v2.py:56 | the plotted point `(x, y)` gives back the movement: `pfx_x = -x/12`, `pfx_z = y/12` |
| `Pitches.Movement` | make_your_own_pitch_plot_v2.py:56 | the inverse conversion: movement `(mx, mz)` of a point satisfies `mx * -12 = x` and `mz * 12 = y` |
| `Pitches.MovementOfPoint` | make_your_own_pitch_plot_v2.py:56 | converting a pitch to a point and back gives its `(pfx_x, pfx_z)` |
| `Pitches.PointOfMovement` | make_your_own_pitch_plot_v2.py:56 | converting a point to movement and back gives the same point |
| `Pitches.Points` | make_your_own_pitch_plot_v2.py:56 | one point per row, in row order, point `i` converted from row `i` |
| `Pitches.PointsAppend` | make_your_own_pitch_plot_v2.py:56 | converting two stretches of rows gives their points one after the other |
| `Pitches.PointsOfPermutation` | make_your_own_pitch_plot_v2.py:54-56 | rows that are a permutation of each other give points that are a permutation of each other |
| `PitchPlot.Groups` | make_your_own_pitch_plot_v2.py:54-55 | group `i` is the selection of rows whose type is type `i` |
| `PitchPlot.SeriesOf` | make_your_own_pitch_plot_v2.py:54-56 | one series per type, series `i` labelled with type `i`, coloured `colors[i]`, holding the points of exactly the rows of type `i` |
| `PitchPlot.GroupsCount` | make_your_own_pitch_plot_v2.py:54-55 | with distinct types, the groups laid end to end hold a row as often as the rows do when its type is listed, otherwise never |
| `PitchPlot.GroupsPartitionRows` | make_your_own_pitch_plot_v2.py:54-55 | the per-type groups of the pitcher's rows are a permutation of those rows |
| `PitchPlot.RowInExactlyOneGroup` | make_your_own_pitch_plot_v2.py:54-55 | every row lies in some group, and in no two |
| `PitchPlot.AllPointsOfSeries` | make_your_own_pitch_plot_v2.py:54-56 | the points of all series, series after series, are the converted rows of all groups, group after group |
| `PitchPlot.EveryPitchDrawnOnce` | make_your_own_pitch_plot_v2.py:38-56 | the points of all series together are a permutation of the converted rows of the pitcher: every pitch is drawn, exactly as often as the table holds it, and nothing else is |
| `PitchPlot.PointsComeFromPitches` | make_your_own_pitch_plot_v2.py:38-56 | every point of series `i` is the converted movement of a table row of this pitcher with series `i`'s pitch type |
| `PitchPlot.SeriesOfTypes` | make_your_own_pitch_plot_v2.py:54-56 | the series built for a list of types are labelled with exactly that list, in order |
| `PitchPlot.SeriesLabels` | make_your_own_pitch_plot_v2.py:41-56 | the series labels are the pitcher's `unique()` pitch types, in that order |
| `PitchPlot.PitcherTypes` | make_your_own_pitch_plot_v2.py:38-41 | a type is in the pitcher's type list if and only if the table has a row of this pitcher with that type |
| `PitchPlot.SeriesForEveryTypeThrown` | make_your_own_pitch_plot_v2.py:38-56 | a type has a series if and only if the pitcher threw a pitch of that type |
| `PitchPlot.PyRange` | make_your_own_pitch_plot_v2.py:68-69 | Python `range`: starts at `start`, consecutive values differ by `step`, all before `stop`, and the next value would reach `stop` |
| `PitchPlot.TickAt` | make_your_own_pitch_plot_v2.py:68-69 | tick `k` is at `-25 + 5k` |
| `PitchPlot.TicksSpanLimits` | make_your_own_pitch_plot_v2.py:64-69 | there are 11 ticks, 5 apart, the first at the lower limit −25, the last at the upper limit 25, all within the limits |
| `PitchPlot.Title` | make_your_own_pitch_plot_v2.py:61 | the title is the pitcher name followed by `" Pitch Plot (2024)"` |
| `PitchPlot.TitleInjective` | make_your_own_pitch_plot_v2.py:61 | different pitchers get different titles |
| `PitchPlot.PlotPitchMovement` | make_your_own_pitch_plot_v2.py:37-78 | the plot is titled for the pitcher, both axes run −25..25 with the fixed ticks and labels, each series has the palette colour of its pitch type, and each series' points are the converted rows of this pitcher with that pitch type, in table order |
| `Ordering.BelowIsLexicographic` | make_your_own_pitch_plot_v2.py:84 | Python `str` `<` (`Ordering.Below`): code-point lexicographic, `a < b` exactly when `a` is a proper prefix of `b` or the first position where they differ has the smaller code point in `a` |
| `Ordering.BelowExamples` | make_your_own_pitch_plot_v2.py:84 | `'Zed' < 'adam'` (upper case before lower case), `'ab' < 'abc'` (a prefix first) and `'abc' < 'b'`, and none of the reverse comparisons |
| `Ordering.InsertExample` | make_your_own_pitch_plot_v2.py:84 | inserting `'a'` into `['B']` and `'b'` into `['B', 'a']` places each after the smaller strings |
| `Ordering.SortExample` | make_your_own_pitch_plot_v2.py:84 | `sorted(['b', 'a', 'B'])` is `['B', 'a', 'b']` |
| `Ordering.BelowTotal` | make_your_own_pitch_plot_v2.py:84 | Python string `<` orders any two different strings one way or the other |
| `Ordering.BelowTransitive` | make_your_own_pitch_plot_v2.py:84 | Python string `<` is transitive |
| `Ordering.Insert` | make_your_own_pitch_plot_v2.py:84 | inserting adds exactly one copy of the element |
| `Ordering.InsertSorted` | make_your_own_pitch_plot_v2.py:84 | inserting into an ascending list keeps it ascending |
| `Ordering.Sort` | make_your_own_pitch_plot_v2.py:84 | `sorted()` returns a permutation of its input |
| `Ordering.SortSorted` | make_your_own_pitch_plot_v2.py:84 | `sorted()` returns its elements in ascending order |
| `Ordering.SortDistinct` | make_your_own_pitch_plot_v2.py:84 | sorting a duplicate-free list gives a strictly ascending list of the same elements |
| `PitchPlot.PlayerNames` | make_your_own_pitch_plot_v2.py:84 | the dropdown list is strictly ascending (so duplicate-free) and contains exactly the player names of the table |
| `PitchPlot.GeneratePitchPlot` | make_your_own_pitch_plot_v2.py:90-94 | the outcome is a plot if and only if the name occurs in the table, the plot is that pitcher's plot, otherwise the "Player not found" message |
| `PitchPlot.DropdownChoiceIsPlotted` | make_your_own_pitch_plot_v2.py:84-94 | any name offered by the dropdown is plotted, with at least one series |
| `PitchPlot.ExampleSeries` | make_your_own_pitch_plot_v2.py:37-56 | two four-seamers and a slider give the series FF `#D22D49` [(6, 14.4), (6, 14.4)] then SL `#EEE716` [(−3.6, −4.8)] |
| `PitchPlot.ExampleUnlistedCode` | make_your_own_pitch_plot_v2.py:45-56 | an unlisted code `XX` still gets its own series, in grey |
| `PitchPlot.ExampleNotFound` | make_your_own_pitch_plot_v2.py:90-94 | a name absent from the table gives the not-found message |

## Left out

- Streamlit widgets (`st.title`, `st.selectbox`, `st.button`, `st.write`, `st.pyplot`): the model takes the selected name as a parameter and returns an `Outcome`; what happens before the button is pressed is not modelled.
- `st.selectbox` over an empty table returns `None`, which then fails the membership test; the model's name is always a string, so this case is not represented.
- `load_data`, `my_hash_func` and `@st.cache`: file I/O and caching; the table is a given `seq<PitchRecord>`.
- Matplotlib styling: figure size, `alpha`, the dashed zero lines (`axhline`/`axvline` at 0), line widths and legend drawing are drawing calls and are not part of the `PlotDescription`.
- Floating point: `pfx_x`/`pfx_z` are `real`, so IEEE rounding of the ×12 conversion is not modelled.
- Missing or NaN values and pandas dtypes: `player_name` and `pitch_type` are plain strings; other columns of the table are not modelled because the plot does not read them.
- Date-range filtering, the per-type summary table and the empty-range and invalid-range outcomes do not exist in `make_your_own_pitch_plot_v2.py` and are not modelled.
- `Ordering.Sort` is an insertion sort, not Timsort; since equal strings are identical, any correct sort gives the same list as `sorted()`.
