/** `plot_pitch_movement` as a plot description (title, one scatter series per
    pitch type, fixed axes), the button's player check in front of it, and the
    list of names offered by the dropdown. */
module PitchPlot {
  import opened Sequences
  import opened Ordering
  import opened Pitches
  import opened Palette

  // ---------------------------------------------------------------------
  // Axes

  /** Python's `range(start, stop, step)`; a zero step raises ValueError.
      The values start at `start`, go up (or down) by `step`, stay before
      `stop`, and stop at the last value before `stop`. */
  function PyRange(start: int, stop: int, step: int): (r: seq<int>)
    requires step != 0
    ensures |r| > 0 ==> r[0] == start
    ensures forall k :: 0 <= k < |r| - 1 ==> r[k + 1] == r[k] + step
    ensures forall k :: 0 <= k < |r| ==> if step > 0 then r[k] < stop else r[k] > stop
    ensures |r| == 0 ==> if step > 0 then start >= stop else start <= stop
    ensures |r| > 0 ==> if step > 0 then r[|r| - 1] + step >= stop else r[|r| - 1] + step <= stop
    decreases if step > 0 then stop - start else start - stop
  {
    if (step > 0 && start < stop) || (step < 0 && start > stop) then [start] + PyRange(start + step, stop, step)
    else []
  }

  /** Both axes run from -25 to 25 inches. */
  const Lo: int := -25
  const Hi: int := 25

  /** `range(-25, 26, 5)`, the tick positions of both axes. */
  const Ticks: seq<int> := PyRange(-25, 26, 5)

  /** Tick `k` sits `5 * k` inches above the lower limit. */
  lemma {:induction false} TickAt(k: nat)
    requires k < |Ticks|
    ensures Ticks[k] == Lo + 5 * k
  {
    if k > 0 {
      TickAt(k - 1);
    }
  }

  /** The ticks are -25, -20, ..., 25: eleven values five inches apart, from
      one axis limit to the other, so every tick lies within the limits. */
  lemma TicksSpanLimits()
    ensures |Ticks| == 11
    ensures forall k :: 0 <= k < |Ticks| ==> Ticks[k] == Lo + 5 * k && Lo <= Ticks[k] <= Hi
    ensures Ticks[0] == Lo && Ticks[|Ticks| - 1] == Hi
  {
    forall k | 0 <= k < |Ticks|
      ensures Ticks[k] == Lo + 5 * k
    {
      TickAt(k);
    }
    TickAt(|Ticks| - 1);
  }

  const XLabel: string := "Horizontal Movement, pitcher perspective (inches)"
  const YLabel: string := "Vertical Movement, pitcher perspective (inches)"

  datatype Axis = Axis(caption: string, lo: int, hi: int, ticks: seq<int>)

  // ---------------------------------------------------------------------
  // Title

  const TitleSuffix: string := " Pitch Plot (2024)"

  /** `f'{pitcher_name} Pitch Plot (2024)'`. */
  function Title(name: string): (t: string)
    ensures |t| == |name| + |TitleSuffix|
    ensures t[..|name|] == name && t[|name|..] == TitleSuffix
  {
    name + TitleSuffix
  }

  /** Different pitchers get different titles. */
  lemma TitleInjective(a: string, b: string)
    requires Title(a) == Title(b)
    ensures a == b
  {
    assert |a| == |b|;
    assert a == Title(a)[..|a|];
  }

  // ---------------------------------------------------------------------
  // Series

  /** One `plt.scatter` call: its legend label, its colour and its points. */
  datatype Series = Series(pitchType: string, color: string, points: seq<Point>)

  datatype PlotDescription = PlotDescription(title: string, series: seq<Series>, xAxis: Axis, yAxis: Axis)

  /** `pitcher_data['pitch_type'].unique()`: every pitch type of the rows
      once. */
  function PitchTypes(rows: seq<PitchRecord>): (types: seq<string>)
    ensures Distinct(types)
    ensures forall i :: 0 <= i < |types| ==> exists k :: 0 <= k < |rows| && rows[k].pitchType == types[i]
    ensures forall k :: 0 <= k < |rows| ==> rows[k].pitchType in types
  {
    var column := ColumnValues(rows, PitchType);
    var types := Unique(column);
    assert forall i :: 0 <= i < |types| ==> types[i] in column;
    types
  }

  /** The pitch types come in order of first appearance: a row of a later
      type is always preceded by a row of each earlier type. */
  lemma PitchTypesInOrder(rows: seq<PitchRecord>)
    ensures forall i, j, k :: 0 <= i < j < |PitchTypes(rows)| && 0 <= k < |rows| && rows[k].pitchType == PitchTypes(rows)[j] ==>
      exists m :: 0 <= m < k && rows[m].pitchType == PitchTypes(rows)[i]
  {
    var types := PitchTypes(rows);
    var column := ColumnValues(rows, PitchType);
    forall i, j, k | 0 <= i < j < |types| && 0 <= k < |rows| && rows[k].pitchType == types[j]
      ensures exists m :: 0 <= m < k && rows[m].pitchType == types[i]
    {
      assert column[k] == types[j];
      var m :| 0 <= m < k && column[..k][m] == types[i];
      assert rows[m].pitchType == column[m];
    }
  }

  /** The selections `pitcher_data[pitcher_data['pitch_type'] == t]`, one per
      type in `types`. */
  function Groups(rows: seq<PitchRecord>, types: seq<string>): (groups: seq<seq<PitchRecord>>)
    ensures |groups| == |types|
    ensures forall i :: 0 <= i < |types| ==> groups[i] == Where(rows, PitchType, types[i])
  {
    if types == [] then [] else [Where(rows, PitchType, types[0])] + Groups(rows, types[1..])
  }

  /** The groups laid end to end. */
  function Flatten(groups: seq<seq<PitchRecord>>): seq<PitchRecord> {
    if groups == [] then [] else groups[0] + Flatten(groups[1..])
  }

  /** The loop over `enumerate(pitch_types)`: series `i` is labelled with type
      `i`, coloured with colour `i` and holds the points of that type's rows. */
  function SeriesOf(rows: seq<PitchRecord>, types: seq<string>, colors: seq<string>): (series: seq<Series>)
    requires |colors| == |types|
    ensures |series| == |types|
    ensures forall i :: 0 <= i < |types| ==>
      series[i] == Series(types[i], colors[i], Points(Where(rows, PitchType, types[i])))
  {
    if types == [] then []
    else [Series(types[0], colors[0], Points(Where(rows, PitchType, types[0])))] + SeriesOf(rows, types[1..], colors[1..])
  }

  /** The points drawn over all series, series by series. */
  function AllPoints(series: seq<Series>): seq<Point> {
    if series == [] then [] else series[0].points + AllPoints(series[1..])
  }

  /** `plot_pitch_movement(pitcher_name)` as the description of what it draws. */
  function PlotPitchMovement(data: seq<PitchRecord>, name: string): (plot: PlotDescription)
    ensures plot.title == Title(name)
    ensures plot.xAxis == Axis(XLabel, Lo, Hi, Ticks) && plot.yAxis == Axis(YLabel, Lo, Hi, Ticks)
    ensures forall i :: 0 <= i < |plot.series| ==> plot.series[i].color == ColorOf(plot.series[i].pitchType)
    ensures forall i :: 0 <= i < |plot.series| ==>
      plot.series[i].points == Points(Where(Where(data, PlayerName, name), PitchType, plot.series[i].pitchType))
  {
    var pitcherData := Where(data, PlayerName, name);
    var pitchTypes := PitchTypes(pitcherData);
    var colors := Colors(pitchTypes);
    PlotDescription(
      Title(name),
      SeriesOf(pitcherData, pitchTypes, colors),
      Axis(XLabel, Lo, Hi, Ticks),
      Axis(YLabel, Lo, Hi, Ticks))
  }

  // ---------------------------------------------------------------------
  // Properties of the series

  /** The series are labelled with the pitcher's pitch types, in the order
      `unique()` gives them. */
  lemma SeriesLabels(data: seq<PitchRecord>, name: string)
    ensures SeriesTypes(PlotPitchMovement(data, name).series) == PitchTypes(Where(data, PlayerName, name))
  {
    var rows := Where(data, PlayerName, name);
    var types := PitchTypes(rows);
    SeriesOfTypes(rows, types, Colors(types));
  }

  /** The labels of the series built for `types` are `types`. */
  lemma SeriesOfTypes(rows: seq<PitchRecord>, types: seq<string>, colors: seq<string>)
    requires |colors| == |types|
    ensures SeriesTypes(SeriesOf(rows, types, colors)) == types
  {
    var labels := SeriesTypes(SeriesOf(rows, types, colors));
    assert forall i :: 0 <= i < |types| ==> labels[i] == types[i];
  }

  /** A type has a series exactly when the pitcher threw a pitch of that type. */
  lemma SeriesForEveryTypeThrown(data: seq<PitchRecord>, name: string, t: string)
    ensures t in SeriesTypes(PlotPitchMovement(data, name).series) <==>
      exists r :: r in data && r.playerName == name && r.pitchType == t
  {
    SeriesLabels(data, name);
    PitcherTypes(data, name, t);
  }

  lemma PitcherTypes(data: seq<PitchRecord>, name: string, t: string)
    ensures t in PitchTypes(Where(data, PlayerName, name)) <==>
      exists r :: r in data && r.playerName == name && r.pitchType == t
  {
    var rows := Where(data, PlayerName, name);
    var types := PitchTypes(rows);
    if t in types {
      var i :| 0 <= i < |types| && types[i] == t;
      var k :| 0 <= k < |rows| && rows[k].pitchType == t;
      WhereMembers(data, PlayerName, name, rows[k]);
    }
    if r :| r in data && r.playerName == name && r.pitchType == t {
      WhereMembers(data, PlayerName, name, r);
      var k :| 0 <= k < |rows| && rows[k] == r;
    }
  }

  /** The labels of a sequence of series. */
  function SeriesTypes(series: seq<Series>): (types: seq<string>)
    ensures |types| == |series|
    ensures forall i :: 0 <= i < |series| ==> types[i] == series[i].pitchType
  {
    if series == [] then [] else [series[0].pitchType] + SeriesTypes(series[1..])
  }

  /** With distinct types, a row occurs in the laid-out groups as often as in
      the rows when its type is one of them, and not at all otherwise. */
  lemma {:induction false} GroupsCount(rows: seq<PitchRecord>, types: seq<string>, x: PitchRecord)
    requires Distinct(types)
    ensures multiset(Flatten(Groups(rows, types)))[x] == if x.pitchType in types then multiset(rows)[x] else 0
  {
    if types != [] {
      assert Groups(rows, types)[1..] == Groups(rows, types[1..]);
      assert Distinct(types[1..]);
      GroupsCount(rows, types[1..], x);
      WhereCount(rows, PitchType, types[0], x);
      if x.pitchType == types[0] {
        assert x.pitchType !in types[1..];
      }
    }
  }

  /** The per-type groups partition the pitcher's rows: together they hold
      every row exactly as often as the rows do. */
  lemma GroupsPartitionRows(rows: seq<PitchRecord>)
    ensures multiset(Flatten(Groups(rows, PitchTypes(rows)))) == multiset(rows)
  {
    var types := PitchTypes(rows);
    forall x
      ensures multiset(Flatten(Groups(rows, types)))[x] == multiset(rows)[x]
    {
      GroupsCount(rows, types, x);
      if x in rows {
        var k :| 0 <= k < |rows| && rows[k] == x;
      }
    }
  }

  /** Each row lies in the group of exactly one pitch type. */
  lemma RowInExactlyOneGroup(rows: seq<PitchRecord>, k: nat)
    requires k < |rows|
    ensures exists i :: 0 <= i < |PitchTypes(rows)| && rows[k] in Groups(rows, PitchTypes(rows))[i]
    ensures forall i, j ::
      && 0 <= i < |PitchTypes(rows)| && 0 <= j < |PitchTypes(rows)|
      && rows[k] in Groups(rows, PitchTypes(rows))[i] && rows[k] in Groups(rows, PitchTypes(rows))[j]
      ==> i == j
  {
    var types := PitchTypes(rows);
    var groups := Groups(rows, types);
    var i :| 0 <= i < |types| && types[i] == rows[k].pitchType;
    WhereMembers(rows, PitchType, types[i], rows[k]);
    forall a, b | 0 <= a < |types| && 0 <= b < |types| && rows[k] in groups[a] && rows[k] in groups[b]
      ensures a == b
    {
      WhereMembers(rows, PitchType, types[a], rows[k]);
      WhereMembers(rows, PitchType, types[b], rows[k]);
    }
  }

  /** The series' points laid end to end are the points of the groups laid
      end to end. */
  lemma {:induction false} AllPointsOfSeries(rows: seq<PitchRecord>, types: seq<string>, colors: seq<string>)
    requires |colors| == |types|
    ensures AllPoints(SeriesOf(rows, types, colors)) == Points(Flatten(Groups(rows, types)))
  {
    if types != [] {
      assert SeriesOf(rows, types, colors)[1..] == SeriesOf(rows, types[1..], colors[1..]);
      assert Groups(rows, types)[1..] == Groups(rows, types[1..]);
      AllPointsOfSeries(rows, types[1..], colors[1..]);
      PointsAppend(Where(rows, PitchType, types[0]), Flatten(Groups(rows, types[1..])));
    }
  }

  /** Every pitch the pitcher threw is drawn as exactly one point: the points
      of all series together are the converted pitches of the pitcher, each as
      often as the pitcher's rows hold it. */
  lemma EveryPitchDrawnOnce(data: seq<PitchRecord>, name: string)
    ensures multiset(AllPoints(PlotPitchMovement(data, name).series)) == multiset(Points(Where(data, PlayerName, name)))
    ensures |AllPoints(PlotPitchMovement(data, name).series)| == |Where(data, PlayerName, name)|
  {
    var rows := Where(data, PlayerName, name);
    var types := PitchTypes(rows);
    AllPointsOfSeries(rows, types, Colors(types));
    GroupsPartitionRows(rows);
    PointsOfPermutation(Flatten(Groups(rows, types)), rows);
    assert |multiset(AllPoints(PlotPitchMovement(data, name).series))| == |multiset(Points(rows))|;
  }

  /** Every point of a series is the converted movement of one of the
      pitcher's pitches of that series' type. */
  lemma PointsComeFromPitches(data: seq<PitchRecord>, name: string)
    ensures var series := PlotPitchMovement(data, name).series;
      forall i, j :: 0 <= i < |series| && 0 <= j < |series[i].points| ==>
        exists r :: r in data && r.playerName == name && r.pitchType == series[i].pitchType && ToPoint(r) == series[i].points[j]
  {
    var rows := Where(data, PlayerName, name);
    var series := PlotPitchMovement(data, name).series;
    forall i, j | 0 <= i < |series| && 0 <= j < |series[i].points|
      ensures exists r :: r in data && r.playerName == name && r.pitchType == series[i].pitchType && ToPoint(r) == series[i].points[j]
    {
      var group := Where(rows, PitchType, series[i].pitchType);
      assert series[i].points == Points(group);
      var r := group[j];
      WhereMembers(rows, PitchType, series[i].pitchType, r);
      WhereMembers(data, PlayerName, name, r);
      assert ToPoint(r) == series[i].points[j];
    }
  }

  // ---------------------------------------------------------------------
  // The app around the plot

  /** `sorted(statcast_data['player_name'].unique())`: the dropdown choices,
      every pitcher of the table once, in ascending order. */
  function PlayerNames(data: seq<PitchRecord>): (names: seq<string>)
    ensures forall i, j :: 0 <= i < j < |names| ==> Below(names[i], names[j])
    ensures forall n :: n in names <==> exists k :: 0 <= k < |data| && data[k].playerName == n
  {
    var column := ColumnValues(data, PlayerName);
    var unique := Unique(column);
    SortDistinct(unique);
    assert forall n :: n in unique <==> n in column;
    Sort(unique)
  }

  const NotFoundMessage: string := "Player not found. Please check the name and try again."

  /** What pressing the button shows: the plot, or the not-found message. */
  datatype Outcome = Plotted(plot: PlotDescription) | PlayerNotFound(message: string)

  /** The button handler: plot only a name that occurs in the table's
      `player_name` column. */
  function GeneratePitchPlot(data: seq<PitchRecord>, name: string): (outcome: Outcome)
    ensures outcome.Plotted? <==> exists k :: 0 <= k < |data| && data[k].playerName == name
    ensures outcome.Plotted? ==> outcome.plot == PlotPitchMovement(data, name)
    ensures outcome.PlayerNotFound? ==> outcome.message == NotFoundMessage
  {
    var column := ColumnValues(data, PlayerName);
    if name in Unique(column) then Plotted(PlotPitchMovement(data, name))
    else PlayerNotFound(NotFoundMessage)
  }

  /** Any name chosen from the dropdown gets a plot with at least one series. */
  lemma DropdownChoiceIsPlotted(data: seq<PitchRecord>, name: string)
    requires name in PlayerNames(data)
    ensures GeneratePitchPlot(data, name).Plotted?
    ensures |GeneratePitchPlot(data, name).plot.series| > 0
  {
    var k :| 0 <= k < |data| && data[k].playerName == name;
    var rows := Where(data, PlayerName, name);
    WhereCount(data, PlayerName, name, data[k]);
    assert data[k] in multiset(rows);
    assert |PitchTypes(rows)| > 0;
  }

  // ---------------------------------------------------------------------
  // Worked examples

  /** Two four-seamers and a slider by one pitcher, beside a pitch by someone
      else with a code the palette does not list. */
  const Fastball := PitchRecord("Jane Doe", "FF", -0.5, 1.2)
  const Slider := PitchRecord("Jane Doe", "SL", 0.3, -0.4)
  const Unlisted := PitchRecord("John Roe", "XX", 0.1, 0.1)
  const ExampleData: seq<PitchRecord> := [Fastball, Unlisted, Slider, Fastball]

  /** Jane Doe's rows of the example, in table order. */
  lemma ExampleRows()
    ensures Where(ExampleData, PlayerName, "Jane Doe") == [Fastball, Slider, Fastball]
    ensures Where(ExampleData, PlayerName, "John Roe") == [Unlisted]
  {
    assert ExampleData[1..] == [Unlisted, Slider, Fastball];
    assert ExampleData[1..][1..] == [Slider, Fastball];
    assert [Slider, Fastball][1..] == [Fastball];
    assert Where([Fastball], PlayerName, "Jane Doe") == [Fastball];
    assert Where([Slider, Fastball], PlayerName, "Jane Doe") == [Slider, Fastball];
    assert Where([Fastball], PlayerName, "John Roe") == [];
    assert Where([Slider, Fastball], PlayerName, "John Roe") == [];
  }

  /** The pitch-type column of Jane Doe's rows, and its distinct values. */
  lemma ExampleColumn()
    ensures ColumnValues([Fastball, Slider, Fastball], PitchType) == ["FF", "SL", "FF"]
    ensures Unique(["FF", "SL", "FF"]) == ["FF", "SL"]
  {
    assert [Fastball, Slider, Fastball][1..] == [Slider, Fastball] && [Slider, Fastball][1..] == [Fastball];
    assert ColumnValues([Fastball], PitchType) == ["FF"];
    var column: seq<string> := ["FF", "SL", "FF"];
    assert column[..2] == ["FF", "SL"] && ["FF", "SL"][..1] == ["FF"] && ["FF"][..0] == [];
    assert Unique(["FF"]) == ["FF"];
  }

  /** Jane Doe's rows split by pitch type, and their points. */
  lemma ExampleGroups()
    ensures Where([Fastball, Slider, Fastball], PitchType, "FF") == [Fastball, Fastball]
    ensures Where([Fastball, Slider, Fastball], PitchType, "SL") == [Slider]
    ensures Points([Fastball, Fastball]) == [Point(6.0, 14.4), Point(6.0, 14.4)]
    ensures Points([Slider]) == [Point(-3.6, -4.8)]
  {
    assert [Fastball, Slider, Fastball][1..] == [Slider, Fastball] && [Slider, Fastball][1..] == [Fastball];
    assert Where([Fastball], PitchType, "FF") == [Fastball];
    assert Where([Slider, Fastball], PitchType, "FF") == [Fastball];
    assert Where([Fastball], PitchType, "SL") == [];
    assert Where([Slider, Fastball], PitchType, "SL") == [Slider];
    assert [Fastball, Fastball][1..] == [Fastball];
  }

  /** The colours of the example's codes. */
  lemma ExampleColors()
    ensures Colors(["FF", "SL"]) == ["#D22D49", "#EEE716"]
    ensures Colors(["XX"]) == [Default]
  {
  }

  /** The pitcher's two types get one series each, in order of first
      appearance, with their table colours and converted points. */
  lemma ExampleSeries()
    ensures PlotPitchMovement(ExampleData, "Jane Doe").series == [
      Series("FF", "#D22D49", [Point(6.0, 14.4), Point(6.0, 14.4)]),
      Series("SL", "#EEE716", [Point(-3.6, -4.8)])]
  {
    var rows := [Fastball, Slider, Fastball];
    ExampleRows();
    ExampleColumn();
    ExampleColors();
    assert PitchTypes(rows) == ["FF", "SL"];
    ExampleSeriesOf();
  }

  lemma ExampleSeriesOf()
    ensures SeriesOf([Fastball, Slider, Fastball], ["FF", "SL"], ["#D22D49", "#EEE716"]) == [
      Series("FF", "#D22D49", [Point(6.0, 14.4), Point(6.0, 14.4)]),
      Series("SL", "#EEE716", [Point(-3.6, -4.8)])]
  {
    ExampleGroups();
    var series := SeriesOf([Fastball, Slider, Fastball], ["FF", "SL"], ["#D22D49", "#EEE716"]);
    assert series[0] == Series("FF", "#D22D49", [Point(6.0, 14.4), Point(6.0, 14.4)]);
    assert series[1] == Series("SL", "#EEE716", [Point(-3.6, -4.8)]);
  }

  /** A code the palette does not list still gets a series, in grey. */
  lemma ExampleUnlistedCode()
    ensures PlotPitchMovement(ExampleData, "John Roe").series == [Series("XX", Default, [Point(-1.2, 1.2)])]
  {
    var rows := [Unlisted];
    ExampleRows();
    assert ColumnValues(rows, PitchType) == ["XX"];
    assert ["XX"][..0] == [];
    assert PitchTypes(rows) == ["XX"];
    ExampleColors();
    assert Where(rows, PitchType, "XX") == rows;
    assert Points(rows) == [Point(-1.2, 1.2)];
  }

  /** A name absent from the table gets the not-found message. */
  lemma ExampleNotFound()
    ensures GeneratePitchPlot(ExampleData, "Jane Roe") == PlayerNotFound(NotFoundMessage)
  {
    assert forall k :: 0 <= k < |ExampleData| ==> ExampleData[k].playerName != "Jane Roe";
  }
}
