/** The design map (`generateMap`, `renderMap`, `buildArrowsSvg`): which
    activities are drawn, in which order, where on the grid, the time
    total checked against the planned duration, and the connectors drawn
    between consecutive activities. */
module DesignMap {
  import opened JsText
  import opened Activities
  import Labels

  /** An activity is drawn iff its interaction type, active-learning
      process and details are all filled in. */
  predicate IsComplete(a: Activity) {
    a.interaction != [] && a.alp != [] && a.details != []
  }

  /** `activities.filter(a => a.interaction && a.alp && a.details)`: each
      complete record is kept as often as it occurs, and nothing else. */
  function Filled(acts: seq<Activity>): (r: seq<Activity>)
    ensures forall a :: multiset(r)[a] == if IsComplete(a) then multiset(acts)[a] else 0
  {
    if acts == [] then []
    else
      assert acts == [acts[0]] + acts[1..];
      (if IsComplete(acts[0]) then [acts[0]] else []) + Filled(acts[1..])
  }

  /** Nothing is drawn exactly when no activity is complete. */
  lemma FilledEmptyIff(acts: seq<Activity>)
    ensures Filled(acts) == [] <==> forall i :: 0 <= i < |acts| ==> !IsComplete(acts[i])
  {
    var r := Filled(acts);
    if r == [] {
      forall i | 0 <= i < |acts| ensures !IsComplete(acts[i]) {
        assert acts[i] in multiset(acts);
        assert multiset(r)[acts[i]] == 0;
      }
    } else {
      assert r[0] in multiset(r);
      assert r[0] in multiset(acts);
    }
  }

  predicate SortedById(s: seq<Activity>) {
    forall i, j :: 0 <= i < j < |s| ==> s[i].id <= s[j].id
  }

  /** The records of `s` with id `k`, in their order in `s`. */
  function WithId(s: seq<Activity>, k: int): seq<Activity> {
    if s == [] then []
    else (if s[0].id == k then [s[0]] else []) + WithId(s[1..], k)
  }

  /** One step of a stable insertion sort: `x` goes before the first
      record whose id is not smaller than its own. */
  function Insert(x: Activity, s: seq<Activity>): (r: seq<Activity>)
    requires SortedById(s)
    ensures SortedById(r)
    ensures |r| == |s| + 1 && (r[0] == x || (s != [] && r[0] == s[0]))
  {
    if s == [] || x.id <= s[0].id then
      ConsSorted(x, s);
      [x] + s
    else
      assert s == [s[0]] + s[1..];
      SortedTail(s);
      var rest := Insert(x, s[1..]);
      assert rest[0] == x || rest[0] == s[1];
      ConsSorted(s[0], rest);
      [s[0]] + rest
  }

  /** Inserting adds `x` and loses nothing. */
  lemma {:induction false} InsertPermutes(x: Activity, s: seq<Activity>)
    requires SortedById(s)
    ensures multiset(Insert(x, s)) == multiset(s) + multiset{x}
  {
    if s != [] && x.id > s[0].id {
      SortedTail(s);
      InsertPermutes(x, s[1..]);
      assert s == [s[0]] + s[1..];
      assert Insert(x, s) == [s[0]] + Insert(x, s[1..]);
    }
  }

  lemma SortedTail(s: seq<Activity>)
    requires SortedById(s) && s != []
    ensures SortedById(s[1..])
  {
    forall i, j | 0 <= i < j < |s| - 1
      ensures s[1..][i].id <= s[1..][j].id
    {
      assert s[1..][i] == s[i + 1] && s[1..][j] == s[j + 1];
    }
  }

  /** A record no later than the head of a sorted list can go in front of it. */
  lemma ConsSorted(a: Activity, s: seq<Activity>)
    requires SortedById(s) && (s == [] || a.id <= s[0].id)
    ensures SortedById([a] + s)
  {
  }

  /** `[...filled].sort((a, b) => a.id - b.id)`: ascending ids, the same
      records, and (lemma SortByIdStable) records with equal ids kept in
      their original order, as the stable `Array.prototype.sort` does. */
  function SortById(s: seq<Activity>): (r: seq<Activity>)
    ensures SortedById(r)
    ensures multiset(r) == multiset(s) && |r| == |s|
  {
    if s == [] then []
    else
      assert s == [s[0]] + s[1..];
      InsertPermutes(s[0], SortById(s[1..]));
      Insert(s[0], SortById(s[1..]))
  }

  lemma WithIdCons(x: Activity, t: seq<Activity>, k: int)
    ensures WithId([x] + t, k) == (if x.id == k then [x] else []) + WithId(t, k)
  {
    assert ([x] + t)[1..] == t;
  }

  lemma {:induction false} InsertStable(x: Activity, s: seq<Activity>, k: int)
    requires SortedById(s)
    ensures WithId(Insert(x, s), k) == (if x.id == k then [x] else []) + WithId(s, k)
  {
    if s == [] || x.id <= s[0].id {
      WithIdCons(x, s, k);
    } else {
      var rest := Insert(x, s[1..]);
      assert Insert(x, s) == [s[0]] + rest;
      InsertStable(x, s[1..], k);
      WithIdCons(s[0], rest, k);
      WithIdCons(s[0], s[1..], k);
      assert [s[0]] + s[1..] == s;
    }
  }

  /** Sorting keeps, for every id, the records with that id in the order
      they had. */
  lemma {:induction false} SortByIdStable(s: seq<Activity>, k: int)
    ensures WithId(SortById(s), k) == WithId(s, k)
  {
    if s != [] {
      SortByIdStable(s[1..], k);
      InsertStable(s[0], SortById(s[1..]), k);
    }
  }

  /** The reduce of `renderMap`: the minutes of every drawn activity,
      each read with `Math.max(0, parseInt(time, 10) || 0)`. */
  function TotalTime(s: seq<Activity>): nat {
    if s == [] then 0 else Minutes(s[0].time) + TotalTime(s[1..])
  }

  lemma {:induction false} TotalTimeInsert(x: Activity, s: seq<Activity>)
    requires SortedById(s)
    ensures TotalTime(Insert(x, s)) == Minutes(x.time) + TotalTime(s)
  {
    if s != [] && x.id > s[0].id {
      TotalTimeInsert(x, s[1..]);
      assert ([s[0]] + Insert(x, s[1..]))[1..] == Insert(x, s[1..]);
    } else {
      assert ([x] + s)[1..] == s;
    }
  }

  /** Sorting does not change the total. */
  lemma {:induction false} TotalTimeSorted(s: seq<Activity>)
    ensures TotalTime(SortById(s)) == TotalTime(s)
  {
    if s != [] {
      TotalTimeSorted(s[1..]);
      TotalTimeInsert(s[0], SortById(s[1..]));
    }
  }

  /** The planned duration `renderMap` compares against: an empty field
      falls back to 60 (`value || 60`), anything else goes through
      `parseInt`, None standing for NaN. */
  function PlannedDuration(field: string): Option<int> {
    if field == [] then Some(60) else ParseInt(field)
  }

  /** The warning is shown iff the planned duration is a number, not
      negative, and differs from the total. */
  predicate HasMismatch(planned: Option<int>, total: int) {
    planned.Some? && planned.value >= 0 && planned.value != total
  }

  /** A duration field holding a number (possibly followed by text that does
      not start with a digit) is planned as that number, and the warning is
      shown iff it is not negative and differs from the total; an empty
      field is planned as 60. */
  lemma DurationMismatch(n: int, rest: string, total: int)
    requires rest == [] || !IsDigit(rest[0])
    ensures PlannedDuration(Decimal(n) + rest) == Some(n)
    ensures HasMismatch(PlannedDuration(Decimal(n) + rest), total) <==> n >= 0 && n != total
    ensures HasMismatch(PlannedDuration([]), total) <==> total != 60
  {
    ParseIntOfDecimal(n, rest);
    assert |Decimal(n)| > 0;
  }

  /** The grid row of an interaction type:
      `levels.findIndex(level => level.key === interaction) + 1`. */
  function RowOf(interaction: string): (row: int)
    ensures 0 <= row <= |InteractionTypes|
    ensures row == 0 <==> interaction !in InteractionTypes
    ensures row > 0 ==> InteractionTypes[row - 1] == interaction
  {
    match IndexOf(InteractionTypes, interaction)
    case Some(i) => i + 1
    case None => 0
  }

  datatype Point = Point(x: int, y: int)

  const SlotWidth: int := 240
  const RowHeight: int := 150
  const Gap: int := 20

  /** `(row - 0.5) * rowHeight`, the vertical centre of a grid row. */
  function RowCentre(row: int): int {
    RowHeight * row - RowHeight / 2
  }

  /** The path from the activity in slot `i` (row `from`) to the next one
      (row `to`): straight when the rows agree, otherwise down or up at
      the start x and then across. */
  function Connector(i: nat, from: int, to: int): seq<Point> {
    var startX := i * SlotWidth + (SlotWidth - Gap) + 4;
    var endX := (i + 1) * SlotWidth + 6;
    if from == to then [Point(startX, RowCentre(from)), Point(endX - 4, RowCentre(to))]
    else [Point(startX, RowCentre(from)), Point(startX, RowCentre(to)), Point(endX - 4, RowCentre(to))]
  }

  /** The geometry a connector between slots `i` and `i + 1` must have: it
      leaves 16 units before the right edge of slot `i` at the centre of
      row `from` and arrives 2 units into slot `i + 1` at the centre of
      row `to`; it is two points when the rows agree and three otherwise;
      every segment is horizontal or vertical, none runs leftwards, and
      the last one is horizontal. */
  predicate ConnectsSlots(path: seq<Point>, i: nat, from: int, to: int) {
    && 2 <= |path| <= 3
    && path[0] == Point((i + 1) * SlotWidth - 16, RowCentre(from))
    && path[|path| - 1] == Point((i + 1) * SlotWidth + 2, RowCentre(to))
    && (|path| == 2 <==> from == to)
    && (forall k :: 0 <= k < |path| - 1 ==>
          (path[k].x == path[k + 1].x || path[k].y == path[k + 1].y) && path[k].x <= path[k + 1].x)
    && path[|path| - 2].y == path[|path| - 1].y
  }

  lemma ConnectorConnects(i: nat, from: int, to: int)
    ensures ConnectsSlots(Connector(i, from, to), i, from, to)
  {
  }

  lemma ConnectorsConnect(rows: seq<int>)
    ensures forall i :: 0 <= i < |rows| - 1 ==> ConnectsSlots(Connector(i, rows[i], rows[i + 1]), i, rows[i], rows[i + 1])
  {
    forall i | 0 <= i < |rows| - 1
      ensures ConnectsSlots(Connector(i, rows[i], rows[i + 1]), i, rows[i], rows[i + 1])
    {
      ConnectorConnects(i, rows[i], rows[i + 1]);
    }
  }

  datatype ArrowLayer = ArrowLayer(width: int, height: int, paths: seq<seq<Point>>)

  /** `buildArrowsSvg` given the grid row of each drawn activity in order:
      no layer for fewer than two activities, otherwise one connector per
      consecutive pair over a view box 240 wide per activity and 150 high
      per row. */
  function BuildArrowsSvg(rows: seq<int>): (r: Option<ArrowLayer>)
    ensures r.None? <==> |rows| < 2
    ensures r.Some? ==>
      && r.value.width == SlotWidth * |rows|
      && r.value.height == RowHeight * |InteractionTypes|
      && |r.value.paths| == |rows| - 1
      && forall i :: 0 <= i < |rows| - 1 ==> ConnectsSlots(r.value.paths[i], i, rows[i], rows[i + 1])
  {
    if |rows| < 2 then None
    else
      ConnectorsConnect(rows);
      Some(ArrowLayer(
        SlotWidth * |rows|,
        RowHeight * |InteractionTypes|,
        seq(|rows| - 1, i requires 0 <= i < |rows| - 1 => Connector(i, rows[i], rows[i + 1]))))
  }

  /** Every connector ends 18 units to the right of where it starts. */
  lemma ConnectorSpan(rows: seq<int>, i: nat)
    requires i < |rows| - 1
    ensures var path := BuildArrowsSvg(rows).value.paths[i];
      path[|path| - 1].x == path[0].x + 18
  {
  }

  /** The lesson metadata `renderMap` reads. */
  datatype Meta = Meta(topic: string, duration: string, techIntegration: string)

  /** One activity box: its id, its grid row and column, and the
      key-application code whose label it shows (see Tag). */
  datatype Cell = Cell(id: int, row: int, column: int, keyApp: string)

  /** The key-application tag a box shows: the label of its code, broken
      over two lines when it is long. */
  function Tag(cell: Cell): string {
    Labels.FormatKeyAppLabel(Labels.KeyAppLabel(cell.keyApp))
  }

  datatype MapLayout = MapLayout(
    title: string,
    totalTime: nat,
    mismatch: bool,
    techLine: Option<string>,
    columnCount: nat,
    cells: seq<Cell>,
    arrows: Option<ArrowLayer>)

  /** The header line for the technology-integration level: shown unless
      the level is empty or "optional". */
  function TechLine(level: string): Option<string> {
    if level == [] || level == "optional" then None else Some(Labels.FormatTechIntegration(level))
  }

  /** The header line is missing exactly for an empty or "optional" level;
      otherwise it is the level with each '-' a space and each word
      capitalised. */
  lemma TechLineShown(level: string)
    ensures TechLine(level).None? <==> level == [] || level == "optional"
    ensures TechLine(level).Some? ==> Labels.TechPointwise(level, TechLine(level).value)
  {
    Labels.FormatTechIntegrationPointwise(level);
  }

  /** A box with a known key-application code shows that code's label,
      formatted; a box with any other code shows the code itself,
      formatted. */
  lemma TagOfCode(cell: Cell)
    ensures forall i :: 0 <= i < |KeyApplications| && KeyApplications[i] == cell.keyApp ==>
      Tag(cell) == Labels.FormatKeyAppLabel(KeyApplicationLabels[i])
    ensures cell.keyApp !in KeyApplications ==> Tag(cell) == Labels.FormatKeyAppLabel(cell.keyApp)
  {
    assert Distinct(KeyApplications);
    forall i | 0 <= i < |KeyApplications| && KeyApplications[i] == cell.keyApp
      ensures Labels.KeyAppLabel(cell.keyApp) == KeyApplicationLabels[i]
    {
      var j :| 0 <= j < |KeyApplications| && KeyApplications[j] == cell.keyApp
        && Labels.KeyAppLabel(cell.keyApp) == KeyApplicationLabels[j];
      assert i == j;
    }
  }

  function CellFor(a: Activity, index: nat): Cell {
    Cell(a.id, RowOf(a.interaction), index + 1, a.keyApp)
  }

  /** The boxes of the sorted activities, left to right. */
  function Cells(ordered: seq<Activity>): seq<Cell> {
    seq(|ordered|, i requires 0 <= i < |ordered| => CellFor(ordered[i], i))
  }

  function Rows(cells: seq<Cell>): seq<int> {
    seq(|cells|, i requires 0 <= i < |cells| => cells[i].row)
  }

  /** `renderMap` on the filled activities: the title, falling back to
      "Lesson Design Map"; the total over all drawn activities, flagged
      when it disagrees with a valid planned duration; the boxes of the
      activities in id order; and the connectors between neighbouring
      boxes (lemmas RenderMapCells and RenderMapArrows). */
  function RenderMap(filled: seq<Activity>, meta: Meta): (m: MapLayout)
    ensures m.title == if meta.topic == [] then "Lesson Design Map" else meta.topic
    ensures m.totalTime == TotalTime(filled)
    ensures m.mismatch <==> HasMismatch(PlannedDuration(meta.duration), TotalTime(filled))
    ensures m.columnCount == if filled == [] then 1 else |filled|
    ensures m.cells == Cells(SortById(filled))
    ensures m.arrows == BuildArrowsSvg(Rows(m.cells))
    ensures m.techLine == TechLine(meta.techIntegration)
  {
    var ordered := SortById(filled);
    TotalTimeSorted(filled);
    var total := TotalTime(ordered);
    var cells := Cells(ordered);
    MapLayout(
      if meta.topic == [] then "Lesson Design Map" else meta.topic,
      total,
      HasMismatch(PlannedDuration(meta.duration), total),
      TechLine(meta.techIntegration),
      if ordered == [] then 1 else |ordered|,
      cells,
      BuildArrowsSvg(Rows(cells)))
  }

  /** One box per drawn activity, in ascending id order, each in the row
      of its interaction type and the column of its position, and showing
      its activity's key application. */
  lemma RenderMapCells(filled: seq<Activity>, meta: Meta)
    ensures var m := RenderMap(filled, meta);
      && |m.cells| == |filled|
      && multiset(SortById(filled)) == multiset(filled)
      && (forall i, j :: 0 <= i < j < |m.cells| ==> m.cells[i].id <= m.cells[j].id)
      && (forall i :: 0 <= i < |m.cells| ==>
            && m.cells[i].column == i + 1
            && m.cells[i].id == SortById(filled)[i].id
            && m.cells[i].row == RowOf(SortById(filled)[i].interaction)
            && m.cells[i].keyApp == SortById(filled)[i].keyApp)
  {
    var ordered := SortById(filled);
    var cells := Cells(ordered);
    assert forall i :: 0 <= i < |cells| ==> cells[i].id == ordered[i].id;
  }

  /** No connectors for fewer than two boxes; otherwise one per pair of
      neighbouring boxes, running from the row of the first to the row of
      the second. */
  lemma RenderMapArrows(filled: seq<Activity>, meta: Meta)
    ensures var m := RenderMap(filled, meta);
      && (m.arrows.None? <==> |filled| < 2)
      && (m.arrows.Some? ==>
            && |m.arrows.value.paths| == |m.cells| - 1
            && forall i :: 0 <= i < |m.cells| - 1 ==>
                 ConnectsSlots(m.arrows.value.paths[i], i, m.cells[i].row, m.cells[i + 1].row))
  {
  }
}
