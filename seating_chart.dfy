/** The Seating Chart page: the loaded chart with its tables and unassigned guests,
    the confirmed guests, the hit test under the cursor, dragging tables, adding a
    table, the canvas size and the guest roster of the PDF export. Coordinates are
    whole pixels. */
module SeatingChart {
  import opened Common
  import opened Entities
  import opened Records
  import Service = SeatingChartService

  /** A table of the chart as the page draws and drags it. */
  datatype Table = Table(id: int, number: int, x: int, y: int, width: int, height: int, shape: string, capacity: int)

  /** `seatingData`: the tables, the unassigned guests and any other top-level fields. */
  datatype Chart = Chart(fields: Record, tables: seq<Table>, unassignedGuests: seq<Guest>)

  /** What `getItemAtPosition` finds: a table or a guest card. */
  datatype Item = TableItem(table: Table) | GuestItem(guest: Guest)

  /** The top-left corner of an assigned guest's card, given its table, its index among
      the table's guests and their number. The page computes it with floating-point
      trigonometry around the table; here it is an input. */
  type CardOrigin = (Table, nat, nat) -> (int, int)

  const CardWidth := 120
  const CardHeight := 40

  /** The closed box `[x, x + w] × [y, y + h]`: a point on the edge is inside. */
  predicate InBox(px: int, py: int, x: int, y: int, w: int, h: int)
  {
    x <= px <= x + w && y <= py <= y + h
  }

  /** A table is hit anywhere in its bounding box, whatever its shape. */
  predicate OnTable(t: Table, px: int, py: int)
  {
    InBox(px, py, t.x, t.y, t.width, t.height)
  }

  predicate OnCard(origin: (int, int), px: int, py: int)
  {
    InBox(px, py, origin.0, origin.1, CardWidth, CardHeight)
  }

  /** Unassigned guest `i` sits in a grid of three columns 140 apart and rows 60 apart. */
  function GridOrigin(i: nat): (o: (int, int))
    ensures o.0 == 20 || o.0 == 160 || o.0 == 300
    ensures o.0 == 20 <==> i % 3 == 0
    ensures o.0 == 160 <==> i % 3 == 1
    ensures o.0 == 300 <==> i % 3 == 2
    ensures o.1 == 20 + 60 * (i / 3) && o.1 >= 20
  {
    var column := i % 3;
    assert column == 0 || column == 1 || column == 2;
    (20 + column * 140, 20 + (i / 3) * 60)
  }

  /** Two different grid cards share no point, not even an edge. */
  lemma GridCardsApart(i: nat, j: nat, px: int, py: int)
    requires i != j && OnCard(GridOrigin(i), px, py)
    ensures !OnCard(GridOrigin(j), px, py)
  {
    if i % 3 == j % 3 {
      assert i == 3 * (i / 3) + i % 3 && j == 3 * (j / 3) + j % 3;
      assert i / 3 != j / 3;
      if i / 3 < j / 3 {
        assert (j / 3) * 60 >= (i / 3) * 60 + 60;
      } else {
        assert (i / 3) * 60 >= (j / 3) * 60 + 60;
      }
    }
  }

  /** The guests seated at the table with this number, in guest-list order. */
  function TableGuests(guests: seq<Guest>, number: int): seq<Guest>
  {
    if guests == [] then []
    else
      var rest := TableGuests(guests[1..], number);
      if guests[0].tableNumber == Some(number) then [guests[0]] + rest else rest
  }

  /** The first of the table's `count` guest cards, from index `i` on, under the point. */
  function FirstCardFrom(t: Table, count: nat, origin: CardOrigin, px: int, py: int, i: nat): (r: Option<nat>)
    requires i <= count
    decreases count - i
    ensures r.Some? ==> i <= r.value < count && OnCard(origin(t, r.value, count), px, py)
    ensures r.Some? ==> forall j :: i <= j < r.value ==> !OnCard(origin(t, j, count), px, py)
    ensures r.None? ==> forall j :: i <= j < count ==> !OnCard(origin(t, j, count), px, py)
  {
    if i == count then None
    else if OnCard(origin(t, i, count), px, py) then Some(i)
    else FirstCardFrom(t, count, origin, px, py, i + 1)
  }

  /** The first unassigned-guest card, from index `i` on, under the point. */
  function FirstGridCardFrom(count: nat, px: int, py: int, i: nat): (r: Option<nat>)
    requires i <= count
    decreases count - i
    ensures r.Some? ==> i <= r.value < count && OnCard(GridOrigin(r.value), px, py)
    ensures r.None? ==> forall j :: i <= j < count ==> !OnCard(GridOrigin(j), px, py)
  {
    if i == count then None
    else if OnCard(GridOrigin(i), px, py) then Some(i)
    else FirstGridCardFrom(count, px, py, i + 1)
  }

  /** The assigned guest whose card is under the point: tables in order, and within a
      table its guests in order. */
  function AssignedAt(tables: seq<Table>, guests: seq<Guest>, origin: CardOrigin, px: int, py: int): (r: Option<Guest>)
    ensures r.Some? ==> r.value in guests
    ensures r.Some? ==> exists k :: 0 <= k < |tables| && r.value.tableNumber == Some(tables[k].number)
  {
    if tables == [] then None
    else
      var tableGuests := TableGuests(guests, tables[0].number);
      match FirstCardFrom(tables[0], |tableGuests|, origin, px, py, 0)
      case Some(i) =>
        InTableGuests(guests, tables[0].number, tableGuests[i]);
        Some(tableGuests[i])
      case None =>
        var r := AssignedAt(tables[1..], guests, origin, px, py);
        if r.Some? then
          var k :| 0 <= k < |tables[1..]| && r.value.tableNumber == Some(tables[1..][k].number);
          assert r.value.tableNumber == Some(tables[k + 1].number);
          r
        else r
  }

  /** Card `i` of table `k` (its `i`-th guest, in guest-list order) is under the point. */
  ghost predicate CardHit(tables: seq<Table>, guests: seq<Guest>, origin: CardOrigin, px: int, py: int, k: nat, i: nat)
  {
    k < |tables| && i < |TableGuests(guests, tables[k].number)|
    && OnCard(origin(tables[k], i, |TableGuests(guests, tables[k].number)|), px, py)
  }

  /** Card `i` of table `k` is the first hit: no earlier table, and no earlier card of
      the same table, is under the point. */
  ghost predicate FirstHit(tables: seq<Table>, guests: seq<Guest>, origin: CardOrigin, px: int, py: int, k: nat, i: nat)
  {
    CardHit(tables, guests, origin, px, py, k, i)
    && forall k': nat, i': nat :: CardHit(tables, guests, origin, px, py, k', i') ==> k < k' || (k == k' && i <= i')
  }

  /** Dropping the first table renumbers the others. */
  lemma CardHitShift(tables: seq<Table>, guests: seq<Guest>, origin: CardOrigin, px: int, py: int, k: nat, i: nat)
    requires tables != []
    ensures CardHit(tables, guests, origin, px, py, k + 1, i) <==> CardHit(tables[1..], guests, origin, px, py, k, i)
  {
    if k + 1 < |tables| {
      assert tables[1..][k] == tables[k + 1];
    }
  }

  /** No assigned guest is found exactly when no card around any table is under the point. */
  lemma {:induction false} AssignedAtMiss(tables: seq<Table>, guests: seq<Guest>, origin: CardOrigin, px: int, py: int)
    ensures AssignedAt(tables, guests, origin, px, py).None?
      <==> forall k: nat, i: nat :: !CardHit(tables, guests, origin, px, py, k, i)
  {
    if tables != [] {
      var tableGuests := TableGuests(guests, tables[0].number);
      var f := FirstCardFrom(tables[0], |tableGuests|, origin, px, py, 0);
      if f.Some? {
        assert CardHit(tables, guests, origin, px, py, 0, f.value);
      } else {
        AssignedAtMiss(tables[1..], guests, origin, px, py);
        forall k: nat, i: nat | CardHit(tables, guests, origin, px, py, k, i)
          ensures k >= 1 && CardHit(tables[1..], guests, origin, px, py, k - 1, i)
        {
          if k >= 1 {
            CardHitShift(tables, guests, origin, px, py, k - 1, i);
          }
        }
        forall k: nat, i: nat | CardHit(tables[1..], guests, origin, px, py, k, i)
          ensures CardHit(tables, guests, origin, px, py, k + 1, i)
        {
          CardHitShift(tables, guests, origin, px, py, k, i);
        }
      }
    }
  }

  /** The assigned guest found is the one on the first card hit, taking tables in
      order and, within a table, its guests in order. */
  lemma {:induction false} AssignedAtFirstHit(tables: seq<Table>, guests: seq<Guest>, origin: CardOrigin, px: int, py: int)
    requires AssignedAt(tables, guests, origin, px, py).Some?
    ensures exists k: nat, i: nat ::
      FirstHit(tables, guests, origin, px, py, k, i)
      && AssignedAt(tables, guests, origin, px, py).value == TableGuests(guests, tables[k].number)[i]
  {
    var tableGuests := TableGuests(guests, tables[0].number);
    var f := FirstCardFrom(tables[0], |tableGuests|, origin, px, py, 0);
    if f.Some? {
      forall k': nat, i': nat | CardHit(tables, guests, origin, px, py, k', i')
        ensures 0 < k' || f.value <= i'
      {
      }
      assert FirstHit(tables, guests, origin, px, py, 0, f.value);
    } else {
      AssignedAtFirstHit(tables[1..], guests, origin, px, py);
      var k: nat, i: nat :| FirstHit(tables[1..], guests, origin, px, py, k, i)
        && AssignedAt(tables[1..], guests, origin, px, py).value == TableGuests(guests, tables[1..][k].number)[i];
      CardHitShift(tables, guests, origin, px, py, k, i);
      forall k': nat, i': nat | CardHit(tables, guests, origin, px, py, k', i')
        ensures k + 1 < k' || (k + 1 == k' && i <= i')
      {
        assert k' >= 1;
        CardHitShift(tables, guests, origin, px, py, k' - 1, i');
      }
      assert FirstHit(tables, guests, origin, px, py, k + 1, i);
      assert tables[1..][k] == tables[k + 1];
    }
  }

  /** The first table in array order whose box holds the point. */
  function TableAt(tables: seq<Table>, px: int, py: int): (r: Option<nat>)
    ensures r.Some? ==> r.value < |tables| && OnTable(tables[r.value], px, py)
    ensures r.Some? ==> forall j :: 0 <= j < r.value ==> !OnTable(tables[j], px, py)
    ensures r.None? ==> forall j :: 0 <= j < |tables| ==> !OnTable(tables[j], px, py)
  {
    FindFirst(tables, (t: Table) => OnTable(t, px, py))
  }

  /** `getItemAtPosition` as written: the unassigned-guest step returns only from the
      callback it runs in, so after the tables it goes straight to the assigned guests. */
  function ItemAtAsWritten(chart: Option<Chart>, guests: seq<Guest>, origin: CardOrigin, px: int, py: int): (r: Option<Item>)
    ensures chart.None? ==> r.None?
    ensures chart.Some? && TableAt(chart.value.tables, px, py).Some? ==>
      r == Some(TableItem(chart.value.tables[TableAt(chart.value.tables, px, py).value]))
    ensures r.Some? && r.value.GuestItem? ==> r.value.guest in guests
    ensures chart.Some? && r.Some? && r.value.GuestItem? ==>
      exists k :: 0 <= k < |chart.value.tables| && r.value.guest.tableNumber == Some(chart.value.tables[k].number)
    ensures chart.Some? && TableAt(chart.value.tables, px, py).None? ==>
      r == (if AssignedAt(chart.value.tables, guests, origin, px, py).Some?
            then Some(GuestItem(AssignedAt(chart.value.tables, guests, origin, px, py).value)) else None)
  {
    if chart.None? then None
    else
      var c := chart.value;
      match TableAt(c.tables, px, py)
      case Some(k) => Some(TableItem(c.tables[k]))
      case None =>
        match AssignedAt(c.tables, guests, origin, px, py)
        case Some(g) => Some(GuestItem(g))
        case None => None
  }

  /** `getItemAtPosition` as intended, and as the page uses it here: tables first, then
      the unassigned-guest grid, then the cards around the tables. */
  function ItemAt(chart: Option<Chart>, guests: seq<Guest>, origin: CardOrigin, px: int, py: int): (r: Option<Item>)
    ensures chart.None? ==> r.None?
    ensures chart.Some? && TableAt(chart.value.tables, px, py).Some? ==>
      r == Some(TableItem(chart.value.tables[TableAt(chart.value.tables, px, py).value]))
    ensures r.Some? && r.value.GuestItem? ==>
      TableAt(chart.value.tables, px, py).None? &&
      (r.value.guest in chart.value.unassignedGuests || r.value.guest in guests)
    ensures (chart.Some? && TableAt(chart.value.tables, px, py).None?
             && FirstGridCardFrom(|chart.value.unassignedGuests|, px, py, 0).None?) ==>
      r == (if AssignedAt(chart.value.tables, guests, origin, px, py).Some?
            then Some(GuestItem(AssignedAt(chart.value.tables, guests, origin, px, py).value)) else None)
  {
    if chart.None? then None
    else
      var c := chart.value;
      match TableAt(c.tables, px, py)
      case Some(k) => Some(TableItem(c.tables[k]))
      case None =>
        match FirstGridCardFrom(|c.unassignedGuests|, px, py, 0)
        case Some(i) => Some(GuestItem(c.unassignedGuests[i]))
        case None =>
          match AssignedAt(c.tables, guests, origin, px, py)
          case Some(g) => Some(GuestItem(g))
          case None => None
  }

  /** A point on the card of unassigned guest `i`, clear of every table, selects that
      guest. */
  lemma UnassignedGuestSelected(c: Chart, guests: seq<Guest>, origin: CardOrigin, px: int, py: int, i: nat)
    requires i < |c.unassignedGuests| && OnCard(GridOrigin(i), px, py)
    requires forall k :: 0 <= k < |c.tables| ==> !OnTable(c.tables[k], px, py)
    ensures ItemAt(Some(c), guests, origin, px, py) == Some(GuestItem(c.unassignedGuests[i]))
  {
    var f := FirstGridCardFrom(|c.unassignedGuests|, px, py, 0);
    assert f.Some?;
    if f.value != i {
      GridCardsApart(i, f.value, px, py);
    }
  }

  /** As written, the same point selects nothing when no assigned guest's card is under
      it: the unassigned guests are never hit. */
  lemma AsWrittenMissesUnassigned(c: Chart, guests: seq<Guest>, origin: CardOrigin, px: int, py: int)
    requires forall k :: 0 <= k < |c.tables| ==> !OnTable(c.tables[k], px, py)
    requires AssignedAt(c.tables, guests, origin, px, py).None?
    ensures ItemAtAsWritten(Some(c), guests, origin, px, py).None?
  {
  }

  /** Away from the unassigned-guest grid the two hit tests agree. */
  lemma AsWrittenAgreesOffGrid(c: Chart, guests: seq<Guest>, origin: CardOrigin, px: int, py: int)
    requires forall i :: 0 <= i < |c.unassignedGuests| ==> !OnCard(GridOrigin(i), px, py)
    ensures ItemAtAsWritten(Some(c), guests, origin, px, py) == ItemAt(Some(c), guests, origin, px, py)
  {
  }

  /** The smallest case: no tables, one unassigned guest, a click inside its card. */
  lemma UnassignedClickExample(g: Guest, origin: CardOrigin)
    ensures ItemAtAsWritten(Some(Chart(map[], [], [g])), [], origin, 30, 30).None?
    ensures ItemAt(Some(Chart(map[], [], [g])), [], origin, 30, 30) == Some(GuestItem(g))
  {
    assert OnCard(GridOrigin(0), 30, 30);
  }

  /** `dragOffset`: the cursor minus the item's origin, `item.x || 0`. A guest record
      has no `x` or `y`, so its offset is the cursor itself. */
  function DragOffset(item: Item, px: int, py: int): (offset: (int, int))
    ensures item.TableItem? ==> px - offset.0 == item.table.x && py - offset.1 == item.table.y
    ensures item.GuestItem? ==> offset == (px, py)
  {
    match item
    case TableItem(t) => (px - t.x, py - t.y)
    case GuestItem(_) => (px, py)
  }

  /** The tables after a drag step: every table with this Id at `(x, y)`, all else kept. */
  function MoveTable(tables: seq<Table>, id: int, x: int, y: int): (r: seq<Table>)
    ensures |r| == |tables|
    ensures forall i :: 0 <= i < |r| ==> r[i].id == tables[i].id && r[i].number == tables[i].number
    ensures forall i :: 0 <= i < |r| && tables[i].id != id ==> r[i] == tables[i]
    ensures forall i :: 0 <= i < |r| && tables[i].id == id ==> r[i].x == x && r[i].y == y
    ensures forall i :: 0 <= i < |r| ==> r[i].(x := tables[i].x, y := tables[i].y) == tables[i]
  {
    Map(tables, (t: Table) => if t.id == id then t.(x := x, y := y) else t)
  }

  /** Only the last drag step counts. */
  lemma MoveTwice(tables: seq<Table>, id: int, x1: int, y1: int, x2: int, y2: int)
    ensures MoveTable(MoveTable(tables, id, x1, y1), id, x2, y2) == MoveTable(tables, id, x2, y2)
  {
  }

  /** Moving tables to where they already are changes nothing. */
  lemma MoveInPlace(tables: seq<Table>, id: int, x: int, y: int)
    requires forall i :: 0 <= i < |tables| && tables[i].id == id ==> tables[i].x == x && tables[i].y == y
    ensures MoveTable(tables, id, x, y) == tables
  {
  }

  /** `handleAddTable`'s new table: Id and number one past the largest (or 1), at
      (200, 200), 100 by 100, round, eight seats. */
  function NewTable(tables: seq<Table>): (t: Table)
    ensures forall i :: 0 <= i < |tables| ==> tables[i].id < t.id && tables[i].number < t.number
    ensures t.id >= 1 && t.number >= 1
    ensures t.id - 1 == 0 || exists i :: 0 <= i < |tables| && tables[i].id == t.id - 1
    ensures t.number - 1 == 0 || exists i :: 0 <= i < |tables| && tables[i].number == t.number - 1
    ensures t.x == 200 && t.y == 200 && t.width == 100 && t.height == 100
    ensures t.shape == "round" && t.capacity == 8
  {
    var ids := Map(tables, (t: Table) => t.id);
    var numbers := Map(tables, (t: Table) => t.number);
    Table(MaxOr(ids, 0) + 1, MaxOr(numbers, 0) + 1, 200, 200, 100, 100, "round", 8)
  }

  /** The guests `loadData` keeps: those whose RSVP is 'Confirmed', in order. */
  function ConfirmedGuests(all: seq<Guest>): (r: seq<Guest>)
    ensures forall i :: 0 <= i < |r| ==> r[i] in all && r[i].rsvpStatus == "Confirmed"
    ensures forall i :: 0 <= i < |all| && all[i].rsvpStatus == "Confirmed" ==> all[i] in r
  {
    Filter(all, (g: Guest) => g.rsvpStatus == "Confirmed")
  }

  /** The confirmed guests keep the list's order: those of a list and of its
      continuation appear in that order. */
  lemma ConfirmedGuestsAppend(a: seq<Guest>, b: seq<Guest>)
    ensures ConfirmedGuests(a + b) == ConfirmedGuests(a) + ConfirmedGuests(b)
  {
    FilterAppend(a, b, (g: Guest) => g.rsvpStatus == "Confirmed");
  }

  /** The page's error text after a failed load: the error's message, or a default
      when the message is empty. */
  function LoadError(message: string): (e: string)
    ensures e != ""
    ensures message != "" ==> e == message
  {
    if message != "" then message else "Failed to load seating chart"
  }

  /** `updateCanvasSize`: the container width less 48, clamped to [400, 1200]; the
      height three quarters of that, clamped to [300, 800]. */
  function CanvasSize(containerWidth: real): (size: (real, real))
    ensures 400.0 <= size.0 <= 1200.0 && 300.0 <= size.1 <= 800.0
    ensures 448.0 <= containerWidth <= 1248.0 ==> size.0 == containerWidth - 48.0
    ensures containerWidth < 448.0 ==> size.0 == 400.0
    ensures containerWidth > 1248.0 ==> size.0 == 1200.0
    ensures size.1 == if size.0 * 0.75 <= 800.0 then size.0 * 0.75 else 800.0
  {
    var w := Clamp(containerWidth - 48.0, 400.0, 1200.0);
    (w, Clamp(w * 0.75, 300.0, 800.0))
  }

  /** `Math.max(Math.min(v, high), low)` */
  function Clamp(v: real, low: real, high: real): real
  {
    var m := if v < high then v else high;
    if m > low then m else low
  }

  /** One entry of the roster: a table heading or a guest row. */
  datatype Entry = Heading(number: int) | GuestRow(guest: Guest)

  /** An entry printed at `(x, y)` on the roster page. */
  datatype Line = Line(entry: Entry, x: int, y: int)

  /** The bullet the page prints before a guest's name: the UTF-8 bytes of U+2022 read
      as Windows-1252, then a space. */
  const Bullet := "\U{E2}\U{20AC}\U{A2} "

  /** The text of a guest row: the bullet, the name, and ' (+1)' for a plus-one. */
  function GuestText(g: Guest): (text: string)
    ensures |text| >= |Bullet| + |g.name|
    ensures text[..|Bullet|] == Bullet && text[|Bullet|..|Bullet| + |g.name|] == g.name
    ensures text[|Bullet| + |g.name|..] == " (+1)" <==> g.plusOne
    ensures text[|Bullet| + |g.name|..] == "" <==> !g.plusOne
  {
    var text := Bullet + g.name + (if g.plusOne then " (+1)" else "");
    assert text[|Bullet| + |g.name|..] == (if g.plusOne then " (+1)" else "");
    text
  }

  /** The text of an entry: `Table N:` for a heading. */
  function EntryText(e: Entry): (text: string)
    ensures e.Heading? ==> text == "Table " + Text.DecimalString(e.number) + ":"
    ensures e.GuestRow? ==> text == GuestText(e.guest)
  {
    match e
    case Heading(n) => "Table " + Text.DecimalString(n) + ":"
    case GuestRow(g) => GuestText(g)
  }

  /** A table's guest rows from `y` down, 8 apart, at x = 25. */
  function GuestLines(gs: seq<Guest>, y: int): (r: seq<Line>)
    ensures |r| == |gs|
  {
    if gs == [] then [] else [Line(GuestRow(gs[0]), 25, y)] + GuestLines(gs[1..], y + 8)
  }

  /** Guest `i` of the run is at x 25, `8 * i` below the first. */
  lemma {:induction false} GuestLinesAt(gs: seq<Guest>, y: int)
    ensures forall i :: 0 <= i < |gs| ==> GuestLines(gs, y)[i] == Line(GuestRow(gs[i]), 25, y + 8 * i)
  {
    if gs != [] {
      GuestLinesAt(gs[1..], y + 8);
      forall i | 1 <= i < |gs|
        ensures GuestLines(gs, y)[i] == Line(GuestRow(gs[i]), 25, y + 8 * i)
      {
        assert GuestLines(gs, y)[i] == GuestLines(gs[1..], y + 8)[i - 1];
        assert gs[1..][i - 1] == gs[i];
      }
    }
  }

  /** One more guest adds one more row, 8 below the last. */
  lemma {:induction false} GuestLinesSnoc(gs: seq<Guest>, g: Guest, y: int)
    ensures GuestLines(gs + [g], y) == GuestLines(gs, y) + [Line(GuestRow(g), 25, y + 8 * |gs|)]
  {
    if gs == [] {
      assert [g][1..] == [];
    } else {
      assert (gs + [g])[1..] == gs[1..] + [g];
      GuestLinesSnoc(gs[1..], g, y + 8);
    }
  }

  /** Lines strictly top to bottom. */
  predicate Descending(lines: seq<Line>)
  {
    forall a, b :: 0 <= a < b < |lines| ==> lines[a].y < lines[b].y
  }

  /** Every line at or below `y`. */
  predicate StartsAt(lines: seq<Line>, y: int)
  {
    forall i :: 0 <= i < |lines| ==> y <= lines[i].y
  }

  /** Every line above `y`. */
  predicate EndsBefore(lines: seq<Line>, y: int)
  {
    forall i :: 0 <= i < |lines| ==> lines[i].y < y
  }

  lemma DescendingConcat(a: seq<Line>, b: seq<Line>, y: int)
    requires Descending(a) && Descending(b) && EndsBefore(a, y) && StartsAt(b, y)
    ensures Descending(a + b)
  {
    forall i, j | 0 <= i < j < |a + b|
      ensures (a + b)[i].y < (a + b)[j].y
    {
      if j < |a| {
      } else if i < |a| {
        assert (a + b)[j] == b[j - |a|];
      } else {
        assert (a + b)[i] == b[i - |a|] && (a + b)[j] == b[j - |a|];
      }
    }
  }

  /** The block of one table with guests: its heading at `y`, then its guest rows. */
  function Block(number: int, tableGuests: seq<Guest>, y: int): (r: seq<Line>)
    requires tableGuests != []
    ensures |r| == |tableGuests| + 1
    ensures r[0] == Line(Heading(number), 20, y)
  {
    [Line(Heading(number), 20, y)] + GuestLines(tableGuests, y + 10)
  }

  /** After its heading, a block has one row per guest of the table, 8 apart from `y + 10`. */
  lemma BlockRows(number: int, tableGuests: seq<Guest>, y: int)
    requires tableGuests != []
    ensures forall i :: 0 <= i < |tableGuests| ==>
      Block(number, tableGuests, y)[i + 1] == Line(GuestRow(tableGuests[i]), 25, y + 10 + 8 * i)
  {
    var gl := GuestLines(tableGuests, y + 10);
    GuestLinesAt(tableGuests, y + 10);
    assert forall i :: 0 <= i < |tableGuests| ==> Block(number, tableGuests, y)[i + 1] == gl[i];
  }

  /** A block runs top to bottom from `y`, ending above the row after its last guest. */
  lemma BlockLayout(number: int, tableGuests: seq<Guest>, y: int)
    requires tableGuests != []
    ensures var b := Block(number, tableGuests, y);
      Descending(b) && StartsAt(b, y) && EndsBefore(b, y + 10 + 8 * |tableGuests|)
  {
    var b := Block(number, tableGuests, y);
    BlockRows(number, tableGuests, y);
    forall i | 0 <= i < |b|
      ensures b[i].y == if i == 0 then y else y + 10 + 8 * (i - 1)
    {
      if i > 0 {
        assert b[(i - 1) + 1] == Line(GuestRow(tableGuests[i - 1]), 25, y + 10 + 8 * (i - 1));
      }
    }
  }

  /** The roster the export prints from table `i` on, starting at `y`: for each table
      in order that has guests, its heading and then its guests; tables without guests
      take no space. */
  function RosterFrom(tables: seq<Table>, guests: seq<Guest>, i: nat, y: int): seq<Line>
    requires i <= |tables|
    decreases |tables| - i
  {
    if i == |tables| then []
    else
      var tableGuests := TableGuests(guests, tables[i].number);
      if tableGuests == [] then RosterFrom(tables, guests, i + 1, y)
      else Block(tables[i].number, tableGuests, y) + RosterFrom(tables, guests, i + 1, y + 10 + 8 * |tableGuests| + 5)
  }

  /** The whole roster, from 40 down the page. */
  function Roster(tables: seq<Table>, guests: seq<Guest>): seq<Line>
  {
    RosterFrom(tables, guests, 0, 40)
  }

  lemma StartsAtConcat(a: seq<Line>, b: seq<Line>, y: int)
    requires StartsAt(a, y) && StartsAt(b, y)
    ensures StartsAt(a + b, y)
  {
    forall j | 0 <= j < |a + b|
      ensures y <= (a + b)[j].y
    {
      if j >= |a| {
        assert (a + b)[j] == b[j - |a|];
      }
    }
  }

  /** The roster runs strictly top to bottom from `y`: no two lines share a row. */
  lemma {:induction false} RosterLayout(tables: seq<Table>, guests: seq<Guest>, i: nat, y: int)
    requires i <= |tables|
    ensures Descending(RosterFrom(tables, guests, i, y)) && StartsAt(RosterFrom(tables, guests, i, y), y)
    decreases |tables| - i
  {
    if i < |tables| {
      var tableGuests := TableGuests(guests, tables[i].number);
      RosterFromStep(tables, guests, i, y);
      if tableGuests == [] {
        RosterLayout(tables, guests, i + 1, y);
      } else {
        var block := Block(tables[i].number, tableGuests, y);
        var bottom := y + 10 + 8 * |tableGuests|;
        var rest := RosterFrom(tables, guests, i + 1, bottom + 5);
        RosterLayout(tables, guests, i + 1, bottom + 5);
        BlockLayout(tables[i].number, tableGuests, y);
        assert StartsAt(rest, bottom) && StartsAt(rest, y);
        DescendingConcat(block, rest, bottom);
        StartsAtConcat(block, rest, y);
      }
    }
  }

  /** Whether the roster has a row for guest `g`. */
  predicate Lists(lines: seq<Line>, g: Guest)
  {
    exists i :: 0 <= i < |lines| && lines[i].entry == GuestRow(g)
  }

  /** Whether `g` is seated at one of the tables from `i` on. */
  predicate SeatedFrom(tables: seq<Table>, i: nat, g: Guest)
  {
    exists k :: i <= k < |tables| && g.tableNumber == Some(tables[k].number)
  }

  lemma {:induction false} InTableGuests(guests: seq<Guest>, number: int, g: Guest)
    ensures g in TableGuests(guests, number) <==> g in guests && g.tableNumber == Some(number)
  {
    if guests != [] {
      InTableGuests(guests[1..], number, g);
      assert guests == [guests[0]] + guests[1..];
    }
  }


  lemma ListsConcat(a: seq<Line>, b: seq<Line>, g: Guest)
    ensures Lists(a + b, g) <==> Lists(a, g) || Lists(b, g)
  {
    if Lists(a + b, g) {
      var i :| 0 <= i < |a + b| && (a + b)[i].entry == GuestRow(g);
      if i >= |a| {
        assert b[i - |a|] == (a + b)[i];
      }
    }
    if Lists(b, g) {
      var i :| 0 <= i < |b| && b[i].entry == GuestRow(g);
      assert (a + b)[|a| + i] == b[i];
    }
    if Lists(a, g) {
      var i :| 0 <= i < |a| && a[i].entry == GuestRow(g);
      assert (a + b)[i] == a[i];
    }
  }

  lemma ListsBlock(number: int, tableGuests: seq<Guest>, y: int, g: Guest)
    requires tableGuests != []
    ensures Lists(Block(number, tableGuests, y), g) <==> g in tableGuests
  {
    var block := Block(number, tableGuests, y);
    BlockRows(number, tableGuests, y);
    if Lists(block, g) {
      var i :| 0 <= i < |block| && block[i].entry == GuestRow(g);
      assert i > 0;
      assert tableGuests[i - 1] == g;
    }
    if g in tableGuests {
      var i :| 0 <= i < |tableGuests| && tableGuests[i] == g;
      assert block[i + 1].entry == GuestRow(g);
    }
  }

  /** Being seated from table `i` on is being seated at table `i` or from `i + 1` on. */
  lemma SeatedFromStep(tables: seq<Table>, i: nat, g: Guest)
    requires i < |tables|
    ensures SeatedFrom(tables, i, g) <==> g.tableNumber == Some(tables[i].number) || SeatedFrom(tables, i + 1, g)
  {
    if SeatedFrom(tables, i, g) && g.tableNumber != Some(tables[i].number) {
      var k :| i <= k < |tables| && g.tableNumber == Some(tables[k].number);
      assert k != i;
    }
  }

  /** From table `i` on, the roster lists a guest exactly when the guest is in the list
      and seated at one of those tables. */
  /** A table without guests adds nothing to the roster: no guest of the list sits at it. */
  lemma SkipTableLists(tables: seq<Table>, guests: seq<Guest>, i: nat, y: int, g: Guest)
    requires i < |tables| && TableGuests(guests, tables[i].number) == []
    ensures Lists(RosterFrom(tables, guests, i, y), g) <==>
      (g in guests && g.tableNumber == Some(tables[i].number)) || Lists(RosterFrom(tables, guests, i + 1, y), g)
  {
    InTableGuests(guests, tables[i].number, g);
    RosterFromStep(tables, guests, i, y);
  }

  /** A table with guests lists exactly the guests seated at it ahead of the rest of the roster. */
  lemma TableBlockLists(tables: seq<Table>, guests: seq<Guest>, i: nat, y: int, g: Guest)
    requires i < |tables| && TableGuests(guests, tables[i].number) != []
    ensures var tableGuests := TableGuests(guests, tables[i].number);
      Lists(RosterFrom(tables, guests, i, y), g) <==>
        (g in guests && g.tableNumber == Some(tables[i].number)) ||
        Lists(RosterFrom(tables, guests, i + 1, y + 10 + 8 * |tableGuests| + 5), g)
  {
    var tableGuests := TableGuests(guests, tables[i].number);
    InTableGuests(guests, tables[i].number, g);
    var block := Block(tables[i].number, tableGuests, y);
    var rest := RosterFrom(tables, guests, i + 1, y + 10 + 8 * |tableGuests| + 5);
    assert RosterFrom(tables, guests, i, y) == block + rest by {
      RosterFromStep(tables, guests, i, y);
    }
    ListsConcat(block, rest, g);
    ListsBlock(tables[i].number, tableGuests, y, g);
  }

  lemma {:induction false} RosterFromLists(tables: seq<Table>, guests: seq<Guest>, i: nat, y: int, g: Guest)
    requires i <= |tables|
    ensures Lists(RosterFrom(tables, guests, i, y), g) <==> g in guests && SeatedFrom(tables, i, g)
    decreases |tables| - i
  {
    if i < |tables| {
      var tableGuests := TableGuests(guests, tables[i].number);
      SeatedFromStep(tables, i, g);
      if tableGuests == [] {
        SkipTableLists(tables, guests, i, y, g);
        RosterFromLists(tables, guests, i + 1, y, g);
      } else {
        TableBlockLists(tables, guests, i, y, g);
        RosterFromLists(tables, guests, i + 1, y + 10 + 8 * |tableGuests| + 5, g);
      }
    } else {
      assert RosterFrom(tables, guests, i, y) == [];
      assert !SeatedFrom(tables, i, g);
    }
  }

  /** The roster lists a guest exactly when the guest is in the list and seated at a
      table of the chart. */
  lemma RosterListsSeatedGuests(tables: seq<Table>, guests: seq<Guest>, g: Guest)
    ensures Lists(Roster(tables, guests), g) <==>
      g in guests && exists k :: 0 <= k < |tables| && g.tableNumber == Some(tables[k].number)
  {
    RosterFromLists(tables, guests, 0, 40, g);
  }

  /** Every guest row of a roster of confirmed guests names a confirmed guest. */
  lemma RosterOnlyConfirmed(tables: seq<Table>, all: seq<Guest>, g: Guest)
    requires Lists(Roster(tables, ConfirmedGuests(all)), g)
    ensures g in all && g.rsvpStatus == "Confirmed"
  {
    RosterListsSeatedGuests(tables, ConfirmedGuests(all), g);
    var i :| 0 <= i < |ConfirmedGuests(all)| && ConfirmedGuests(all)[i] == g;
  }

  /** One step of the roster: table `i` adds its block, or nothing when it has no guests. */
  lemma RosterFromStep(tables: seq<Table>, guests: seq<Guest>, i: nat, y: int)
    requires i < |tables|
    ensures var tableGuests := TableGuests(guests, tables[i].number);
      RosterFrom(tables, guests, i, y) ==
        if tableGuests == [] then RosterFrom(tables, guests, i + 1, y)
        else Block(tables[i].number, tableGuests, y) + RosterFrom(tables, guests, i + 1, y + 10 + 8 * |tableGuests| + 5)
  {
  }

  /** The loop of `handleExportPDF` that writes the guest list, advancing `yPos` from 40:
      a heading and 10 down, the guest rows, 5 more after each table with guests. */
  method BuildRoster(tables: seq<Table>, guests: seq<Guest>) returns (lines: seq<Line>)
    ensures lines == Roster(tables, guests)
  {
    lines := [];
    var yPos := 40;
    var i := 0;
    while i < |tables|
      invariant 0 <= i <= |tables|
      invariant lines + RosterFrom(tables, guests, i, yPos) == Roster(tables, guests)
    {
      var tableGuests := TableGuests(guests, tables[i].number);
      RosterFromStep(tables, guests, i, yPos);
      if |tableGuests| > 0 {
        var block, yNext := WriteTable(tables[i].number, tableGuests, yPos);
        ghost var rest := RosterFrom(tables, guests, i + 1, yNext);
        assert (lines + block) + rest == lines + (block + rest);
        lines := lines + block;
        yPos := yNext;
      }
      i := i + 1;
    }
    assert RosterFrom(tables, guests, i, yPos) == [];
  }

  /** One table of the export loop: its heading, 10 down its guest rows, then 5 more. */
  method WriteTable(number: int, tableGuests: seq<Guest>, y: int) returns (block: seq<Line>, yNext: int)
    requires tableGuests != []
    ensures block == Block(number, tableGuests, y)
    ensures yNext == y + 10 + 8 * |tableGuests| + 5
  {
    var rows, yEnd := GuestRows(tableGuests, y + 10);
    block := [Line(Heading(number), 20, y)] + rows;
    yNext := yEnd + 5;
  }

  /** The inner loop: one row per guest at x = 25, `yPos` 8 further down after each. */
  method GuestRows(tableGuests: seq<Guest>, y: int) returns (rows: seq<Line>, yPos: int)
    ensures rows == GuestLines(tableGuests, y)
    ensures yPos == y + 8 * |tableGuests|
  {
    rows := [];
    yPos := y;
    var j := 0;
    while j < |tableGuests|
      invariant 0 <= j <= |tableGuests|
      invariant yPos == y + 8 * j
      invariant rows == GuestLines(tableGuests[..j], y)
    {
      assert tableGuests[..j + 1] == tableGuests[..j] + [tableGuests[j]];
      GuestLinesSnoc(tableGuests[..j], tableGuests[j], y);
      rows := rows + [Line(GuestRow(tableGuests[j]), 25, yPos)];
      yPos := yPos + 8;
      j := j + 1;
    }
    assert tableGuests[..j] == tableGuests;
  }

  /** A canvas as the export finds it: its size, whether a 2-D context is available and
      what `toDataURL` gives. `None` when the canvas element is missing. */
  datatype Canvas = Canvas(width: int, height: int, hasContext: bool, dataUrl: string)

  /** How an export ends: each early exit with its own message, a thrown error, or the
      saved PDF with its roster. */
  datatype ExportOutcome = CanvasNotFound | NotSized | NoContext | CaptureFailed | Failed | Saved(roster: seq<Line>)

  /** The outcome of converting the view's chart for `updateSeatingChart`. */
  function TableRecord(t: Table): (r: Record)
    ensures "Id" in r && "number" in r
    ensures r["Id"] == Num(t.id) && r["number"] == Num(t.number)
  {
    assert "Id" != "number";
    map["x" := Num(t.x), "y" := Num(t.y), "width" := Num(t.width), "height" := Num(t.height),
        "shape" := Str(t.shape), "capacity" := Num(t.capacity), "Id" := Num(t.id), "number" := Num(t.number)]
  }

  /** A guest as a record. */
  function GuestRecord(g: Guest): Record
  {
    map["name" := Str(g.name), "email" := Str(g.email), "rsvpStatus" := Str(g.rsvpStatus),
        "plusOne" := Bool(g.plusOne),
        "tableNumber" := (if g.tableNumber.Some? then Num(g.tableNumber.value) else Null),
        "Id" := Num(g.id)]
  }

  /** The argument of `updateSeatingChart(seatingData)`. Both arrays are present. */
  function ToInput(c: Chart): Service.ChartInput
  {
    Service.ChartInput(c.fields, Some(Map(c.tables, TableRecord)), Some(Map(c.unassignedGuests, GuestRecord)))
  }

  /** A table record of the view is already normal: `parseInt` gives back its numbers. */
  lemma TableRecordNormal(t: Table)
    ensures Service.Normalise(TableRecord(t)) == TableRecord(t)
  {
    ParseIntOfNumber(t.id);
    ParseIntOfNumber(t.number);
  }

  /** Saving the view's chart stores exactly its tables and unassigned guests: the
      service's normalisation changes nothing in them. */
  lemma SaveStoresChart(c: Chart)
    ensures Service.Normalised(ToInput(c)) == Service.Chart(c.fields, Map(c.tables, TableRecord), Map(c.unassignedGuests, GuestRecord))
  {
    var s := Service.Normalised(ToInput(c));
    forall i | 0 <= i < |c.tables|
      ensures s.tables[i] == TableRecord(c.tables[i])
    {
      TableRecordNormal(c.tables[i]);
    }
  }

  class View {
    /** `seatingData`, `None` until loaded. */
    var chart: Option<Chart>
    /** `guests`: the confirmed guests. */
    var guests: seq<Guest>
    var error: string
    /** `draggedItem` */
    var dragged: Option<Item>
    /** `dragOffset` */
    var offset: (int, int)
    /** `canvasSize` */
    var canvasWidth: real
    var canvasHeight: real

    /** An item is only ever dragged on a loaded chart, and the page lists only
        confirmed guests. */
    predicate Valid()
      reads this
    {
      && (dragged.Some? ==> chart.Some?)
      && (forall i :: 0 <= i < |guests| ==> guests[i].rsvpStatus == "Confirmed")
    }

    constructor ()
      ensures chart.None? && guests == [] && error == "" && dragged.None? && offset == (0, 0)
      ensures canvasWidth == 800.0 && canvasHeight == 600.0
      ensures Valid()
    {
      chart := None;
      guests := [];
      error := "";
      dragged := None;
      offset := (0, 0);
      canvasWidth := 800.0;
      canvasHeight := 600.0;
    }

    /** `loadData`, given what fetching the chart and all guests together gave. On
        success the chart and the confirmed guests are kept; on failure the error text,
        the rest untouched. */
    method Load(fetched: Result<(Chart, seq<Guest>)>)
      requires Valid()
      modifies this
      ensures Valid()
      ensures fetched.Ok? ==> chart == Some(fetched.value.0) && guests == ConfirmedGuests(fetched.value.1) && error == ""
      ensures fetched.Err? ==> chart == old(chart) && guests == old(guests) && error == LoadError(fetched.msg)
      ensures dragged == old(dragged) && offset == old(offset)
      ensures canvasWidth == old(canvasWidth) && canvasHeight == old(canvasHeight)
    {
      error := "";
      match fetched
      case Ok((c, all)) =>
        chart := Some(c);
        guests := ConfirmedGuests(all);
      case Err(message) =>
        error := LoadError(message);
    }

    /** `updateCanvasSize`, given the container's width, or `None` when the container or
        the canvas is missing. The size guard always passes. */
    method UpdateCanvasSize(containerWidth: Option<real>)
      modifies this
      ensures containerWidth.None? ==> canvasWidth == old(canvasWidth) && canvasHeight == old(canvasHeight)
      ensures containerWidth.Some? ==> (canvasWidth, canvasHeight) == CanvasSize(containerWidth.value)
      ensures chart == old(chart) && guests == old(guests) && error == old(error)
      ensures dragged == old(dragged) && offset == old(offset)
    {
      if containerWidth.Some? {
        var size := CanvasSize(containerWidth.value);
        if size.0 > 0.0 && size.1 > 0.0 {
          canvasWidth, canvasHeight := size.0, size.1;
        }
      }
    }

    /** `handleMouseDown` at canvas point `(px, py)`: the item under the cursor, if any,
        becomes the dragged item with its grab offset. */
    method MouseDown(px: int, py: int, origin: CardOrigin)
      requires Valid()
      modifies this
      ensures Valid()
      ensures var hit := ItemAt(old(chart), old(guests), origin, px, py);
        if hit.Some? then dragged == hit && offset == DragOffset(hit.value, px, py)
        else dragged == old(dragged) && offset == old(offset)
      ensures chart == old(chart) && guests == old(guests) && error == old(error)
      ensures canvasWidth == old(canvasWidth) && canvasHeight == old(canvasHeight)
    {
      var hit := ItemAt(chart, guests, origin, px, py);
      if hit.Some? {
        dragged := hit;
        offset := DragOffset(hit.value, px, py);
      }
    }

    /** `handleMouseMove` at canvas point `(px, py)`: a dragged table goes to the cursor
        less the offset; a dragged guest or no drag changes nothing. */
    method MouseMove(px: int, py: int)
      requires Valid()
      modifies this
      ensures Valid()
      ensures old(dragged).Some? && old(dragged).value.TableItem? ==>
        chart == Some(old(chart).value.(tables := MoveTable(old(chart).value.tables, old(dragged).value.table.id,
                                                            px - old(offset).0, py - old(offset).1)))
      ensures old(dragged).None? || old(dragged).value.GuestItem? ==> chart == old(chart)
      ensures guests == old(guests) && error == old(error) && dragged == old(dragged) && offset == old(offset)
      ensures canvasWidth == old(canvasWidth) && canvasHeight == old(canvasHeight)
    {
      if dragged.Some? && dragged.value.TableItem? {
        var x := px - offset.0;
        var y := py - offset.1;
        var c := chart.value;
        chart := Some(c.(tables := MoveTable(c.tables, dragged.value.table.id, x, y)));
      }
    }

    /** `handleMouseUp` (also mouse-leave): with an item dragged, one save of the chart
        to the store, then the drag ends whatever the save gave; otherwise nothing. */
    method MouseUp(store: Service.SeatingChartStore)
      requires Valid()
      modifies this, store
      ensures Valid()
      ensures old(dragged).Some? ==> store.chart == Service.Normalised(ToInput(old(chart).value))
      ensures old(dragged).None? ==> store.chart == old(store.chart)
      ensures dragged.None?
      ensures chart == old(chart) && guests == old(guests) && error == old(error) && offset == old(offset)
      ensures canvasWidth == old(canvasWidth) && canvasHeight == old(canvasHeight)
    {
      if dragged.Some? {
        var saved := store.UpdateSeatingChart(Some(ToInput(chart.value)));
        dragged := None;
      }
    }

    /** `handleAddTable`: appends `NewTable` to the loaded chart, nothing else. The
        button is rendered only once the chart has loaded. */
    method AddTable()
      requires Valid() && chart.Some?
      modifies this
      ensures Valid()
      ensures chart == Some(old(chart).value.(tables := old(chart).value.tables + [NewTable(old(chart).value.tables)]))
      ensures guests == old(guests) && error == old(error) && dragged == old(dragged) && offset == old(offset)
      ensures canvasWidth == old(canvasWidth) && canvasHeight == old(canvasHeight)
    {
      var c := chart.value;
      chart := Some(c.(tables := c.tables + [NewTable(c.tables)]));
    }

    /** `handleExportPDF`: stops at a missing canvas, a zero size, a missing context or
        an empty capture, each with its own message; fails when no chart is loaded;
        otherwise saves a PDF with the roster of the chart's guests, who are all
        confirmed. */
    method ExportPdf(canvas: Option<Canvas>) returns (outcome: ExportOutcome)
      requires Valid()
      ensures outcome == CanvasNotFound <==> canvas.None?
      ensures outcome == NotSized <==> canvas.Some? && (canvas.value.width == 0 || canvas.value.height == 0)
      ensures outcome == NoContext <==> canvas.Some? && canvas.value.width != 0 && canvas.value.height != 0 && !canvas.value.hasContext
      ensures outcome == CaptureFailed <==>
        canvas.Some? && canvas.value.width != 0 && canvas.value.height != 0 && canvas.value.hasContext &&
        (canvas.value.dataUrl == "" || canvas.value.dataUrl == "data:,")
      ensures outcome.Saved? || outcome == Failed ==>
        canvas.Some? && canvas.value.width != 0 && canvas.value.height != 0 && canvas.value.hasContext &&
        canvas.value.dataUrl != "" && canvas.value.dataUrl != "data:,"
      ensures outcome == Failed ==> chart.None?
      ensures outcome.Saved? ==> chart.Some? && outcome.roster == Roster(chart.value.tables, guests)
      ensures outcome.Saved? ==> forall g :: Lists(outcome.roster, g) ==> g in guests && g.rsvpStatus == "Confirmed"
    {
      if canvas.None? {
        return CanvasNotFound;
      }
      var cv := canvas.value;
      if cv.width == 0 || cv.height == 0 {
        return NotSized;
      }
      if !cv.hasContext {
        return NoContext;
      }
      if cv.dataUrl == "" || cv.dataUrl == "data:," {
        return CaptureFailed;
      }
      if chart.None? {
        return Failed;
      }
      var lines := BuildRoster(chart.value.tables, guests);
      outcome := Saved(lines);
      forall g | Lists(lines, g)
        ensures g in guests && g.rsvpStatus == "Confirmed"
      {
        RosterListsSeatedGuests(chart.value.tables, guests, g);
      }
    }
  }
}
