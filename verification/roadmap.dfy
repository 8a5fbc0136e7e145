/** The admin roadmap board (src/types/roadmap.ts and
 *  src/app/admin/components/RoadMapPage.tsx): status spellings, the three
 *  columns, drag and drop between them, editing and creating items. */
module Roadmap {
  import opened Wrappers
  import opened Text
  import Lists

  /** The stored statuses, `RoadmapStatus`. */
  const NotStarted: string := "not_started"
  const InProgress: string := "in_progress"
  const Completed: string := "completed"
  const Statuses: seq<string> := [NotStarted, InProgress, Completed]

  /** The board's columns, `displayColumns`, in display order. */
  const DisplayColumns: seq<string> := ["not-started", "in-progress", "completed"]

  /** `toFrontendStatus`: the first '_' becomes '-'. */
  function ToFrontendStatus(s: string): (r: string)
    ensures |r| == |s|
    ensures '_' !in s ==> r == s
    ensures '_' in s ==> r[IndexOf(s, '_')] == '-' && forall i :: 0 <= i < |s| && i != IndexOf(s, '_') ==> r[i] == s[i]
  {
    ReplaceFirst(s, '_', '-')
  }

  /** `toBackendStatus`: the first '-' becomes '_'. */
  function ToBackendStatus(s: string): (r: string)
    ensures |r| == |s|
    ensures '-' !in s ==> r == s
    ensures '-' in s ==> r[IndexOf(s, '-')] == '_' && forall i :: 0 <= i < |s| && i != IndexOf(s, '-') ==> r[i] == s[i]
  {
    ReplaceFirst(s, '-', '_')
  }

  /** Replacing the first `a` by `b` and then the first `b` by `a` restores a
   *  text that had no `b` to begin with. */
  lemma ReplaceFirstUndone(s: string, a: char, b: char)
    requires b !in s
    ensures ReplaceFirst(ReplaceFirst(s, a, b), b, a) == s
  {
    if a in s {
      var i := IndexOf(s, a);
      NotBeforeIndexOf(s, a, b);
      ReplaceFirstAt(s, a, b);
      ReplaceFirstAfter(s[..i], s[i + 1..], b, a);
    }
  }

  /** Any status without a '-' survives the trip to the board and back, and
   *  any column name without a '_' survives the trip to storage and back. */
  lemma StatusRoundTrip(s: string)
    ensures '-' !in s ==> ToBackendStatus(ToFrontendStatus(s)) == s
    ensures '_' !in s ==> ToFrontendStatus(ToBackendStatus(s)) == s
  {
    if '-' !in s {
      ReplaceFirstUndone(s, '_', '-');
    }
    if '_' !in s {
      ReplaceFirstUndone(s, '-', '_');
    }
  }

  lemma NotStartedColumn()
    ensures ToFrontendStatus(NotStarted) == "not-started" && ToBackendStatus("not-started") == NotStarted
  {
    NotStartedSpelling();
    SwapSeparator("not", "started");
  }

  /** A status whose first word holds neither separator converts to the
   *  column name with '-' in the separator's place, and back. */
  lemma SwapSeparator(pre: string, post: string)
    requires '_' !in pre && '-' !in pre
    ensures ToFrontendStatus(pre + ['_'] + post) == pre + ['-'] + post
    ensures ToBackendStatus(pre + ['-'] + post) == pre + ['_'] + post
  {
    ReplaceFirstAfter(pre, post, '_', '-');
    ReplaceFirstAfter(pre, post, '-', '_');
  }

  lemma NotStartedSpelling()
    ensures NotStarted == "not" + ['_'] + "started" && "not-started" == "not" + ['-'] + "started"
  {
  }

  lemma InProgressColumn()
    ensures ToFrontendStatus(InProgress) == "in-progress" && ToBackendStatus("in-progress") == InProgress
  {
    InProgressSpelling();
    SwapSeparator("in", "progress");
  }

  lemma InProgressSpelling()
    ensures InProgress == "in" + ['_'] + "progress" && "in-progress" == "in" + ['-'] + "progress"
  {
  }

  /** The three statuses and the three columns correspond one to one. */
  lemma StatusesMatchColumns()
    ensures forall k :: 0 <= k < 3 ==> ToFrontendStatus(Statuses[k]) == DisplayColumns[k]
    ensures forall k :: 0 <= k < 3 ==> ToBackendStatus(DisplayColumns[k]) == Statuses[k]
  {
    forall k | 0 <= k < 3
      ensures ToFrontendStatus(Statuses[k]) == DisplayColumns[k]
      ensures ToBackendStatus(DisplayColumns[k]) == Statuses[k]
    {
      if k == 0 {
        NotStartedColumn();
      } else if k == 1 {
        InProgressColumn();
      } else {
        CompletedColumn();
      }
    }
  }

  lemma CompletedColumn()
    ensures ToFrontendStatus(Completed) == Completed && ToBackendStatus(Completed) == Completed
  {
    assert forall i :: 0 <= i < |Completed| ==> 'a' <= Completed[i] <= 'z';
  }

  datatype Item = Item(id: string, title: string, description: string, status: string)

  function HasId(id: string): Item -> bool
  {
    (item: Item) => item.id == id
  }

  function InColumn(column: string): Item -> bool
  {
    (item: Item) => ToFrontendStatus(item.status) == column
  }

  /** The cards a column shows, in list order. */
  function Column(items: seq<Item>, column: string): (r: seq<Item>)
    ensures forall i :: 0 <= i < |r| ==> r[i] in items && ToFrontendStatus(r[i].status) == column
    ensures forall i :: 0 <= i < |items| && ToFrontendStatus(items[i].status) == column ==> items[i] in r
  {
    Lists.Filter(items, InColumn(column))
  }

  function Ids(items: seq<Item>): (r: seq<string>)
    ensures |r| == |items| && forall i :: 0 <= i < |items| ==> r[i] == items[i].id
  {
    seq(|items|, i requires 0 <= i < |items| => items[i].id)
  }

  function Min(a: int, b: int): int { if a < b then a else b }

  /** `xs.splice(from, 1)` followed by `xs.splice(to, 0, x)`: the element at
   *  `from` leaves and `x` goes in at `to`, or at the end when `to` is past
   *  it. */
  function Move<A>(xs: seq<A>, from: nat, to: nat, x: A): (r: seq<A>)
    requires from < |xs|
    ensures |r| == |xs|
    ensures r[Min(to, |xs| - 1)] == x
    ensures multiset(r) == multiset(xs) - multiset{xs[from]} + multiset{x}
  {
    var rest := xs[..from] + xs[from + 1..];
    assert xs == xs[..from] + [xs[from]] + xs[from + 1..];
    assert multiset(xs) == multiset(rest) + multiset{xs[from]};
    var k := Min(to, |rest|);
    assert rest == rest[..k] + rest[k..];
    assert multiset(rest[..k] + [x] + rest[k..]) == multiset(rest) + multiset{x};
    rest[..k] + [x] + rest[k..]
  }

  /** Where a drop lands: `source` and `destination` carry a column and an
   *  index within that column, as the drag library reports them. */
  datatype Location = Location(droppableId: string, index: nat)

  datatype DropResult = DropResult(source: Location, destination: Option<Location>, draggableId: string)

  predicate IsMove(r: DropResult)
  {
    r.destination.Some?
    && !(r.destination.value.droppableId == r.source.droppableId && r.destination.value.index == r.source.index)
  }

  /** The dragged card as it is stored after the drop: its status follows
   *  the destination column only when the column changes. */
  function Dropped(item: Item, r: DropResult): Item
    requires r.destination.Some?
  {
    var d := r.destination.value;
    if r.source.droppableId != d.droppableId then item.(status := ToBackendStatus(d.droppableId)) else item
  }

  /** `handleDragEnd` as written: the column-local indices the drag library
   *  reports are used as positions in the whole list. The card library
   *  only reports indices of cards it rendered, so `source.index` is within
   *  the list. */
  function DragEndAsWritten(items: seq<Item>, r: DropResult): (res: seq<Item>)
    requires r.source.index < |items|
    ensures !IsMove(r) || Lists.Find(items, HasId(r.draggableId)).None? ==> res == items
    ensures |res| == |items|
    ensures IsMove(r) && Lists.Find(items, HasId(r.draggableId)).Some? ==>
      res[Min(r.destination.value.index, |items| - 1)] == Dropped(items[r.source.index], r)
  {
    if !IsMove(r) || Lists.Find(items, HasId(r.draggableId)).None? then items
    else Move(items, r.source.index, r.destination.value.index, Dropped(items[r.source.index], r))
  }

  lemma MoveIds(items: seq<Item>, from: nat, to: nat, x: Item)
    requires from < |items| && x.id == items[from].id
    ensures multiset(Ids(Move(items, from, to, x))) == multiset(Ids(items))
  {
    var rest := items[..from] + items[from + 1..];
    var k := Min(to, |rest|);
    var ids := Ids(items);
    var restIds := ids[..from] + ids[from + 1..];
    assert Ids(rest) == restIds;
    assert Ids(rest[..k] + [x] + rest[k..]) == restIds[..k] + [x.id] + restIds[k..];
    assert Move(items, from, to, x) == rest[..k] + [x] + rest[k..];
    assert Move(ids, from, to, x.id) == restIds[..k] + [x.id] + restIds[k..];
    assert ids[from] == x.id;
  }

  /** Whatever the indices, a drop keeps every card exactly once. */
  lemma DragEndAsWrittenKeepsIds(items: seq<Item>, r: DropResult)
    requires r.source.index < |items|
    ensures multiset(Ids(DragEndAsWritten(items, r))) == multiset(Ids(items))
  {
    if IsMove(r) && Lists.Find(items, HasId(r.draggableId)).Some? {
      MoveIds(items, r.source.index, r.destination.value.index, Dropped(items[r.source.index], r));
    }
  }

  /** A board of one "not started" card `x` followed by one "in progress"
   *  card `y`: dragging `y` to the top of "completed" moves `x` there
   *  instead. */
  lemma DragEndMovesWrongCard(x: Item, y: Item)
    requires x.id != y.id && x.status == NotStarted && y.status == InProgress
    ensures var r := DropResult(Location("in-progress", 0), Some(Location("completed", 0)), y.id);
      Column(DragEndAsWritten([x, y], r), "completed") == [x.(status := Completed)]
  {
    var r := DropResult(Location("in-progress", 0), Some(Location("completed", 0)), y.id);
    var x' := x.(status := Completed);
    WrongCardMoved(x, y, r);
    CompletedColumn();
    InProgressColumn();
    PairColumn(x', y, "completed");
  }

  /** The drop in that example moves the first card, restatused. */
  lemma WrongCardMoved(x: Item, y: Item, r: DropResult)
    requires x.id != y.id
    requires r == DropResult(Location("in-progress", 0), Some(Location("completed", 0)), y.id)
    ensures DragEndAsWritten([x, y], r) == [x.(status := ToBackendStatus("completed")), y]
  {
    var items := [x, y];
    assert HasId(y.id)(items[1]);
    assert IsMove(r);
    assert Dropped(x, r) == x.(status := ToBackendStatus("completed"));
    MoveToFront(x, y, x.(status := ToBackendStatus("completed")));
  }

  /** The column of a two-card list whose first card alone belongs to it. */
  lemma PairColumn(a: Item, b: Item, column: string)
    requires InColumn(column)(a) && !InColumn(column)(b)
    ensures Column([a, b], column) == [a]
  {
    var p := InColumn(column);
    ColumnIsFilter([a, b], column);
    assert [b][1..] == [];
    assert Lists.Filter([b], p) == [];
    assert [a, b][1..] == [b];
    assert Lists.Filter([a, b], p) == [a] + Lists.Filter([b], p);
  }

  lemma MoveToFront<A>(x: A, y: A, x': A)
    ensures Move([x, y], 0, 0, x') == [x', y]
  {
    var rest := [x, y][..0] + [x, y][1..];
    assert rest == [y];
  }

  /** The position in `xs` just before which `n` elements satisfying `p`
   *  have gone by: the `n`-th such element, or the end of the list. */
  function NthIndex<A>(xs: seq<A>, p: A -> bool, n: nat): (k: nat)
    ensures k <= |xs|
    ensures k < |xs| ==> p(xs[k])
    ensures Lists.CountIf(xs[..k], p) == Min(n, Lists.CountIf(xs, p))
  {
    if |xs| == 0 then 0
    else if p(xs[0]) && n == 0 then 0
    else
      var j := NthIndex(xs[1..], p, if p(xs[0]) then n - 1 else n);
      assert xs[..j + 1][1..] == xs[1..][..j];
      j + 1
  }

  /** `handleDragEnd` as evidently intended: the dragged card itself leaves
   *  its place and goes in at the dropped position of the target column. */
  function DragEnd(items: seq<Item>, r: DropResult): (res: seq<Item>)
    ensures !IsMove(r) || Lists.Find(items, HasId(r.draggableId)).None? ==> res == items
    ensures |res| == |items|
  {
    var g := Lists.FindIndex(items, HasId(r.draggableId));
    if !IsMove(r) || g < 0 then items
    else
      var d := r.destination.value;
      Place(items[..g] + items[g + 1..], d, Dropped(items[g], r))
  }

  /** `x` put into `rest` just before the card at `at.index` of column
   *  `at.droppableId`, or after everything when the column is shorter. */
  function Place(rest: seq<Item>, at: Location, x: Item): (res: seq<Item>)
    ensures |res| == |rest| + 1
  {
    InsertBeforeNth(rest, InColumn(at.droppableId), at.index, x)
  }

  /** `x` put into `xs` just before its `n`-th element satisfying `p`, or
   *  at the end when there are fewer. */
  function InsertBeforeNth<A>(xs: seq<A>, p: A -> bool, n: nat, x: A): (r: seq<A>)
    ensures |r| == |xs| + 1
  {
    var k := NthIndex(xs, p, n);
    xs[..k] + [x] + xs[k..]
  }

  /** The dragged card lands at the dropped position of the target column,
   *  or at its end when dropped past the last card. */
  lemma DragEndPlacesDraggedCard(items: seq<Item>, r: DropResult)
    requires IsMove(r) && Lists.Find(items, HasId(r.draggableId)).Some?
    requires '_' !in r.destination.value.droppableId
    requires r.source.droppableId == r.destination.value.droppableId ==>
      ToFrontendStatus(items[Lists.FindIndex(items, HasId(r.draggableId))].status) == r.destination.value.droppableId
    ensures var col := Column(DragEnd(items, r), r.destination.value.droppableId);
      |col| > 0 && col[Min(r.destination.value.index, |col| - 1)].id == r.draggableId
  {
    var g := Lists.FindIndex(items, HasId(r.draggableId));
    var d := r.destination.value;
    var moved := Dropped(items[g], r);
    assert HasId(r.draggableId)(items[g]);
    assert moved.id == r.draggableId;
    StatusRoundTrip(d.droppableId);
    assert InColumn(d.droppableId)(moved);
    var rest := items[..g] + items[g + 1..];
    assert DragEnd(items, r) == Place(rest, d, moved);
    PlaceLandsInColumn(rest, d, moved);
  }

  /** Every drop keeps every card exactly once. */
  lemma DragEndKeepsIds(items: seq<Item>, r: DropResult)
    ensures multiset(Ids(DragEnd(items, r))) == multiset(Ids(items))
  {
    var g := Lists.FindIndex(items, HasId(r.draggableId));
    if IsMove(r) && g >= 0 {
      var d := r.destination.value;
      var rest := items[..g] + items[g + 1..];
      var k := NthIndex(rest, InColumn(d.droppableId), d.index);
      var moved := Dropped(items[g], r);
      assert moved.id == items[g].id;
      assert DragEnd(items, r) == Move(items, g, k, moved);
      MoveIds(items, g, k, moved);
    }
  }

  /** A card of column `at.droppableId` placed at `at.index` shows at that
   *  position of the column, or last. */
  lemma PlaceLandsInColumn(rest: seq<Item>, at: Location, x: Item)
    requires InColumn(at.droppableId)(x)
    ensures var col := Column(Place(rest, at, x), at.droppableId);
      |col| > 0 && col[Min(at.index, |col| - 1)] == x
  {
    var placed := Place(rest, at, x);
    assert placed == InsertBeforeNth(rest, InColumn(at.droppableId), at.index, x);
    ColumnIsFilter(placed, at.droppableId);
    InsertAtNth(rest, InColumn(at.droppableId), at.index, x);
  }

  lemma ColumnIsFilter(items: seq<Item>, column: string)
    ensures Column(items, column) == Lists.Filter(items, InColumn(column))
  {
  }

  /** Inserting an element that satisfies `p` at `NthIndex(xs, p, n)` makes
   *  it the `n`-th of the filtered list, or its last when `n` is too big. */
  lemma InsertAtNth<A>(xs: seq<A>, p: A -> bool, n: nat, x: A)
    requires p(x)
    ensures var f := Lists.Filter(InsertBeforeNth(xs, p, n, x), p);
      |f| > 0 && f[Min(n, |f| - 1)] == x
  {
    var k := NthIndex(xs, p, n);
    var before, after := Lists.Filter(xs[..k], p), Lists.Filter(xs[k..], p);
    assert xs == xs[..k] + xs[k..];
    Lists.FilterAppend(xs[..k], xs[k..], p);
    Lists.FilterCount(xs[..k], p);
    Lists.FilterCount(xs, p);
    assert |before| == Min(n, |before| + |after|);
    Lists.FilterAppend(xs[..k] + [x], xs[k..], p);
    Lists.FilterAppend(xs[..k], [x], p);
    assert [x][1..] == [];
    assert Lists.Filter([x], p) == [x];
    assert Lists.Filter(xs[..k] + [x] + xs[k..], p) == before + [x] + after;
    assert (before + [x] + after)[|before|] == x;
  }

  /** `handleUpdateItem`: the edited copy replaces every item with its id,
   *  and the edit closes. */
  function UpdateItem(items: seq<Item>, edit: Option<Item>): (r: (seq<Item>, Option<Item>))
    ensures edit.None? ==> r.0 == items
    ensures r.1.None?
    ensures |r.0| == |items|
  {
    match edit
    case None => (items, None)
    case Some(e) => (Lists.MapWhere(items, HasId(e.id), _ => e), None)
  }

  /** Editing keeps every id in place, puts the edit where its id was, and
   *  leaves every other item alone. The status sent to the server is the
   *  stored one, since the conversion round trip is the identity on it. */
  lemma UpdateItemOnlyThatItem(items: seq<Item>, e: Item)
    requires e.status in Statuses
    ensures Ids(UpdateItem(items, Some(e)).0) == Ids(items)
    ensures forall i :: 0 <= i < |items| ==>
      UpdateItem(items, Some(e)).0[i] == (if items[i].id == e.id then e else items[i])
    ensures ToBackendStatus(ToFrontendStatus(e.status)) == e.status
  {
    StatusesMatchColumns();
  }

  datatype Draft = Draft(title: string, description: string)

  datatype CreateOutcome = CreateOutcome(request: Option<Item>, draft: Draft, dialogOpen: bool)

  /** `handleCreateItem`. `serverId` is the id the server gives the new item,
   *  or `None` when it reports none; an empty id is falsy and fails the
   *  `!response.id` check just as a missing one does. The request carries
   *  no id yet. */
  function CreateItem(draft: Draft, dialogOpen: bool, serverId: Option<string>): (r: CreateOutcome)
    ensures r.request.Some? <==> Trim(draft.title) != []
    ensures r.request.Some? ==> r.request.value == Item("", draft.title, draft.description, NotStarted)
    ensures r.request.None? || serverId.None? || serverId.value == [] ==> r.draft == draft && r.dialogOpen == dialogOpen
    ensures r.request.Some? && serverId.Some? && serverId.value != [] ==> r.draft == Draft("", "") && !r.dialogOpen
  {
    if Trim(draft.title) == [] then CreateOutcome(None, draft, dialogOpen)
    else
      var request := Item("", draft.title, draft.description, NotStarted);
      if serverId.None? || serverId.value == [] then CreateOutcome(Some(request), draft, dialogOpen)
      else CreateOutcome(Some(request), Draft("", ""), false)
  }

  /** A title of nothing but whitespace creates nothing; any other title
   *  creates a card in the first column. */
  lemma CreateNeedsTitle(draft: Draft, dialogOpen: bool, serverId: Option<string>)
    ensures (forall i :: 0 <= i < |draft.title| ==> IsSpace(draft.title[i])) <==>
      CreateItem(draft, dialogOpen, serverId).request.None?
    ensures CreateItem(draft, dialogOpen, serverId).request.Some? ==>
      InColumn(DisplayColumns[0])(CreateItem(draft, dialogOpen, serverId).request.value)
  {
    TrimEmptyIffBlank(draft.title);
    StatusesMatchColumns();
  }
}
