/**
 The whole layout: the gateway card, the three named groups side by side or stacked,
 the group of unplaced devices below them, and the controls that expand a group.
 */
module GroupLayout {
  import opened Common
  import opened Layout
  import opened Packing
  import opened RouterOrder
  import opened Traversal

  datatype Group = Group(
    network: GroupKey,
    box: Rect,
    count: nat,
    hidden: nat,
    ids: seq<string>,
    control: Option<Rect>)

  datatype MapLayout = MapLayout(
    positions: map<string, Point>,
    groups: seq<Group>,
    gateway: Option<string>,
    width: int,
    height: real)

  /******* What a layout promises *******/

  ghost predicate CardsInside(l: MapLayout) {
    forall g, id :: g in l.groups && id in g.ids ==>
      id in l.positions && Within(Card(l.positions[id]), g.box)
  }

  ghost predicate BoxesApart(l: MapLayout) {
    forall i, j :: 0 <= i < j < |l.groups| ==> Apart(l.groups[i].box, l.groups[j].box)
  }

  ghost predicate GatewayClear(l: MapLayout) {
    l.gateway.Some? ==>
      && l.gateway.value in l.positions
      && forall g :: g in l.groups ==> Apart(Card(l.positions[l.gateway.value]), g.box)
  }

  ghost predicate ControlsClear(l: MapLayout) {
    forall g, id :: g in l.groups && g.control.Some? && id in l.positions ==>
      Within(g.control.value, g.box) && Apart(Card(l.positions[id]), g.control.value)
  }

  /** Device `id` of group `g` stands where the user saved it. */
  ghost predicate UserPlaced(devices: seq<Device>, l: MapLayout, g: Group, id: string) {
    exists d :: d in devices && d.id == id && d.layoutGroup == Some(g.network) && d.saved.Some?
                && id in l.positions && l.positions[id] == d.saved.value
  }

  ghost predicate CardsApart(devices: seq<Device>, l: MapLayout) {
    forall a, b :: a in l.positions && b in l.positions && a != b ==>
      || Apart(Card(l.positions[a]), Card(l.positions[b]))
      || (exists g :: g in l.groups && a in g.ids && b in g.ids
                      && UserPlaced(devices, l, g, a) && UserPlaced(devices, l, g, b))
  }

  /** Groups hold exactly their own members, count all of them, and show each once. */
  ghost predicate GroupsComplete(devices: seq<Device>, edges: seq<Edge>, l: MapLayout) {
    && (forall g :: g in l.groups ==>
          && g.count == |set d | d in devices && Belongs(devices, edges, d, g.network)|
          && |g.ids| + g.hidden == g.count
          && Distinct(g.ids)
          && (forall id :: id in g.ids ==> exists d :: d in devices && d.id == id && Belongs(devices, edges, d, g.network))
          && (g.control.Some? <== g.hidden > 0))
    && (forall id :: id in l.positions <==> l.gateway == Some(id) || exists g :: g in l.groups && id in g.ids)
    && |l.groups| >= 3 && l.groups[0].network == Lan && l.groups[1].network == Wlan && l.groups[2].network == Zigbee
    && ((exists g :: g in l.groups && g.network == Unknown) <==> exists d :: d in devices && Belongs(devices, edges, d, Unknown))
    && (forall i, j :: 0 <= i < j < |l.groups| ==> l.groups[i].network != l.groups[j].network)
  }

  /** How many cards a collapsed group shows. */
  function Cap(width: int, key: GroupKey): nat {
    if key == Zigbee then 5
    else if key == Unknown then MaxInt(MaxInt(1, (width - 52) / 230), 5)
    else 3
  }

  /** From how many members on an expanded group offers to collapse. */
  function CollapsesFrom(key: GroupKey): nat {
    if key == Zigbee || key == Unknown then 5 else 3
  }

  function Limit(count: nat, expanded: bool, cap: nat): (limit: nat)
    ensures limit <= count
  {
    if expanded || count <= cap then count else cap
  }

  /** A collapsed group shows up to five Zigbee cards, three of the other named groups, and of the unplaced
      devices a row and at least five; an expanded one shows everybody. A control is there exactly when some
      card is hidden or the expanded group can collapse. */
  ghost predicate ShowsItsShare(width: int, expanded: set<GroupKey>, g: Group) {
    var row := (width - 52) / 230;
    var cap := match g.network case Zigbee => 5 case Unknown => (if row < 5 then 5 else row) case _ => 3;
    var foldable := if g.network == Zigbee || g.network == Unknown then 5 else 3;
    && |g.ids| == (if g.network in expanded || g.count < cap then g.count else cap)
    && (g.control.Some? <==> g.hidden > 0 || (g.network in expanded && g.count > foldable))
  }

  /** The frame a group's cards are laid out in: one column, or for the unplaced devices a grid. */
  ghost predicate FrameOf(width: int, g: Group, f: Frame) {
    f == if g.network != Unknown then Column(g.box.x, g.box.y, g.box.w)
         else Grid(g.box.x, g.box.y, g.box.w, if width < 600 then 148.0 else 100.0,
                   if width < 282 then 1 else (width - 52) / 230)
  }

  /** The box is as high as its kind asks for and as its cards need, no higher, and the control is at its foot. */
  ghost predicate Fitted(g: Group, f: Frame, placed: seq<Point>) {
    var spare := if g.control.Some? then 50.0 else 0.0;
    var stacked := 80.0 + |placed| as real * 116.0 + spare;
    var least := match f
      case Column(_, _, _) => (if stacked < 190.0 then 190.0 else stacked)
      case Grid(_, _, _, header, columns) =>
        header + 8.0 + (if columns == 0 then 0 else (|placed| + columns - 1) / columns) as real * 116.0 + spare;
    && g.box.h >= least
    && (forall i :: 0 <= i < |placed| ==> placed[i].y + 120.0 + spare <= g.box.y + g.box.h)
    && (g.box.h == least || exists i :: 0 <= i < |placed| && placed[i].y + 120.0 + spare == g.box.y + g.box.h)
    && (g.control.Some? ==>
          var up := if f.Grid? then 48.0 else if g.hidden > 0 then 56.0 else 42.0;
          g.control.value == Rect(g.box.x + 20.0, g.box.y + g.box.h - up, g.box.w - 40.0,
                                  if f.Column? && g.hidden > 0 then 36.0 else 32.0))
  }

  ghost predicate LowestFoot(groups: seq<Group>, foot: real) {
    && (forall g :: g in groups ==> g.box.y + g.box.h <= foot)
    && exists g :: g in groups && g.box.y + g.box.h == foot
  }

  /** The box of named group `k`, under `top` or under the foot of the one above it. */
  ghost predicate StandsAt(width: int, top: real, k: int, above: real, b: Rect) {
    if width >= 860 then
      b.x == 16.0 + k as real * ((width as real - 72.0) / 3.0 + 20.0) && b.y == top && b.w == (width as real - 72.0) / 3.0
    else
      b.x == 16.0 && b.w == width as real - 32.0 && b.y == if k == 0 then top else above + 20.0
  }

  ghost predicate GatewayOnTop(l: MapLayout) {
    l.gateway.Some? ==>
      l.gateway.value in l.positions && l.positions[l.gateway.value] == Point((l.width as real - 210.0) / 2.0, 24.0)
  }

  ghost predicate NamedStand(l: MapLayout) {
    |l.groups| >= 3 &&
    forall k :: 0 <= k < 3 ==>
      StandsAt(l.width, if l.gateway.Some? then 168.0 else 20.0, k,
               if k == 0 then 0.0 else l.groups[k - 1].box.y + l.groups[k - 1].box.h, l.groups[k].box)
  }

  ghost predicate UnknownBelow(l: MapLayout) {
    |l.groups| >= 3 &&
    forall k :: 3 <= k < |l.groups| ==>
      var b := l.groups[k].box;
      b.x == 16.0 && b.w == l.width as real - 32.0 && LowestFoot(l.groups[..3], b.y - 24.0)
  }

  /** Where things stand: the gateway's card on top in the middle; the named groups under it, side by side
      on a wide surface and else one below the other; the unplaced devices below them all. */
  ghost predicate Placed(l: MapLayout) {
    && GatewayOnTop(l) && NamedStand(l) && UnknownBelow(l)
    && exists foot :: LowestFoot(l.groups, foot) && l.height == if foot + 20.0 < 200.0 then 200.0 else foot + 20.0
  }

  /** The devices that belong to a group, in the devices' order. */
  ghost predicate MembersOf(devices: seq<Device>, edges: seq<Edge>, key: GroupKey, members: seq<Device>) {
    && (forall d :: d in members <==> d in devices && Belongs(devices, edges, d, key))
    && ListedInOrder(devices, members) && DistinctIds(members)
  }

  /** The order a group's cards come in: as listed for the unplaced devices, else a walk from the
      roots, in which the Zigbee group then puts its routers first. */
  ghost predicate GroupOrder(devices: seq<Device>, edges: seq<Edge>, key: GroupKey, order: seq<Device>) {
    exists members :: MembersOf(devices, edges, key, members) && OrderOf(edges, key, members, order)
  }

  ghost predicate OrderOf(edges: seq<Edge>, key: GroupKey, members: seq<Device>, order: seq<Device>) {
    match key
    case Unknown => order == members
    case Zigbee => exists walk :: Walked(members, edges, walk) && RouterFirst(edges, walk, order)
    case _ => Walked(members, edges, order)
  }

  /** The group's cards are the front of `order`, each where the placing rule puts it in the frame `f`. */
  ghost predicate ArrangedBy(positions: map<string, Point>, g: Group, order: seq<Device>, f: Frame, placed: seq<Point>) {
    && |g.ids| <= |order| && g.ids == Ids(order[..|g.ids|])
    && Roomy(f) && f.x == g.box.x && f.y == g.box.y && f.w == g.box.w && |placed| == |g.ids|
    && (forall i :: 0 <= i < |placed| ==> g.ids[i] in positions && positions[g.ids[i]] == placed[i])
    && (forall i :: 0 <= i < |placed| ==> PlacedByRule(f, g.network, order[..|g.ids|], placed, i))
  }

  ghost predicate Arranged(devices: seq<Device>, edges: seq<Edge>, width: int, positions: map<string, Point>, g: Group) {
    exists order, f, placed ::
      GroupOrder(devices, edges, g.network, order) && ArrangedBy(positions, g, order, f, placed)
      && FrameOf(width, g, f) && Fitted(g, f, placed)
  }

  /******* One group *******/

  /** The group `g` in frame `f` with card `i` of `shown` at `placed[i]`. */
  ghost predicate Settled(g: Group, f: Frame, shown: seq<Device>, placed: seq<Point>) {
    && Roomy(f) && |placed| == |shown|
    && DistinctIds(shown) && g.ids == Ids(shown)
    && g.box.x == f.x && g.box.y == f.y && g.box.w == f.w && g.box.h >= 90.0
    && (forall i :: 0 <= i < |shown| ==> PlacedByRule(f, g.network, shown, placed, i))
    && (forall i :: 0 <= i < |shown| ==> Within(Card(placed[i]), g.box))
    && (g.control.Some? ==>
          && Within(g.control.value, g.box)
          && forall i :: 0 <= i < |shown| ==> Apart(Card(placed[i]), g.control.value))
  }

  function Rows(cards: nat, columns: nat): nat
    requires columns >= 1
  {
    (cards + columns - 1) / columns
  }

  function Control(f: Frame, height: real, hidden: nat): Rect {
    match f
    case Column(x, y, w) =>
      if hidden > 0 then Rect(x + 20.0, y + height - 56.0, w - 40.0, 36.0)
      else Rect(x + 20.0, y + height - 42.0, w - 40.0, 32.0)
    case Grid(x, y, w, header, columns) => Rect(x + 20.0, y + height - 48.0, w - 40.0, 32.0)
  }

  /** `cap` is how many cards a collapsed group shows before it offers a control. */
  method LayoutGroup(f: Frame, key: GroupKey, shown: seq<Device>, count: nat, expanded: bool, cap: nat)
    returns (g: Group, placed: seq<Point>)
    requires Roomy(f) && DistinctIds(shown) && |shown| <= count
    ensures Settled(g, f, shown, placed) && Fitted(g, f, placed)
    ensures g.network == key && g.count == count && g.hidden == count - |shown|
    ensures g.control.Some? <==> g.hidden > 0 || (expanded && count > cap)
  {
    var hidden: nat := count - |shown|;
    var hasControl := hidden > 0 || (expanded && count > cap);
    var spare := if hasControl then 50.0 else 0.0;
    var minHeight := match f
      case Column(_, _, _) => MaxReal(190.0, 80.0 + |shown| as real * 116.0 + spare)
      case Grid(_, _, _, header, columns) => header + 8.0 + Rows(|shown|, columns) as real * 116.0 + spare;
    var height: real;
    placed, height := FillFrame(f, key, shown, spare, minHeight);
    assert height >= 90.0 by {
      assert |shown| as real * 116.0 >= 0.0;
    }
    var control := if hasControl then Some(Control(f, height, hidden)) else None;
    g := Group(key, Rect(f.x, f.y, f.w, height), count, hidden, Ids(shown), control);
    forall i | 0 <= i < |shown|
      ensures Within(Card(placed[i]), g.box)
      ensures g.control.Some? ==> Apart(Card(placed[i]), g.control.value)
    {
      RuleKeepsCardsInside(f, key, shown, placed, i);
    }
  }

  /******* All groups *******/

  const KEYS: seq<GroupKey> := [Lan, Wlan, Zigbee]

  function ColumnX(index: nat, groupWidth: real): real {
    16.0 + index as real * (groupWidth + 20.0)
  }

  function PositionOf(ids: seq<string>, id: string): (i: nat)
    requires id in ids
    ensures i < |ids| && ids[i] == id
  {
    if ids[0] == id then 0 else 1 + PositionOf(ids[1..], id)
  }

  function WithCards(positions: map<string, Point>, ids: seq<string>, placed: seq<Point>): (all: map<string, Point>)
    requires |ids| == |placed| && Distinct(ids)
    ensures all.Keys == positions.Keys + set id | id in ids
    ensures forall i :: 0 <= i < |ids| ==> all[ids[i]] == placed[i]
    ensures forall id :: id in positions && id !in ids ==> all[id] == positions[id]
  {
    map id | id in positions.Keys + (set x | x in ids) :: if id in ids then placed[PositionOf(ids, id)] else positions[id]
  }

  /** A group together with the frame it filled and where each shown device went. */
  datatype Cell = Cell(group: Group, frame: Frame, shown: seq<Device>, placed: seq<Point>)

  /** The drawing surface: what is drawn, how wide, and the gateway's card. */
  datatype Canvas = Canvas(devices: seq<Device>, edges: seq<Edge>, width: int)
  {
    function GatewayId(): Option<string> {
      if Gateway(devices).Some? then Some(Gateway(devices).value.id) else None
    }

    function GatewayPoint(): Point { Point((width as real - 210.0) / 2.0, 24.0) }

    predicate Horizontal() { width >= 860 }

    function GroupWidth(): real {
      if Horizontal() then (width as real - 72.0) / 3.0 else width as real - 32.0
    }

    function Top(): real { if Gateway(devices).Some? then 168.0 else 20.0 }

    ghost predicate Valid() { width >= 270 && DistinctIds(devices) }
  }

  ghost predicate CellOk(v: Canvas, c: Cell) {
    && Settled(c.group, c.frame, c.shown, c.placed)
    && c.group.network != GatewayKey
    && c.group.count == |Members(v.devices, v.edges, c.group.network)|
    && |c.shown| + c.group.hidden == c.group.count
    && (c.group.hidden > 0 ==> c.group.control.Some?)
    && (forall d :: d in c.shown ==> d in Members(v.devices, v.edges, c.group.network))
    && c.group.box.y >= v.Top()
  }

  ghost predicate CardsAt(positions: map<string, Point>, c: Cell)
    requires |c.placed| == |c.shown|
  {
    forall i :: 0 <= i < |c.shown| ==> c.shown[i].id in positions && positions[c.shown[i].id] == c.placed[i]
  }

  ghost predicate Shows(c: Cell, id: string) {
    exists i :: 0 <= i < |c.shown| && c.shown[i].id == id
  }

  /** The state of the layout after the groups laid out so far. */
  ghost predicate Laid(v: Canvas, cells: seq<Cell>, positions: map<string, Point>) {
    && (forall c :: c in cells ==> CellOk(v, c) && CardsAt(positions, c))
    && (forall k, m :: 0 <= k < m < |cells| ==> Separate(cells[k], cells[m]))
    && (forall id :: id in positions ==> Accounted(v, cells, id))
    && GatewayPlaced(v, positions)
  }

  ghost predicate Separate(a: Cell, b: Cell) {
    Apart(a.group.box, b.group.box) && a.group.network != b.group.network
  }

  ghost predicate Accounted(v: Canvas, cells: seq<Cell>, id: string) {
    v.GatewayId() == Some(id) || exists c :: c in cells && Shows(c, id)
  }

  ghost predicate GatewayPlaced(v: Canvas, positions: map<string, Point>) {
    v.GatewayId().Some? ==>
      v.GatewayId().value in positions && positions[v.GatewayId().value] == v.GatewayPoint()
  }

  lemma OtherCellsOtherIds(v: Canvas, a: Cell, b: Cell, i: nat, j: nat)
    requires v.Valid() && CellOk(v, a) && CellOk(v, b) && a.group.network != b.group.network
    requires i < |a.shown| && j < |b.shown|
    ensures a.shown[i].id != b.shown[j].id
  {
  }

  lemma CardsStay(v: Canvas, positions: map<string, Point>, old_: Cell, added: Cell)
    requires v.Valid() && CellOk(v, old_) && CellOk(v, added) && old_.group.network != added.group.network
    requires Distinct(added.group.ids) && CardsAt(positions, old_)
    ensures CardsAt(WithCards(positions, added.group.ids, added.placed), old_)
  {
    forall i | 0 <= i < |old_.shown|
      ensures old_.shown[i].id !in added.group.ids
    {
      forall j | 0 <= j < |added.group.ids|
        ensures added.group.ids[j] != old_.shown[i].id
      {
        OtherCellsOtherIds(v, old_, added, i, j);
      }
    }
  }

  lemma CardsArrive(v: Canvas, positions: map<string, Point>, c: Cell)
    requires CellOk(v, c) && Distinct(c.group.ids)
    ensures CardsAt(WithCards(positions, c.group.ids, c.placed), c)
  {
  }

  lemma AddCell(v: Canvas, cells: seq<Cell>, positions: map<string, Point>, c: Cell)
    requires v.Valid() && Laid(v, cells, positions) && CellOk(v, c)
    requires forall k :: 0 <= k < |cells| ==> Separate(cells[k], c)
    ensures Distinct(c.group.ids) && |c.group.ids| == |c.placed|
    ensures Laid(v, cells + [c], WithCards(positions, c.group.ids, c.placed))
  {
    assert Distinct(c.group.ids);
    var all := WithCards(positions, c.group.ids, c.placed);
    var longer := cells + [c];
    forall x | x in longer
      ensures CellOk(v, x) && CardsAt(all, x)
    {
      CellStaysOk(v, cells, positions, c, x);
    }
    forall id | id in all
      ensures Accounted(v, longer, id)
    {
      IdAccounted(v, cells, positions, c, id);
    }
    forall k, m | 0 <= k < m < |longer|
      ensures Separate(longer[k], longer[m])
    {
      assert longer[k] == cells[k];
      assert m < |cells| ==> longer[m] == cells[m];
    }
    GatewayStays(v, positions, c);
  }

  lemma CellStaysOk(v: Canvas, cells: seq<Cell>, positions: map<string, Point>, c: Cell, x: Cell)
    requires v.Valid() && CellOk(v, c) && x in cells + [c] && Distinct(c.group.ids)
    requires forall y :: y in cells ==> CellOk(v, y) && CardsAt(positions, y)
    requires forall k :: 0 <= k < |cells| ==> Separate(cells[k], c)
    ensures CellOk(v, x) && CardsAt(WithCards(positions, c.group.ids, c.placed), x)
  {
    if x in cells {
      CardsStay(v, positions, x, c);
    } else {
      CardsArrive(v, positions, c);
    }
  }

  lemma IdAccounted(v: Canvas, cells: seq<Cell>, positions: map<string, Point>, c: Cell, id: string)
    requires CellOk(v, c) && Distinct(c.group.ids)
    requires forall x :: x in positions ==> Accounted(v, cells, x)
    requires id in WithCards(positions, c.group.ids, c.placed)
    ensures Accounted(v, cells + [c], id)
  {
    if id in c.group.ids {
      var i :| 0 <= i < |c.group.ids| && c.group.ids[i] == id;
      assert c.shown[i].id == id;
      assert c in cells + [c] && Shows(c, id);
    } else if v.GatewayId() != Some(id) {
      assert Accounted(v, cells, id);
      var x :| x in cells && Shows(x, id);
      assert x in cells + [c];
    }
  }

  lemma GatewayStays(v: Canvas, positions: map<string, Point>, c: Cell)
    requires CellOk(v, c) && Distinct(c.group.ids) && GatewayPlaced(v, positions)
    ensures GatewayPlaced(v, WithCards(positions, c.group.ids, c.placed))
  {
  }

  /******* Stacking the boxes *******/

  /** In one row, each further box starts to the right of all earlier ones; in one column,
      below them; and every box ends above `bottom`. */
  ghost predicate Stacked(v: Canvas, cells: seq<Cell>, stackY: real, bottom: real) {
    && stackY >= v.Top() && bottom >= v.Top()
    && forall k :: 0 <= k < |cells| ==>
         var box := cells[k].group.box;
         && box.y + box.h <= bottom
         && (v.Horizontal() ==> box.x + box.w + 20.0 <= ColumnX(|cells|, v.GroupWidth()))
         && (!v.Horizontal() ==> box.y + box.h + 20.0 <= stackY)
  }

  function NextFrame(v: Canvas, index: nat, stackY: real): Frame {
    if v.Horizontal() then Column(ColumnX(index, v.GroupWidth()), v.Top(), v.GroupWidth())
    else Column(16.0, stackY, v.GroupWidth())
  }

  function Foot(c: Cell): real { c.group.box.y + c.group.box.h }

  /** The box of cell `k`, given those before it. */
  ghost predicate BoxStands(v: Canvas, cells: seq<Cell>, k: int) {
    && 0 <= k < |cells|
    && StandsAt(v.width, v.Top(), k, if k == 0 then 0.0 else Foot(cells[k - 1]), cells[k].group.box)
  }

  ghost predicate LowestOf(cells: seq<Cell>, foot: real) {
    && (forall c :: c in cells ==> Foot(c) <= foot)
    && exists c :: c in cells && Foot(c) == foot
  }

  /** The boxes so far stand as they should, with the next one's height and the lowest foot. */
  ghost predicate Lined(v: Canvas, cells: seq<Cell>, stackY: real, bottom: real) {
    && stackY == (if cells == [] then v.Top() else Foot(cells[|cells| - 1]) + 20.0)
    && (forall k :: 0 <= k < |cells| ==> BoxStands(v, cells, k))
    && (if cells == [] then bottom == v.Top() else LowestOf(cells, bottom))
  }

  lemma LinedGrows(v: Canvas, cells: seq<Cell>, stackY: real, bottom: real, c: Cell)
    requires v.Valid() && Lined(v, cells, stackY, bottom) && |cells| < 3
    requires CellOk(v, c) && c.frame == NextFrame(v, |cells|, stackY)
    ensures Lined(v, cells + [c], Foot(c) + 20.0, MaxReal(bottom, Foot(c)))
  {
    var longer := cells + [c];
    var b := c.group.box;
    assert b.x == c.frame.x && b.y == c.frame.y && b.w == c.frame.w && b.h >= 90.0;
    assert BoxStands(v, longer, |cells|);
    forall k | 0 <= k < |cells| ensures BoxStands(v, longer, k) {
      assert BoxStands(v, cells, k);
    }
    LowestGrows(cells, bottom, c, v.Top());
    hide CellOk;
  }

  lemma LowestGrows(cells: seq<Cell>, bottom: real, c: Cell, top: real)
    requires if cells == [] then bottom == top else LowestOf(cells, bottom)
    requires cells == [] ==> Foot(c) >= top
    ensures LowestOf(cells + [c], MaxReal(bottom, Foot(c)))
  {
    var longer := cells + [c];
    assert c in longer;
    if cells != [] {
      var x :| x in cells && Foot(x) == bottom;
      assert x in longer;
    }
  }

  lemma StackedGrows(v: Canvas, cells: seq<Cell>, stackY: real, bottom: real, c: Cell)
    requires v.Valid() && Stacked(v, cells, stackY, bottom)
    requires CellOk(v, c) && c.frame == NextFrame(v, |cells|, stackY)
    ensures forall k :: 0 <= k < |cells| ==> Apart(cells[k].group.box, c.group.box)
    ensures var foot := c.group.box.y + c.group.box.h;
            Stacked(v, cells + [c], foot + 20.0, MaxReal(bottom, foot))
  {
  }

  /** The cards a group shows, in order: breadth-first, with the Zigbee group reordered. */
  method OrderGroup(v: Canvas, key: GroupKey) returns (order: seq<Device>)
    requires v.Valid()
    ensures multiset(order) == multiset(Members(v.devices, v.edges, key)) && DistinctIds(order)
    ensures |order| == |Members(v.devices, v.edges, key)|
    ensures key != Unknown && key != GatewayKey ==> GroupOrder(v.devices, v.edges, key, order)
  {
    hide Members, DistinctIds, MembersOf, Prioritized, Turns, Precedes;
    var members := Members(v.devices, v.edges, key);
    MembersHaveDistinctIds(v, key);
    order := Traverse(members, v.edges);
    if key == Zigbee {
      PrioritizedIsRouterFirst(v.edges, order);
      ghost var walk := order;
      order := Prioritized(v.edges, order);
      assert Walked(members, v.edges, walk) && RouterFirst(v.edges, walk, order);
    }
    assert |multiset(order)| == |order| && |multiset(members)| == |members|;
    if key != Unknown && key != GatewayKey {
      MembersAreOf(v, key);
      assert OrderOf(v.edges, key, members, order);
    }
  }

  lemma MembersAreOf(v: Canvas, key: GroupKey)
    requires v.Valid() && key != GatewayKey
    ensures MembersOf(v.devices, v.edges, key, Members(v.devices, v.edges, key))
  {
    MembersAreBelonging(v.devices, v.edges, key);
    MembersHaveDistinctIds(v, key);
    WhereKeepsOrder(v.devices, (d: Device) => GroupOf(v.devices, v.edges, d) == key);
    hide Belongs, ListedInOrder, DistinctIds, Where;
  }

  lemma MembersHaveDistinctIds(v: Canvas, key: GroupKey)
    requires v.Valid()
    ensures DistinctIds(Members(v.devices, v.edges, key))
  {
    WhereKeepsDistinctIds(v.devices, (d: Device) => GroupOf(v.devices, v.edges, d) == key);
  }

  /** Lay out the first `limit` devices of `order` as the group `key` in frame `f`. */
  method ShowPrefix(v: Canvas, f: Frame, key: GroupKey, order: seq<Device>, limit: nat, expanded: bool, cap: nat)
    returns (c: Cell)
    requires v.Valid() && Roomy(f) && f.y >= v.Top() && key != GatewayKey
    requires multiset(order) == multiset(Members(v.devices, v.edges, key)) && DistinctIds(order)
    requires |order| == |Members(v.devices, v.edges, key)| && limit <= |order|
    ensures CellOk(v, c) && c.frame == f && c.group.network == key && c.shown == order[..limit] && c.group.count == |order|
    ensures c.group.control.Some? <==> c.group.hidden > 0 || (expanded && c.group.count > cap)
    ensures Fitted(c.group, c.frame, c.placed)
    ensures c.group.box.x == f.x && c.group.box.y == f.y && c.group.box.w == f.w && c.group.box.h >= 90.0
  {
    var shown := order[..limit];
    forall d | d in shown
      ensures d in Members(v.devices, v.edges, key)
    {
      assert d in order;
      assert d in multiset(order);
    }
    var g, placed := LayoutGroup(f, key, shown, |order|, expanded, cap);
    c := Cell(g, f, shown, placed);
  }

  function Groups(cells: seq<Cell>): (groups: seq<Group>)
    ensures |groups| == |cells|
    ensures forall k :: 0 <= k < |groups| ==> groups[k] == cells[k].group
  {
    seq(|cells|, k requires 0 <= k < |cells| => cells[k].group)
  }

  ghost predicate OnCanvas(width: int, box: Rect) {
    16.0 <= box.x && box.x + box.w <= width as real - 16.0
  }

  /** The cell shows as many cards as it should, the first in the group's order. */
  ghost predicate Filled(v: Canvas, expanded: set<GroupKey>, c: Cell) {
    && ShowsItsShare(v.width, expanded, c.group) && OnCanvas(v.width, c.group.box)
    && FrameOf(v.width, c.group, c.frame) && Fitted(c.group, c.frame, c.placed)
    && exists order :: GroupOrder(v.devices, v.edges, c.group.network, order) && |c.shown| <= |order| && c.shown == order[..|c.shown|]
  }

  lemma NextFrameFits(v: Canvas, index: nat, stackY: real)
    requires v.Valid() && index < 3 && stackY >= v.Top()
    ensures var f := NextFrame(v, index, stackY);
            Roomy(f) && f.y >= v.Top() && 16.0 <= f.x && f.x + f.w <= v.width as real - 16.0 && f == Column(f.x, f.y, f.w)
  {
  }

  lemma PrefixIsFilled(v: Canvas, expanded: set<GroupKey>, c: Cell, order: seq<Device>, limit: nat)
    requires CellOk(v, c) && GroupOrder(v.devices, v.edges, c.group.network, order)
    requires limit <= |order| == c.group.count && c.shown == order[..limit]
    requires limit == Limit(|order|, c.group.network in expanded, Cap(v.width, c.group.network))
    requires c.group.control.Some? <==>
               c.group.hidden > 0 || (c.group.network in expanded && c.group.count > CollapsesFrom(c.group.network))
    requires 16.0 <= c.frame.x && c.frame.x + c.frame.w <= v.width as real - 16.0
    requires FrameOf(v.width, c.group, c.frame) && Fitted(c.group, c.frame, c.placed)
    ensures Filled(v, expanded, c)
  {
  }

  method NamedGroup(v: Canvas, expanded: set<GroupKey>, index: nat, stackY: real) returns (c: Cell)
    requires v.Valid() && index < 3 && stackY >= v.Top()
    ensures CellOk(v, c) && c.frame == NextFrame(v, index, stackY) && c.group.network == KEYS[index]
    ensures Filled(v, expanded, c)
  {
    hide CellOk, GroupOrder, NextFrame, Roomy, Filled, Members;
    NextFrameFits(v, index, stackY);
    var key := KEYS[index];
    var order := OrderGroup(v, key);
    var cap := if key == Zigbee then 5 else 3;
    var limit := Limit(|order|, key in expanded, cap);
    c := ShowPrefix(v, NextFrame(v, index, stackY), key, order, limit, key in expanded, cap);
    PrefixIsFilled(v, expanded, c, order, limit);
  }

  method UnknownGroup(v: Canvas, expanded: set<GroupKey>, bottom: real) returns (c: Cell)
    requires v.Valid() && bottom >= v.Top()
    ensures CellOk(v, c) && c.frame.y == bottom + 24.0 && c.group.network == Unknown
    ensures c.group.box.x == 16.0 && c.group.box.y == bottom + 24.0 && c.group.box.w == v.width as real - 32.0
    ensures c.group.box.h >= 90.0
    ensures Filled(v, expanded, c)
  {
    var unknown := Members(v.devices, v.edges, Unknown);
    var columns := MaxInt(1, (v.width - 52) / 230);
    var f := Grid(16.0, bottom + 24.0, v.width as real - 32.0, if v.width < 600 then 148.0 else 100.0, columns);
    var limit := Limit(|unknown|, Unknown in expanded, MaxInt(columns, 5));
    MembersHaveDistinctIds(v, Unknown);
    MembersAreOf(v, Unknown);
    assert OrderOf(v.edges, Unknown, unknown, unknown);
    assert GroupOrder(v.devices, v.edges, Unknown, unknown);
    hide CellOk, GroupOrder, Filled, Members;
    c := ShowPrefix(v, f, Unknown, unknown, limit, Unknown in expanded, 5);
    PrefixIsFilled(v, expanded, c, unknown, limit);
  }

  lemma FootOf(c: Cell)
    ensures Foot(c) == c.group.box.y + c.group.box.h
  {
  }

  lemma NothingLaid(v: Canvas, positions: map<string, Point>)
    requires positions == if v.GatewayId().Some? then map[v.GatewayId().value := v.GatewayPoint()] else map[]
    ensures Laid(v, [], positions)
  {
  }

  /** Lan, Wlan and Zigbee, in that order. */
  method NamedGroups(v: Canvas, expanded: set<GroupKey>)
    returns (cells: seq<Cell>, positions: map<string, Point>, bottom: real)
    requires v.Valid()
    ensures |cells| == 3 && forall k :: 0 <= k < 3 ==> cells[k].group.network == KEYS[k]
    ensures forall c :: c in cells ==> c.group.network != Unknown
    ensures Laid(v, cells, positions)
    ensures bottom >= v.Top() && forall c :: c in cells ==> c.group.box.y + c.group.box.h <= bottom
    ensures forall c :: c in cells ==> Filled(v, expanded, c)
    ensures exists stackY :: Lined(v, cells, stackY, bottom)
  {
    hide Filled, Laid, CellOk, BoxStands, LowestOf, Foot;
    cells, positions := [], if v.GatewayId().Some? then map[v.GatewayId().value := v.GatewayPoint()] else map[];
    NothingLaid(v, positions);
    bottom := v.Top();
    var stackY := v.Top();
    for index := 0 to 3
      invariant |cells| == index
      invariant Laid(v, cells, positions)
      invariant forall k :: 0 <= k < index ==> cells[k].group.network == KEYS[k]
      invariant Stacked(v, cells, stackY, bottom) && Lined(v, cells, stackY, bottom)
      invariant forall c :: c in cells ==> Filled(v, expanded, c) && c.group.network != Unknown
    {
      var c := NamedGroup(v, expanded, index, stackY);
      StackedGrows(v, cells, stackY, bottom, c);
      LinedGrows(v, cells, stackY, bottom, c);
      FootOf(c);
      AddCell(v, cells, positions, c);
      positions := WithCards(positions, c.group.ids, c.placed);
      cells := cells + [c];
      stackY := c.group.box.y + c.group.box.h + 20.0;
      bottom := MaxReal(bottom, c.group.box.y + c.group.box.h);
    }
  }

  ghost predicate AllKeys(v: Canvas, cells: seq<Cell>) {
    && |cells| >= 3 && (forall k :: 0 <= k < 3 ==> cells[k].group.network == KEYS[k])
    && (if Members(v.devices, v.edges, Unknown) == [] then |cells| == 3
        else |cells| == 4 && cells[3].group.network == Unknown)
  }

  /** All boxes stand as they should, the last foot at `bottom`. */
  ghost predicate Standing(v: Canvas, cells: seq<Cell>, bottom: real) {
    && |cells| >= 3 && LowestOf(cells, bottom)
    && (forall k :: 0 <= k < 3 ==> BoxStands(v, cells, k))
    && (forall k :: 3 <= k < |cells| ==>
          var b := cells[k].group.box;
          b.x == 16.0 && b.w == v.width as real - 32.0 && LowestOf(cells[..3], b.y - 24.0))
  }

  lemma NamedAreStanding(v: Canvas, cells: seq<Cell>, bottom: real)
    requires |cells| == 3 && exists stackY :: Lined(v, cells, stackY, bottom)
    ensures Standing(v, cells, bottom)
  {
    hide BoxStands, LowestOf;
  }

  lemma UnknownStands(v: Canvas, cells: seq<Cell>, bottom: real, c: Cell)
    requires |cells| == 3 && Standing(v, cells, bottom)
    requires CellOk(v, c) && c.group.box.x == 16.0 && c.group.box.w == v.width as real - 32.0 && c.group.box.y == bottom + 24.0
    ensures Standing(v, cells + [c], c.group.box.y + c.group.box.h)
  {
    var longer := cells + [c];
    assert longer[..3] == cells && c.group.box.h >= 90.0;
    forall k | 0 <= k < 3 ensures BoxStands(v, longer, k) {
      assert BoxStands(v, cells, k);
    }
    LowestGrows(cells, bottom, c, bottom);
    hide CellOk;
  }

  lemma CellsArePlaced(v: Canvas, cells: seq<Cell>, bottom: real, l: MapLayout)
    requires Standing(v, cells, bottom) && GatewayPlaced(v, l.positions)
    requires l.groups == Groups(cells) && l.gateway == v.GatewayId() && l.width == v.width
    requires l.height == if bottom + 20.0 < 200.0 then 200.0 else bottom + 20.0
    ensures Placed(l)
  {
    FeetOfGroups(cells, bottom);
    assert GatewayOnTop(l);
    NamedCellsStand(v, cells, bottom, l);
    UnknownCellStands(v, cells, bottom, l);
    hide *;
    assert LowestFoot(l.groups, bottom);
    PlacedFromParts(l, bottom);
  }

  lemma PlacedFromParts(l: MapLayout, foot: real)
    requires GatewayOnTop(l) && NamedStand(l) && UnknownBelow(l) && LowestFoot(l.groups, foot)
    requires l.height == if foot + 20.0 < 200.0 then 200.0 else foot + 20.0
    ensures Placed(l)
  {
    hide GatewayOnTop, NamedStand, UnknownBelow, LowestFoot;
  }

  lemma NamedCellsStand(v: Canvas, cells: seq<Cell>, bottom: real, l: MapLayout)
    requires Standing(v, cells, bottom) && l.groups == Groups(cells) && l.gateway == v.GatewayId() && l.width == v.width
    ensures NamedStand(l)
  {
    assert BoxStands(v, cells, 0) && BoxStands(v, cells, 1) && BoxStands(v, cells, 2);
    hide LowestOf, StandsAt;
  }

  lemma UnknownCellStands(v: Canvas, cells: seq<Cell>, bottom: real, l: MapLayout)
    requires Standing(v, cells, bottom) && l.groups == Groups(cells) && l.width == v.width
    ensures UnknownBelow(l)
  {
    hide LowestOf, LowestFoot, BoxStands;
    assert Groups(cells)[..3] == Groups(cells[..3]);
    forall k | 3 <= k < |cells| ensures LowestFoot(l.groups[..3], l.groups[k].box.y - 24.0) {
      FeetOfGroups(cells[..3], cells[k].group.box.y - 24.0);
    }
  }

  lemma FeetOfGroups(cells: seq<Cell>, foot: real)
    requires LowestOf(cells, foot)
    ensures LowestFoot(Groups(cells), foot)
  {
    var c :| c in cells && Foot(c) == foot;
    var k :| 0 <= k < |cells| && cells[k] == c;
    assert Groups(cells)[k] in Groups(cells);
    forall g | g in Groups(cells) ensures g.box.y + g.box.h <= foot {
      var x := CellOfGroup(cells, g);
    }
  }

  method AllGroups(v: Canvas, expanded: set<GroupKey>)
    returns (cells: seq<Cell>, positions: map<string, Point>, bottom: real)
    requires v.Valid()
    ensures Laid(v, cells, positions) && AllKeys(v, cells) && Standing(v, cells, bottom)
    ensures forall c :: c in cells ==> Filled(v, expanded, c) && c.group.box.y + c.group.box.h <= bottom
  {
    hide Laid, CellOk, Filled, Standing, Lined, Members, Separate;
    cells, positions, bottom := NamedGroups(v, expanded);
    NamedAreStanding(v, cells, bottom);
    if Members(v.devices, v.edges, Unknown) != [] {
      var c := UnknownGroup(v, expanded, bottom);
      BelowIsSeparate(cells, bottom, c);
      AddCell(v, cells, positions, c);
      positions := WithCards(positions, c.group.ids, c.placed);
      UnknownStands(v, cells, bottom, c);
      cells := cells + [c];
      bottom := c.group.box.y + c.group.box.h;
    }
  }

  method LayoutGroups(devices: seq<Device>, edges: seq<Edge>, requested: real, expanded: set<GroupKey>)
    returns (l: MapLayout)
    requires DistinctIds(devices)
    ensures CardsInside(l) && BoxesApart(l) && GatewayClear(l) && ControlsClear(l)
    ensures CardsApart(devices, l)
    ensures GroupsComplete(devices, edges, l)
    ensures l.width == if requested.Floor < 270 then 270 else requested.Floor
    ensures forall g :: g in l.groups ==> ShowsItsShare(l.width, expanded, g) && Arranged(devices, edges, l.width, l.positions, g)
    ensures Placed(l) && l.height >= 200.0
    ensures forall id :: l.gateway == Some(id) <==> IsGateway(devices, id)
    ensures forall g :: g in l.groups ==> OnCanvas(l.width, g.box) && g.box.y + g.box.h + 20.0 <= l.height
  {
    var v := Canvas(devices, edges, MaxInt(270, requested.Floor));
    var cells, positions, bottom := AllGroups(v, expanded);
    l := MapLayout(positions, Groups(cells), v.GatewayId(), v.width, MaxReal(bottom + 20.0, 200.0));
    LaidIsGood(v, cells, l);
    LaidIsComplete(v, cells, l);
    CellsArePlaced(v, cells, bottom, l);
    CellsAreArranged(v, cells, l, expanded);
    forall id ensures l.gateway == Some(id) <==> IsGateway(devices, id) {
      GatewayIsGateway(devices, id);
    }
  }

  lemma BelowIsSeparate(cells: seq<Cell>, bottom: real, c: Cell)
    requires forall x :: x in cells ==> x.group.box.y + x.group.box.h <= bottom && x.group.network != c.group.network
    requires c.group.box.y == bottom + 24.0
    ensures forall k :: 0 <= k < |cells| ==> Separate(cells[k], c)
  {
  }

  lemma CellsAreArranged(v: Canvas, cells: seq<Cell>, l: MapLayout, expanded: set<GroupKey>)
    requires l.groups == Groups(cells) && l.width == v.width
    requires forall c :: c in cells ==> CellOk(v, c) && CardsAt(l.positions, c) && Filled(v, expanded, c)
    requires forall c :: c in cells ==> c.group.box.y + c.group.box.h + 20.0 <= l.height
    ensures forall g :: g in l.groups ==>
              ShowsItsShare(l.width, expanded, g) && Arranged(v.devices, v.edges, v.width, l.positions, g)
    ensures forall g :: g in l.groups ==> OnCanvas(l.width, g.box) && g.box.y + g.box.h + 20.0 <= l.height
  {
    forall g | g in l.groups
      ensures ShowsItsShare(l.width, expanded, g) && Arranged(v.devices, v.edges, v.width, l.positions, g)
      ensures OnCanvas(l.width, g.box) && g.box.y + g.box.h + 20.0 <= l.height
    {
      var c := CellOfGroup(cells, g);
      CellIsArranged(v, expanded, l.positions, c);
    }
  }

  lemma CellIsArranged(v: Canvas, expanded: set<GroupKey>, positions: map<string, Point>, c: Cell)
    requires CellOk(v, c) && CardsAt(positions, c) && Filled(v, expanded, c)
    ensures Arranged(v.devices, v.edges, v.width, positions, c.group)
  {
    var order :| GroupOrder(v.devices, v.edges, c.group.network, order) && |c.shown| <= |order| && c.shown == order[..|c.shown|];
    hide GroupOrder, CellOk, CardsAt, Filled;
    CellIsArrangedBy(v, positions, c, order);
  }

  lemma CellIsArrangedBy(v: Canvas, positions: map<string, Point>, c: Cell, order: seq<Device>)
    requires CellOk(v, c) && CardsAt(positions, c) && |c.shown| <= |order| && c.shown == order[..|c.shown|]
    ensures ArrangedBy(positions, c.group, order, c.frame, c.placed)
  {
  }

  /******* From the loop's facts to the promises *******/

  lemma CellOfGroup(cells: seq<Cell>, g: Group) returns (c: Cell)
    requires g in Groups(cells)
    ensures c in cells && c.group == g
  {
    var k :| 0 <= k < |cells| && Groups(cells)[k] == g;
    c := cells[k];
  }

  lemma CardOfId(v: Canvas, positions: map<string, Point>, c: Cell, id: string) returns (i: nat)
    requires CellOk(v, c) && CardsAt(positions, c) && id in c.group.ids
    ensures i < |c.shown| && c.shown[i].id == id && id in positions && positions[id] == c.placed[i]
    ensures Within(Card(positions[id]), c.group.box)
  {
    var k :| 0 <= k < |c.group.ids| && c.group.ids[k] == id;
    i := k;
  }

  lemma WithinApart(a: Rect, boxA: Rect, b: Rect, boxB: Rect)
    requires Within(a, boxA) && Within(b, boxB) && (Apart(boxA, boxB) || Apart(boxB, boxA))
    ensures Apart(a, b)
  {
  }

  /** The gateway's card ends at height 120; no box starts above 168 when there is one. */
  lemma GatewayAbove(v: Canvas, c: Cell)
    requires CellOk(v, c) && v.GatewayId().Some?
    ensures Apart(Card(v.GatewayPoint()), c.group.box)
  {
  }

  ghost predicate PinnedAs(c: Cell, positions: map<string, Point>, i: int, id: string) {
    && 0 <= i < |c.shown| && c.shown[i].id == id && Pinned(c.frame, c.group.network, c.shown[i])
    && id in positions && c.shown[i].saved.value == positions[id]
  }

  /** Two shown ids name two different cells' cards, or two cards of one cell. */
  lemma TwoCards(v: Canvas, cells: seq<Cell>, positions: map<string, Point>, a: string, b: string, ca: Cell, cb: Cell)
    requires v.Valid() && Laid(v, cells, positions) && a != b
    requires ca in cells && cb in cells && Shows(ca, a) && Shows(cb, b)
    ensures a in positions && b in positions
    ensures || Apart(Card(positions[a]), Card(positions[b]))
            || (ca == cb && exists i, j :: PinnedAs(ca, positions, i, a) && PinnedAs(ca, positions, j, b))
  {
    var i := ShownAt(v, positions, ca, a);
    var j := ShownAt(v, positions, cb, b);
    if ca == cb {
      TwoCardsOfOneCell(v, positions, ca, i, j);
    } else {
      DifferentCellsSeparate(cells, ca, cb);
      WithinApart(Card(positions[a]), ca.group.box, Card(positions[b]), cb.group.box);
    }
  }

  lemma TwoCardsOfOneCell(v: Canvas, positions: map<string, Point>, c: Cell, i: nat, j: nat)
    requires CellOk(v, c) && CardsAt(positions, c) && i < |c.shown| && j < |c.shown| && i != j
    ensures var a, b := c.shown[i].id, c.shown[j].id;
            || Apart(Card(positions[a]), Card(positions[b]))
            || (PinnedAs(c, positions, i, a) && PinnedAs(c, positions, j, b))
  {
    if i < j {
      RuleKeepsCardsApart(c.frame, c.group.network, c.shown, c.placed, i, j);
    } else {
      RuleKeepsCardsApart(c.frame, c.group.network, c.shown, c.placed, j, i);
    }
    assert PlacedByRule(c.frame, c.group.network, c.shown, c.placed, i);
    assert PlacedByRule(c.frame, c.group.network, c.shown, c.placed, j);
  }

  lemma LaidIsGood(v: Canvas, cells: seq<Cell>, l: MapLayout)
    requires v.Valid() && Laid(v, cells, l.positions)
    requires l.groups == Groups(cells) && l.gateway == v.GatewayId()
    ensures CardsInside(l) && BoxesApart(l) && GatewayClear(l) && ControlsClear(l)
    ensures CardsApart(v.devices, l)
  {
    forall g, id | g in l.groups && id in g.ids
      ensures id in l.positions && Within(Card(l.positions[id]), g.box)
    {
      var c := CellOfGroup(cells, g);
      var i := CardOfId(v, l.positions, c, id);
    }
    if l.gateway.Some? {
      forall g | g in l.groups
        ensures Apart(Card(l.positions[l.gateway.value]), g.box)
      {
        var c := CellOfGroup(cells, g);
        GatewayAbove(v, c);
      }
    }
    forall g, id | g in l.groups && g.control.Some? && id in l.positions
      ensures Within(g.control.value, g.box) && Apart(Card(l.positions[id]), g.control.value)
    {
      var c := CellOfGroup(cells, g);
      ControlClear(v, cells, l.positions, c, id);
    }
    forall a, b | a in l.positions && b in l.positions && a != b
      ensures Apart(Card(l.positions[a]), Card(l.positions[b])) ||
              exists g :: g in l.groups && a in g.ids && b in g.ids && UserPlaced(v.devices, l, g, a) && UserPlaced(v.devices, l, g, b)
    {
      PairApart(v, cells, l, a, b);
    }
  }

  lemma ControlClear(v: Canvas, cells: seq<Cell>, positions: map<string, Point>, c: Cell, id: string)
    requires v.Valid() && Laid(v, cells, positions) && c in cells && c.group.control.Some? && id in positions
    ensures Within(c.group.control.value, c.group.box)
    ensures Apart(Card(positions[id]), c.group.control.value)
  {
    assert CellOk(v, c);
    assert Accounted(v, cells, id);
    if v.GatewayId() == Some(id) {
      GatewayAbove(v, c);
      WithinApart(Card(positions[id]), Card(positions[id]), c.group.control.value, c.group.box);
    } else {
      var x :| x in cells && Shows(x, id);
      var i := ShownAt(v, positions, x, id);
      if x != c {
        DifferentCellsSeparate(cells, c, x);
        WithinApart(Card(positions[id]), x.group.box, c.group.control.value, c.group.box);
      }
    }
  }

  lemma ShownAt(v: Canvas, positions: map<string, Point>, c: Cell, id: string) returns (i: nat)
    requires CellOk(v, c) && CardsAt(positions, c) && Shows(c, id)
    ensures i < |c.shown| && c.shown[i].id == id && id in positions && positions[id] == c.placed[i]
    ensures Within(Card(positions[id]), c.group.box)
    ensures c.group.control.Some? ==> Apart(Card(positions[id]), c.group.control.value)
  {
    var k :| 0 <= k < |c.shown| && c.shown[k].id == id;
    i := k;
  }

  lemma DifferentCellsSeparate(cells: seq<Cell>, a: Cell, b: Cell)
    requires a in cells && b in cells && a != b
    requires forall k, m :: 0 <= k < m < |cells| ==> Separate(cells[k], cells[m])
    ensures Separate(a, b) || Separate(b, a)
  {
  }

  lemma PairApart(v: Canvas, cells: seq<Cell>, l: MapLayout, a: string, b: string)
    requires v.Valid() && Laid(v, cells, l.positions) && l.groups == Groups(cells)
    requires a in l.positions && b in l.positions && a != b
    ensures Apart(Card(l.positions[a]), Card(l.positions[b])) ||
            exists g :: g in l.groups && a in g.ids && b in g.ids && UserPlaced(v.devices, l, g, a) && UserPlaced(v.devices, l, g, b)
  {
    assert Accounted(v, cells, a) && Accounted(v, cells, b) && GatewayPlaced(v, l.positions);
    assert forall c :: c in cells ==> CellOk(v, c) && CardsAt(l.positions, c);
    hide *;
    if v.GatewayId() == Some(a) {
      var c := ShowingCell(v, cells, b);
      GatewayApartFromCard(v, l.positions, c, b);
    } else if v.GatewayId() == Some(b) {
      var c := ShowingCell(v, cells, a);
      GatewayApartFromCard(v, l.positions, c, a);
    } else {
      var ca := ShowingCell(v, cells, a);
      var cb := ShowingCell(v, cells, b);
      TwoCards(v, cells, l.positions, a, b, ca, cb);
      if !Apart(Card(l.positions[a]), Card(l.positions[b])) {
        TwoPinned(v, cells, l, a, b, ca);
      }
    }
  }

  lemma ShowingCell(v: Canvas, cells: seq<Cell>, id: string) returns (c: Cell)
    requires Accounted(v, cells, id) && v.GatewayId() != Some(id)
    ensures c in cells && Shows(c, id)
  {
    c :| c in cells && Shows(c, id);
  }

  lemma TwoPinned(v: Canvas, cells: seq<Cell>, l: MapLayout, a: string, b: string, c: Cell)
    requires CellOk(v, c) && c in cells && l.groups == Groups(cells)
    requires exists i, j :: PinnedAs(c, l.positions, i, a) && PinnedAs(c, l.positions, j, b)
    ensures exists g :: g in l.groups && a in g.ids && b in g.ids && UserPlaced(v.devices, l, g, a) && UserPlaced(v.devices, l, g, b)
  {
    var i, j :| PinnedAs(c, l.positions, i, a) && PinnedAs(c, l.positions, j, b);
    PinnedIsUserPlaced(v, cells, l, c, i);
    PinnedIsUserPlaced(v, cells, l, c, j);
    var k :| 0 <= k < |cells| && cells[k] == c;
    assert l.groups[k] == c.group;
  }

  lemma GatewayApartFromCard(v: Canvas, positions: map<string, Point>, c: Cell, id: string)
    requires CellOk(v, c) && CardsAt(positions, c) && Shows(c, id) && v.GatewayId().Some? && GatewayPlaced(v, positions)
    ensures id in positions && v.GatewayId().value in positions
    ensures Apart(Card(positions[v.GatewayId().value]), Card(positions[id]))
    ensures Apart(Card(positions[id]), Card(positions[v.GatewayId().value]))
  {
  }

  lemma PinnedIsUserPlaced(v: Canvas, cells: seq<Cell>, l: MapLayout, c: Cell, i: nat)
    requires CellOk(v, c) && i < |c.shown| && c.shown[i].id in l.positions
    requires Pinned(c.frame, c.group.network, c.shown[i]) && c.shown[i].saved.value == l.positions[c.shown[i].id]
    ensures UserPlaced(v.devices, l, c.group, c.shown[i].id) && c.shown[i].id in c.group.ids
  {
  }

  lemma LaidIsComplete(v: Canvas, cells: seq<Cell>, l: MapLayout)
    requires v.Valid() && Laid(v, cells, l.positions)
    requires l.groups == Groups(cells) && l.gateway == v.GatewayId()
    requires AllKeys(v, cells)
    ensures GroupsComplete(v.devices, v.edges, l)
  {
    assert forall c :: c in cells ==> CellOk(v, c);
    assert DistinctIds(v.devices);
    assert forall g :: g in l.groups ==> g.network != GatewayKey;
    hide *;
    GroupsHoldMembers(v, cells, l);
    IdsShownOnce(v, cells, l);
    GroupsInTheirOrder(v, cells, l);
    PartsComplete(v.devices, v.edges, l);
  }

  lemma IdsShownOnce(v: Canvas, cells: seq<Cell>, l: MapLayout)
    requires v.Valid() && Laid(v, cells, l.positions)
    requires l.groups == Groups(cells) && l.gateway == v.GatewayId()
    ensures forall id :: id in l.positions <==> l.gateway == Some(id) || exists g :: g in l.groups && id in g.ids
  {
    hide *;
    forall id
      ensures id in l.positions <==> l.gateway == Some(id) || exists g :: g in l.groups && id in g.ids
    {
      IdShownOnce(v, cells, l, id);
    }
  }

  lemma PartsComplete(devices: seq<Device>, edges: seq<Edge>, l: MapLayout)
    requires forall g :: g in l.groups ==>
              && g.count == |Members(devices, edges, g.network)| && |g.ids| + g.hidden == g.count && Distinct(g.ids)
              && (forall id :: id in g.ids ==> id in Ids(Members(devices, edges, g.network)))
              && (g.control.Some? <== g.hidden > 0)
    requires forall id :: id in l.positions <==> l.gateway == Some(id) || exists g :: g in l.groups && id in g.ids
    requires |l.groups| >= 3 && l.groups[0].network == Lan && l.groups[1].network == Wlan && l.groups[2].network == Zigbee
    requires (exists g :: g in l.groups && g.network == Unknown) <==> Members(devices, edges, Unknown) != []
    requires forall i, j :: 0 <= i < j < |l.groups| ==> l.groups[i].network != l.groups[j].network
    requires DistinctIds(devices) && forall g :: g in l.groups ==> g.network != GatewayKey
    ensures GroupsComplete(devices, edges, l)
  {
    hide Members, Ids, Distinct, Belongs, DistinctIds;
    forall g | g in l.groups
      ensures g.count == |set d | d in devices && Belongs(devices, edges, d, g.network)|
      ensures forall id :: id in g.ids ==> exists d :: d in devices && d.id == id && Belongs(devices, edges, d, g.network)
    {
      MembersAreBelonging(devices, edges, g.network);
    }
    MembersAreBelonging(devices, edges, Unknown);
  }

  lemma GroupsHoldMembers(v: Canvas, cells: seq<Cell>, l: MapLayout)
    requires l.groups == Groups(cells) && forall c :: c in cells ==> CellOk(v, c)
    ensures forall g :: g in l.groups ==>
              && g.count == |Members(v.devices, v.edges, g.network)| && |g.ids| + g.hidden == g.count && Distinct(g.ids)
              && (forall id :: id in g.ids ==> id in Ids(Members(v.devices, v.edges, g.network)))
              && (g.control.Some? <== g.hidden > 0)
  {
    hide Groups, CellOk, Members, Ids, Distinct;
    forall g | g in l.groups
      ensures g.count == |Members(v.devices, v.edges, g.network)| && |g.ids| + g.hidden == g.count && Distinct(g.ids)
      ensures forall id :: id in g.ids ==> id in Ids(Members(v.devices, v.edges, g.network))
      ensures g.control.Some? <== g.hidden > 0
    {
      var c := CellOfGroup(cells, g);
      CellMembers(v, c);
    }
  }

  lemma GroupsInTheirOrder(v: Canvas, cells: seq<Cell>, l: MapLayout)
    requires Laid(v, cells, l.positions) && l.groups == Groups(cells) && AllKeys(v, cells)
    ensures |l.groups| >= 3 && l.groups[0].network == Lan && l.groups[1].network == Wlan && l.groups[2].network == Zigbee
    ensures (exists g :: g in l.groups && g.network == Unknown) <==> Members(v.devices, v.edges, Unknown) != []
    ensures forall i, j :: 0 <= i < j < |l.groups| ==> l.groups[i].network != l.groups[j].network
  {
    hide Members, CellOk, CardsAt, Accounted, GatewayPlaced;
    forall i, j | 0 <= i < j < |l.groups|
      ensures l.groups[i].network != l.groups[j].network
    {
      assert Separate(cells[i], cells[j]);
    }
    assert KEYS[0] == Lan && KEYS[1] == Wlan && KEYS[2] == Zigbee;
    if Members(v.devices, v.edges, Unknown) != [] {
      assert l.groups[3] in l.groups;
    }
  }

  lemma CellMembers(v: Canvas, c: Cell)
    requires CellOk(v, c)
    ensures Distinct(c.group.ids) && |c.group.ids| == |c.shown|
    ensures c.group.count == |Members(v.devices, v.edges, c.group.network)| && |c.group.ids| + c.group.hidden == c.group.count
    ensures c.group.control.Some? <== c.group.hidden > 0
    ensures forall id :: id in c.group.ids ==> id in Ids(Members(v.devices, v.edges, c.group.network))
  {
  }

  lemma IdShownOnce(v: Canvas, cells: seq<Cell>, l: MapLayout, id: string)
    requires v.Valid() && Laid(v, cells, l.positions)
    requires l.groups == Groups(cells) && l.gateway == v.GatewayId()
    ensures id in l.positions <==> l.gateway == Some(id) || exists g :: g in l.groups && id in g.ids
  {
    if id in l.positions && l.gateway != Some(id) {
      assert Accounted(v, cells, id);
      var c :| c in cells && Shows(c, id);
      var i := ShownAt(v, l.positions, c, id);
      assert c.group.ids[i] == id;
      var k :| 0 <= k < |cells| && cells[k] == c;
      assert l.groups[k] == c.group && c.group in l.groups;
    }
    if exists g :: g in l.groups && id in g.ids {
      var g :| g in l.groups && id in g.ids;
      var c := CellOfGroup(cells, g);
      var i := CardOfId(v, l.positions, c, id);
    }
  }
}
