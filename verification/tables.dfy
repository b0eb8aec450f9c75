/** The restaurant floor: twelve tables with a status each, a detail dialog
    for the table clicked, and a checkout that frees an occupied table. */
module Tables {
  import opened Seqs

  datatype TableStatus = Available | Occupied | Reserved

  /** A table; the bill, the time seated and the customer's name are present
      only while they mean something. */
  datatype Table = Table(
    id: int,
    number: string,
    capacity: int,
    status: TableStatus,
    currentBill: Option<real>,
    occupiedTime: Option<string>,
    customerName: Option<string>)

  datatype TablesBoard = TablesBoard(
    tables: seq<Table>,
    selected: Option<Table>,
    showModal: bool)

  /** The status as the source spells it. */
  function StatusKey(st: TableStatus): string
  {
    match st
    case Available => "available"
    case Occupied => "occupied"
    case Reserved => "reserved"
  }

  /** `getStatusText`: a Thai label for each of the three statuses, and the
      empty string for any other text. */
  function GetStatusText(status: string): (r: string)
    ensures status == "available" ==> r == "ว่าง"
    ensures status == "occupied" ==> r == "ไม่ว่าง"
    ensures status == "reserved" ==> r == "จอง"
    ensures r == "" <==> status != "available" && status != "occupied" && status != "reserved"
  {
    if status == "available" then "ว่าง"
    else if status == "occupied" then "ไม่ว่าง"
    else if status == "reserved" then "จอง"
    else ""
  }

  /** Each status has a label of its own. */
  lemma StatusTextsDistinct(a: TableStatus, b: TableStatus)
    ensures GetStatusText(StatusKey(a)) != ""
    ensures GetStatusText(StatusKey(a)) == GetStatusText(StatusKey(b)) <==> a == b
  {
  }

  datatype CardColor = Green | Red | Yellow | Gray

  /** `getStatusColor`: green, red and yellow gradients for the three
      statuses, gray for anything else. */
  function GetStatusColor(status: string): (c: CardColor)
    ensures c == Green <==> status == "available"
    ensures c == Red <==> status == "occupied"
    ensures c == Yellow <==> status == "reserved"
    ensures c == Gray <==> GetStatusText(status) == ""
  {
    if status == "available" then Green
    else if status == "occupied" then Red
    else if status == "reserved" then Yellow
    else Gray
  }

  /** `handleTableClick`: the clicked table is remembered and the dialog
      opens. */
  function TableClick(b: TablesBoard, t: Table): (r: TablesBoard)
    ensures r.selected == Some(t) && r.showModal && r.tables == b.tables
  {
    b.(selected := Some(t), showModal := true)
  }

  /** The close button only hides the dialog. */
  function CloseModal(b: TablesBoard): (r: TablesBoard)
    ensures !r.showModal && r.tables == b.tables && r.selected == b.selected
  {
    b.(showModal := false)
  }

  /** The table after checkout: free, with no bill, time or customer. */
  function Freed(t: Table): (r: Table)
    ensures r.id == t.id && r.number == t.number && r.capacity == t.capacity
    ensures r.status == Available && r.currentBill == None && r.occupiedTime == None && r.customerName == None
  {
    t.(status := Available, currentBill := None, occupiedTime := None, customerName := None)
  }

  /** The `tables.map` of `handleCheckout(tableId)`. */
  function CheckoutTables(tables: seq<Table>, tableId: int): (r: seq<Table>)
    ensures |r| == |tables|
    ensures forall i :: 0 <= i < |r| ==> r[i] == if tables[i].id == tableId then Freed(tables[i]) else tables[i]
    decreases |tables|
  {
    if |tables| == 0 then []
    else [if tables[0].id == tableId then Freed(tables[0]) else tables[0]] + CheckoutTables(tables[1..], tableId)
  }

  /** `handleCheckout(tableId)`: the table is freed, the dialog closes and
      the selection is dropped. */
  function Checkout(b: TablesBoard, tableId: int): (r: TablesBoard)
    ensures r.tables == CheckoutTables(b.tables, tableId)
    ensures !r.showModal && r.selected == None
  {
    TablesBoard(CheckoutTables(b.tables, tableId), None, false)
  }

  /** Checking out an id that is not on the floor changes no table. */
  lemma CheckoutAbsentIsNoOp(tables: seq<Table>, tableId: int)
    requires forall i :: 0 <= i < |tables| ==> tables[i].id != tableId
    ensures CheckoutTables(tables, tableId) == tables
  {
  }

  /** Checking out twice is the same as checking out once. */
  lemma CheckoutIdempotent(tables: seq<Table>, tableId: int)
    ensures CheckoutTables(CheckoutTables(tables, tableId), tableId) == CheckoutTables(tables, tableId)
  {
  }

  function StatusIs(st: TableStatus): Table -> bool
  {
    (t: Table) => t.status == st
  }

  function CountStatus(tables: seq<Table>, st: TableStatus): nat
  {
    |Filter(tables, StatusIs(st))|
  }

  datatype TableStats = TableStats(total: nat, available: nat, occupied: nat, reserved: nat)

  /** `stats`. */
  function Stats(tables: seq<Table>): (r: TableStats)
    ensures r.total == |tables|
    ensures r.available + r.occupied + r.reserved == r.total
  {
    StatusCountsPartition(tables);
    TableStats(|tables|, CountStatus(tables, Available), CountStatus(tables, Occupied), CountStatus(tables, Reserved))
  }

  /** Every table has exactly one of the three statuses. */
  lemma {:induction false} StatusCountsPartition(tables: seq<Table>)
    ensures CountStatus(tables, Available) + CountStatus(tables, Occupied) + CountStatus(tables, Reserved) == |tables|
    decreases |tables|
  {
    if |tables| > 0 {
      StatusCountsPartition(tables[1..]);
    }
  }

  /** Checking out the only table with a given id moves it from its status's
      count to the available count, and leaves every other count alone. */
  lemma {:induction false} CheckoutMovesOneTable(tables: seq<Table>, k: nat, st: TableStatus)
    requires k < |tables|
    requires forall i :: 0 <= i < |tables| && i != k ==> tables[i].id != tables[k].id
    ensures CountStatus(CheckoutTables(tables, tables[k].id), st) + (if tables[k].status == st then 1 else 0)
         == CountStatus(tables, st) + (if st == Available then 1 else 0)
    decreases |tables|
  {
    var id := tables[k].id;
    var r := CheckoutTables(tables, id);
    assert r[1..] == CheckoutTables(tables[1..], id);
    if k == 0 {
      CheckoutAbsentIsNoOp(tables[1..], id);
    } else {
      CheckoutMovesOneTable(tables[1..], k - 1, st);
    }
  }

  /** Checking out an occupied table adds one to the available count and
      takes one from the occupied count; checking out an available table
      leaves the figures as they were. */
  lemma CheckoutStats(tables: seq<Table>, k: nat)
    requires k < |tables|
    requires forall i :: 0 <= i < |tables| && i != k ==> tables[i].id != tables[k].id
    ensures var before := Stats(tables);
      var after := Stats(CheckoutTables(tables, tables[k].id));
      && (tables[k].status == Occupied ==>
           && after.total == before.total && after.reserved == before.reserved
           && after.available == before.available + 1 && after.occupied + 1 == before.occupied)
      && (tables[k].status == Available ==> after == before)
  {
    CheckoutMovesOneTable(tables, k, Available);
    CheckoutMovesOneTable(tables, k, Occupied);
    CheckoutMovesOneTable(tables, k, Reserved);
  }

  /** The buttons of the detail dialog. */
  datatype ModalAction = OrderFood | CheckoutBill | OpenTable | ConfirmReservation

  function ModalActions(st: TableStatus): (r: seq<ModalAction>)
    ensures CheckoutBill in r <==> st == Occupied
    ensures OrderFood in r <==> st == Occupied
    ensures OpenTable in r <==> st == Available
    ensures ConfirmReservation in r <==> st == Reserved
  {
    match st
    case Occupied => [OrderFood, CheckoutBill]
    case Available => [OpenTable]
    case Reserved => [ConfirmReservation]
  }

  /** The dialog's checkout button frees exactly the table the dialog shows,
      and only an occupied table has that button. */
  function PressCheckout(b: TablesBoard): (r: Option<TablesBoard>)
    ensures r.Some? <==> b.showModal && b.selected.Some? && b.selected.value.status == Occupied
    ensures r.Some? ==> r.value == Checkout(b, b.selected.value.id)
  {
    if b.showModal && b.selected.Some? && CheckoutBill in ModalActions(b.selected.value.status)
    then Some(Checkout(b, b.selected.value.id))
    else None
  }

  /** The floor the page starts with. */
  function SeedTables(): seq<Table>
  {
    [ Table(1, "A1", 2, Available, None, None, None),
      Table(2, "A2", 4, Occupied, Some(850.0), Some("45 นาที"), Some("คุณสมชาย")),
      Table(3, "A3", 4, Available, None, None, None),
      Table(4, "A4", 6, Reserved, None, None, Some("คุณสมหญิง")),
      Table(5, "B1", 2, Occupied, Some(450.0), Some("20 นาที"), Some("คุณวิชัย")),
      Table(6, "B2", 4, Available, None, None, None),
      Table(7, "B3", 8, Available, None, None, None),
      Table(8, "B4", 4, Occupied, Some(1250.0), Some("60 นาที"), Some("คุณมานี")),
      Table(9, "C1", 2, Available, None, None, None),
      Table(10, "C2", 6, Reserved, None, None, Some("คุณสุดา")),
      Table(11, "C3", 4, Available, None, None, None),
      Table(12, "C4", 4, Occupied, Some(680.0), Some("30 นาที"), Some("คุณประสิทธิ์")) ]
  }

  const Initial: TablesBoard := TablesBoard(SeedTables(), None, false)

  /** The seeded floor: table `i + 1` at position `i`, and only occupied
      tables carry a bill. */
  lemma SeedShape()
    ensures forall i :: 0 <= i < |SeedTables()| ==> SeedTables()[i].id == i + 1
    ensures forall i :: 0 <= i < |SeedTables()| ==>
      (SeedTables()[i].currentBill.Some? <==> SeedTables()[i].status == Occupied)
  {
  }

  function Indicator(t: Table, st: TableStatus): nat
  {
    if t.status == st then 1 else 0
  }

  lemma CountFirst(a: seq<Table>, st: TableStatus)
    requires |a| > 0
    ensures CountStatus(a, st) == Indicator(a[0], st) + CountStatus(a[1..], st)
  {
    assert StatusIs(st)(a[0]) == (a[0].status == st);
  }

  /** The count of a status over four tables, table by table. */
  lemma CountFour(a: seq<Table>, st: TableStatus)
    requires |a| == 4
    ensures CountStatus(a, st) == Indicator(a[0], st) + Indicator(a[1], st) + Indicator(a[2], st) + Indicator(a[3], st)
  {
    CountFirst(a, st);
    CountFirst(a[1..], st);
    CountFirst(a[2..], st);
    CountFirst(a[3..], st);
    assert a[1..][1..] == a[2..] && a[2..][1..] == a[3..] && a[3..][1..] == [];
  }

  /** The count of a status over twelve tables, table by table. */
  lemma CountTwelve(s: seq<Table>, st: TableStatus)
    requires |s| == 12
    ensures CountStatus(s, st)
         == Indicator(s[0], st) + Indicator(s[1], st) + Indicator(s[2], st) + Indicator(s[3], st)
          + Indicator(s[4], st) + Indicator(s[5], st) + Indicator(s[6], st) + Indicator(s[7], st)
          + Indicator(s[8], st) + Indicator(s[9], st) + Indicator(s[10], st) + Indicator(s[11], st)
  {
    var a, b, c := s[..4], s[4..8], s[8..];
    assert s == a + b + c;
    FilterAppend(a + b, c, StatusIs(st));
    FilterAppend(a, b, StatusIs(st));
    CountFour(a, st);
    CountFour(b, st);
    CountFour(c, st);
  }

  /** The statuses of the seeded floor, table by table. */
  const SeedStatusList: seq<TableStatus> :=
    [Available, Occupied, Available, Reserved, Occupied, Available,
     Available, Occupied, Available, Reserved, Available, Occupied]

  lemma SeedStatuses()
    ensures |SeedTables()| == |SeedStatusList|
    ensures forall i :: 0 <= i < |SeedStatusList| ==> SeedTables()[i].status == SeedStatusList[i]
  {
  }

  /** Any floor of twelve tables whose statuses are the seeded ones has
      the seeded figures. */
  lemma FloorStats(s: seq<Table>)
    requires |s| == |SeedStatusList|
    requires forall i :: 0 <= i < |SeedStatusList| ==> s[i].status == SeedStatusList[i]
    ensures Stats(s) == TableStats(12, 6, 4, 2)
  {
    CountTwelve(s, Available);
    CountTwelve(s, Occupied);
    CountTwelve(s, Reserved);
  }

  /** The seeded floor shows twelve tables: six available, four occupied
      and two reserved. */
  lemma SeedStats()
    ensures Stats(SeedTables()) == TableStats(12, 6, 4, 2)
  {
    SeedStatuses();
    FloorStats(SeedTables());
  }
}
