/** The kitchen display board: orders move from "pending" to "preparing" to
    "ready" and are then removed; the board shows one column per status and
    colours each card by how long ago the order was placed. */
module Kitchen {
  import opened Seqs
  import opened Text

  datatype KitchenStatus = Pending | Preparing | Ready

  datatype Priority = Normal | High

  datatype OrderItem = OrderItem(name: string, quantity: int, notes: Option<string>)

  /** An order on the board; `orderTime` is a clock reading in milliseconds. */
  datatype Order = Order(
    id: int,
    tableNumber: string,
    items: seq<OrderItem>,
    status: KitchenStatus,
    orderTime: int,
    priority: Priority)

  /** The ids of the orders are pairwise distinct. */
  ghost predicate DistinctIds(orders: seq<Order>)
  {
    forall i, j :: 0 <= i < j < |orders| ==> orders[i].id != orders[j].id
  }

  /** `handleStatusChange(orderId, newStatus)`: every order with that id takes
      the new status, and nothing else changes. The handler's parameter type
      admits only "preparing" and "ready". */
  function UpdateStatus(orders: seq<Order>, orderId: int, newStatus: KitchenStatus): (r: seq<Order>)
    requires newStatus != Pending
    ensures |r| == |orders|
    ensures forall i :: 0 <= i < |r| ==>
      r[i] == if orders[i].id == orderId then orders[i].(status := newStatus) else orders[i]
    decreases |orders|
  {
    if |orders| == 0 then []
    else
      var o := orders[0];
      [if o.id == orderId then o.(status := newStatus) else o] + UpdateStatus(orders[1..], orderId, newStatus)
  }

  /** A status change for an id that is not on the board changes nothing. */
  lemma UpdateAbsentIsNoOp(orders: seq<Order>, orderId: int, newStatus: KitchenStatus)
    requires newStatus != Pending
    requires forall i :: 0 <= i < |orders| ==> orders[i].id != orderId
    ensures UpdateStatus(orders, orderId, newStatus) == orders
  {
  }

  /** A status change keeps every id where it was, so distinct ids stay
      distinct. */
  lemma UpdateKeepsIds(orders: seq<Order>, orderId: int, newStatus: KitchenStatus)
    requires newStatus != Pending
    ensures var r := UpdateStatus(orders, orderId, newStatus);
      forall i :: 0 <= i < |r| ==> r[i].id == orders[i].id
    ensures DistinctIds(orders) ==> DistinctIds(UpdateStatus(orders, orderId, newStatus))
  {
  }

  function IdIsNot(orderId: int): Order -> bool
  {
    (o: Order) => o.id != orderId
  }

  /** `handleComplete(orderId)`: the orders with that id leave the board, the
      rest keep their relative order. */
  function Complete(orders: seq<Order>, orderId: int): (r: seq<Order>)
    ensures forall o :: o in r <==> o in orders && o.id != orderId
  {
    Filter(orders, IdIsNot(orderId))
  }

  /** Completing keeps the remaining orders in board order, and completing an
      id that is not on the board changes nothing. */
  lemma CompleteKeepsOrder(orders: seq<Order>, orderId: int)
    ensures exists idx :: EmbedsAt(Complete(orders, orderId), orders, idx)
    ensures (forall i :: 0 <= i < |orders| ==> orders[i].id != orderId) ==> Complete(orders, orderId) == orders
  {
    FilterIsSubsequence(orders, IdIsNot(orderId));
    assert EmbedsAt(Complete(orders, orderId), orders, KeptPositions(orders, IdIsNot(orderId)));
    if forall i :: 0 <= i < |orders| ==> orders[i].id != orderId {
      FilterKeepsAll(orders, IdIsNot(orderId));
    }
  }

  /** Removing orders keeps the remaining ids distinct. */
  lemma {:induction false} CompleteKeepsIdsDistinct(orders: seq<Order>, orderId: int)
    requires DistinctIds(orders)
    ensures DistinctIds(Complete(orders, orderId))
    decreases |orders|
  {
    if |orders| > 0 {
      var rest := orders[1..];
      CompleteKeepsIdsDistinct(rest, orderId);
      var tail := Complete(rest, orderId);
      if orders[0].id != orderId {
        var r := Complete(orders, orderId);
        assert r == [orders[0]] + tail;
        forall j | 0 < j < |r|
          ensures r[0].id != r[j].id
        {
          assert r[j] in tail;
          assert r[j] in rest;
          var k :| 0 <= k < |rest| && rest[k] == r[j];
          assert orders[k + 1] == r[j];
        }
      }
    }
  }

  function StatusIs(st: KitchenStatus): Order -> bool
  {
    (o: Order) => o.status == st
  }

  /** The column of the board that shows orders of status `st`
      (`pendingOrders`, `preparingOrders`, `readyOrders`). */
  function Column(orders: seq<Order>, st: KitchenStatus): (r: seq<Order>)
    ensures forall o :: o in r <==> o in orders && o.status == st
  {
    Filter(orders, StatusIs(st))
  }

  /** The three columns split the board: together they hold as many cards as
      there are orders, and each order is in exactly one column. */
  lemma {:induction false} ColumnsPartition(orders: seq<Order>)
    ensures |Column(orders, Pending)| + |Column(orders, Preparing)| + |Column(orders, Ready)| == |orders|
    decreases |orders|
  {
    if |orders| > 0 {
      ColumnsPartition(orders[1..]);
    }
  }

  /** The inductive core of `UpdateMovesOneCard`: the moved order's old
      column loses a card and its new column gains one. */
  lemma {:induction false} UpdateShiftsColumns(orders: seq<Order>, k: nat, b: KitchenStatus)
    requires b != Pending
    requires k < |orders|
    requires forall i :: 0 <= i < |orders| && i != k ==> orders[i].id != orders[k].id
    requires orders[k].status != b
    ensures var r := UpdateStatus(orders, orders[k].id, b);
      && |Column(r, orders[k].status)| + 1 == |Column(orders, orders[k].status)|
      && |Column(r, b)| == |Column(orders, b)| + 1
    decreases |orders|
  {
    var id := orders[k].id;
    var r := UpdateStatus(orders, id, b);
    assert r[1..] == UpdateStatus(orders[1..], id, b);
    if k == 0 {
      UpdateAbsentIsNoOp(orders[1..], id, b);
    } else {
      UpdateShiftsColumns(orders[1..], k - 1, b);
    }
  }

  /** Moving the only order with id `orderId` from status `a` to status `b`
      takes one card out of column `a`, puts one into column `b`, and leaves
      the third column's count alone. */
  lemma UpdateMovesOneCard(orders: seq<Order>, k: nat, b: KitchenStatus)
    requires b != Pending
    requires k < |orders|
    requires forall i :: 0 <= i < |orders| && i != k ==> orders[i].id != orders[k].id
    requires orders[k].status != b
    ensures var r := UpdateStatus(orders, orders[k].id, b);
      && |Column(r, orders[k].status)| + 1 == |Column(orders, orders[k].status)|
      && |Column(r, b)| == |Column(orders, b)| + 1
    ensures forall st :: st != orders[k].status && st != b ==>
      |Column(UpdateStatus(orders, orders[k].id, b), st)| == |Column(orders, st)|
  {
    var r := UpdateStatus(orders, orders[k].id, b);
    UpdateShiftsColumns(orders, k, b);
    ColumnsPartition(orders);
    ColumnsPartition(r);
  }

  /** Completing the only order with a given id takes its card out of its
      column. */
  lemma {:induction false} CompleteRemovesOneCard(orders: seq<Order>, k: nat)
    requires k < |orders|
    requires forall i :: 0 <= i < |orders| && i != k ==> orders[i].id != orders[k].id
    ensures |Complete(orders, orders[k].id)| + 1 == |orders|
    ensures |Column(Complete(orders, orders[k].id), orders[k].status)| + 1 == |Column(orders, orders[k].status)|
    decreases |orders|
  {
    var id := orders[k].id;
    if k == 0 {
      FilterKeepsAll(orders[1..], IdIsNot(id));
    } else {
      CompleteRemovesOneCard(orders[1..], k - 1);
    }
  }

  /** The button on a card: "start cooking" on a pending order, "ready" on a
      preparing one, "served" on a ready one. */
  datatype CardAction = StartCooking | MarkReady | Serve

  function ActionFor(st: KitchenStatus): CardAction
  {
    match st
    case Pending => StartCooking
    case Preparing => MarkReady
    case Ready => Serve
  }

  /** What pressing a card's button does to the board. */
  function Press(orders: seq<Order>, orderId: int, a: CardAction): seq<Order>
  {
    match a
    case StartCooking => UpdateStatus(orders, orderId, Preparing)
    case MarkReady => UpdateStatus(orders, orderId, Ready)
    case Serve => Complete(orders, orderId)
  }

  /** Position of a status along the board, left to right. */
  function Stage(st: KitchenStatus): nat
  {
    match st
    case Pending => 0
    case Preparing => 1
    case Ready => 2
  }

  /** The board only moves orders forward: after pressing the button on the
      card of `o`, every order with its id sits exactly one column further
      right, and pressing it on a ready order leaves no order with that id. */
  lemma ButtonsMoveForward(orders: seq<Order>, o: Order)
    requires o in orders
    ensures var r := Press(orders, o.id, ActionFor(o.status));
      && (o.status == Ready ==> forall x :: x in r ==> x.id != o.id)
      && (forall x :: x in r && x.id == o.id ==> Stage(x.status) == Stage(o.status) + 1)
      && |r| <= |orders|
  {
    var r := Press(orders, o.id, ActionFor(o.status));
    if o.status != Ready {
      forall x | x in r && x.id == o.id
        ensures Stage(x.status) == Stage(o.status) + 1
      {
        var i :| 0 <= i < |r| && r[i] == x;
        assert orders[i].id == o.id;
      }
    }
  }

  /** `Math.floor((now - orderTime) / 1000 / 60)`: whole minutes since the
      order was placed, rounded down. */
  function ElapsedMinutes(nowMs: int, orderTime: int): (m: int)
    ensures m * 60000 <= nowMs - orderTime < (m + 1) * 60000
  {
    (nowMs - orderTime) / 60000
  }

  /** `getElapsedTime`: the minutes followed by the Thai word for minutes. */
  function ElapsedLabel(nowMs: int, orderTime: int): string
  {
    IntToString(ElapsedMinutes(nowMs, orderTime)) + " นาที"
  }

  datatype TimeColor = Green | Yellow | Red

  /** `getTimeColor` on whole minutes elapsed. */
  function TimeColorFor(minutes: int): (c: TimeColor)
    ensures c == Red <==> minutes > 15
    ensures c == Yellow <==> 10 < minutes <= 15
    ensures c == Green <==> minutes <= 10
  {
    if minutes > 15 then Red else if minutes > 10 then Yellow else Green
  }

  function ColorRank(c: TimeColor): nat
  {
    match c
    case Green => 0
    case Yellow => 1
    case Red => 2
  }

  /** An order only ever gets more urgent: as the clock advances its colour
      never goes back from red to yellow or from yellow to green. */
  lemma ColorNeverCoolsDown(orderTime: int, now1: int, now2: int)
    requires now1 <= now2
    ensures ElapsedMinutes(now1, orderTime) <= ElapsedMinutes(now2, orderTime)
    ensures ColorRank(TimeColorFor(ElapsedMinutes(now1, orderTime)))
      <= ColorRank(TimeColorFor(ElapsedMinutes(now2, orderTime)))
  {
    var m1 := ElapsedMinutes(now1, orderTime);
    var m2 := ElapsedMinutes(now2, orderTime);
    assert m1 * 60000 < (m2 + 1) * 60000;
  }

  /** The four orders the board starts with, placed 5, 12, 8 and 15 minutes
      before `now`. */
  function SeedOrders(now: int): seq<Order>
  {
    [ Order(1, "A2", [OrderItem("ผัดไทยกุ้งสด", 2, None), OrderItem("ต้มยำกุ้ง", 1, Some("เผ็ดน้อย"))],
            Pending, now - 5 * 60000, High),
      Order(2, "B1", [OrderItem("ข้าวผัดปู", 1, None), OrderItem("น้ำผลไม้รวม", 2, None)],
            Preparing, now - 12 * 60000, Normal),
      Order(3, "C3", [OrderItem("ส้มตำไทย", 1, Some("ไม่ใส่ถั่ว")), OrderItem("ไก่ย่าง", 1, None),
                      OrderItem("ข้าวเหนียว", 2, None)],
            Preparing, now - 8 * 60000, Normal),
      Order(4, "A4", [OrderItem("ต้มยำทะเล", 1, Some("เผ็ดมาก"))],
            Ready, now - 15 * 60000, Normal) ]
  }

  /** The seeded board has distinct ids and one pending, two preparing and
      one ready order. */
  lemma SeedColumns(now: int)
    ensures DistinctIds(SeedOrders(now))
    ensures |Column(SeedOrders(now), Pending)| == 1
    ensures |Column(SeedOrders(now), Preparing)| == 2
    ensures |Column(SeedOrders(now), Ready)| == 1
  {
    var s := SeedOrders(now);
    var s1, s2, s3 := s[1..], s[2..], s[3..];
    assert s3[1..] == [];
    assert s2[1..] == s3 && s1[1..] == s2 && s[1..] == s1;
    assert Column(s3, Pending) == [] && Column(s3, Preparing) == [] && Column(s3, Ready) == [s[3]];
    assert Column(s2, Pending) == [] && Column(s2, Preparing) == [s[2]] && Column(s2, Ready) == [s[3]];
    assert Column(s1, Pending) == [] && Column(s1, Preparing) == [s[1], s[2]] && Column(s1, Ready) == [s[3]];
  }

  /** At mount time the cards read 5, 12, 8 and 15 minutes and are green,
      yellow, green and yellow: 15 minutes is not yet "more than 15". */
  lemma SeedColours(now: int)
    ensures var s := SeedOrders(now);
      && ElapsedMinutes(now, s[0].orderTime) == 5 && TimeColorFor(5) == Green
      && ElapsedMinutes(now, s[1].orderTime) == 12 && TimeColorFor(12) == Yellow
      && ElapsedMinutes(now, s[2].orderTime) == 8 && TimeColorFor(8) == Green
      && ElapsedMinutes(now, s[3].orderTime) == 15 && TimeColorFor(15) == Yellow
  {
  }
}
