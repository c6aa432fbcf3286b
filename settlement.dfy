/** The calculation at the heart of the stock screen's "settle" button
    (Backend/StockManagement.jsx): the profit of each bound follow, the
    per-user sums of profit and released principal, the rows written back,
    and the optimistic-lock write of a user's balances. */
module Settlement {
  import opened Common
  import opened LedgerModel

  /** Closing prices of a stock, as parsed from its row. */
  datatype Prices = Prices(buy: real, sell: real)

  /** One follower's realised profit: the price change applied to the
      units bought with the principal, less the mentor's commission share
      (the commission snapshot stored on the binding). */
  function UserProfit(amount: real, commission: real, px: Prices): real
    requires px.buy != 0.0
  {
    var assetUnits := amount / px.buy;
    var totalProfit := (px.sell - px.buy) * assetUnits;
    totalProfit * (1.0 - commission / 100.0)
  }

  /** With a positive principal, a positive buy price and a commission
      below 100%, the follower gains exactly when the stock rose and loses
      exactly when it fell. */
  lemma {:induction false} ProfitSign(amount: real, commission: real, px: Prices)
    requires px.buy > 0.0 && amount > 0.0 && commission < 100.0
    ensures UserProfit(amount, commission, px) > 0.0 <==> px.sell > px.buy
    ensures UserProfit(amount, commission, px) < 0.0 <==> px.sell < px.buy
    ensures UserProfit(amount, commission, px) == 0.0 <==> px.sell == px.buy
  {
    var units := amount / px.buy;
    var keep := 1.0 - commission / 100.0;
    assert units > 0.0;
    assert keep > 0.0;
    var diff := px.sell - px.buy;
    assert UserProfit(amount, commission, px) == diff * units * keep;
    if diff > 0.0 {
      assert diff * units > 0.0;
    } else if diff < 0.0 {
      assert diff * units < 0.0;
    }
  }

  /** The commission cushions gains and losses alike: with a commission
      between 0 and 100%, the follower's profit never exceeds the gross
      price change on the principal, in either direction. */
  lemma {:induction false} CommissionCushions(amount: real, commission: real, px: Prices)
    requires px.buy > 0.0 && amount >= 0.0 && 0.0 <= commission <= 100.0
    ensures var gross := (px.sell - px.buy) * (amount / px.buy);
            var p := UserProfit(amount, commission, px);
            (gross >= 0.0 ==> 0.0 <= p <= gross) && (gross <= 0.0 ==> gross <= p <= 0.0)
  {
    var gross := (px.sell - px.buy) * (amount / px.buy);
    var keep := 1.0 - commission / 100.0;
    assert 0.0 <= keep <= 1.0;
    assert UserProfit(amount, commission, px) == gross * keep;
    if gross >= 0.0 {
      assert gross * keep <= gross * 1.0;
    } else {
      assert gross * keep >= gross * 1.0;
    }
  }

  /** Splitting a principal between two follows at the same commission
      yields the same total profit as one follow of the sum. */
  lemma ProfitAdditive(a1: real, a2: real, commission: real, px: Prices)
    requires px.buy != 0.0
    ensures UserProfit(a1 + a2, commission, px)
         == UserProfit(a1, commission, px) + UserProfit(a2, commission, px)
  {
    assert (a1 + a2) / px.buy == a1 / px.buy + a2 / px.buy;
  }

  // ---------------------------------------------------------------------------
  // The batch: the rows the settlement query returns

  /** The settlement query's filter: bound to this stock and approved. */
  predicate Settleable(b: Binding, stockId: int)
  {
    b.stockId == Some(stockId) && b.status == StatusApproved
  }

  /** A binding as the query returns it: its id and its row. */
  datatype Detail = Detail(id: int, row: Binding)

  /** The query result for a stock: `order` lists, once each and in the
      order the server returns them, exactly the settleable bindings. */
  ghost predicate IsQueryResult(bs: map<int, Binding>, stockId: int, order: seq<int>)
  {
    && (forall i, j :: 0 <= i < j < |order| ==> order[i] != order[j])
    && (forall i :: 0 <= i < |order| ==> order[i] in bs && Settleable(bs[order[i]], stockId))
    && (forall k :: k in bs && Settleable(bs[k], stockId) ==> k in order)
  }

  function Details(bs: map<int, Binding>, order: seq<int>): (ds: seq<Detail>)
    requires forall i :: 0 <= i < |order| ==> order[i] in bs
    ensures |ds| == |order|
    ensures forall i :: 0 <= i < |ds| ==> ds[i] == Detail(order[i], bs[order[i]])
  {
    seq(|order|, i requires 0 <= i < |order| => Detail(order[i], bs[order[i]]))
  }

  function DetailProfit(d: Detail, px: Prices): real
    requires px.buy != 0.0
  {
    UserProfit(d.row.amount, d.row.mentorCommission, px)
  }

  /** The `detailUpdates` entry pushed for one binding. */
  datatype DetailUpdate = DetailUpdate(id: int, profit: real)

  /** `userUpdates[uid]`: the profit and the principal released for a user. */
  datatype Change = Change(profit: real, unfreeze: real)

  /** The two quantities summed per user. */
  datatype Part = ProfitPart | PrincipalPart

  function PartOf(d: Detail, part: Part, px: Prices): real
    requires px.buy != 0.0
  {
    match part
    case ProfitPart => DetailProfit(d, px)
    case PrincipalPart => d.row.amount
  }

  /** Sum of one part over the user's bindings in the batch. */
  function UserTotal(ds: seq<Detail>, u: int, part: Part, px: Prices): real
    requires px.buy != 0.0
  {
    if ds == [] then 0.0
    else
      var last := ds[|ds| - 1];
      UserTotal(ds[..|ds| - 1], u, part, px) + (if last.row.userId == u then PartOf(last, part, px) else 0.0)
  }

  /** Sum of one part over the whole batch. */
  function BatchTotal(ds: seq<Detail>, part: Part, px: Prices): real
    requires px.buy != 0.0
  {
    if ds == [] then 0.0 else BatchTotal(ds[..|ds| - 1], part, px) + PartOf(ds[|ds| - 1], part, px)
  }

  function UsersOf(ds: seq<Detail>): set<int>
  {
    set i | 0 <= i < |ds| :: ds[i].row.userId
  }

  /** What `userUpdates` must hold after the loop: one entry per user of
      the batch, with that user's summed profit and summed principal. */
  function Accumulated(ds: seq<Detail>, px: Prices): map<int, Change>
    requires px.buy != 0.0
  {
    map u | u in UsersOf(ds) :: Change(UserTotal(ds, u, ProfitPart, px), UserTotal(ds, u, PrincipalPart, px))
  }

  /** What `detailUpdates` must hold after the loop: one entry per binding,
      in query order, with that binding's own profit. */
  function DetailUpdates(ds: seq<Detail>, px: Prices): seq<DetailUpdate>
    requires px.buy != 0.0
  {
    seq(|ds|, i requires 0 <= i < |ds| => DetailUpdate(ds[i].id, DetailProfit(ds[i], px)))
  }

  lemma {:induction false} UserTotalOfStranger(ds: seq<Detail>, u: int, part: Part, px: Prices)
    requires px.buy != 0.0
    requires u !in UsersOf(ds)
    ensures UserTotal(ds, u, part, px) == 0.0
  {
    if ds != [] {
      assert UsersOf(ds[..|ds| - 1]) <= UsersOf(ds) by {
        forall x | x in UsersOf(ds[..|ds| - 1]) ensures x in UsersOf(ds) {
          var i :| 0 <= i < |ds| - 1 && ds[..|ds| - 1][i].row.userId == x;
          assert ds[i].row.userId == x;
        }
      }
      UserTotalOfStranger(ds[..|ds| - 1], u, part, px);
    }
  }

  /** One more binding changes only its own user's entry, by its own
      profit and principal. */
  lemma AccumulatedStep(ds: seq<Detail>, d: Detail, px: Prices)
    requires px.buy != 0.0
    ensures var before := Accumulated(ds, px);
            var prev := if d.row.userId in before then before[d.row.userId] else Change(0.0, 0.0);
            Accumulated(ds + [d], px)
              == before[d.row.userId := Change(prev.profit + DetailProfit(d, px), prev.unfreeze + d.row.amount)]
  {
    var ds' := ds + [d];
    assert ds'[..|ds'| - 1] == ds;
    assert UsersOf(ds') == UsersOf(ds) + {d.row.userId} by {
      forall x | x in UsersOf(ds') ensures x in UsersOf(ds) + {d.row.userId} {
        var i :| 0 <= i < |ds'| && ds'[i].row.userId == x;
        if i < |ds| { assert ds[i].row.userId == x; }
      }
      forall x | x in UsersOf(ds) ensures x in UsersOf(ds') {
        var i :| 0 <= i < |ds| && ds[i].row.userId == x;
        assert ds'[i].row.userId == x;
      }
      assert ds'[|ds|].row.userId == d.row.userId;
    }
    if d.row.userId !in UsersOf(ds) {
      UserTotalOfStranger(ds, d.row.userId, ProfitPart, px);
      UserTotalOfStranger(ds, d.row.userId, PrincipalPart, px);
    }
  }

  /** The loop of step 2: pushes one update per binding and accumulates
      profit and principal per user in a dictionary; `entries` lists the
      dictionary's keys once each. Here that is the order they were first
      added; JavaScript lists integer-like keys in ascending order instead,
      which the final table does not depend on (`RetryWritesCommute`). */
  method ComputeSettlement(ds: seq<Detail>, px: Prices)
    returns (detailUpdates: seq<DetailUpdate>, userUpdates: map<int, Change>, entries: seq<int>)
    requires px.buy != 0.0
    ensures detailUpdates == DetailUpdates(ds, px)
    ensures userUpdates == Accumulated(ds, px)
    ensures forall u :: u in entries <==> u in userUpdates
    ensures forall i, j :: 0 <= i < j < |entries| ==> entries[i] != entries[j]
  {
    detailUpdates := [];
    userUpdates := map[];
    entries := [];
    assert ds[..0] == [];
    for i := 0 to |ds|
      invariant detailUpdates == DetailUpdates(ds[..i], px)
      invariant userUpdates == Accumulated(ds[..i], px)
      invariant forall u :: u in entries <==> u in userUpdates
      invariant forall k, j :: 0 <= k < j < |entries| ==> entries[k] != entries[j]
    {
      var detail := ds[i];
      var userProfit := UserProfit(detail.row.amount, detail.row.mentorCommission, px);
      detailUpdates := detailUpdates + [DetailUpdate(detail.id, userProfit)];
      var uid := detail.row.userId;
      if uid !in userUpdates {
        userUpdates := userUpdates[uid := Change(0.0, 0.0)];
        entries := entries + [uid];
      }
      userUpdates := userUpdates[uid := Change(userUpdates[uid].profit + userProfit,
                                               userUpdates[uid].unfreeze + detail.row.amount)];
      assert ds[..i + 1] == ds[..i] + [detail];
      AccumulatedStep(ds[..i], detail, px);
    }
    assert ds[..|ds|] == ds;
  }

  // ---------------------------------------------------------------------------
  // Conservation: the per-user sums distribute exactly the batch's totals

  /** Sum over a list of users of their totals. */
  function SumOverUsers(us: seq<int>, ds: seq<Detail>, part: Part, px: Prices): real
    requires px.buy != 0.0
  {
    if us == [] then 0.0 else UserTotal(ds, us[0], part, px) + SumOverUsers(us[1..], ds, part, px)
  }

  lemma {:induction false} SumOverUsersSnoc(us: seq<int>, ds: seq<Detail>, d: Detail, part: Part, px: Prices)
    requires px.buy != 0.0
    requires forall i, j :: 0 <= i < j < |us| ==> us[i] != us[j]
    ensures SumOverUsers(us, ds + [d], part, px)
         == SumOverUsers(us, ds, part, px) + (if d.row.userId in us then PartOf(d, part, px) else 0.0)
  {
    var ds' := ds + [d];
    assert ds'[..|ds'| - 1] == ds;
    if us != [] {
      SumOverUsersSnoc(us[1..], ds, d, part, px);
      assert d.row.userId in us <==> d.row.userId == us[0] || d.row.userId in us[1..];
      assert us[0] !in us[1..];
    }
  }

  /** Summing every user's total over a duplicate-free list that names
      every user of the batch gives the batch total: settlement creates
      and loses no money between bindings and users. */
  lemma {:induction false} Conservation(us: seq<int>, ds: seq<Detail>, part: Part, px: Prices)
    requires px.buy != 0.0
    requires forall i, j :: 0 <= i < j < |us| ==> us[i] != us[j]
    requires UsersOf(ds) <= set u | u in us
    ensures SumOverUsers(us, ds, part, px) == BatchTotal(ds, part, px)
  {
    if ds == [] {
      SumOverUsersOfEmpty(us, part, px);
    } else {
      var init := ds[..|ds| - 1];
      var d := ds[|ds| - 1];
      assert ds == init + [d];
      assert UsersOf(init) <= UsersOf(ds) by {
        forall x | x in UsersOf(init) ensures x in UsersOf(ds) {
          var i :| 0 <= i < |init| && init[i].row.userId == x;
          assert ds[i].row.userId == x;
        }
      }
      Conservation(us, init, part, px);
      assert d.row.userId in UsersOf(ds);
      SumOverUsersSnoc(us, init, d, part, px);
    }
  }

  lemma {:induction false} SumOverUsersOfEmpty(us: seq<int>, part: Part, px: Prices)
    requires px.buy != 0.0
    ensures SumOverUsers(us, [], part, px) == 0.0
  {
    if us != [] { SumOverUsersOfEmpty(us[1..], part, px); }
  }

  /** The totals in `userUpdates` sum to the batch's profit and principal. */
  lemma AccumulatedConserves(us: seq<int>, ds: seq<Detail>, px: Prices)
    requires px.buy != 0.0
    requires forall i, j :: 0 <= i < j < |us| ==> us[i] != us[j]
    requires UsersOf(ds) <= set u | u in us
    ensures SumOverUsers(us, ds, ProfitPart, px) == BatchTotal(ds, ProfitPart, px)
    ensures SumOverUsers(us, ds, PrincipalPart, px) == BatchTotal(ds, PrincipalPart, px)
  {
    Conservation(us, ds, ProfitPart, px);
    Conservation(us, ds, PrincipalPart, px);
  }

  // ---------------------------------------------------------------------------
  // The rows written back

  /** A binding after settlement: settled, with its own profit recorded. */
  function SettledRow(b: Binding, px: Prices): Binding
    requires px.buy != 0.0
  {
    b.(status := StatusSettled, orderProfit := Some(UserProfit(b.amount, b.mentorCommission, px)))
  }

  /** The bindings table after a complete settlement of `stockId`. */
  function SettleBindings(bs: map<int, Binding>, stockId: int, px: Prices): (r: map<int, Binding>)
    requires px.buy != 0.0
    ensures r.Keys == bs.Keys
  {
    map k | k in bs :: if Settleable(bs[k], stockId) then SettledRow(bs[k], px) else bs[k]
  }

  /** Exactly the approved bindings of this stock become settled, each
      with its own profit; every other row is untouched; and a second run
      finds nothing left to settle, so it changes nothing. */
  lemma SettleBindingsSpec(bs: map<int, Binding>, stockId: int, px: Prices)
    requires px.buy != 0.0
    ensures forall k :: k in bs && Settleable(bs[k], stockId) ==>
      var r := SettleBindings(bs, stockId, px)[k];
      r.status == StatusSettled && r.stockId == Some(stockId)
      && r.orderProfit == Some(UserProfit(bs[k].amount, bs[k].mentorCommission, px))
    ensures forall k :: k in bs && !Settleable(bs[k], stockId) ==> SettleBindings(bs, stockId, px)[k] == bs[k]
    ensures forall k :: k in bs ==> !Settleable(SettleBindings(bs, stockId, px)[k], stockId)
    ensures SettleBindings(SettleBindings(bs, stockId, px), stockId, px) == SettleBindings(bs, stockId, px)
  {
  }

  /** The bindings table after the writes of step 3 were issued, one per
      update: a write whose row is in `failing` reports an error and changes
      nothing, as does a write to a row that no longer exists. */
  function WriteDetails(bs: map<int, Binding>, ups: seq<DetailUpdate>, failing: set<int>): (r: map<int, Binding>)
    ensures r.Keys == bs.Keys
  {
    if ups == [] then bs
    else
      var before := WriteDetails(bs, ups[..|ups| - 1], failing);
      var u := ups[|ups| - 1];
      if u.id in before && u.id !in failing
      then before[u.id := before[u.id].(status := StatusSettled, orderProfit := Some(u.profit))]
      else before
  }

  function UpdateIds(ups: seq<DetailUpdate>): set<int>
  {
    set i | 0 <= i < |ups| :: ups[i].id
  }

  /** With one update per row, each row named by a succeeding write is
      settled with that write's profit, and every other row is untouched. */
  lemma {:induction false} WriteDetailsEffect(bs: map<int, Binding>, ups: seq<DetailUpdate>, failing: set<int>)
    requires forall i, j :: 0 <= i < j < |ups| ==> ups[i].id != ups[j].id
    ensures forall i :: 0 <= i < |ups| && ups[i].id in bs && ups[i].id !in failing ==>
      WriteDetails(bs, ups, failing)[ups[i].id]
        == bs[ups[i].id].(status := StatusSettled, orderProfit := Some(ups[i].profit))
    ensures forall k :: k in bs && (k !in UpdateIds(ups) || k in failing) ==> WriteDetails(bs, ups, failing)[k] == bs[k]
  {
    if ups != [] {
      var init := ups[..|ups| - 1];
      var u := ups[|ups| - 1];
      WriteDetailsEffect(bs, init, failing);
      assert UpdateIds(ups) == UpdateIds(init) + {u.id} by {
        forall x | x in UpdateIds(ups) ensures x in UpdateIds(init) + {u.id} {
          var i :| 0 <= i < |ups| && ups[i].id == x;
          if i < |init| { assert init[i].id == x; }
        }
        forall x | x in UpdateIds(init) ensures x in UpdateIds(ups) {
          var i :| 0 <= i < |init| && init[i].id == x;
          assert ups[i].id == x;
        }
      }
      forall i | 0 <= i < |ups| && ups[i].id in bs && ups[i].id !in failing
        ensures WriteDetails(bs, ups, failing)[ups[i].id]
             == bs[ups[i].id].(status := StatusSettled, orderProfit := Some(ups[i].profit))
      {
        if i < |init| {
          assert init[i] == ups[i];
          assert ups[i].id != u.id;
        }
      }
    }
  }

  /** Failures on rows no update names do not matter. */
  lemma {:induction false} WriteDetailsAvoidingFailures(bs: map<int, Binding>, ups: seq<DetailUpdate>, failing: set<int>)
    requires forall i :: 0 <= i < |ups| ==> ups[i].id !in failing
    ensures WriteDetails(bs, ups, failing) == WriteDetails(bs, ups, {})
  {
    if ups != [] {
      WriteDetailsAvoidingFailures(bs, ups[..|ups| - 1], failing);
    }
  }

  /** Step 3 with no failing write leaves the bindings table exactly as a
      complete settlement of the stock: the updates are computed from the
      query result, which holds each settleable row once. */
  lemma CompleteDetailWritesSettle(bs: map<int, Binding>, stockId: int, order: seq<int>, px: Prices)
    requires px.buy != 0.0
    requires IsQueryResult(bs, stockId, order)
    ensures WriteDetails(bs, DetailUpdates(Details(bs, order), px), {}) == SettleBindings(bs, stockId, px)
  {
    var ds := Details(bs, order);
    var ups := DetailUpdates(ds, px);
    WriteDetailsEffect(bs, ups, {});
    var r := WriteDetails(bs, ups, {});
    var want := SettleBindings(bs, stockId, px);
    forall k | k in bs ensures r[k] == want[k] {
      if Settleable(bs[k], stockId) {
        var i :| 0 <= i < |order| && order[i] == k;
        assert ups[i].id == k;
      }
    }
    assert r == want;
  }

  // ---------------------------------------------------------------------------
  // The balance write of step 4

  /** The user write as the source issues it: new values computed from the
      values read with the batch, filtered on those same old values. When
      another client changed the row in between, the filter matches no row:
      the database reports no error and the row keeps its current values. */
  function CasWrite(current: User, read: User, ch: Change): (r: User)
  {
    if current.balance == read.balance && current.available == read.available
    then current.(balance := read.balance + ch.profit, available := read.available + ch.unfreeze + ch.profit)
    else current
  }

  /** A concrete case: a concurrent change of 50 to the available balance
      between the read and the write makes the write match no row, so the
      1000 of released principal and the 10 of profit never arrive. */
  lemma CasWriteDropsChangeOnConflict()
    ensures var read := User("9876543210", "", 100.0, 0.0, "", "ABC1234", None);
            var current := read.(available := 50.0);
            var ch := Change(10.0, 1000.0);
            CasWrite(current, read, ch) == current
            && CasWrite(current, read, ch).available != current.available + ch.unfreeze + ch.profit
  {
  }

  /** The write as intended: on a conflict the read-modify-write is
      retried on the fresh row, so the change lands on whatever values the
      row holds when the write finally succeeds. */
  function RetryWrite(current: User, ch: Change): (r: User)
    ensures r.balance - current.balance == ch.profit
    ensures r.available - current.available == ch.unfreeze + ch.profit
    ensures r.(balance := current.balance, available := current.available) == current
  {
    current.(balance := current.balance + ch.profit, available := current.available + ch.unfreeze + ch.profit)
  }

  /** The users table after the writes of step 4 as the source issues
      them: a user whose joined row is missing throws before writing, a
      write in `failing` reports an error, and every other write is the
      compare-and-set against the joined row. */
  function WriteUsersAsIssued(users: map<int, User>, joined: map<int, User>, ups: map<int, Change>, failing: set<int>): (r: map<int, User>)
    ensures r.Keys == users.Keys
    ensures forall u :: u in users && (u !in ups || u !in joined || u in failing) ==> r[u] == users[u]
    ensures forall u ::
      (u in users && u in ups && u in joined && u !in failing
       && (joined[u].balance != users[u].balance || joined[u].available != users[u].available))
      ==> r[u] == users[u]
    ensures forall u ::
      (u in users && u in ups && u in joined && u !in failing
       && joined[u].balance == users[u].balance && joined[u].available == users[u].available)
      ==>
      && r[u].balance == users[u].balance + ups[u].profit
      && r[u].available == users[u].available + ups[u].unfreeze + ups[u].profit
      && r[u].(balance := users[u].balance, available := users[u].available) == users[u]
  {
    map u | u in users :: if u in ups && u in joined && u !in failing then CasWrite(users[u], joined[u], ups[u]) else users[u]
  }

  /** The users table after step 4 with retried writes: a missing joined
      row and a failing write still write nothing, and every other user of
      the batch receives exactly its change, whatever happened to the row
      since it was read. */
  function WriteUsersRetrying(users: map<int, User>, joined: map<int, User>, ups: map<int, Change>, failing: set<int>): (r: map<int, User>)
    ensures r.Keys == users.Keys
    ensures forall u :: u in users && (u !in ups || u !in joined || u in failing) ==> r[u] == users[u]
    ensures forall u :: u in users && u in ups && u in joined && u !in failing ==>
      && r[u].balance == users[u].balance + ups[u].profit
      && r[u].available == users[u].available + ups[u].unfreeze + ups[u].profit
  {
    map u | u in users :: if u in ups && u in joined && u !in failing then RetryWrite(users[u], ups[u]) else users[u]
  }

  /** When every joined row still holds the current balances, the source's
      writes and the retrying writes leave the same table. */
  lemma AsIssuedAgreesWithoutConflict(users: map<int, User>, joined: map<int, User>, ups: map<int, Change>, failing: set<int>)
    requires forall u :: u in ups && u in joined && u in users ==>
      joined[u].balance == users[u].balance && joined[u].available == users[u].available
    ensures WriteUsersAsIssued(users, joined, ups, failing) == WriteUsersRetrying(users, joined, ups, failing)
  {
    forall u | u in users && u in ups && u in joined && u !in failing
      ensures CasWrite(users[u], joined[u], ups[u]) == RetryWrite(users[u], ups[u])
    {
      RetryAgreesWithoutConflict(users[u], ups[u]);
    }
  }

  /** Without a concurrent change the retrying write is the source's write. */
  lemma RetryAgreesWithoutConflict(u: User, ch: Change)
    ensures CasWrite(u, u, ch) == RetryWrite(u, ch)
  {
  }

  /** Two settlements touching the same user give the same final row in
      either order: the balance deltas commute. */
  lemma RetryWritesCommute(u: User, c1: Change, c2: Change)
    ensures RetryWrite(RetryWrite(u, c1), c2) == RetryWrite(RetryWrite(u, c2), c1)
  {
  }
}
