/** The back-office stock screen (Backend/StockManagement.jsx): adding a
    mentor's position, publishing it (binding the mentor's approved, unbound
    follows to it) and settling it (crediting every bound follower). A stock
    moves pending → published → settled. Database reads the handlers make
    are inputs; each write either succeeds or reports an error, as a fault
    parameter says. */
module StockManagement {
  import opened Common
  import opened LedgerModel
  import opened Settlement

  /** The stocks table after `update({status}).eq("id", id)`: a missing row
      matches nothing and nothing changes. */
  function SetStockStatus(stocks: map<int, Stock>, id: int, status: string): (r: map<int, Stock>)
    ensures r.Keys == stocks.Keys
    ensures id in stocks ==> r[id].status == status && r[id].(status := stocks[id].status) == stocks[id]
    ensures forall k :: k in stocks && k != id ==> r[k] == stocks[k]
  {
    if id in stocks then stocks[id := stocks[id].(status := status)] else stocks
  }

  /** The buttons a stock row offers: publish only while pending, settle
      only while published. */
  datatype StockActions = StockActions(publish: bool, settle: bool)

  function ActionsFor(status: string): (a: StockActions)
    ensures a.publish <==> status == StatusPending
    ensures a.settle <==> status == StatusPublished
    ensures !(a.publish && a.settle)
  {
    StockActions(status == StatusPending, status == StatusPublished)
  }

  // ---------------------------------------------------------------------------
  // Adding a stock

  /** The add form's raw field values. */
  datatype StockForm = StockForm(mentorId: string, cryptoName: string, buyPrice: string, sellPrice: string)

  const EmptyStockForm := StockForm("", "", "", "")

  /** The row inserted for a filled form, given what parseInt and
      parseFloat make of its fields: none when any raw field is empty;
      otherwise a pending stock with the trimmed coin name. */
  function NewStockRow(id: int, form: StockForm, mentorId: int, buy: real, sell: real): (r: Option<Stock>)
    ensures r.None? <==> form.mentorId == [] || form.cryptoName == [] || form.buyPrice == [] || form.sellPrice == []
    ensures r.Some? ==> r.value == Stock(id, mentorId, Trim(form.cryptoName), buy, sell, StatusPending)
  {
    if form.mentorId == [] || form.cryptoName == [] || form.buyPrice == [] || form.sellPrice == [] then None
    else Some(Stock(id, mentorId, Trim(form.cryptoName), buy, sell, StatusPending))
  }

  datatype AddOutcome = MissingField | InsertFailed | Added(id: int)

  /** The add form and its visibility, which a successful insert resets. */
  class AddStockPage {
    var form: StockForm
    var isAdding: bool

    constructor ()
      ensures form == EmptyStockForm && !isAdding
    {
      form := EmptyStockForm;
      isAdding := false;
    }

    /** handleAddStock: a form with an empty field is refused; otherwise one
        pending stock is inserted and, on success, the form is cleared and
        closed. `mentorId`, `buy` and `sell` are the parsed field values. */
    method HandleAddStock(db: Ledger, mentorId: int, buy: real, sell: real, insertFails: bool)
      returns (outcome: AddOutcome)
      requires db.Valid()
      modifies this, db
      ensures db.Valid()
      ensures var row := NewStockRow(old(db.nextId), old(form), mentorId, buy, sell);
        if row.None? then
          outcome == MissingField && unchanged(this, db)
        else if insertFails then
          outcome == InsertFailed && unchanged(this, db)
        else
          && outcome == Added(old(db.nextId))
          && db.stocks == old(db.stocks)[old(db.nextId) := row.value]
          && db.nextId == old(db.nextId) + 1
          && db.users == old(db.users) && db.bindings == old(db.bindings)
          && db.copytrades == old(db.copytrades) && db.recharges == old(db.recharges)
          && db.withdraws == old(db.withdraws)
          && form == EmptyStockForm && !isAdding
    {
      var row := NewStockRow(db.nextId, form, mentorId, buy, sell);
      if row.None? {
        return MissingField;
      }
      if insertFails {
        return InsertFailed;
      }
      outcome := Added(db.nextId);
      db.stocks := db.stocks[db.nextId := row.value];
      db.nextId := db.nextId + 1;
      form := EmptyStockForm;
      isAdding := false;
    }
  }

  // ---------------------------------------------------------------------------
  // Publishing

  /** A follow the publish query picks up: the mentor's, approved, and not
      yet bound to a stock. */
  predicate Claimable(b: Binding, mentorId: int)
  {
    b.mentorId == mentorId && b.status == StatusApproved && b.stockId.None?
  }

  function ClaimableIds(bs: map<int, Binding>, mentorId: int): set<int>
  {
    set k | k in bs && Claimable(bs[k], mentorId)
  }

  /** The bindings table after `update({stock_id}).in("id", ids)` on the
      claimable rows. */
  function Claim(bs: map<int, Binding>, mentorId: int, stockId: int): (r: map<int, Binding>)
    ensures r.Keys == bs.Keys
  {
    map k | k in bs :: if Claimable(bs[k], mentorId) then bs[k].(stockId := Some(stockId)) else bs[k]
  }

  /** Claiming binds exactly the claimable rows to the stock and changes
      nothing else about them; every other row is untouched; afterwards the
      mentor has no claimable row left, so the bound rows are exactly those
      the stock's settlement will pick up besides the ones already bound. */
  lemma ClaimSpec(bs: map<int, Binding>, mentorId: int, stockId: int)
    ensures forall k :: k in bs && Claimable(bs[k], mentorId) ==>
      Claim(bs, mentorId, stockId)[k] == bs[k].(stockId := Some(stockId))
    ensures forall k :: k in bs && !Claimable(bs[k], mentorId) ==> Claim(bs, mentorId, stockId)[k] == bs[k]
    ensures ClaimableIds(Claim(bs, mentorId, stockId), mentorId) == {}
    ensures forall k :: k in bs ==>
      (Settleable(Claim(bs, mentorId, stockId)[k], stockId) <==> Claimable(bs[k], mentorId) || Settleable(bs[k], stockId))
  {
    var r := Claim(bs, mentorId, stockId);
    forall k | k in r ensures !Claimable(r[k], mentorId) {
    }
  }

  /** Claiming twice is claiming once. */
  lemma ClaimIdempotent(bs: map<int, Binding>, mentorId: int, stockId: int)
    ensures Claim(Claim(bs, mentorId, stockId), mentorId, stockId) == Claim(bs, mentorId, stockId)
  {
  }

  datatype PublishOutcome = UnknownStock | PublishQueryFailed | BindFailed | PublishFailed | Published(bound: nat)

  /** handlePublish: the stock is looked up in the list on screen; its
      mentor's claimable follows are bound to it when there are any; then the
      stock becomes published whatever its status and however many were
      bound. A failing status write leaves the follows bound. */
  method HandlePublish(db: Ledger, id: int, shown: seq<Stock>, queryFails: bool, bindFails: bool, publishFails: bool)
    returns (outcome: PublishOutcome)
    modifies db
    ensures db.users == old(db.users) && db.copytrades == old(db.copytrades)
    ensures db.recharges == old(db.recharges) && db.withdraws == old(db.withdraws)
    ensures db.nextId == old(db.nextId)
    ensures FindStock(shown, id).None? ==> outcome == UnknownStock && unchanged(db)
    ensures FindStock(shown, id).Some? ==>
      var mentorId := shown[FindStock(shown, id).value].mentorId;
      var claimed := ClaimableIds(old(db.bindings), mentorId);
      if queryFails then
        outcome == PublishQueryFailed && unchanged(db)
      else if claimed != {} && bindFails then
        outcome == BindFailed && unchanged(db)
      else
        && db.bindings == Claim(old(db.bindings), mentorId, id)
        && (publishFails ==> outcome == PublishFailed && db.stocks == old(db.stocks))
        && (!publishFails ==>
              outcome == Published(|claimed|)
              && db.stocks == SetStockStatus(old(db.stocks), id, StatusPublished))
  {
    var found := FindStock(shown, id);
    if found.None? {
      return UnknownStock;
    }
    var stock := shown[found.value];
    if queryFails {
      return PublishQueryFailed;
    }
    var approvedDetails := ClaimableIds(db.bindings, stock.mentorId);
    var bound := |approvedDetails|;
    if approvedDetails != {} {
      if bindFails {
        return BindFailed;
      }
      db.bindings := Claim(db.bindings, stock.mentorId, id);
    } else {
      forall k | k in db.bindings ensures !Claimable(db.bindings[k], stock.mentorId) {
        assert k !in approvedDetails;
      }
      assert Claim(db.bindings, stock.mentorId, id) == db.bindings;
    }
    if publishFails {
      return PublishFailed;
    }
    db.stocks := SetStockStatus(db.stocks, id, StatusPublished);
    outcome := Published(bound);
  }

  /** `stocks.find(s => s.id === id)`: the first row with that id. */
  function FindStock(shown: seq<Stock>, id: int): (r: Option<nat>)
    ensures r.Some? ==> r.value < |shown| && shown[r.value].id == id
    ensures r.Some? ==> forall j :: 0 <= j < r.value ==> shown[j].id != id
    ensures r.None? <==> forall i :: 0 <= i < |shown| ==> shown[i].id != id
  {
    if shown == [] then None
    else if shown[0].id == id then Some(0)
    else match FindStock(shown[1..], id)
      case None => None
      case Some(k) => Some(k + 1)
  }

  // ---------------------------------------------------------------------------
  // Settling

  /** Which of the settlement's writes report an error: the query, the
      binding rows (by id), the user rows (by id), the stock row. */
  datatype SettleFaults = SettleFaults(query: bool, bindings: set<int>, users: set<int>, stock: bool)

  /** The figures of the success message. */
  datatype Summary = Summary(followers: nat, released: real, userProfit: real, total: real)

  datatype SettleOutcome =
    | NotPublished
    | Declined
    | SettleQueryFailed
    | NothingToSettle
    | UndefinedProfit
    | DetailWriteFailed
    | UserWriteFailed(users: set<int>)
    | StockWriteFailed
    | Settled(summary: Summary)

  /** Step 3: one write per update; every write is issued, and the step
      fails when any of them reported an error. */
  method IssueDetailWrites(db: Ledger, ups: seq<DetailUpdate>, failing: set<int>) returns (anyFailed: bool)
    modifies db
    ensures db.bindings == WriteDetails(old(db.bindings), ups, failing)
    ensures anyFailed <==> exists i :: 0 <= i < |ups| && ups[i].id in failing
    ensures db.users == old(db.users) && db.stocks == old(db.stocks) && db.copytrades == old(db.copytrades)
    ensures db.recharges == old(db.recharges) && db.withdraws == old(db.withdraws) && db.nextId == old(db.nextId)
  {
    anyFailed := false;
    for i := 0 to |ups|
      invariant db.bindings == WriteDetails(old(db.bindings), ups[..i], failing)
      invariant anyFailed <==> exists j :: 0 <= j < i && ups[j].id in failing
      invariant db.users == old(db.users) && db.stocks == old(db.stocks) && db.copytrades == old(db.copytrades)
      invariant db.recharges == old(db.recharges) && db.withdraws == old(db.withdraws) && db.nextId == old(db.nextId)
    {
      var update := ups[i];
      assert ups[..i + 1][..i] == ups[..i];
      if update.id in failing {
        anyFailed := true;
      } else if update.id in db.bindings {
        db.bindings := db.bindings[update.id := db.bindings[update.id].(status := StatusSettled, orderProfit := Some(update.profit))];
      }
    }
    assert ups[..|ups|] == ups;
  }

  /** Step 4: one balance write per user of the batch; every write is
      issued, and the step fails with the set of users whose joined row was
      missing or whose write reported an error. Each write adds the user's
      change to the row's current values, retrying when the row changed
      since it was read: the source's compare-and-set would instead match
      no row and drop the change (Settlement.CasWrite). */
  method IssueUserWrites(db: Ledger, joined: map<int, User>, ups: map<int, Change>, entries: seq<int>, failing: set<int>)
    returns (failed: set<int>)
    requires forall u :: u in entries <==> u in ups
    requires forall i, j :: 0 <= i < j < |entries| ==> entries[i] != entries[j]
    modifies db
    ensures db.users == WriteUsersRetrying(old(db.users), joined, ups, failing)
    ensures failed == set u | u in ups && (u !in joined || u in failing)
    ensures db.bindings == old(db.bindings) && db.stocks == old(db.stocks) && db.copytrades == old(db.copytrades)
    ensures db.recharges == old(db.recharges) && db.withdraws == old(db.withdraws) && db.nextId == old(db.nextId)
  {
    failed := {};
    for i := 0 to |entries|
      invariant db.users.Keys == old(db.users).Keys
      invariant forall u :: u in db.users ==>
        db.users[u] == if u in entries[..i] && u in joined && u !in failing then RetryWrite(old(db.users)[u], ups[u]) else old(db.users)[u]
      invariant failed == set u | u in entries[..i] && (u !in joined || u in failing)
      invariant db.bindings == old(db.bindings) && db.stocks == old(db.stocks) && db.copytrades == old(db.copytrades)
      invariant db.recharges == old(db.recharges) && db.withdraws == old(db.withdraws) && db.nextId == old(db.nextId)
    {
      var uid := entries[i];
      assert entries[..i + 1] == entries[..i] + [uid];
      assert uid !in entries[..i];
      if uid !in joined || uid in failing {
        failed := failed + {uid};
      } else if uid in db.users {
        db.users := db.users[uid := RetryWrite(db.users[uid], ups[uid])];
      }
    }
    assert entries[..|entries|] == entries;
    var want := WriteUsersRetrying(old(db.users), joined, ups, failing);
    forall u | u in db.users ensures db.users[u] == want[u] {
      assert u in entries <==> u in ups;
    }
    assert db.users == want;
    forall u ensures u in failed <==> u in ups && (u !in joined || u in failing) {
      assert u in entries <==> u in ups;
    }
  }

  /** handleSettle: only a published stock is settled, and only once the
      operator confirmed (twice when the sale price does not exceed the buy
      price). The approved bindings of the stock are fetched with their
      users' rows (`order` lists them as the server returns them, `joined`
      holds the joined user rows); an empty batch ends the handler with the
      stock still published. Otherwise every binding is settled with its
      profit, every user's balances receive the user's change (retried on a
      concurrent change, see IssueUserWrites), and the stock becomes settled
      only when all of those writes succeeded. */
  method HandleSettle(db: Ledger, stock: Stock, confirmLoss: bool, confirmSettle: bool,
                      order: seq<int>, joined: map<int, User>, faults: SettleFaults)
    returns (outcome: SettleOutcome)
    requires IsQueryResult(db.bindings, stock.id, order)
    modifies db
    ensures db.copytrades == old(db.copytrades) && db.recharges == old(db.recharges)
    ensures db.withdraws == old(db.withdraws) && db.nextId == old(db.nextId)
    ensures db.stocks != old(db.stocks) ==> outcome.Settled?
    ensures
      var px := Prices(stock.buyPrice, stock.sellPrice);
      if stock.status != StatusPublished then
        outcome == NotPublished && unchanged(db)
      else if (stock.sellPrice <= stock.buyPrice && !confirmLoss) || !confirmSettle then
        outcome == Declined && unchanged(db)
      else if faults.query then
        outcome == SettleQueryFailed && unchanged(db)
      else if order == [] then
        outcome == NothingToSettle && unchanged(db)
      else if px.buy == 0.0 then
        outcome == UndefinedProfit && unchanged(db)
      else
        var ds := Details(old(db.bindings), order);
        var ups := DetailUpdates(ds, px);
        var perUser := Accumulated(ds, px);
        && db.bindings == WriteDetails(old(db.bindings), ups, faults.bindings)
        && (if exists i :: 0 <= i < |ups| && ups[i].id in faults.bindings then
              outcome == DetailWriteFailed && db.users == old(db.users) && db.stocks == old(db.stocks)
            else
              && db.bindings == SettleBindings(old(db.bindings), stock.id, px)
              && db.users == WriteUsersRetrying(old(db.users), joined, perUser, faults.users)
              && var failedUsers := set u | u in perUser && (u !in joined || u in faults.users);
                 if failedUsers != {} then
                   outcome == UserWriteFailed(failedUsers) && db.stocks == old(db.stocks)
                 else if faults.stock then
                   outcome == StockWriteFailed && db.stocks == old(db.stocks)
                 else
                   var released := BatchTotal(ds, PrincipalPart, px);
                   var profit := BatchTotal(ds, ProfitPart, px);
                   && outcome == Settled(Summary(|order|, released, profit, released + profit))
                   && db.stocks == SetStockStatus(old(db.stocks), stock.id, StatusSettled))
  {
    if stock.status != StatusPublished {
      return NotPublished;
    }
    var px := Prices(stock.buyPrice, stock.sellPrice);
    if px.sell <= px.buy && !confirmLoss {
      return Declined;
    }
    if !confirmSettle {
      return Declined;
    }
    if faults.query {
      return SettleQueryFailed;
    }
    if order == [] {
      return NothingToSettle;
    }
    if px.buy == 0.0 {
      return UndefinedProfit;
    }
    var details := Details(db.bindings, order);
    ghost var bindings0 := db.bindings;
    var detailUpdates, userUpdates, entries := ComputeSettlement(details, px);
    var detailFailed := IssueDetailWrites(db, detailUpdates, faults.bindings);
    if detailFailed {
      return DetailWriteFailed;
    }
    assert forall i :: 0 <= i < |detailUpdates| ==> detailUpdates[i].id !in faults.bindings;
    WriteDetailsAvoidingFailures(bindings0, detailUpdates, faults.bindings);
    CompleteDetailWritesSettle(bindings0, stock.id, order, px);
    var failedUsers := IssueUserWrites(db, joined, userUpdates, entries, faults.users);
    if failedUsers != {} {
      return UserWriteFailed(failedUsers);
    }
    if faults.stock {
      return StockWriteFailed;
    }
    db.stocks := SetStockStatus(db.stocks, stock.id, StatusSettled);
    var released := BatchTotal(details, PrincipalPart, px);
    var profit := BatchTotal(details, ProfitPart, px);
    outcome := Settled(Summary(|details|, released, profit, released + profit));
  }
}
