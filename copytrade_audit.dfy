/** The back-office follow-request audit (Backend/CopyTradeAudit.jsx): the
    status shown for a request, the actions offered for it, and the approve
    and reject handlers. Approval reserves the follower's principal by
    deducting it from the available balance before the request's status is
    written. The link between a request and its bindings is kept by the
    database and not modelled: the two tables are independent here. */
module CopyTradeAudit {
  import opened Common
  import opened LedgerModel

  /** `copytrade_details?.[0]?.status || item.status`: the first linked
      binding's status when there is one and it is not empty, otherwise the
      request's own status. */
  function DisplayStatus(detailStatuses: seq<string>, own: string): (r: string)
    ensures detailStatuses != [] && detailStatuses[0] != "" ==> r == detailStatuses[0]
    ensures detailStatuses == [] || detailStatuses[0] == "" ==> r == own
  {
    if detailStatuses != [] && detailStatuses[0] != "" then detailStatuses[0] else own
  }

  /** Approve and reject are offered exactly for a pending displayed status. */
  function ActionsOffered(displayStatus: string): (offered: bool)
    ensures offered <==> displayStatus == StatusPending
  {
    displayStatus == StatusPending
  }

  /** A request whose first binding has moved on shows that binding's
      status, so it offers no action even when the request itself is still
      pending. */
  lemma SettledBindingHidesActions(detailStatuses: seq<string>, own: string)
    requires detailStatuses != [] && detailStatuses[0] != "" && detailStatuses[0] != StatusPending
    ensures !ActionsOffered(DisplayStatus(detailStatuses, own))
  {
  }

  /** The available balance after approving `amount` for a follower holding
      `available`: none when the amount is NaN or not positive, or exceeds
      what is available; otherwise the amount is deducted, which leaves a
      non-negative balance. */
  function AvailableAfterApproval(available: real, amount: JsNumber): (r: Option<real>)
    ensures r.None? <==> amount.NaN? || amount.value <= 0.0 || available < amount.value
    ensures r.Some? ==> r.value >= 0.0 && r.value + amount.value == available && r.value < available
  {
    if amount.NaN? || amount.value <= 0.0 then None
    else if available < amount.value then None
    else Some(available - amount.value)
  }

  /** Approving an amount equal to the whole available balance is allowed
      and leaves exactly zero. */
  lemma ExactBalanceApproves(available: real)
    requires available > 0.0
    ensures AvailableAfterApproval(available, Num(available)) == Some(0.0)
  {
  }

  datatype ApproveFaults = ApproveFaults(userRead: bool, balanceWrite: bool, statusWrite: bool)

  datatype ApproveOutcome =
    | InvalidAmount
    | UserReadFailed
    | InsufficientBalance
    | BalanceWriteFailed
    | StatusWriteFailed
    | Approved

  /** handleApprove on the request `id` as listed (`row`): the amount is
      checked, the follower's row read (a missing row is a read error), the
      balance checked and deducted, and only then the request approved. A
      failing status write leaves the deduction in place. */
  method HandleApprove(db: Ledger, id: int, row: CopyTrade, faults: ApproveFaults)
    returns (outcome: ApproveOutcome)
    modifies db
    ensures db.bindings == old(db.bindings) && db.stocks == old(db.stocks)
    ensures db.recharges == old(db.recharges) && db.withdraws == old(db.withdraws) && db.nextId == old(db.nextId)
    ensures
      if row.amount.NaN? || row.amount.value <= 0.0 then
        outcome == InvalidAmount && unchanged(db)
      else if faults.userRead || row.userId !in old(db.users) then
        outcome == UserReadFailed && unchanged(db)
      else
        var user := old(db.users)[row.userId];
        match AvailableAfterApproval(user.available, row.amount)
        case None =>
          outcome == InsufficientBalance && unchanged(db)
        case Some(left) =>
          if faults.balanceWrite then
            outcome == BalanceWriteFailed && unchanged(db)
          else
            && db.users == old(db.users)[row.userId := user.(available := left)]
            && (faults.statusWrite ==> outcome == StatusWriteFailed && db.copytrades == old(db.copytrades))
            && (!faults.statusWrite ==>
                  outcome == Approved && db.copytrades == SetRequestStatus(old(db.copytrades), id, StatusApproved))
    ensures db.copytrades != old(db.copytrades) ==> outcome == Approved && db.users != old(db.users)
  {
    var parsedAmount := row.amount;
    if parsedAmount.NaN? || parsedAmount.value <= 0.0 {
      return InvalidAmount;
    }
    if faults.userRead || row.userId !in db.users {
      return UserReadFailed;
    }
    var user := db.users[row.userId];
    if user.available < parsedAmount.value {
      return InsufficientBalance;
    }
    var newBalance := user.available - parsedAmount.value;
    if faults.balanceWrite {
      return BalanceWriteFailed;
    }
    db.users := db.users[row.userId := user.(available := newBalance)];
    if faults.statusWrite {
      return StatusWriteFailed;
    }
    db.copytrades := SetRequestStatus(db.copytrades, id, StatusApproved);
    outcome := Approved;
  }

  /** The copytrades table after `update({status}).eq("id", id)`. */
  function SetRequestStatus(rows: map<int, CopyTrade>, id: int, status: string): (r: map<int, CopyTrade>)
    ensures r.Keys == rows.Keys
    ensures id in rows ==> r[id] == rows[id].(status := status)
    ensures forall k :: k in rows && k != id ==> r[k] == rows[k]
  {
    if id in rows then rows[id := rows[id].(status := status)] else rows
  }

  /** handleReject: the request becomes rejected; no balance is touched. */
  method HandleReject(db: Ledger, id: int, writeFails: bool) returns (ok: bool)
    modifies db
    ensures db.users == old(db.users) && db.bindings == old(db.bindings) && db.stocks == old(db.stocks)
    ensures db.recharges == old(db.recharges) && db.withdraws == old(db.withdraws) && db.nextId == old(db.nextId)
    ensures ok <==> !writeFails
    ensures db.copytrades == if writeFails then old(db.copytrades) else SetRequestStatus(old(db.copytrades), id, StatusRejected)
  {
    if writeFails {
      return false;
    }
    db.copytrades := SetRequestStatus(db.copytrades, id, StatusRejected);
    ok := true;
  }
}
