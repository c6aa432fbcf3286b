/** The back-office recharge list (Backend/RechargeManagement.jsx): the
    defaults shown for missing joined fields, the shortened transaction
    hash, the actions offered per row, and the approve and reject handlers.
    The list's paging is the shared ten-row paging of module Paging. */
module RechargeManagement {
  import opened Common
  import opened LedgerModel

  /** `value || fallback` on a possibly missing string: a missing or empty
      value shows the fallback. */
  function OrElse(value: Option<string>, fallback: string): (r: string)
    ensures value.Some? && value.value != "" ==> r == value.value
    ensures value.None? || value.value == "" ==> r == fallback
  {
    if value.Some? && value.value != "" then value.value else fallback
  }

  const UnknownPhone := "未知"
  const UnknownChannel := "未知通道"
  const NoTxId := "无"

  /** The fields of a listed recharge after formatting. */
  datatype RechargeView = RechargeView(phone: string, currency: string, txId: string)

  function FormatRow(phone: Option<string>, currency: Option<string>, txId: Option<string>): (v: RechargeView)
    ensures v.phone == OrElse(phone, UnknownPhone)
    ensures v.currency == OrElse(currency, UnknownChannel)
    ensures v.txId == OrElse(txId, NoTxId)
    ensures v.phone != "" && v.currency != "" && v.txId != ""
  {
    RechargeView(OrElse(phone, UnknownPhone), OrElse(currency, UnknownChannel), OrElse(txId, NoTxId))
  }

  /** The transaction hash as shown: a hash longer than 12 characters is cut
      to its first six and last six characters around "..."; a shorter one
      is shown whole. */
  function TxDisplay(txId: string): (r: string)
    ensures |txId| <= 12 ==> r == txId
    ensures |txId| > 12 ==> |r| == 15 && r[..6] == txId[..6] && r[6..9] == "..." && r[9..] == txId[|txId| - 6..]
    ensures |r| <= 15 && |r| <= |txId| + 3
  {
    if |txId| > 12 then txId[..6] + "..." + txId[|txId| - 6..] else txId
  }

  /** Approve and reject appear only for a pending recharge. */
  function ActionsOffered(status: string): (offered: bool)
    ensures offered <==> status == StatusPending
  {
    status == StatusPending
  }

  /** The recharges table after `update({status}).eq("id", id)`. */
  function SetRechargeStatus(rows: map<int, Recharge>, id: int, status: string): (r: map<int, Recharge>)
    ensures r.Keys == rows.Keys
    ensures id in rows ==> r[id] == rows[id].(status := status)
    ensures forall k :: k in rows && k != id ==> r[k] == rows[k]
  {
    if id in rows then rows[id := rows[id].(status := status)] else rows
  }

  /** The users table after the `increment_balance` call: the user's balance
      grows by the amount (a missing user is left alone). */
  function IncrementBalance(users: map<int, User>, userId: int, amount: real): (r: map<int, User>)
    ensures r.Keys == users.Keys
    ensures userId in users ==> r[userId] == users[userId].(balance := users[userId].balance + amount)
    ensures forall k :: k in users && k != userId ==> r[k] == users[k]
  {
    if userId in users then users[userId := users[userId].(balance := users[userId].balance + amount)] else users
  }

  datatype ApproveOutcome = InvalidAmount | StatusWriteFailed | BalanceCallFailed | Approved

  /** handleApprove: an amount that is NaN or not positive fails before any
      write; otherwise the recharge is approved first and the user's balance
      incremented second, so a failing increment leaves an approved
      recharge whose amount was not credited. */
  method HandleApprove(db: Ledger, id: int, userId: int, amount: JsNumber, statusFails: bool, callFails: bool)
    returns (outcome: ApproveOutcome)
    modifies db
    ensures db.bindings == old(db.bindings) && db.stocks == old(db.stocks) && db.copytrades == old(db.copytrades)
    ensures db.withdraws == old(db.withdraws) && db.nextId == old(db.nextId)
    ensures
      if amount.NaN? || amount.value <= 0.0 then
        outcome == InvalidAmount && unchanged(db)
      else if statusFails then
        outcome == StatusWriteFailed && unchanged(db)
      else
        && db.recharges == SetRechargeStatus(old(db.recharges), id, StatusApproved)
        && (callFails ==> outcome == BalanceCallFailed && db.users == old(db.users))
        && (!callFails ==> outcome == Approved && db.users == IncrementBalance(old(db.users), userId, amount.value))
  {
    if amount.NaN? || amount.value <= 0.0 {
      return InvalidAmount;
    }
    var parsedAmount := amount.value;
    if statusFails {
      return StatusWriteFailed;
    }
    db.recharges := SetRechargeStatus(db.recharges, id, StatusApproved);
    if callFails {
      return BalanceCallFailed;
    }
    db.users := IncrementBalance(db.users, userId, parsedAmount);
    outcome := Approved;
  }

  /** handleReject: only the status changes; no balance is touched. */
  method HandleReject(db: Ledger, id: int, writeFails: bool) returns (ok: bool)
    modifies db
    ensures db.users == old(db.users) && db.bindings == old(db.bindings) && db.stocks == old(db.stocks)
    ensures db.copytrades == old(db.copytrades) && db.withdraws == old(db.withdraws) && db.nextId == old(db.nextId)
    ensures ok <==> !writeFails
    ensures db.recharges == if writeFails then old(db.recharges) else SetRechargeStatus(old(db.recharges), id, StatusRejected)
  {
    if writeFails {
      return false;
    }
    db.recharges := SetRechargeStatus(db.recharges, id, StatusRejected);
    ok := true;
  }
}
