/** The withdraw screen (components/Withdraw.jsx): the TRC-20 address shape,
    the ordered checks in front of a withdraw request, the inserted request,
    and saving the receiving address. */
module Withdraw {
  import opened Common
  import opened LedgerModel

  /** A TRC-20 address as the screen accepts it: starts with "T" and is
      exactly 34 characters long. */
  predicate IsTrc20(address: string)
  {
    StartsWith(address, "T") && |address| == 34
  }

  const MinWithdraw: real := 100.0
  const MaxWithdraw: real := 9999.0

  const NoWalletError := "No wallet address saved. Please set it in 'Receiving Address'."
  const BadWalletError := "Saved wallet address is invalid (must be TRC20)."
  const AmountError := "Amount must be 100–9999 USDT."
  const BalanceError := "Insufficient available balance."
  const SubmitError := "Failed to submit request. Please try again."
  const BlankAddressError := "Please enter a wallet address."
  const BadAddressError := "Invalid TRC-20 address. Must start with 'T' and be 34 characters."
  const SaveError := "Failed to save address. Please try again."

  /** The checks of a withdraw request in their order (saved address
      present, saved address well-formed, amount a number within 100..9999,
      amount within the available balance): the first failing check's
      message, or none when all pass. */
  function RequestCheck(walletAddress: string, amount: JsNumber, available: real): (r: Option<string>)
    ensures r.None? <==>
      walletAddress != "" && IsTrc20(walletAddress)
      && amount.Num? && MinWithdraw <= amount.value <= MaxWithdraw && amount.value <= available
    ensures walletAddress == "" ==> r == Some(NoWalletError)
    ensures walletAddress != "" && !IsTrc20(walletAddress) ==> r == Some(BadWalletError)
    ensures IsTrc20(walletAddress) && !(amount.Num? && MinWithdraw <= amount.value <= MaxWithdraw) ==> r == Some(AmountError)
    ensures IsTrc20(walletAddress) && amount.Num? && MinWithdraw <= amount.value <= MaxWithdraw && amount.value > available ==> r == Some(BalanceError)
  {
    if walletAddress == "" then Some(NoWalletError)
    else if !IsTrc20(walletAddress) then Some(BadWalletError)
    else if amount.NaN? || amount.value < MinWithdraw || amount.value > MaxWithdraw then Some(AmountError)
    else if amount.value > available then Some(BalanceError)
    else None
  }

  /** Both ends of the range are accepted, and so is the whole available
      balance. */
  lemma BoundsInclusive(walletAddress: string, available: real)
    requires IsTrc20(walletAddress) && available >= MaxWithdraw
    ensures RequestCheck(walletAddress, Num(MinWithdraw), available).None?
    ensures RequestCheck(walletAddress, Num(MaxWithdraw), available).None?
    ensures RequestCheck(walletAddress, Num(MaxWithdraw), MaxWithdraw).None?
  {
  }

  /** The address a successful save stores: the trimmed input, provided it
      is not blank and is a TRC-20 address. */
  function SaveCheck(input: string): (r: AddressCheck)
    ensures r.Saved? <==> IsTrc20(Trim(input))
    ensures r.Saved? ==> r.address == Trim(input) && r.address != ""
    ensures Trim(input) == "" ==> r == Refused(BlankAddressError)
    ensures Trim(input) != "" && !IsTrc20(Trim(input)) ==> r == Refused(BadAddressError)
  {
    var trimmed := Trim(input);
    if trimmed == "" then Refused(BlankAddressError)
    else if !IsTrc20(trimmed) then Refused(BadAddressError)
    else Saved(trimmed)
  }

  datatype AddressCheck = Saved(address: string) | Refused(message: string)

  /** Surrounding white space, an ideographic space as much as an ASCII
      one, does not make an address invalid: it is trimmed away before the
      check and before storing. */
  lemma PaddedAddressSaves(a: char, address: string, b: char)
    requires IsSpace(a) && IsSpace(b)
    requires IsTrc20(address) && !IsSpace(address[|address| - 1])
    ensures SaveCheck([a] + address + [b]) == Saved(address)
  {
    TrimPadded(a, address, b);
  }

  /** A saved address passes the first two checks of any later request. */
  lemma SavedAddressPassesAddressChecks(input: string, amount: JsNumber, available: real)
    requires SaveCheck(input).Saved?
    ensures RequestCheck(SaveCheck(input).address, amount, available) !in {Some(NoWalletError), Some(BadWalletError)}
  {
  }

  /** The users table after `update({wallet_address}).eq("id", userId)`:
      only that user's address changes (a missing user is left alone). */
  function WithWallet(users: map<int, User>, userId: int, address: string): (r: map<int, User>)
    ensures r.Keys == users.Keys
    ensures userId in users ==> r[userId] == users[userId].(walletAddress := address)
    ensures forall k :: k in users && k != userId ==> r[k] == users[k]
  {
    if userId in users then users[userId := users[userId].(walletAddress := address)] else users
  }

  /** The screen's state. */
  class WithdrawPage {
    var walletAddress: string
    var newAddress: string
    var withdrawAmount: string
    var error: string
    var loading: bool

    constructor ()
      ensures walletAddress == "" && newAddress == "" && withdrawAmount == "" && error == "" && !loading
    {
      walletAddress, newAddress, withdrawAmount, error := "", "", "", "";
      loading := false;
    }

    /** handleRequestWithdraw: ignored while a request is in flight;
        otherwise the checks run in order, and only when all pass is one
        pending withdraw of the parsed amount to the saved address inserted.
        `amount` is what parseFloat makes of the amount field. */
    method RequestWithdraw(db: Ledger, userId: int, amount: JsNumber, available: real, insertFails: bool)
      modifies this, db
      ensures old(loading) ==> unchanged(this, db)
      ensures !old(loading) ==>
        && !loading && walletAddress == old(walletAddress) && newAddress == old(newAddress)
        && db.users == old(db.users) && db.bindings == old(db.bindings) && db.stocks == old(db.stocks)
        && db.copytrades == old(db.copytrades) && db.recharges == old(db.recharges)
        && match RequestCheck(old(walletAddress), amount, available)
           case Some(message) =>
             error == message && withdrawAmount == old(withdrawAmount) && unchanged(db)
           case None =>
             if insertFails then
               error == SubmitError && withdrawAmount == old(withdrawAmount) && unchanged(db)
             else
               && error == "" && withdrawAmount == ""
               && db.withdraws == old(db.withdraws)[old(db.nextId) :=
                    LedgerModel.Withdraw(userId, amount.value, old(walletAddress), StatusPending)]
               && db.nextId == old(db.nextId) + 1
    {
      if loading {
        return;
      }
      loading := true;
      error := "";
      var check := RequestCheck(walletAddress, amount, available);
      if check.Some? {
        error := check.value;
        loading := false;
        return;
      }
      if insertFails {
        error := SubmitError;
      } else {
        db.withdraws := db.withdraws[db.nextId := LedgerModel.Withdraw(userId, amount.value, walletAddress, StatusPending)];
        db.nextId := db.nextId + 1;
        withdrawAmount := "";
      }
      loading := false;
    }

    /** handleSaveAddress: ignored while a request is in flight; otherwise
        the input is trimmed and checked, and a good address is written to
        the user's row and then shown, the input field being cleared. The
        result is the check's verdict. */
    method SaveAddress(db: Ledger, userId: int, writeFails: bool) returns (outcome: AddressCheck)
      modifies this, db
      ensures old(loading) ==> unchanged(this, db)
      ensures !old(loading) ==> outcome == SaveCheck(old(newAddress)) && !loading && withdrawAmount == old(withdrawAmount)
      ensures db.bindings == old(db.bindings) && db.stocks == old(db.stocks) && db.copytrades == old(db.copytrades)
      ensures db.recharges == old(db.recharges) && db.withdraws == old(db.withdraws) && db.nextId == old(db.nextId)
      ensures !old(loading) && outcome.Refused? ==>
        error == outcome.message && walletAddress == old(walletAddress) && newAddress == old(newAddress)
        && db.users == old(db.users)
      ensures !old(loading) && outcome.Saved? && writeFails ==>
        error == SaveError && walletAddress == old(walletAddress) && newAddress == old(newAddress)
        && db.users == old(db.users)
      ensures !old(loading) && outcome.Saved? && !writeFails ==>
        error == "" && walletAddress == outcome.address && newAddress == ""
        && db.users == WithWallet(old(db.users), userId, outcome.address)
    {
      outcome := Refused("");
      if loading {
        return;
      }
      outcome := SaveCheck(newAddress);
      match outcome
      case Refused(message) =>
        error := message;
      case Saved(trimmed) =>
        if writeFails {
          error := SaveError;
        } else {
          error := "";
          db.users := WithWallet(db.users, userId, trimmed);
          walletAddress := trimmed;
          newAddress := "";
        }
    }
  }
}
