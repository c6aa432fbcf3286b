/** The recharge screen (components/Recharge.jsx): the checks in front of a
    recharge request and the pending row it inserts. */
module Recharge {
  import opened Common
  import opened LedgerModel

  /** An active payment channel as the screen lists it. */
  datatype Channel = Channel(id: int, currencyName: string, walletAddress: string)

  const ChannelError := "Please select a network."
  const AmountError := "Minimum recharge is 1 USDT."
  const TxIdError := "Please enter the transaction hash (tx_id)."
  const SubmitError := "Submission failed. Please check and try again."

  /** `isLoggedIn && userId`: a user id is present when it is set and not 0. */
  predicate SignedIn(isLoggedIn: bool, userId: Option<int>)
  {
    isLoggedIn && userId.Some? && userId.value != 0
  }

  /** What the checks of handleSubmit decide: send the visitor to the login
      tab, refuse with a message, or accept the parsed amount and the
      trimmed transaction hash. */
  datatype Verdict = GoToLogin | Invalid(message: string) | Accept(amount: real, txId: string)

  /** The checks in their order: signed in, a channel selected, an amount
      field that is not empty and parses to a number of at least 1, a
      transaction hash that is not blank once trimmed. `amount` is what
      parseFloat makes of `amountText`. */
  function SubmitCheck(isLoggedIn: bool, userId: Option<int>, channel: Option<Channel>,
                       amountText: string, amount: JsNumber, txId: string): (v: Verdict)
    ensures v == GoToLogin <==> !SignedIn(isLoggedIn, userId)
    ensures v.Accept? <==>
      SignedIn(isLoggedIn, userId) && channel.Some? && amountText != "" && !amount.NaN? && amount.value >= 1.0 && Trim(txId) != ""
    ensures v.Accept? ==> v.amount == amount.value && v.amount >= 1.0 && v.txId == Trim(txId) && v.txId != ""
    ensures SignedIn(isLoggedIn, userId) && channel.None? ==> v == Invalid(ChannelError)
    ensures SignedIn(isLoggedIn, userId) && channel.Some? && (amountText == "" || amount.NaN? || amount.value < 1.0) ==> v == Invalid(AmountError)
    ensures SignedIn(isLoggedIn, userId) && channel.Some? && amountText != "" && amount.Num? && amount.value >= 1.0 && Trim(txId) == "" ==> v == Invalid(TxIdError)
  {
    if !SignedIn(isLoggedIn, userId) then GoToLogin
    else if channel.None? then Invalid(ChannelError)
    else if amountText == "" || amount.NaN? || amount.value < 1.0 then Invalid(AmountError)
    else if Trim(txId) == "" then Invalid(TxIdError)
    else Accept(amount.value, Trim(txId))
  }

  /** The amount bound is inclusive, and a hash of white space only, ASCII
      or ideographic, is refused. */
  lemma SubmitBoundaries(channel: Channel, userId: int)
    requires userId != 0
    ensures SubmitCheck(true, Some(userId), Some(channel), "1", Num(1.0), "0xab").Accept?
    ensures SubmitCheck(true, Some(userId), Some(channel), "0.5", Num(0.5), "0xab") == Invalid(AmountError)
    ensures SubmitCheck(true, Some(userId), Some(channel), "1", Num(1.0), "  ") == Invalid(TxIdError)
    ensures SubmitCheck(true, Some(userId), Some(channel), "1", Num(1.0), "\U{3000}") == Invalid(TxIdError)
  {
    assert Trim("0xab") == "0xab" by {
      assert LeadingSpaces("0xab") == 0;
      assert TrailingSpaces("0xab") == 0;
      assert TrimStart("0xab") == "0xab";
    }
    TrimBlankIff("  ");
    TrimBlankIff("\U{3000}");
  }

  /** The row an accepted request inserts. */
  function RechargeRow(userId: int, channel: Channel, amount: real, txId: string): (r: LedgerModel.Recharge)
    ensures r.status == StatusPending && r.userId == userId && r.channelId == channel.id
    ensures r.amount == amount && r.txId == Some(txId)
  {
    LedgerModel.Recharge(userId, channel.id, amount, StatusPending, Some(txId))
  }

  /** The recharge screen's state. */
  class RechargePage {
    var amount: string
    var txId: string
    var selectedChannel: Option<Channel>
    var loading: bool
    var error: string

    constructor ()
      ensures amount == "" && txId == "" && selectedChannel.None? && !loading && error == ""
    {
      amount, txId, selectedChannel, loading, error := "", "", None, false, "";
    }

    /** handleSubmit: a visitor who is not signed in is sent to the login
        tab (the result); a failing check sets its message and writes
        nothing; otherwise one pending recharge with the channel, the
        parsed amount and the trimmed hash is inserted, and on success the
        form is reset. `parsed` is parseFloat of the amount field. */
    method HandleSubmit(db: Ledger, isLoggedIn: bool, userId: Option<int>, parsed: JsNumber, insertFails: bool)
      returns (tab: Option<string>)
      modifies this, db
      ensures db.users == old(db.users) && db.bindings == old(db.bindings) && db.stocks == old(db.stocks)
      ensures db.copytrades == old(db.copytrades) && db.withdraws == old(db.withdraws)
      ensures
        match SubmitCheck(isLoggedIn, userId, old(selectedChannel), old(amount), parsed, old(txId))
        case GoToLogin =>
          tab == Some("login") && unchanged(this) && unchanged(db)
        case Invalid(message) =>
          tab.None? && error == message && unchanged(db) && loading == old(loading)
          && amount == old(amount) && txId == old(txId) && selectedChannel == old(selectedChannel)
        case Accept(value, hash) =>
          && tab.None? && !loading
          && (insertFails ==>
                error == SubmitError && unchanged(db)
                && amount == old(amount) && txId == old(txId) && selectedChannel == old(selectedChannel))
          && (!insertFails ==>
                && db.recharges == old(db.recharges)[old(db.nextId) := RechargeRow(userId.value, old(selectedChannel).value, value, hash)]
                && db.nextId == old(db.nextId) + 1
                && error == "" && amount == "" && txId == "" && selectedChannel.None?)
    {
      tab := None;
      var verdict := SubmitCheck(isLoggedIn, userId, selectedChannel, amount, parsed, txId);
      match verdict
      case GoToLogin =>
        tab := Some("login");
      case Invalid(message) =>
        error := message;
      case Accept(value, hash) =>
        loading := true;
        error := "";
        var row := RechargeRow(userId.value, selectedChannel.value, value, hash);
        if insertFails {
          error := SubmitError;
        } else {
          db.recharges := db.recharges[db.nextId := row];
          db.nextId := db.nextId + 1;
          amount := "";
          txId := "";
          selectedChannel := None;
        }
        loading := false;
    }
  }
}
