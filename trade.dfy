/** The follow screen (components/Trade.jsx): the mentor search, the checks
    in front of a follow request, the inserted request, and the available
    balance pushed by the realtime subscription. */
module Trade {
  import opened Common
  import opened LedgerModel

  /** A row of `mentors` as the screen lists it. */
  datatype Mentor = Mentor(id: int, name: string, commission: real)

  /** `m.name.toLowerCase().includes(query.toLowerCase())`. */
  function MatchesQuery(query: string): Mentor -> bool
  {
    (m: Mentor) => Includes(ToLower(m.name), ToLower(query))
  }

  /** The mentors shown for a search query. */
  function FilterMentors(mentors: seq<Mentor>, query: string): (r: seq<Mentor>)
    ensures |r| <= |mentors|
    ensures forall i :: 0 <= i < |r| ==> Includes(ToLower(r[i].name), ToLower(query))
  {
    Filter(mentors, MatchesQuery(query))
  }

  /** The search keeps, in their order, exactly the mentors whose lower-cased
      name contains the lower-cased query. */
  lemma FilterMentorsExact(mentors: seq<Mentor>, query: string)
    ensures Subsequence(FilterMentors(mentors, query), mentors)
    ensures forall i :: 0 <= i < |mentors| && Includes(ToLower(mentors[i].name), ToLower(query))
              ==> mentors[i] in FilterMentors(mentors, query)
    ensures forall m :: m in FilterMentors(mentors, query) ==> m in mentors
    ensures forall m ::
      multiset(FilterMentors(mentors, query))[m] == if Includes(ToLower(m.name), ToLower(query)) then multiset(mentors)[m] else 0
  {
    FilterKeepsPassing(mentors, MatchesQuery(query));
    var r := FilterMentors(mentors, query);
    forall m | m in r ensures m in mentors {
      var i :| 0 <= i < |r| && r[i] == m;
    }
  }

  /** An empty query keeps every mentor. */
  lemma EmptyQueryKeepsAll(mentors: seq<Mentor>)
    ensures FilterMentors(mentors, "") == mentors
  {
    forall m: Mentor ensures MatchesQuery("")(m) {
      assert OccursAt(ToLower(m.name), ToLower(""), 0);
    }
    FilterAll(mentors, MatchesQuery(""));
  }

  const AmountMessage := "Please enter a valid amount"
  const BalanceMessage := "Insufficient available balance"
  const MentorMessage := "Please select a mentor"
  const SubmittedMessage := "Follow request submitted, awaiting approval"
  const FailedMessage := "Request failed, please try again"

  /** The checks of handleFollow in their order: an empty amount field or an
      amount that is not positive, an amount over the available balance, no
      selected mentor. `amount` is what parseFloat makes of `amountText`;
      NaN fails neither comparison. The message of the first failing check,
      or none. */
  function FollowCheck(amountText: string, amount: JsNumber, available: real, mentor: Option<Mentor>)
    : (r: Option<string>)
    ensures r.None? <==> amountText != "" && !AtMost(amount, 0.0) && !GreaterThan(amount, available) && mentor.Some?
    ensures amountText == "" || AtMost(amount, 0.0) ==> r == Some(AmountMessage)
    ensures amountText != "" && !AtMost(amount, 0.0) && GreaterThan(amount, available) ==> r == Some(BalanceMessage)
    ensures amountText != "" && !AtMost(amount, 0.0) && !GreaterThan(amount, available) && mentor.None? ==> r == Some(MentorMessage)
  {
    if amountText == "" || AtMost(amount, 0.0) then Some(AmountMessage)
    else if GreaterThan(amount, available) then Some(BalanceMessage)
    else if mentor.None? then Some(MentorMessage)
    else None
  }

  /** Only positivity and the balance are checked: the 100..9999 limit the
      form displays is not, so a 1-unit follow passes. */
  lemma SmallFollowPasses(mentor: Mentor)
    ensures FollowCheck("1", Num(1.0), 1.0, Some(mentor)).None?
  {
  }

  /** A field that parseFloat reads as NaN passes every check, so the
      request is inserted with an amount that is not a number (sent as
      null in the JSON body). */
  lemma UnparseableAmountPasses(amountText: string, available: real, mentor: Mentor)
    requires amountText != ""
    ensures FollowCheck(amountText, NaN, available, Some(mentor)).None?
  {
  }

  /** The request a passing follow inserts. */
  function FollowRequest(userId: int, amount: JsNumber, mentor: Mentor): (c: CopyTrade)
    ensures c.status == StatusPending && c.userId == userId && c.amount == amount
    ensures c.mentorId == mentor.id && c.mentorCommission == mentor.commission
  {
    CopyTrade(userId, mentor.id, amount, StatusPending, mentor.commission)
  }

  /** The follow screen's state. */
  class TradePage {
    var isFollowing: bool
    var followingAmount: string
    var selectedMentor: Option<Mentor>
    var availableBalance: real

    constructor ()
      ensures !isFollowing && followingAmount == "" && selectedMentor.None? && availableBalance == 0.0
    {
      isFollowing, followingAmount, selectedMentor, availableBalance := false, "", None, 0.0;
    }

    /** handleSelectMentor. */
    method SelectMentor(mentor: Mentor)
      modifies this
      ensures selectedMentor == Some(mentor) && isFollowing
      ensures followingAmount == old(followingAmount) && availableBalance == old(availableBalance)
    {
      selectedMentor := Some(mentor);
      isFollowing := true;
    }

    /** handleFollow: the checks run in order and the first failure is
        reported with nothing written; otherwise one pending request
        carrying the amount and the mentor's commission is inserted and the
        form is reset. `amount` is parseFloat of the amount field; the
        result is the message alerted. */
    method HandleFollow(db: Ledger, userId: int, amount: JsNumber, insertFails: bool) returns (alert: string)
      modifies this, db
      ensures availableBalance == old(availableBalance)
      ensures db.users == old(db.users) && db.bindings == old(db.bindings) && db.stocks == old(db.stocks)
      ensures db.recharges == old(db.recharges) && db.withdraws == old(db.withdraws)
      ensures
        match FollowCheck(old(followingAmount), amount, old(availableBalance), old(selectedMentor))
        case Some(message) =>
          alert == message && unchanged(this) && unchanged(db)
        case None =>
          if insertFails then
            alert == FailedMessage && unchanged(this) && unchanged(db)
          else
            && alert == SubmittedMessage
            && db.copytrades == old(db.copytrades)[old(db.nextId) := FollowRequest(userId, amount, old(selectedMentor).value)]
            && db.nextId == old(db.nextId) + 1
            && !isFollowing && followingAmount == "" && selectedMentor.None?
    {
      var check := FollowCheck(followingAmount, amount, availableBalance, selectedMentor);
      if check.Some? {
        return check.value;
      }
      if insertFails {
        return FailedMessage;
      }
      db.copytrades := db.copytrades[db.nextId := FollowRequest(userId, amount, selectedMentor.value)];
      db.nextId := db.nextId + 1;
      alert := SubmittedMessage;
      isFollowing := false;
      followingAmount := "";
      selectedMentor := None;
    }

    /** handleBack. */
    method Back()
      modifies this
      ensures !isFollowing && selectedMentor.None?
      ensures followingAmount == old(followingAmount) && availableBalance == old(availableBalance)
    {
      isFollowing := false;
      selectedMentor := None;
    }

    /** The realtime callback on the user's row: when the new row carries
        an available balance, the screen shows it read as a number, 0 when
        unparseable; a payload without the field changes nothing. */
    method OnBalancePayload(availableField: Option<JsNumber>)
      modifies this
      ensures availableField.Some? ==> availableBalance == OrZero(availableField.value)
      ensures availableField.None? ==> availableBalance == old(availableBalance)
      ensures isFollowing == old(isFollowing) && followingAmount == old(followingAmount)
      ensures selectedMentor == old(selectedMentor)
    {
      if availableField.Some? {
        availableBalance := OrZero(availableField.value);
      }
    }

    /** fetchAvailableBalance: the read value as a number (0 when
        unparseable), or 0 when the read fails; nothing without a user id. */
    method FetchAvailableBalance(hasUserId: bool, read: Option<JsNumber>)
      modifies this
      ensures !hasUserId ==> availableBalance == old(availableBalance)
      ensures hasUserId && read.Some? ==> availableBalance == OrZero(read.value)
      ensures hasUserId && read.None? ==> availableBalance == 0.0
      ensures isFollowing == old(isFollowing) && followingAmount == old(followingAmount)
      ensures selectedMentor == old(selectedMentor)
    {
      if !hasUserId {
        return;
      }
      availableBalance := if read.Some? then OrZero(read.value) else 0.0;
    }
  }
}
