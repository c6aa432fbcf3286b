/** The rows of the hosted database that the page handlers read and write,
    and the database itself as one object whose tables the handlers update.
    Tables are maps from row id to row; `nextId` stands for the id sequence
    the database draws new ids from. Statuses are the strings stored in the
    status columns. */
module LedgerModel {
  import opened Common

  const StatusPending := "pending"
  const StatusApproved := "approved"
  const StatusRejected := "rejected"
  const StatusCancelled := "cancelled"
  const StatusSettled := "settled"
  const StatusPublished := "published"

  /** A row of `users`. */
  datatype User = User(
    phone: string,
    passwordHash: string,
    balance: real,
    available: real,
    walletAddress: string,
    referralCode: string,
    invitedBy: Option<int>)

  /** A row of `copytrade_details`: one follower's principal bound (once a
      stock is published) to a mentor's position. */
  datatype Binding = Binding(
    userId: int,
    mentorId: int,
    amount: real,
    mentorCommission: real,
    stockId: Option<int>,
    status: string,
    orderProfit: Option<real>)

  /** A row of `stocks`: a mentor's position, pending → published → settled. */
  datatype Stock = Stock(
    id: int,
    mentorId: int,
    cryptoName: string,
    buyPrice: real,
    sellPrice: real,
    status: string)

  /** A row of `copytrades`: a follow request awaiting audit. The amount is
      whatever parseFloat produced when the request was made. */
  datatype CopyTrade = CopyTrade(
    userId: int,
    mentorId: int,
    amount: JsNumber,
    status: string,
    mentorCommission: real)

  /** A row of `recharges`. */
  datatype Recharge = Recharge(
    userId: int,
    channelId: int,
    amount: real,
    status: string,
    txId: Option<string>)

  /** A row of `withdraws`. */
  datatype Withdraw = Withdraw(
    userId: int,
    amount: real,
    walletAddress: string,
    status: string)

  /** What a sign-in or sign-up keeps in local storage: the phone number
      and the user id. */
  datatype Session = Session(phone: string, userId: int)

  class Ledger {
    var users: map<int, User>
    var bindings: map<int, Binding>
    var stocks: map<int, Stock>
    var copytrades: map<int, CopyTrade>
    var recharges: map<int, Recharge>
    var withdraws: map<int, Withdraw>
    var nextId: int

    /** Every stored id was drawn before `nextId`, and a stock row carries
        its own key as id. */
    ghost predicate Valid()
      reads this
    {
      && (forall k :: k in users ==> k < nextId)
      && (forall k :: k in stocks ==> k < nextId && stocks[k].id == k)
      && (forall k :: k in copytrades ==> k < nextId)
      && (forall k :: k in recharges ==> k < nextId)
      && (forall k :: k in withdraws ==> k < nextId)
    }

    constructor ()
      ensures Valid()
      ensures users == map[] && bindings == map[] && stocks == map[]
      ensures copytrades == map[] && recharges == map[] && withdraws == map[]
    {
      users, bindings, stocks := map[], map[], map[];
      copytrades, recharges, withdraws := map[], map[], map[];
      nextId := 1;
    }
  }
}
