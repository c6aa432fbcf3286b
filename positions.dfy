/** The positions screen (components/Positions.jsx): the loop that sorts a
    user's bindings into the in-progress and completed lists and adds up the
    floating profit and loss. Dates are formatted by the browser's locale
    and are not part of this model. */
module Positions {
  import opened Common
  import opened LedgerModel

  /** A binding row as the screen reads it, with the joined mentor's name. */
  datatype DetailRow = DetailRow(id: int, amount: JsNumber, profit: JsNumber, status: string, mentorName: Option<string>)

  /** The earnings column: "---", or a profit shown with `sign` in front of
      its two-decimal form (toFixed writes the "-" of a negative profit
      itself, so `sign` is "+" or empty). */
  datatype Earnings = Dashes | Shown(sign: string, value: real)

  /** An entry of either list. */
  datatype Position = Position(id: int, name: string, kind: string, amount: real, earnings: Earnings, status: string)

  const UnknownMentor := "Unknown Mentor"

  function MentorName(d: DetailRow): string
  {
    if d.mentorName.Some? && d.mentorName.value != "" then d.mentorName.value else UnknownMentor
  }

  /** The in-progress entry of an approved binding. */
  function PendingEntry(d: DetailRow): Position
  {
    Position(d.id, MentorName(d), "Following", OrZero(d.amount), Dashes, "In Progress")
  }

  /** The completed entry of a settled binding: its profit (0 when
      unparseable) signed with "+" when it is not negative. */
  function SettledEntry(d: DetailRow): (p: Position)
    ensures p.earnings.Shown? && p.earnings.value == OrZero(d.profit)
    ensures p.earnings.sign == "+" <==> OrZero(d.profit) >= 0.0
  {
    var profit := OrZero(d.profit);
    Position(d.id, MentorName(d), "Completed", OrZero(d.amount), Shown(if profit >= 0.0 then "+" else "", profit), "Settled")
  }

  /** The completed entry of a cancelled binding. */
  function RejectedEntry(d: DetailRow): Position
  {
    Position(d.id, MentorName(d), "Completed", OrZero(d.amount), Dashes, "Rejected")
  }

  predicate IsApproved(d: DetailRow) { d.status == StatusApproved }

  /** The in-progress list: one entry per approved row, in row order. */
  function Pending(ds: seq<DetailRow>): (ps: seq<Position>)
    ensures |ps| <= |ds|
    ensures forall i :: 0 <= i < |ps| ==> ps[i].earnings == Dashes && ps[i].status == "In Progress"
  {
    if ds == [] then []
    else
      var d := ds[|ds| - 1];
      Pending(ds[..|ds| - 1]) + (if d.status == StatusApproved then [PendingEntry(d)] else [])
  }

  /** The completed list: one entry per settled or cancelled row, in row
      order; settled rows show their profit, cancelled rows show "---". */
  function Completed(ds: seq<DetailRow>): (ps: seq<Position>)
    ensures |ps| <= |ds|
    ensures forall i :: 0 <= i < |ps| ==> (ps[i].status == "Settled" <==> ps[i].earnings.Shown?)
    ensures forall i :: 0 <= i < |ps| ==> ps[i].status == "Settled" || ps[i].status == "Rejected"
  {
    if ds == [] then []
    else
      var d := ds[|ds| - 1];
      Completed(ds[..|ds| - 1])
      + (if d.status == StatusSettled then [SettledEntry(d)]
         else if d.status == StatusCancelled then [RejectedEntry(d)]
         else [])
  }

  /** The floating profit and loss: the profits of the settled rows, an
      unparseable profit counting as 0. */
  function FloatingPL(ds: seq<DetailRow>): real
  {
    if ds == [] then 0.0
    else
      var d := ds[|ds| - 1];
      FloatingPL(ds[..|ds| - 1]) + (if d.status == StatusSettled then OrZero(d.profit) else 0.0)
  }

  /** The forEach of fetchDetails. */
  method Classify(details: seq<DetailRow>) returns (floatPL: real, pend: seq<Position>, comp: seq<Position>)
    ensures floatPL == FloatingPL(details)
    ensures pend == Pending(details)
    ensures comp == Completed(details)
  {
    floatPL := 0.0;
    pend, comp := [], [];
    for i := 0 to |details|
      invariant floatPL == FloatingPL(details[..i])
      invariant pend == Pending(details[..i])
      invariant comp == Completed(details[..i])
    {
      var d := details[i];
      var amount := OrZero(d.amount);
      var profit := OrZero(d.profit);
      var name := MentorName(d);
      if d.status == StatusApproved {
        pend := pend + [Position(d.id, name, "Following", amount, Dashes, "In Progress")];
      } else if d.status == StatusSettled {
        floatPL := floatPL + profit;
        var earnings := if profit >= 0.0 then Shown("+", profit) else Shown("", profit);
        comp := comp + [Position(d.id, name, "Completed", amount, earnings, "Settled")];
      } else if d.status == StatusCancelled {
        comp := comp + [Position(d.id, name, "Completed", amount, Dashes, "Rejected")];
      }
      assert details[..i + 1][..i] == details[..i];
    }
    assert details[..|details|] == details;
  }

  /** The in-progress list is the approved rows, in order, each turned
      into its entry. */
  lemma {:induction false} PendingIsApprovedRows(ds: seq<DetailRow>)
    ensures Pending(ds) == seq(|Filter(ds, IsApproved)|, i requires 0 <= i < |Filter(ds, IsApproved)| => PendingEntry(Filter(ds, IsApproved)[i]))
  {
    if ds != [] {
      var init, d := ds[..|ds| - 1], ds[|ds| - 1];
      PendingIsApprovedRows(init);
      assert ds == init + [d];
      FilterSnoc(init, d, IsApproved);
    }
  }

  predicate IsClosed(d: DetailRow) { d.status == StatusSettled || d.status == StatusCancelled }

  /** The completed entry of a settled or cancelled row. */
  function ClosedEntry(d: DetailRow): Position
  {
    if d.status == StatusSettled then SettledEntry(d) else RejectedEntry(d)
  }

  /** The completed list is the settled and cancelled rows, in order, each
      turned into its entry: the profit for a settled row, "---" and
      "Rejected" for a cancelled one. */
  lemma {:induction false} CompletedIsClosedRows(ds: seq<DetailRow>)
    ensures Completed(ds) == seq(|Filter(ds, IsClosed)|, i requires 0 <= i < |Filter(ds, IsClosed)| => ClosedEntry(Filter(ds, IsClosed)[i]))
  {
    if ds != [] {
      var init, d := ds[..|ds| - 1], ds[|ds| - 1];
      CompletedIsClosedRows(init);
      assert ds == init + [d];
      FilterSnoc(init, d, IsClosed);
    }
  }

  /** A row whose status is none of approved, settled and cancelled appears
      in neither list and adds nothing to the profit. */
  lemma OtherStatusIgnored(ds: seq<DetailRow>, d: DetailRow)
    requires d.status != StatusApproved && d.status != StatusSettled && d.status != StatusCancelled
    ensures Pending(ds + [d]) == Pending(ds)
    ensures Completed(ds + [d]) == Completed(ds)
    ensures FloatingPL(ds + [d]) == FloatingPL(ds)
  {
    assert (ds + [d])[..|ds|] == ds;
  }

  /** The profit shown on the settled entries of the completed list. */
  function ShownProfit(ps: seq<Position>): real
  {
    if ps == [] then 0.0
    else
      var p := ps[|ps| - 1];
      ShownProfit(ps[..|ps| - 1]) + (if p.status == "Settled" && p.earnings.Shown? then p.earnings.value else 0.0)
  }

  lemma {:induction false} ShownProfitAppend(ps: seq<Position>, qs: seq<Position>)
    ensures ShownProfit(ps + qs) == ShownProfit(ps) + ShownProfit(qs)
  {
    if qs == [] {
      assert ps + qs == ps;
    } else {
      var init := qs[..|qs| - 1];
      assert (ps + qs)[..|ps + qs| - 1] == ps + init;
      assert (ps + qs)[|ps + qs| - 1] == qs[|qs| - 1];
      ShownProfitAppend(ps, init);
    }
  }

  /** The floating profit is what the completed list shows on its settled
      entries, added up. */
  lemma {:induction false} FloatingPLIsShownProfit(ds: seq<DetailRow>)
    ensures FloatingPL(ds) == ShownProfit(Completed(ds))
  {
    if ds != [] {
      var init, d := ds[..|ds| - 1], ds[|ds| - 1];
      FloatingPLIsShownProfit(init);
      var tail := if d.status == StatusSettled then [SettledEntry(d)]
                  else if d.status == StatusCancelled then [RejectedEntry(d)]
                  else [];
      ShownProfitAppend(Completed(init), tail);
      assert tail != [] ==> tail[..0] == [];
    }
  }

  /** The screen's state. */
  class PositionsView {
    var totalAssets: real
    var available: real
    var floatingPL: real
    var pendingOrders: seq<Position>
    var completedOrders: seq<Position>

    constructor ()
      ensures totalAssets == 0.0 && available == 0.0 && floatingPL == 0.0
      ensures pendingOrders == [] && completedOrders == []
    {
      totalAssets, available, floatingPL := 0.0, 0.0, 0.0;
      pendingOrders, completedOrders := [], [];
    }

    /** The effect on load: nothing without a signed-in user; otherwise the
        balances are shown (0 when missing), and when the read succeeds
        (`details` present) the lists and the floating profit are replaced
        by the classification of the rows. */
    method Load(signedIn: bool, balance: JsNumber, availableBalance: JsNumber, details: Option<seq<DetailRow>>)
      modifies this
      ensures !signedIn ==> unchanged(this)
      ensures signedIn ==> totalAssets == OrZero(balance) && available == OrZero(availableBalance)
      ensures signedIn && details.None? ==>
        floatingPL == old(floatingPL) && pendingOrders == old(pendingOrders) && completedOrders == old(completedOrders)
      ensures signedIn && details.Some? ==>
        && floatingPL == FloatingPL(details.value)
        && pendingOrders == Pending(details.value)
        && completedOrders == Completed(details.value)
    {
      if !signedIn {
        return;
      }
      totalAssets := OrZero(balance);
      available := OrZero(availableBalance);
      if details.None? {
        return;
      }
      var floatPL, pend, comp := Classify(details.value);
      floatingPL := floatPL;
      pendingOrders := pend;
      completedOrders := comp;
    }

    /** The list the current tab shows. */
    function ListFor(tab: string): (r: seq<Position>)
      reads this
      ensures tab == "pending" ==> r == pendingOrders
      ensures tab != "pending" ==> r == completedOrders
    {
      if tab == "pending" then pendingOrders else completedOrders
    }
  }
}
