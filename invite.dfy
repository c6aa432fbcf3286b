/** The referral screen (components/Invite.jsx): the masked phone numbers
    of invitees, the fold over the rows of the referral-tree call into
    per-level counts and lists and an "effective" count, and the realtime
    update when a direct invitee registers. The tree rows are an input: the
    server function that produces them is not part of this model. */
module Invite {
  import opened Common

  /** maskPhone: an empty or short (under 8 characters) number is shown as
      is; a longer one keeps its first three and last four characters around
      four asterisks. */
  function MaskPhone(phone: string): (r: string)
    ensures |phone| < 8 ==> r == phone
    ensures |phone| >= 8 ==> |r| == 11 && r[..3] == phone[..3] && r[3..7] == "****" && r[7..] == phone[|phone| - 4..]
  {
    if |phone| < 8 then phone else phone[..3] + "****" + phone[|phone| - 4..]
  }

  /** The masked form of a long number does not depend on its hidden
      middle: two numbers that agree on their first three and last four
      characters are shown alike. */
  lemma MaskingHides(p: string, q: string)
    requires |p| >= 8 && |q| >= 8
    requires p[..3] == q[..3] && p[|p| - 4..] == q[|q| - 4..]
    ensures MaskPhone(p) == MaskPhone(q)
  {
  }

  /** The user id check in front of the tree call: a missing, NaN or
      non-positive id stops the load. A missing id reads as NaN. */
  predicate ValidUserId(userId: JsNumber)
  {
    userId.Num? && userId.value > 0.0
  }

  /** A row of the referral tree as the server returns it. */
  datatype TreeRow = TreeRow(phone: string, createdAt: string, level: int, totalRecharge: JsNumber)

  /** A row as listed: its recharge total read as a number, 0 when it is
      missing or unparseable. */
  datatype Downline = Downline(phone: string, createdAt: string, level: int, totalRecharge: real)

  /** An entry of the older flat list of direct invitees. */
  datatype Invitee = Invitee(phone: string, createdAt: string)

  /** The threshold of total recharge from which an invitee is effective. */
  const EffectiveThreshold: real := 115.0

  function Listed(u: TreeRow): Downline
  {
    Downline(u.phone, u.createdAt, u.level, OrZero(u.totalRecharge))
  }

  function ListedAll(rows: seq<TreeRow>): (ds: seq<Downline>)
    ensures |ds| == |rows|
    ensures forall i :: 0 <= i < |rows| ==> ds[i] == Listed(rows[i])
  {
    seq(|rows|, i requires 0 <= i < |rows| => Listed(rows[i]))
  }

  function AtLevel(level: int): Downline -> bool
  {
    (d: Downline) => d.level == level
  }

  predicate IsEffective(d: Downline)
  {
    d.totalRecharge >= EffectiveThreshold
  }

  /** The rows of one level, in the order the server returned them. */
  function LevelList(rows: seq<TreeRow>, level: int): seq<Downline>
  {
    Filter(ListedAll(rows), AtLevel(level))
  }

  /** The rows of any level whose recharge total reaches the threshold. */
  function EffectiveList(rows: seq<TreeRow>): seq<Downline>
  {
    Filter(ListedAll(rows), IsEffective)
  }

  lemma ListedAllSnoc(rows: seq<TreeRow>, u: TreeRow)
    ensures ListedAll(rows + [u]) == ListedAll(rows) + [Listed(u)]
  {
  }

  lemma LevelListSnoc(rows: seq<TreeRow>, u: TreeRow, level: int)
    ensures LevelList(rows + [u], level) == LevelList(rows, level) + (if u.level == level then [Listed(u)] else [])
  {
    ListedAllSnoc(rows, u);
    FilterSnoc(ListedAll(rows), Listed(u), AtLevel(level));
  }

  lemma EffectiveListSnoc(rows: seq<TreeRow>, u: TreeRow)
    ensures EffectiveList(rows + [u]) == EffectiveList(rows) + (if IsEffective(Listed(u)) then [Listed(u)] else [])
  {
    ListedAllSnoc(rows, u);
    FilterSnoc(ListedAll(rows), Listed(u), IsEffective);
  }

  /** `dl1.map(u => ({phone_number, created_at}))`. */
  function Invitees(list: seq<Downline>): (r: seq<Invitee>)
    ensures |r| == |list|
    ensures forall i :: 0 <= i < |list| ==> r[i] == Invitee(list[i].phone, list[i].createdAt)
  {
    seq(|list|, i requires 0 <= i < |list| => Invitee(list[i].phone, list[i].createdAt))
  }

  /** What the screen holds after a successful load. */
  datatype TreeStats = TreeStats(
    total: nat, level1: nat, level2: nat, level3: nat, effective: nat,
    list1: seq<Downline>, list2: seq<Downline>, list3: seq<Downline>)

  /** The figures the rows call for: each tier lists the rows of its level
      and counts them, the total adds up the three tiers, and the effective
      count covers rows of every level. */
  function Fold(rows: seq<TreeRow>): TreeStats
  {
    var l1 := LevelList(rows, 1);
    var l2 := LevelList(rows, 2);
    var l3 := LevelList(rows, 3);
    TreeStats(|l1| + |l2| + |l3|, |l1|, |l2|, |l3|, |EffectiveList(rows)|, l1, l2, l3)
  }

  /** The counts of the fold agree with its lists. */
  lemma FoldConsistent(rows: seq<TreeRow>)
    ensures var f := Fold(rows);
      f.level1 == |f.list1| && f.level2 == |f.list2| && f.level3 == |f.list3| && f.total == f.level1 + f.level2 + f.level3
  {
  }

  /** The forEach of loadTreeData: each row of level 1, 2 or 3 is counted
      and listed under its level, and every row whose recharge total reaches
      115 is counted as effective whatever its level. */
  method CountTree(rows: seq<TreeRow>) returns (stats: TreeStats)
    ensures stats == Fold(rows)
  {
    var l1, l2, l3, effective := 0, 0, 0, 0;
    var dl1, dl2, dl3 := [], [], [];
    for i := 0 to |rows|
      invariant dl1 == LevelList(rows[..i], 1) && l1 == |dl1|
      invariant dl2 == LevelList(rows[..i], 2) && l2 == |dl2|
      invariant dl3 == LevelList(rows[..i], 3) && l3 == |dl3|
      invariant effective == |EffectiveList(rows[..i])|
    {
      var u := rows[i];
      var recharge := OrZero(u.totalRecharge);
      var entry := Downline(u.phone, u.createdAt, u.level, recharge);
      if u.level == 1 {
        l1 := l1 + 1;
        dl1 := dl1 + [entry];
      } else if u.level == 2 {
        l2 := l2 + 1;
        dl2 := dl2 + [entry];
      } else if u.level == 3 {
        l3 := l3 + 1;
        dl3 := dl3 + [entry];
      }
      if recharge >= EffectiveThreshold {
        effective := effective + 1;
      }
      assert rows[..i + 1] == rows[..i] + [u];
      LevelListSnoc(rows[..i], u, 1);
      LevelListSnoc(rows[..i], u, 2);
      LevelListSnoc(rows[..i], u, 3);
      EffectiveListSnoc(rows[..i], u);
    }
    assert rows[..|rows|] == rows;
    stats := TreeStats(l1 + l2 + l3, l1, l2, l3, effective, dl1, dl2, dl3);
  }

  /** The three tiers never count a row twice, so their total is at most
      the number of rows; rows of other levels are in no tier. */
  lemma {:induction false} TiersAtMostRows(ds: seq<Downline>)
    ensures |Filter(ds, AtLevel(1))| + |Filter(ds, AtLevel(2))| + |Filter(ds, AtLevel(3))| <= |ds|
  {
    if ds != [] {
      TiersAtMostRows(ds[1..]);
    }
  }

  /** The effective count is not bounded by the total: one row of level 4
      with a recharge total of 200 is effective while no tier counts it. */
  lemma EffectiveOutsideTiers()
    ensures var rows := [TreeRow("13800000000", "", 4, Num(200.0))];
            |EffectiveList(rows)| == 1 && LevelList(rows, 1) == [] && LevelList(rows, 2) == []
            && LevelList(rows, 3) == []
  {
    var rows := [TreeRow("13800000000", "", 4, Num(200.0))];
    assert ListedAll(rows) == [Downline("13800000000", "", 4, 200.0)];
  }

  /** The referral screen's counters and lists. */
  class InviteView {
    var totalCount: nat
    var level1Count: nat
    var level2Count: nat
    var level3Count: nat
    var effectiveCount: nat
    var downlineCount: nat
    var level1: seq<Downline>
    var level2: seq<Downline>
    var level3: seq<Downline>
    var downlineUsers: seq<Invitee>
    var loading: bool

    function Figures(): TreeStats
      reads this
    {
      TreeStats(totalCount, level1Count, level2Count, level3Count, effectiveCount, level1, level2, level3)
    }

    /** The counters agree with the lists they summarise. */
    ghost predicate Consistent()
      reads this
    {
      && level1Count == |level1| && level2Count == |level2| && level3Count == |level3|
      && totalCount == level1Count + level2Count + level3Count
      && downlineCount == level1Count && |downlineUsers| == downlineCount
    }

    constructor ()
      ensures Consistent() && loading
      ensures totalCount == 0 && effectiveCount == 0 && level1 == [] && level2 == [] && level3 == []
    {
      totalCount, level1Count, level2Count, level3Count := 0, 0, 0, 0;
      effectiveCount, downlineCount := 0, 0;
      level1, level2, level3 := [], [], [];
      downlineUsers := [];
      loading := true;
    }

    /** loadTreeData: with an invalid user id nothing is requested and only
        the loading flag is cleared; a failing call leaves the figures as
        they were; otherwise every figure is replaced by the fold over the
        returned rows. */
    method LoadTreeData(userId: JsNumber, rows: seq<TreeRow>, callFails: bool) returns (called: bool)
      modifies this
      ensures called <==> ValidUserId(userId)
      ensures !loading
      ensures !called || callFails ==>
        Figures() == old(Figures()) && downlineCount == old(downlineCount) && downlineUsers == old(downlineUsers)
      ensures called && !callFails ==>
        Figures() == Fold(rows) && downlineCount == |level1| && downlineUsers == Invitees(level1) && Consistent()
    {
      if !ValidUserId(userId) {
        loading := false;
        return false;
      }
      called := true;
      loading := true;
      if callFails {
        loading := false;
        return;
      }
      var stats := CountTree(rows);
      FoldConsistent(rows);
      Show(stats);
    }

    /** The assignments closing a successful load: every figure is taken
        from the fold, the flat list from level 1, and loading ends. */
    method Show(stats: TreeStats)
      modifies this
      ensures Figures() == stats && !loading
      ensures downlineCount == stats.level1 && downlineUsers == Invitees(stats.list1)
    {
      totalCount := stats.total;
      level1Count, level2Count, level3Count := stats.level1, stats.level2, stats.level3;
      effectiveCount := stats.effective;
      level1, level2, level3 := stats.list1, stats.list2, stats.list3;
      downlineCount := stats.level1;
      downlineUsers := Invitees(stats.list1);
      loading := false;
    }

    /** The realtime handler for a new direct invitee: level 1, the total
        and the flat count grow by one, and the newcomer is put in front of
        both lists with a recharge total of 0; levels 2 and 3 and the
        effective count stay as they were. */
    method OnDirectInvitee(phone: string, createdAt: string)
      modifies this
      ensures old(Consistent()) ==> Consistent()
      ensures level1Count == old(level1Count) + 1
      ensures totalCount == old(totalCount) + 1
      ensures downlineCount == old(downlineCount) + 1
      ensures level1 == [Downline(phone, createdAt, 1, 0.0)] + old(level1)
      ensures downlineUsers == [Invitee(phone, createdAt)] + old(downlineUsers)
      ensures level2 == old(level2) && level3 == old(level3) && level2Count == old(level2Count)
      ensures level3Count == old(level3Count) && effectiveCount == old(effectiveCount) && loading == old(loading)
    {
      level1Count := level1Count + 1;
      totalCount := totalCount + 1;
      downlineCount := downlineCount + 1;
      downlineUsers := [Invitee(phone, createdAt)] + downlineUsers;
      level1 := [Downline(phone, createdAt, 1, 0.0)] + level1;
    }
  }
}
