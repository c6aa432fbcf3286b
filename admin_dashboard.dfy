/** The admin dashboard frame (Backend/AdminDashboard.jsx): the guard that
    sends a visitor without the admin flag to the admin login, logging out,
    and the breadcrumbs built from the current path. */
module AdminDashboard {
  import opened Common

  // ---------------------------------------------------------------------------
  // split and join

  /** String.prototype.split with a one-character separator: the pieces
      between separators, empty ones included, at least one. */
  function Split(s: string, sep: char): (r: seq<string>)
    ensures |r| >= 1
    ensures forall i :: 0 <= i < |r| ==> sep !in r[i]
    decreases |s|
  {
    if s == [] then [""]
    else if s[0] == sep then [""] + Split(s[1..], sep)
    else
      var rest := Split(s[1..], sep);
      [[s[0]] + rest[0]] + rest[1..]
  }

  /** Array.prototype.join. */
  function Join(parts: seq<string>, sep: string): string
  {
    if parts == [] then ""
    else if |parts| == 1 then parts[0]
    else parts[0] + sep + Join(parts[1..], sep)
  }

  /** Joining the pieces with the separator gives the string back. */
  lemma {:induction false} JoinSplit(s: string, sep: char)
    ensures Join(Split(s, sep), [sep]) == s
    decreases |s|
  {
    if s != [] {
      var rest := Split(s[1..], sep);
      JoinSplit(s[1..], sep);
      if s[0] == sep {
        assert Split(s, sep)[1..] == rest;
      } else {
        var r := Split(s, sep);
        assert r[1..] == rest[1..];
        if |rest| == 1 {
          assert s == [s[0]] + rest[0];
        } else {
          assert Join(rest, [sep]) == rest[0] + [sep] + Join(rest[1..], [sep]);
          assert s == [s[0]] + s[1..];
        }
      }
    }
  }

  /** Splitting pieces that do not hold the separator, joined with it, gives
      the pieces back. */
  lemma {:induction false} SplitJoin(parts: seq<string>, sep: char)
    requires |parts| >= 1
    requires forall i :: 0 <= i < |parts| ==> sep !in parts[i]
    ensures Split(Join(parts, [sep]), sep) == parts
    decreases parts, |parts[0]|
  {
    if |parts| == 1 {
      SplitPiece(parts[0], sep);
    } else {
      SplitJoin(parts[1..], sep);
      SplitPrefix(parts[0], Join(parts[1..], [sep]), sep);
      assert parts == [parts[0]] + parts[1..];
    }
  }

  /** A piece without the separator splits into itself. */
  lemma {:induction false} SplitPiece(p: string, sep: char)
    requires sep !in p
    ensures Split(p, sep) == [p]
    decreases |p|
  {
    if p != [] {
      SplitPiece(p[1..], sep);
      assert p == [p[0]] + p[1..];
    }
  }

  /** A piece without the separator in front of one gives the first piece. */
  lemma {:induction false} SplitPrefix(p: string, t: string, sep: char)
    requires sep !in p
    ensures Split(p + [sep] + t, sep) == [p] + Split(t, sep)
    decreases |p|
  {
    if p == [] {
      assert p + [sep] + t == [sep] + t;
      assert ([sep] + t)[1..] == t;
    } else {
      SplitPrefix(p[1..], t, sep);
      assert (p + [sep] + t)[1..] == p[1..] + [sep] + t;
      assert p == [p[0]] + p[1..];
    }
  }

  /** Joining one more part adds the separator and the part. */
  lemma {:induction false} JoinSnoc(parts: seq<string>, x: string, sep: string)
    requires parts != []
    ensures Join(parts + [x], sep) == Join(parts, sep) + sep + x
  {
    if |parts| == 1 {
      assert (parts + [x])[1..] == [x];
    } else {
      JoinSnoc(parts[1..], x, sep);
      assert (parts + [x])[1..] == parts[1..] + [x];
    }
  }

  // ---------------------------------------------------------------------------
  // the menu and the breadcrumbs

  datatype MenuItem = MenuItem(title: string, path: string)

  /** The sidebar menu, in order. */
  const Menu: seq<MenuItem> := [
    MenuItem("用户信息", "/admin/users"),
    MenuItem("充值管理", "/admin/recharge"),
    MenuItem("提款管理", "/admin/withdraw"),
    MenuItem("充值通道", "/admin/channels"),
    MenuItem("导师管理", "/admin/mentors"),
    MenuItem("跟单审核", "/admin/copytrade"),
    MenuItem("上股管理", "/admin/stocks")
  ]

  /** `menuItems.find((m) => m.path.includes(segment))`: the first item
      whose path contains the segment, if any. */
  function FindItem(items: seq<MenuItem>, segment: string): (r: Option<nat>)
    ensures r.Some? ==> r.value < |items| && Includes(items[r.value].path, segment)
    ensures r.Some? ==> forall j :: 0 <= j < r.value ==> !Includes(items[j].path, segment)
    ensures r.None? <==> forall j :: 0 <= j < |items| ==> !Includes(items[j].path, segment)
  {
    if items == [] then None
    else if Includes(items[0].path, segment) then Some(0)
    else match FindItem(items[1..], segment)
      case None => None
      case Some(k) => Some(k + 1)
  }

  /** `matched?.label || segment`. */
  function CrumbLabel(segment: string): (title: string)
    ensures FindItem(Menu, segment).None? ==> title == segment
    ensures FindItem(Menu, segment).Some? && Menu[FindItem(Menu, segment).value].title != "" ==>
      title == Menu[FindItem(Menu, segment).value].title
  {
    match FindItem(Menu, segment)
    case None => segment
    case Some(k) => if Menu[k].title != "" then Menu[k].title else segment
  }

  /** A segment holding a character the path lacks is not contained in it. */
  lemma MissingCharNoMatch(path: string, segment: string, k: nat)
    requires k < |segment| && segment[k] !in path
    ensures !Includes(path, segment)
  {
  }

  /** The match is by containment, not equality: a part of a menu path
      finds that item. */
  lemma ContainmentMatches()
    ensures CrumbLabel("users") == "用户信息"
    ensures CrumbLabel("user") == "用户信息"
  {
    assert OccursAt(Menu[0].path, "users", 7);
    assert OccursAt(Menu[0].path, "user", 7);
  }

  /** A path made of lower-case letters and slashes. */
  predicate LettersAndSlashes(path: string)
  {
    forall i :: 0 <= i < |path| ==> path[i] == '/' || 'a' <= path[i] <= 'z'
  }

  lemma MenuPathsAreWords()
    ensures forall j :: 0 <= j < |Menu| ==> LettersAndSlashes(Menu[j].path)
  {
    forall j | 0 <= j < |Menu| ensures LettersAndSlashes(Menu[j].path) {
      WordPath(Menu[j].path);
    }
  }

  /** A menu path is "/admin/" and a word. */
  lemma WordPath(path: string)
    requires path in {"/admin/users", "/admin/recharge", "/admin/withdraw", "/admin/channels",
                      "/admin/mentors", "/admin/copytrade", "/admin/stocks"}
    ensures LettersAndSlashes(path)
  {
  }

  /** A segment starting with a digit, such as a record id, matches no menu
      item and labels itself. */
  lemma IdSegmentLabelsItself(segment: string)
    requires segment != [] && '0' <= segment[0] <= '9'
    ensures CrumbLabel(segment) == segment
  {
    MenuPathsAreWords();
    forall j | 0 <= j < |Menu| ensures !Includes(Menu[j].path, segment) {
      MissingCharNoMatch(Menu[j].path, segment, 0);
    }
  }

  datatype Crumb = Crumb(title: string, path: string)

  /** The path's segments the breadcrumbs show: none empty, none "admin". */
  function Segments(pathname: string): (r: seq<string>)
    ensures forall i :: 0 <= i < |r| ==> r[i] != "" && r[i] != "admin" && '/' !in r[i]
  {
    var pieces := Split(pathname, '/');
    FilterKeepsPassing(pieces, IsShownSegment);
    Filter(pieces, IsShownSegment)
  }

  /** `(p) => p && p !== "admin"`. */
  predicate IsShownSegment(p: string)
  {
    p != "" && p != "admin"
  }

  /** The segments of a path made of pieces are the pieces that are neither
      empty nor "admin", in order. */
  lemma SegmentsOfJoin(parts: seq<string>)
    requires |parts| >= 1 && forall i :: 0 <= i < |parts| ==> '/' !in parts[i]
    ensures Segments(Join(parts, "/")) == Filter(parts, IsShownSegment)
  {
    SplitJoin(parts, '/');
  }

  /** The breadcrumbs: one per segment, labelled from the menu, each linking
      to "/admin/" and the segments up to it. */
  function Breadcrumbs(pathname: string): (r: seq<Crumb>)
    ensures |r| == |Segments(pathname)|
    ensures forall i :: 0 <= i < |r| ==>
      r[i].title == CrumbLabel(Segments(pathname)[i]) && r[i].path == "/admin/" + Join(Segments(pathname)[..i + 1], "/")
  {
    CrumbsOf(Segments(pathname))
  }

  /** One crumb per segment. */
  function CrumbsOf(segs: seq<string>): (r: seq<Crumb>)
    ensures |r| == |segs|
    ensures forall i :: 0 <= i < |r| ==> r[i].title == CrumbLabel(segs[i])
    ensures forall i :: 0 <= i < |r| ==> r[i].path == CrumbPath(segs, i)
  {
    seq(|segs|, i requires 0 <= i < |segs| => Crumb(CrumbLabel(segs[i]), CrumbPath(segs, i)))
  }

  /** `"/admin/" + arr.slice(0, idx + 1).join("/")`. */
  function CrumbPath(segs: seq<string>, i: nat): string
    requires i < |segs|
  {
    "/admin/" + Join(segs[..i + 1], "/")
  }

  /** Each crumb path extends the one before by "/" and its segment. */
  lemma {:induction false} CrumbPathExtends(segs: seq<string>, i: nat)
    requires 0 < i < |segs|
    ensures CrumbPath(segs, i) == CrumbPath(segs, i - 1) + "/" + segs[i]
  {
    assert segs[..i + 1] == segs[..i] + [segs[i]];
    JoinSnoc(segs[..i], segs[i], "/");
  }

  /** Each crumb's link extends the previous one by "/" and its segment; the
      first is "/admin/" and the first segment. */
  lemma CrumbPathsNest(pathname: string)
    ensures var r, segs := Breadcrumbs(pathname), Segments(pathname);
      && (|r| > 0 ==> r[0].path == "/admin/" + segs[0])
      && forall i :: 0 < i < |r| ==> r[i].path == r[i - 1].path + "/" + segs[i]
  {
    var segs := Segments(pathname);
    if |segs| > 0 {
      assert segs[..1] == [segs[0]];
    }
    forall i | 0 < i < |segs| ensures CrumbPath(segs, i) == CrumbPath(segs, i - 1) + "/" + segs[i] {
      CrumbPathExtends(segs, i);
    }
  }

  /** The leading empty piece and "admin" are dropped: "/admin/recharge"
      has the one segment "recharge". */
  lemma AdminSegmentsDropped()
    ensures Segments(Join(["", "admin", "recharge"], "/")) == ["recharge"]
  {
    SegmentsOfJoin(["", "admin", "recharge"]);
    assert ["", "admin", "recharge"][1..] == ["admin", "recharge"];
    assert ["admin", "recharge"][1..] == ["recharge"];
  }

  /** "/admin/" has no segment, so no breadcrumb. */
  lemma RootHasNoSegments()
    ensures Segments(Join(["", "admin", ""], "/")) == []
  {
    SegmentsOfJoin(["", "admin", ""]);
    assert ["", "admin", ""][1..] == ["admin", ""];
    assert ["admin", ""][1..] == [""];
  }

  /** Every "admin" segment is dropped, not only the first. */
  lemma EveryAdminSegmentDropped()
    ensures Segments(Join(["", "admin", "users", "admin"], "/")) == ["users"]
  {
    SegmentsOfJoin(["", "admin", "users", "admin"]);
    assert ["", "admin", "users", "admin"][1..] == ["admin", "users", "admin"];
    assert ["admin", "users", "admin"][1..] == ["users", "admin"];
    assert ["users", "admin"][1..] == ["admin"];
  }

  /** Joining the pieces of the recharge page gives its path. */
  lemma RechargePath()
    ensures Join(["", "admin", "recharge"], "/") == "/admin/recharge"
  {
    assert ["", "admin", "recharge"][1..] == ["admin", "recharge"];
    assert ["admin", "recharge"][1..] == ["recharge"];
  }

  /** A path with one segment left has one crumb, linking to that segment. */
  lemma SingleCrumb(pathname: string, segment: string)
    requires Segments(pathname) == [segment]
    ensures Breadcrumbs(pathname) == [Crumb(CrumbLabel(segment), "/admin/" + segment)]
  {
    var r := Breadcrumbs(pathname);
    assert [segment][..1] == [segment];
    assert r == [r[0]];
  }

  /** The recharge segment is labelled with the recharge item. */
  lemma RechargeLabel()
    ensures CrumbLabel("recharge") == "充值管理"
  {
    MissingCharNoMatch(Menu[0].path, "recharge", 3);
    assert OccursAt(Menu[1].path, "recharge", 7);
  }

  /** A breadcrumb as rendered: a link, or the current page's plain label. */
  datatype CrumbView = Linked(title: string, to: string) | Current(title: string)

  /** Every crumb but the last is a link. */
  function Render(crumbs: seq<Crumb>): (r: seq<CrumbView>)
    ensures |r| == |crumbs|
    ensures forall i :: 0 <= i < |r| ==> r[i].title == crumbs[i].title
    ensures forall i :: 0 <= i < |r| ==> (r[i].Current? <==> i == |crumbs| - 1)
    ensures forall i :: 0 <= i < |r| && r[i].Linked? ==> r[i].to == crumbs[i].path
  {
    seq(|crumbs|, i requires 0 <= i < |crumbs| =>
      if i == |crumbs| - 1 then Current(crumbs[i].title) else Linked(crumbs[i].title, crumbs[i].path))
  }

  // ---------------------------------------------------------------------------
  // the guard and logging out

  const AdminFlag := "adminLoggedIn"
  const AdminLogin := "/admin-login"

  /** The login guard: where the dashboard sends the visitor, if anywhere.
      Only the exact value "true" of the flag lets them stay. */
  function Guard(storage: map<string, string>): (redirect: Option<string>)
    ensures redirect.None? <==> AdminFlag in storage && storage[AdminFlag] == "true"
    ensures redirect.Some? ==> redirect.value == AdminLogin
  {
    if AdminFlag in storage && storage[AdminFlag] == "true" then None else Some(AdminLogin)
  }

  /** handleLogout: the flag is removed and the visitor is sent to the admin
      login. */
  function Logout(storage: map<string, string>): (r: (map<string, string>, string))
    ensures AdminFlag !in r.0 && r.1 == AdminLogin
    ensures forall k :: k in storage && k != AdminFlag ==> k in r.0 && r.0[k] == storage[k]
    ensures forall k :: k in r.0 ==> k in storage
  {
    (storage - {AdminFlag}, AdminLogin)
  }

  /** After logging out, the guard turns the visitor away. */
  lemma LogoutLocksOut(storage: map<string, string>)
    ensures Guard(Logout(storage).0) == Some(AdminLogin)
  {
  }
}
