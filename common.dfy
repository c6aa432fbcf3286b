/** Values and string operations shared by the page handlers: the JavaScript
    number produced by parseFloat, option values, and the handful of
    String.prototype methods the handlers rely on (trim, toLowerCase,
    toUpperCase, startsWith, endsWith, includes, slice). */
module Common {

  datatype Option<+T> = None | Some(value: T)

  /** A value, or the message of the failure that prevented it. */
  datatype Result<+T> = Ok(value: T) | Err(error: string)

  /** A JavaScript number as parseFloat or Number() returns it: NaN or a
      finite value. Infinities are not modelled. */
  datatype JsNumber = NaN | Num(value: real)

  /** `x || 0` on a parsed number: NaN (and 0 itself) read as 0. */
  function OrZero(n: JsNumber): (r: real)
    ensures n.NaN? ==> r == 0.0
    ensures n.Num? ==> r == n.value
  {
    match n
    case NaN => 0.0
    case Num(v) => v
  }

  /** JavaScript comparisons with NaN are false. */
  predicate LessThan(a: JsNumber, b: real) { a.Num? && a.value < b }
  predicate AtMost(a: JsNumber, b: real) { a.Num? && a.value <= b }
  predicate GreaterThan(a: JsNumber, b: real) { a.Num? && a.value > b }

  // ---------------------------------------------------------------------------
  // Characters

  /** White space as String.prototype.trim removes it: the ASCII tab, line
      feed, vertical tab, form feed, carriage return and space, the
      byte-order mark, the line and paragraph separators, and every space
      separator of Unicode's category Zs (no-break space, ogham space mark,
      en quad to hair space, narrow no-break space, medium mathematical
      space, ideographic space). */
  predicate IsSpace(c: char)
  {
    c == ' ' || c == '\t' || c == '\n' || c == '\r' || c == '\U{B}' || c == '\U{C}'
    || c == '\U{A0}' || c == '\U{FEFF}' || c == '\U{2028}' || c == '\U{2029}'
    || c == '\U{1680}' || '\U{2000}' <= c <= '\U{200A}' || c == '\U{202F}'
    || c == '\U{205F}' || c == '\U{3000}'
  }

  function LowerChar(c: char): (r: char)
    ensures !('A' <= r <= 'Z')
    ensures 'a' <= c <= 'z' ==> r == c
  {
    if 'A' <= c <= 'Z' then (c as int + 32) as char else c
  }

  function UpperChar(c: char): (r: char)
    ensures !('a' <= r <= 'z')
    ensures 'A' <= c <= 'Z' || '0' <= c <= '9' ==> r == c
  {
    if 'a' <= c <= 'z' then (c as int - 32) as char else c
  }

  function ToLower(s: string): (r: string)
    ensures |r| == |s|
    ensures forall i :: 0 <= i < |s| ==> r[i] == LowerChar(s[i])
  {
    if s == [] then [] else [LowerChar(s[0])] + ToLower(s[1..])
  }

  function ToUpper(s: string): (r: string)
    ensures |r| == |s|
    ensures forall i :: 0 <= i < |s| ==> r[i] == UpperChar(s[i])
  {
    if s == [] then [] else [UpperChar(s[0])] + ToUpper(s[1..])
  }

  // ---------------------------------------------------------------------------
  // trim

  /** The number of white-space characters at the front of `s`. */
  function LeadingSpaces(s: string): (n: nat)
    ensures n <= |s|
    ensures n < |s| ==> !IsSpace(s[n])
  {
    if s != [] && IsSpace(s[0]) then 1 + LeadingSpaces(s[1..]) else 0
  }

  /** The number of white-space characters at the back of `s`. */
  function TrailingSpaces(s: string): (n: nat)
    ensures n <= |s|
    ensures n < |s| ==> !IsSpace(s[|s| - 1 - n])
  {
    if s != [] && IsSpace(s[|s| - 1]) then 1 + TrailingSpaces(s[..|s| - 1]) else 0
  }

  /** What LeadingSpaces counts is white space. */
  lemma {:induction false} LeadingAreSpaces(s: string)
    ensures forall i :: 0 <= i < LeadingSpaces(s) ==> IsSpace(s[i])
  {
    if s != [] && IsSpace(s[0]) {
      LeadingAreSpaces(s[1..]);
      forall i | 1 <= i < LeadingSpaces(s) ensures IsSpace(s[i]) {
        assert s[i] == s[1..][i - 1];
      }
    }
  }

  /** What TrailingSpaces counts is white space. */
  lemma {:induction false} TrailingAreSpaces(s: string)
    ensures forall i :: |s| - TrailingSpaces(s) <= i < |s| ==> IsSpace(s[i])
  {
    if s != [] && IsSpace(s[|s| - 1]) {
      TrailingAreSpaces(s[..|s| - 1]);
    }
  }

  /** Every character of `t` is white space. */
  predicate AllSpace(t: string)
  {
    forall i :: 0 <= i < |t| ==> IsSpace(t[i])
  }

  function TrimStart(s: string): string
  {
    s[LeadingSpaces(s)..]
  }

  function TrimEnd(s: string): string
  {
    s[..|s| - TrailingSpaces(s)]
  }

  /** String.prototype.trim: the input without its leading and trailing
      white space; the characters kept are a contiguous slice of the input. */
  function Trim(s: string): (r: string)
    ensures r != [] ==> !IsSpace(r[0]) && !IsSpace(r[|r| - 1])
    ensures Includes(s, r)
  {
    var t := TrimStart(s);
    var r := TrimEnd(t);
    assert OccursAt(s, r, LeadingSpaces(s));
    r
  }

  /** Trimming removes white space and nothing else: the input is its
      leading white space, the trimmed string and its trailing white
      space, in that order. */
  lemma TrimParts(s: string)
    ensures var n := LeadingSpaces(s);
      var r := Trim(s);
      && n + |r| <= |s|
      && s == s[..n] + r + s[n + |r|..]
      && AllSpace(s[..n]) && AllSpace(s[n + |r|..])
  {
    var n := LeadingSpaces(s);
    var t := TrimStart(s);
    var r := TrimEnd(t);
    assert Trim(s) == r;
    LeadingPartIsSpace(s);
    TrailingPartIsSpace(t);
    SplitAt(s, n, |r|);
    assert s[n..n + |r|] == r;
    assert s[n + |r|..] == t[|r|..];
  }

  /** A string is its three consecutive slices. */
  lemma SplitAt(s: string, i: nat, k: nat)
    requires i + k <= |s|
    ensures s == s[..i] + s[i..i + k] + s[i + k..]
  {
  }

  lemma LeadingPartIsSpace(s: string)
    ensures AllSpace(s[..LeadingSpaces(s)])
  {
    LeadingAreSpaces(s);
    var n := LeadingSpaces(s);
    forall i | 0 <= i < n ensures IsSpace(s[..n][i]) { assert s[..n][i] == s[i]; }
  }

  lemma TrailingPartIsSpace(t: string)
    ensures AllSpace(t[|t| - TrailingSpaces(t)..])
  {
    TrailingAreSpaces(t);
    var k := |t| - TrailingSpaces(t);
    forall i | 0 <= i < |t| - k ensures IsSpace(t[k..][i]) { assert t[k..][i] == t[k + i]; }
  }

  /** One white-space character on either side of a string with no white
      space at its ends is trimmed away. */
  lemma TrimPadded(a: char, t: string, b: char)
    requires IsSpace(a) && IsSpace(b)
    requires t != [] && !IsSpace(t[0]) && !IsSpace(t[|t| - 1])
    ensures Trim([a] + t + [b]) == t
  {
    var padded := [a] + t + [b];
    assert padded[1..] == t + [b];
    assert LeadingSpaces(padded[1..]) == 0;
    assert TrimStart(padded) == t + [b];
    assert TrailingSpaces((t + [b])[..|t|]) == 0 by {
      assert (t + [b])[..|t|] == t;
    }
    assert TrimEnd(t + [b]) == t;
  }

  /** A trimmed string is blank exactly when every character was white space. */
  lemma {:induction false} TrimBlankIff(s: string)
    ensures Trim(s) == [] <==> forall i :: 0 <= i < |s| ==> IsSpace(s[i])
  {
    var t := TrimStart(s);
    LeadingAreSpaces(s);
    TrailingAreSpaces(t);
    if Trim(s) != [] {
      assert Trim(s)[0] == s[LeadingSpaces(s)];
    }
  }

  /** Trimming twice is trimming once. */
  lemma TrimIdempotent(s: string)
    ensures Trim(Trim(s)) == Trim(s)
  {
    var r := Trim(s);
    if r != [] {
      assert TrimStart(r) == r;
      assert TrimEnd(r) == r;
    }
  }

  // ---------------------------------------------------------------------------
  // prefixes, suffixes, infixes

  predicate StartsWith(s: string, p: string) { |p| <= |s| && s[..|p|] == p }

  predicate EndsWith(s: string, p: string) { |p| <= |s| && s[|s| - |p|..] == p }

  /** `sub` occurs in `s` starting at position `i`. */
  predicate OccursAt(s: string, sub: string, i: int)
  {
    0 <= i <= |s| - |sub| && s[i..i + |sub|] == sub
  }

  /** String.prototype.includes: `sub` occurs somewhere in `s`. */
  predicate Includes(s: string, sub: string)
  {
    exists i | 0 <= i <= |s| - |sub| :: OccursAt(s, sub, i)
  }

  lemma OccursAtTail(s: string, sub: string, i: nat)
    requires s != []
    ensures OccursAt(s[1..], sub, i) <==> OccursAt(s, sub, i + 1)
  {
    if 0 <= i <= |s| - 1 - |sub| {
      assert s[1..][i..i + |sub|] == s[i + 1..i + 1 + |sub|];
    }
  }

  /** An occurrence is either at the front or in the tail. */
  lemma IncludesUnfold(s: string, sub: string)
    requires s != []
    ensures Includes(s, sub) ==> OccursAt(s, sub, 0) || Includes(s[1..], sub)
    ensures OccursAt(s, sub, 0) ==> Includes(s, sub)
    ensures Includes(s[1..], sub) ==> Includes(s, sub)
  {
    if Includes(s, sub) {
      var i :| OccursAt(s, sub, i);
      assert OccursAt(s, sub, i);
      if i > 0 {
        OccursAtTail(s, sub, i - 1);
        assert OccursAt(s[1..], sub, i - 1);
      }
    }
    if Includes(s[1..], sub) {
      var i :| OccursAt(s[1..], sub, i);
      assert OccursAt(s[1..], sub, i);
      assert i >= 0;
      OccursAtTail(s, sub, i);
      assert OccursAt(s, sub, i + 1);
    }
  }

  /** First position of `sub` in `s`, as String.prototype.indexOf finds it. */
  function IndexOf(s: string, sub: string): (r: Option<nat>)
    ensures r.Some? ==> OccursAt(s, sub, r.value)
    ensures r.Some? ==> forall j :: 0 <= j < r.value ==> !OccursAt(s, sub, j)
    ensures r.None? <==> !Includes(s, sub)
    decreases |s|
  {
    if |sub| > |s| then None
    else if s[..|sub|] == sub then
      assert OccursAt(s, sub, 0);
      Some(0)
    else
      IncludesUnfold(s, sub);
      match IndexOf(s[1..], sub)
      case None => None
      case Some(k) =>
        OccursAtTail(s, sub, k);
        assert forall j :: 1 <= j < k + 1 ==> !OccursAt(s, sub, j) by {
          forall j | 1 <= j < k + 1 ensures !OccursAt(s, sub, j) { OccursAtTail(s, sub, j - 1); }
        }
        Some(k + 1)
  }

  /** String.prototype.replace with a string pattern: the first occurrence
      only is removed/replaced. */
  function ReplaceFirst(s: string, pat: string, repl: string): (r: string)
    ensures !Includes(s, pat) ==> r == s
    ensures Includes(s, pat) ==> |r| == |s| - |pat| + |repl|
    ensures Includes(s, pat) ==>
      exists k :: OccursAt(s, pat, k) && (forall j :: 0 <= j < k ==> !OccursAt(s, pat, j))
                  && r == s[..k] + repl + s[k + |pat|..]
  {
    match IndexOf(s, pat)
    case None => s
    case Some(k) => s[..k] + repl + s[k + |pat|..]
  }

  // ---------------------------------------------------------------------------
  // Array.prototype.filter

  /** `r` is `s` with some elements dropped and the rest kept in order. */
  ghost predicate Subsequence<T>(r: seq<T>, s: seq<T>)
  {
    if r == [] then true
    else if s == [] then false
    else if r[0] == s[0] then Subsequence(r[1..], s[1..])
    else Subsequence(r, s[1..])
  }

  lemma {:induction false} SubsequenceOfSelf<T>(s: seq<T>)
    ensures Subsequence(s, s)
  {
    if s != [] { SubsequenceOfSelf(s[1..]); }
  }

  /** Array.prototype.filter. */
  function Filter<T>(s: seq<T>, keep: T -> bool): (r: seq<T>)
    ensures |r| <= |s|
    ensures forall i :: 0 <= i < |r| ==> keep(r[i])
  {
    if s == [] then []
    else if keep(s[0]) then [s[0]] + Filter(s[1..], keep)
    else Filter(s[1..], keep)
  }

  /** A filter keeps, in their order, exactly the elements that pass: each
      passing element as often as the input holds it, and no other. */
  lemma {:induction false} FilterKeepsPassing<T>(s: seq<T>, keep: T -> bool)
    ensures forall i :: 0 <= i < |Filter(s, keep)| ==> Filter(s, keep)[i] in s
    ensures forall i :: 0 <= i < |s| && keep(s[i]) ==> s[i] in Filter(s, keep)
    ensures forall x :: multiset(Filter(s, keep))[x] == if keep(x) then multiset(s)[x] else 0
    ensures Subsequence(Filter(s, keep), s)
  {
    if s != [] {
      FilterKeepsPassing(s[1..], keep);
      var r := Filter(s, keep);
      assert s == [s[0]] + s[1..];
      if keep(s[0]) {
        assert r == [s[0]] + Filter(s[1..], keep);
        assert r[1..] == Filter(s[1..], keep);
      }
      forall i | 0 <= i < |s| && keep(s[i]) ensures s[i] in r {
        if i > 0 { assert s[i] == s[1..][i - 1]; }
      }
    }
  }

  /** Filtering an extended sequence extends the filtered one. */
  lemma {:induction false} FilterSnoc<T>(s: seq<T>, x: T, keep: T -> bool)
    ensures Filter(s + [x], keep) == Filter(s, keep) + (if keep(x) then [x] else [])
  {
    if s != [] {
      assert (s + [x])[1..] == s[1..] + [x];
      FilterSnoc(s[1..], x, keep);
    }
  }

  /** Filtering with a predicate that holds everywhere keeps everything. */
  lemma {:induction false} FilterAll<T>(s: seq<T>, keep: T -> bool)
    requires forall i :: 0 <= i < |s| ==> keep(s[i])
    ensures Filter(s, keep) == s
  {
    if s != [] { FilterAll(s[1..], keep); }
  }
}
