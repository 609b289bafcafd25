/**
 Value objects of the task domain: the status and priority enumerations with
 their text values, the status transition table, and the text rules of titles,
 descriptions and labels.
 */
module ValueObjects {
  import opened Wrappers

  datatype TaskPriority = Low | Medium | High | Critical {

    /** The value of the enumeration member; parsing it gives the member back. */
    function Text(): (s: string)
      ensures ParsePriority(s) == Some(this)
    {
      assert "low"[0] != "high"[0];
      match this
      case Low => "low"
      case Medium => "medium"
      case High => "high"
      case Critical => "critical"
    }
  }

  function ParsePriority(s: string): Option<TaskPriority> {
    if s == "low" then Some(Low)
    else if s == "medium" then Some(Medium)
    else if s == "high" then Some(High)
    else if s == "critical" then Some(Critical)
    else None
  }

  datatype TaskStatus = Backlog | Todo | InProgress | InReview | Done | Archived {

    /** The value of the enumeration member; parsing it gives the member back. */
    function Text(): (s: string)
      ensures ParseStatus(s) == Some(this)
      ensures s != ""
    {
      assert "todo"[0] != "done"[0];
      match this
      case Backlog => "backlog"
      case Todo => "todo"
      case InProgress => "in_progress"
      case InReview => "in_review"
      case Done => "done"
      case Archived => "archived"
    }

    predicate CanTransitionTo(target: TaskStatus) {
      match this
      case Backlog => target == Todo || target == Archived
      case Todo => target == InProgress || target == Backlog || target == Archived
      case InProgress => target == InReview || target == Todo || target == Done
      case InReview => target == Done || target == InProgress || target == Todo
      case Done => target == Archived || target == Todo
      case Archived => target == Backlog
    }
  }

  /** The place of a status on the way from BACKLOG to ARCHIVED. */
  function Place(s: TaskStatus): int {
    match s
    case Backlog => 0
    case Todo => 1
    case InProgress => 2
    case InReview => 3
    case Done => 4
    case Archived => 5
  }

  /**
   The transition table: one place on, from ARCHIVED back to the start; one place
   back before DONE; to ARCHIVED before work starts; to DONE without a review;
   and back to TODO from IN_REVIEW or DONE.
   */
  lemma TransitionTable(s: TaskStatus, t: TaskStatus)
    ensures s.CanTransitionTo(t) <==>
      || Place(t) == (Place(s) + 1) % 6
      || (Place(t) == Place(s) - 1 && Place(s) <= 3)
      || (t == Archived && Place(s) <= 1)
      || (s == InProgress && t == Done)
      || (t == Todo && (s == InReview || s == Done))
  {
  }

  /** `path` leads from `s` to `t` by allowed transitions. */
  predicate Leads(s: TaskStatus, path: seq<TaskStatus>, t: TaskStatus)
    decreases |path|
  {
    if path == [] then s == t else s.CanTransitionTo(path[0]) && Leads(path[0], path[1..], t)
  }

  function StatusAt(place: int): TaskStatus
    requires 0 <= place < 6
  {
    [Backlog, Todo, InProgress, InReview, Done, Archived][place]
  }

  /** Every status can be reached from every status, in at most five moves. */
  lemma {:induction false} EveryStatusIsReachable(s: TaskStatus, t: TaskStatus) returns (path: seq<TaskStatus>)
    ensures Leads(s, path, t) && |path| == (Place(t) - Place(s)) % 6
    decreases (Place(t) - Place(s)) % 6
  {
    path := [];
    if s != t {
      var next := StatusAt((Place(s) + 1) % 6);
      TransitionTable(s, next);
      var rest := EveryStatusIsReachable(next, t);
      path := [next] + rest;
      assert path[1..] == rest;
    }
  }

  function ParseStatus(s: string): Option<TaskStatus> {
    if s == "backlog" then Some(Backlog)
    else if s == "todo" then Some(Todo)
    else if s == "in_progress" then Some(InProgress)
    else if s == "in_review" then Some(InReview)
    else if s == "done" then Some(Done)
    else if s == "archived" then Some(Archived)
    else None
  }

  /** A due date: a point in time, and whether it carries a time zone. */
  datatype DateTime = DateTime(instant: int, zoned: bool)

  // ---------- text ----------

  /** The characters for which Python's `isspace` holds. */
  predicate IsSpace(c: char) {
    var n := c as int;
    || 0x09 <= n <= 0x0D || 0x1C <= n <= 0x20 || n == 0x85 || n == 0xA0 || n == 0x1680
    || 0x2000 <= n <= 0x200A || n == 0x2028 || n == 0x2029 || n == 0x202F || n == 0x205F || n == 0x3000
  }

  predicate AllSpace(s: string) {
    forall i :: 0 <= i < |s| ==> IsSpace(s[i])
  }

  function StripLeft(s: string): (r: string)
    ensures |r| <= |s|
    ensures r != [] ==> !IsSpace(r[0])
    ensures r == [] <==> AllSpace(s)
    ensures |s| > 0 && !IsSpace(s[|s| - 1]) ==> r != [] && r[|r| - 1] == s[|s| - 1]
    ensures s != [] && !IsSpace(s[0]) ==> r == s
  {
    if s != [] && IsSpace(s[0]) then
      assert s == [s[0]] + s[1..];
      StripLeft(s[1..])
    else s
  }

  function StripRight(s: string): (r: string)
    ensures |r| <= |s|
    ensures r != [] ==> !IsSpace(r[|r| - 1])
    ensures r == [] <==> AllSpace(s)
    ensures |s| > 0 && !IsSpace(s[0]) ==> r != [] && r[0] == s[0]
    ensures s != [] && !IsSpace(s[|s| - 1]) ==> r == s
  {
    if s != [] && IsSpace(s[|s| - 1]) then
      assert s == s[..|s| - 1] + [s[|s| - 1]];
      StripRight(s[..|s| - 1])
    else s
  }

  /** Python's `str.strip()`: nothing but surrounding white space goes, and stripping again changes nothing. */
  function Strip(s: string): (r: string)
    ensures |r| <= |s|
    ensures r == [] <==> AllSpace(s)
    ensures r != [] ==> !IsSpace(r[0]) && !IsSpace(r[|r| - 1])
  {
    StripRight(StripLeft(s))
  }

  lemma {:induction false} LeftIsASlice(s: string) returns (i: nat)
    ensures i <= |s| && StripLeft(s) == s[i..] && AllSpace(s[..i])
  {
    i := 0;
    if s != [] && IsSpace(s[0]) {
      var k := LeftIsASlice(s[1..]);
      i := k + 1;
      assert s[1..][k..] == s[i..];
      assert forall m :: 1 <= m < i ==> s[..i][m] == s[1..][..k][m - 1];
    }
  }

  lemma {:induction false} RightIsASlice(s: string) returns (j: nat)
    ensures j <= |s| && StripRight(s) == s[..j] && AllSpace(s[j..])
  {
    j := |s|;
    if s != [] && IsSpace(s[|s| - 1]) {
      j := RightIsASlice(s[..|s| - 1]);
      assert s[..|s| - 1][..j] == s[..j];
      assert s[j..] == s[..|s| - 1][j..] + [s[|s| - 1]];
    }
  }

  /** What is stripped is white space at the two ends; everything in between is kept. */
  lemma StripIsASlice(s: string) returns (i: nat, j: nat)
    ensures i <= j <= |s| && Strip(s) == s[i..j]
    ensures AllSpace(s[..i]) && AllSpace(s[j..])
  {
    hide AllSpace;
    i := LeftIsASlice(s);
    var k := RightIsASlice(s[i..]);
    j := i + k;
    assert s[i..][..k] == s[i..j] && s[i..][k..] == s[j..];
  }

  lemma StripTwice(s: string)
    ensures Strip(Strip(s)) == Strip(s)
  {
    var r := Strip(s);
    if r == [] {
      assert StripLeft(r) == [];
    } else {
      assert StripLeft(r) == r;
    }
  }

  predicate ValidTitle(t: string) {
    3 <= |t| <= 200 && !AllSpace(t)
  }

  /** A title that passes the rule fails it after stripping exactly when fewer than three characters remain. */
  lemma StrippedTitleRule(t: string)
    requires ValidTitle(t)
    ensures ValidTitle(Strip(t)) <==> |Strip(t)| >= 3
  {
    var r := Strip(t);
    assert r != [] && !IsSpace(r[0]);
  }

  predicate ValidDescription(d: string) {
    |d| <= 5000
  }

  predicate IsAlnum(c: char) {
    '0' <= c <= '9' || 'a' <= c <= 'z' || 'A' <= c <= 'Z'
  }

  /** One to fifty characters, alphanumeric apart from hyphens and underscores, and not only those two. */
  predicate ValidLabel(l: string) {
    && 1 <= |l| <= 50
    && (forall i :: 0 <= i < |l| ==> IsAlnum(l[i]) || l[i] == '-' || l[i] == '_')
    && (exists i :: 0 <= i < |l| && IsAlnum(l[i]))
  }

  /** Python's `s.replace('-', '').replace('_', '')`. */
  function WithoutDashes(s: string): string {
    if s == [] then []
    else (if s[0] == '-' || s[0] == '_' then [] else [s[0]]) + WithoutDashes(s[1..])
  }

  lemma {:induction false} DashesGone(s: string)
    ensures (forall i :: 0 <= i < |WithoutDashes(s)| ==> IsAlnum(WithoutDashes(s)[i])) <==>
            (forall i :: 0 <= i < |s| ==> IsAlnum(s[i]) || s[i] == '-' || s[i] == '_')
    ensures WithoutDashes(s) == [] <==> forall i :: 0 <= i < |s| ==> s[i] == '-' || s[i] == '_'
  {
    if s != [] {
      DashesGone(s[1..]);
      assert s == [s[0]] + s[1..];
      var rest, all := WithoutDashes(s[1..]), WithoutDashes(s);
      if s[0] == '-' || s[0] == '_' {
        assert all == rest;
      } else {
        assert all == [s[0]] + rest;
        assert all[0] == s[0] && forall i :: 0 <= i < |rest| ==> all[i + 1] == rest[i];
      }
    }
  }

  /** The label rule is the one the code checks: what is left without hyphens and underscores is not empty and all alphanumeric. */
  lemma LabelRule(l: string)
    ensures ValidLabel(l) <==>
      && 1 <= |l| <= 50
      && WithoutDashes(l) != [] && forall i :: 0 <= i < |WithoutDashes(l)| ==> IsAlnum(WithoutDashes(l)[i])
  {
    DashesGone(l);
    if ValidLabel(l) {
      var i :| 0 <= i < |l| && IsAlnum(l[i]);
      assert l[i] != '-' && l[i] != '_';
    }
  }

  predicate ValidLabels(ls: seq<string>) {
    forall i :: 0 <= i < |ls| ==> ValidLabel(ls[i])
  }

  function LowerChar(c: char): char {
    if 'A' <= c <= 'Z' then (c as int + 32) as char else c
  }

  function Lower(s: string): string {
    seq(|s|, i requires 0 <= i < |s| => LowerChar(s[i]))
  }

  function LowerAll(ls: seq<string>): seq<string> {
    seq(|ls|, i requires 0 <= i < |ls| => Lower(ls[i]))
  }

  /** Lower-casing keeps labels valid and is idempotent, so a label list stored by an update reads back as stored. */
  lemma LowerKeepsLabels(ls: seq<string>)
    requires ValidLabels(ls)
    ensures ValidLabels(LowerAll(ls))
    ensures LowerAll(LowerAll(ls)) == LowerAll(ls)
    ensures forall i, j :: 0 <= i < |ls| && 0 <= j < |ls[i]| ==>
      && |LowerAll(ls)[i]| == |ls[i]|
      && !('A' <= LowerAll(ls)[i][j] <= 'Z')
      && LowerAll(ls)[i][j] as int == ls[i][j] as int + (if 'A' <= ls[i][j] <= 'Z' then 32 else 0)
  {
    forall k | 0 <= k < |ls|
      ensures ValidLabel(Lower(ls[k])) && Lower(Lower(ls[k])) == Lower(ls[k])
    {
      var l := ls[k];
      var i :| 0 <= i < |l| && IsAlnum(l[i]);
      assert IsAlnum(Lower(l)[i]);
      assert Lower(Lower(l)) == Lower(l);
    }
  }
}
