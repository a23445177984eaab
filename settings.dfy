/** The settings page's derivations (apps/client/src/pages/Settings.tsx):
    the SQLite timestamp rewrite and relative-time text, audit-log paging,
    the users list updates, badge variants, the URL-hash tab mapping and the
    secret name fallback. Requests to the server are left to their callers:
    their outcome is an input. */
module Settings {
  import opened Wrappers
  import opened Decimal
  import opened Sequences

  // ---------------------------------------------------------------------
  // Timestamps

  /** The index of the first `c` in `s`, or `|s|` when there is none. */
  function FirstIndex(s: string, c: char): (i: nat)
    ensures i <= |s|
    ensures c !in s[..i]
    ensures i < |s| ==> s[i] == c
    ensures i == |s| <==> c !in s
  {
    if s == [] then 0
    else if s[0] == c then 0
    else
      var k := FirstIndex(s[1..], c);
      assert s[..k + 1] == [s[0]] + s[1..][..k];
      k + 1
  }

  /** `s.replace(from, to)` with a one-character string pattern: only the
      first occurrence is replaced. */
  function ReplaceFirst(s: string, from: char, to: char): (r: string)
    ensures |r| == |s|
    ensures from !in s ==> r == s
    ensures forall k :: 0 <= k < |s| && k != FirstIndex(s, from) ==> r[k] == s[k]
    ensures from in s ==> r[FirstIndex(s, from)] == to
  {
    var i := FirstIndex(s, from);
    if i < |s| then s[..i] + [to] + s[i + 1..] else s
  }

  /** Replacing back undoes the replacement when the new character did not
      occur before. */
  lemma ReplaceFirstUndo(s: string, from: char, to: char)
    requires to !in s
    ensures ReplaceFirst(ReplaceFirst(s, from, to), to, from) == s
  {
    var i := FirstIndex(s, from);
    if i < |s| {
      var r := ReplaceFirst(s, from, to);
      assert r[..i] == s[..i];
      assert r[i] == to;
      assert FirstIndex(r, to) == i;
    }
  }

  /** The text `parseUTCDate` hands to `new Date`: the first space becomes
      `T`, and `Z` marks the time as UTC. */
  function ParseUTCText(s: string): string {
    ReplaceFirst(s, ' ', 'T') + "Z"
  }

  /** The rewrite in plain terms: one character longer, ending in `Z`; when
      there is a space, it is the first one that becomes `T` and every other
      character stays; without a space only the `Z` is added. */
  lemma ParseUTCTextShape(s: string)
    ensures var r := ParseUTCText(s);
      |r| == |s| + 1 && r[|s|] == 'Z' && r[..|s|] == ReplaceFirst(s, ' ', 'T')
    ensures ' ' !in s ==> ParseUTCText(s) == s + "Z"
    ensures ' ' in s ==>
      (var i := FirstIndex(s, ' '); ' ' !in s[..i] && ParseUTCText(s) == s[..i] + "T" + s[i + 1..] + "Z")
  {
    var t := ReplaceFirst(s, ' ', 'T');
    assert (t + "Z")[..|s|] == t;
  }

  /** A SQLite `YYYY-MM-DD HH:MM:SS` text holds no `T`, so the rewrite can
      be undone: drop the `Z` and turn the first `T` back into a space. */
  lemma ParseUTCTextInvertible(s: string)
    requires 'T' !in s
    ensures var r := ParseUTCText(s); ReplaceFirst(r[..|r| - 1], 'T', ' ') == s
  {
    var t := ReplaceFirst(s, ' ', 'T');
    assert (t + "Z")[..|t|] == t;
    ReplaceFirstUndo(s, ' ', 'T');
  }

  // ---------------------------------------------------------------------
  // Relative time

  datatype TimeUnit = Minute | Hour | Day

  /** What `formatRelativeTime` shows: "just now", a count of units ago, or
      the locale date (left to the platform). */
  datatype RelativeTime = JustNow | Ago(count: nat, unit: TimeUnit) | LocaleDate

  function UnitSeconds(u: TimeUnit): nat {
    match u
    case Minute => 60
    case Hour => 3600
    case Day => 86400
  }

  /** The bucket for a difference of `diff` whole seconds. */
  function Bucket(diff: int): (r: RelativeTime)
    ensures r == JustNow <==> diff < 60
    ensures r.Ago? && r.unit == Minute <==> 60 <= diff < 3600
    ensures r.Ago? && r.unit == Hour <==> 3600 <= diff < 86400
    ensures r.Ago? && r.unit == Day <==> 86400 <= diff < 604800
    ensures r == LocaleDate <==> 604800 <= diff
    ensures r.Ago? ==> 1 <= r.count && r.count * UnitSeconds(r.unit) <= diff < (r.count + 1) * UnitSeconds(r.unit)
    ensures r.Ago? && r.unit == Minute ==> r.count < 60
    ensures r.Ago? && r.unit == Hour ==> r.count < 24
    ensures r.Ago? && r.unit == Day ==> r.count < 7
  {
    if diff < 60 then JustNow
    else if diff < 3600 then Ago(diff / 60, Minute)
    else if diff < 86400 then Ago(diff / 3600, Hour)
    else if diff < 604800 then Ago(diff / 86400, Day)
    else LocaleDate
  }

  /** `Math.floor(ms / 1000)`; Dafny's division by a positive divisor is the
      floor also for a negative dividend. */
  function ElapsedSeconds(elapsedMillis: int): (r: int)
    ensures r * 1000 <= elapsedMillis < (r + 1) * 1000
  {
    elapsedMillis / 1000
  }

  /** The bucket for `elapsedMillis` milliseconds between the timestamp and
      now (negative when the timestamp lies ahead). */
  function RelativeTimeOf(elapsedMillis: int): (r: RelativeTime)
    ensures r == JustNow <==> elapsedMillis < 60000
    ensures r == LocaleDate <==> elapsedMillis >= 604800000
  {
    Bucket(ElapsedSeconds(elapsedMillis))
  }

  function UnitName(u: TimeUnit): string {
    match u
    case Minute => "minute"
    case Hour => "hour"
    case Day => "day"
  }

  /** The unit word, with an `s` unless the count is exactly 1. */
  function UnitWord(u: TimeUnit, count: nat): (r: string)
    ensures |r| == |UnitName(u)| + (if count == 1 then 0 else 1)
    ensures r[..|UnitName(u)|] == UnitName(u)
    ensures r[|r| - 1] == 's' <==> count != 1
  {
    UnitName(u) + (if count == 1 then "" else "s")
  }

  /** The text shown, or None where the locale date is shown. */
  function FormatRelativeTime(elapsedMillis: int): (r: Option<string>)
    ensures r.None? <==> elapsedMillis >= 604800000
    ensures r == Some("just now") <==> elapsedMillis < 60000
  {
    match RelativeTimeOf(elapsedMillis)
    case JustNow => Some("just now")
    case Ago(count, u) => Some(Dec(count) + " " + UnitWord(u, count) + " ago")
    case LocaleDate => None
  }

  // ---------------------------------------------------------------------
  // Audit-log paging

  const PAGE_SIZE: nat := 20

  /** `Math.ceil(total / PAGE_SIZE)` */
  function TotalPages(total: nat): (r: nat)
    ensures (r - 1) * PAGE_SIZE < total <= r * PAGE_SIZE || (r == 0 && total == 0)
    ensures r == 0 <==> total == 0
  {
    (total + PAGE_SIZE - 1) / PAGE_SIZE
  }

  /** The pager is drawn only when there is more than one page, that is
      when there are more entries than fit on one. */
  lemma ShowPagerIff(total: nat)
    ensures TotalPages(total) > 1 <==> total > PAGE_SIZE
  {
  }

  /** "Prev": `Math.max(1, p - 1)` */
  function PrevPage(p: int): (r: int)
    ensures r >= 1
    ensures p > 1 ==> r == p - 1
    ensures p <= 1 ==> r == 1
  {
    if p - 1 > 1 then p - 1 else 1
  }

  /** "Next": `Math.min(totalPages, p + 1)` */
  function NextPage(p: int, totalPages: nat): (r: int)
    ensures r <= totalPages
    ensures p < totalPages ==> r == p + 1
    ensures p >= totalPages ==> r == totalPages
  {
    if totalPages < p + 1 then totalPages else p + 1
  }

  /** Both buttons keep a page in range in range, step by one away from the
      ends, and undo each other. */
  lemma PagingStaysInRange(p: int, totalPages: nat)
    requires 1 <= p <= totalPages
    ensures 1 <= PrevPage(p) <= totalPages && 1 <= NextPage(p, totalPages) <= totalPages
    ensures p == 1 <==> PrevPage(p) == p
    ensures p == totalPages <==> NextPage(p, totalPages) == p
    ensures p < totalPages ==> PrevPage(NextPage(p, totalPages)) == p
    ensures 1 < p ==> NextPage(PrevPage(p), totalPages) == p
  {
  }

  /** The audit table's page counter. */
  class AuditPager {
    var page: int
    var total: nat

    ghost predicate InRange()
      reads this
    {
      1 <= page <= TotalPages(total)
    }

    constructor ()
      ensures page == 1 && total == 0
    {
      page, total := 1, 0;
    }

    /** `setTotal(res.total || 0)` after a successful fetch. */
    method SetTotal(reported: Option<nat>)
      modifies this
      ensures total == reported.GetOr(0) && page == old(page)
    {
      total := reported.GetOr(0);
    }

    method Prev()
      modifies this
      ensures page == PrevPage(old(page)) && total == old(total)
      ensures old(InRange()) ==> InRange()
    {
      page := PrevPage(page);
    }

    method Next()
      modifies this
      ensures page == NextPage(old(page), TotalPages(total)) && total == old(total)
      ensures old(InRange()) ==> InRange()
    {
      page := NextPage(page, TotalPages(total));
    }
  }

  // ---------------------------------------------------------------------
  // Users

  datatype Role = Admin | Editor | Viewer | OtherRole(name: string)

  datatype User = User(id: int, email: string, fullName: string, role: Role, createdAt: string)

  /** The role-change updater: the users with that email get the new role. */
  function WithRole(users: seq<User>, email: string, role: Role): (r: seq<User>)
    ensures |r| == |users|
    ensures forall i :: 0 <= i < |r| ==>
      (r[i].email == users[i].email && r[i].id == users[i].id &&
       r[i].fullName == users[i].fullName && r[i].createdAt == users[i].createdAt)
    ensures forall i :: 0 <= i < |r| ==> r[i].role == (if users[i].email == email then role else users[i].role)
  {
    seq(|users|, i requires 0 <= i < |users| =>
      if users[i].email == email then users[i].(role := role) else users[i])
  }

  /** A second change for the same email overrides the first. */
  lemma WithRoleLastWins(users: seq<User>, email: string, first: Role, second: Role)
    ensures WithRole(WithRole(users, email, first), email, second) == WithRole(users, email, second)
  {
  }

  /** An email nobody has changes nothing. */
  lemma WithRoleUnknownEmail(users: seq<User>, email: string, role: Role)
    requires forall u :: u in users ==> u.email != email
    ensures WithRole(users, email, role) == users
  {
  }

  /** The delete updater: `users.filter(u => u.id !== id)`. */
  function WithoutUser(users: seq<User>, id: int): seq<User> {
    if users == [] then []
    else if users[0].id != id then [users[0]] + WithoutUser(users[1..], id)
    else WithoutUser(users[1..], id)
  }

  /** Deleting keeps exactly the users with another id, in order, and
      changes nothing when nobody has the id. */
  lemma {:induction false} WithoutUserSpec(users: seq<User>, id: int)
    ensures forall u :: u in WithoutUser(users, id) <==> u in users && u.id != id
    ensures IsSubsequence(WithoutUser(users, id), users)
    ensures (forall u :: u in users ==> u.id != id) ==> WithoutUser(users, id) == users
    decreases |users|
  {
    if users != [] {
      WithoutUserSpec(users[1..], id);
      var rest := WithoutUser(users[1..], id);
      assert forall u :: u in users <==> u == users[0] || u in users[1..];
      if users[0].id != id {
        assert ([users[0]] + rest)[1..] == rest;
      }
      if forall u :: u in users ==> u.id != id {
        assert [users[0]] + users[1..] == users;
      }
    }
  }

  /** Deleting keeps every other user as often as the list holds it, and
      no user with the id at all. */
  lemma {:induction false} WithoutUserCounts(users: seq<User>, id: int)
    ensures forall u :: multiset(WithoutUser(users, id))[u] == if u.id != id then multiset(users)[u] else 0
    decreases |users|
  {
    if users != [] {
      WithoutUserCounts(users[1..], id);
      assert users == [users[0]] + users[1..];
    }
  }

  function WithUser(users: seq<User>, created: User): (r: seq<User>)
    ensures |r| == |users| + 1 && r[..|users|] == users && r[|users|] == created
  {
    users + [created]
  }

  /** Deleting filters element by element, so it distributes over an append. */
  lemma {:induction false} WithoutUserAppend(users: seq<User>, created: User, id: int)
    ensures WithoutUser(WithUser(users, created), id) ==
      WithoutUser(users, id) + (if created.id != id then [created] else [])
    decreases |users|
  {
    if users == [] {
      assert WithUser(users, created) == [created];
      assert [created][1..] == [];
    } else {
      assert WithUser(users, created)[1..] == WithUser(users[1..], created);
      WithoutUserAppend(users[1..], created, id);
    }
  }

  /** Deleting a freshly created user gives back the list as it was, when its
      id was new. */
  lemma DeleteCreated(users: seq<User>, created: User)
    requires forall u :: u in users ==> u.id != created.id
    ensures WithoutUser(WithUser(users, created), created.id) == users
  {
    WithoutUserAppend(users, created, created.id);
    WithoutUserSpec(users, created.id);
  }

  /** The page's `users` state, replaced through its updaters. */
  class UserList {
    var users: seq<User>

    constructor ()
      ensures users == []
    {
      users := [];
    }

    /** `fetchUsers`: the list is replaced only by a successful response. */
    method Load(response: Option<seq<User>>)
      modifies this
      ensures users == if response.Some? then response.value else old(users)
    {
      if response.Some? {
        users := response.value;
      }
    }

    /** `handleRoleUpdate` once the request reports `success`. */
    method UpdateRole(email: string, role: Role, success: bool)
      modifies this
      ensures users == if success then WithRole(old(users), email, role) else old(users)
    {
      if success {
        users := WithRole(users, email, role);
      }
    }

    /** `handleDeleteUser` once the request reports `success`. */
    method Delete(id: int, success: bool)
      modifies this
      ensures users == if success then WithoutUser(old(users), id) else old(users)
    {
      if success {
        users := WithoutUser(users, id);
      }
    }

    /** `handleUserCreated` */
    method Created(created: User)
      modifies this
      ensures users == WithUser(old(users), created)
    {
      users := WithUser(users, created);
    }
  }

  // ---------------------------------------------------------------------
  // Badges

  function RoleBadgeVariant(role: Role): string {
    match role
    case Admin => "destructive"
    case Editor => "default"
    case Viewer => "secondary"
    case OtherRole(_) => "outline"
  }

  /** The three known roles have badges of their own, and only an unknown
      role is drawn in outline. */
  lemma RoleBadgesDistinct(a: Role, b: Role)
    ensures !a.OtherRole? && !b.OtherRole? ==> (RoleBadgeVariant(a) == RoleBadgeVariant(b) <==> a == b)
    ensures RoleBadgeVariant(a) == "outline" <==> a.OtherRole?
  {
  }

  datatype BadgeProps = BadgeProps(variant: string, className: string)

  function ActionBadge(action: string): BadgeProps {
    if action == "CREATE" then BadgeProps("secondary", "bg-green-100 text-green-800 border-green-200")
    else if action == "UPDATE" then BadgeProps("secondary", "bg-yellow-100 text-yellow-800 border-yellow-200")
    else if action == "DELETE" then BadgeProps("destructive", "")
    else BadgeProps("outline", "")
  }

  /** Only deletions are drawn as destructive, only unknown actions in
      outline, and only creations and updates carry a colour class. */
  lemma ActionBadgeCases(action: string)
    ensures ActionBadge(action).variant == "destructive" <==> action == "DELETE"
    ensures ActionBadge(action).variant == "outline" <==> action !in ["CREATE", "UPDATE", "DELETE"]
    ensures ActionBadge(action).className != "" <==> action == "CREATE" || action == "UPDATE"
  {
  }

  // ---------------------------------------------------------------------
  // Tabs and the URL hash

  /** Removes the first occurrence of `c`, as `s.replace(c, '')` does. */
  function RemoveFirst(s: string, c: char): (r: string)
    ensures c !in s ==> r == s
    ensures c in s ==> |r| == |s| - 1 && r == s[..FirstIndex(s, c)] + s[FirstIndex(s, c) + 1..]
  {
    var i := FirstIndex(s, c);
    if i < |s| then s[..i] + s[i + 1..] else s
  }

  const TABS: set<string> := {"users", "audit", "secrets"}

  /** The tab opened for `location.hash` (empty when there is none). */
  function TabFromHash(hash: string): (r: string)
    ensures r in TABS
    ensures r == "audit" <==> RemoveFirst(hash, '#') == "Audit_Log"
    ensures r == "secrets" <==> RemoveFirst(hash, '#') == "secrets"
  {
    var h := RemoveFirst(hash, '#');
    if h == "Users" then "users"
    else if h == "Audit_Log" then "audit"
    else if h == "secrets" then "secrets"
    else "users"
  }

  /** The hash written when tab `v` is chosen: `map[v] || v`, and nothing
      when that is empty. */
  function HashForTab(v: string): (r: Option<string>)
    ensures r.None? <==> v == ""
    ensures v in TABS ==> r.Some? && r.value in {"Users", "Audit_Log", "secrets"}
    ensures v == "users" ==> r == Some("Users")
    ensures v == "audit" ==> r == Some("Audit_Log")
    ensures v == "secrets" ==> r == Some("secrets")
    ensures v != "" && v !in TABS ==> r == Some(v)
  {
    var map_ := map["users" := "Users", "audit" := "Audit_Log", "secrets" := "secrets"];
    var next := if v in map_ && map_[v] != "" then map_[v] else v;
    if next == "" then None else Some(next)
  }

  /** Choosing a tab and reading the hash back, with or without the leading
      `#` the browser adds, opens the same tab. */
  lemma TabHashRoundTrip(v: string)
    requires v in TABS
    ensures TabFromHash("#" + HashForTab(v).value) == v
    ensures TabFromHash(HashForTab(v).value) == v
  {
    var h := HashForTab(v).value;
    assert '#' !in h;
    assert ("#" + h)[0] == '#';
    assert ("#" + h)[1..] == h;
  }

  // ---------------------------------------------------------------------
  // Secret name

  /** The characters `String.prototype.trim` removes: white space and line
      terminators of ECMAScript. */
  predicate IsSpace(c: char) {
    c == '\t' || c == '\n' || c == '\U{000B}' || c == '\U{000C}' || c == '\r' || c == ' '
    || c == '\U{00A0}' || c == '\U{1680}' || ('\U{2000}' <= c <= '\U{200A}')
    || c == '\U{2028}' || c == '\U{2029}' || c == '\U{202F}' || c == '\U{205F}'
    || c == '\U{3000}' || c == '\U{FEFF}'
  }

  function TrimStart(s: string): (r: string)
    ensures |r| <= |s| && r == s[|s| - |r|..]
    ensures r == [] || !IsSpace(r[0])
    ensures forall k :: 0 <= k < |s| - |r| ==> IsSpace(s[k])
  {
    if s != [] && IsSpace(s[0]) then TrimStart(s[1..]) else s
  }

  function TrimEnd(s: string): (r: string)
    ensures |r| <= |s| && r == s[..|r|]
    ensures r == [] || !IsSpace(r[|r| - 1])
    ensures forall k :: |r| <= k < |s| ==> IsSpace(s[k])
  {
    if s != [] && IsSpace(s[|s| - 1]) then TrimEnd(s[..|s| - 1]) else s
  }

  /** `s.trim()` */
  function Trim(s: string): string {
    TrimEnd(TrimStart(s))
  }

  /** Trimming leaves no white space at either end. */
  lemma TrimEnds(s: string)
    ensures var r := Trim(s); r == [] || (!IsSpace(r[0]) && !IsSpace(r[|r| - 1]))
  {
    var t := TrimStart(s);
    var r := TrimEnd(t);
    if r != [] {
      assert r[0] == t[0];
    }
  }

  /** Trimming keeps a slice of the input and cuts off only white space. */
  lemma TrimSlice(s: string)
    ensures exists i, j ::
      (0 <= i <= j <= |s| && Trim(s) == s[i..j] &&
       (forall k :: 0 <= k < i ==> IsSpace(s[k])) && (forall k :: j <= k < |s| ==> IsSpace(s[k])))
  {
    var t := TrimStart(s);
    var r := TrimEnd(t);
    var i := |s| - |t|;
    var j := i + |r|;
    assert r == s[i..j];
    forall k | j <= k < |s| ensures IsSpace(s[k]) {
      assert s[k] == t[k - i];
    }
  }

  /** Trimming gives the empty text exactly for white space only. */
  lemma TrimEmpty(s: string)
    ensures Trim(s) == [] <==> forall k :: 0 <= k < |s| ==> IsSpace(s[k])
  {
    var t := TrimStart(s);
    assert TrimEnd(t) == [] ==> t == [];
    if Trim(s) == [] {
      assert forall k :: 0 <= k < |s| ==> IsSpace(s[k]);
    }
  }

  /** The name `handleSave` gives the secret: the trimmed display name, else
      the file name, else "key" — empty texts counting as absent. */
  function SecretName(displayName: string, fileName: Option<string>): (r: string)
    ensures r != ""
    ensures Trim(displayName) != "" ==> r == Trim(displayName)
    ensures Trim(displayName) == "" && fileName.Some? && fileName.value != "" ==> r == fileName.value
    ensures Trim(displayName) == "" && (fileName.None? || fileName.value == "") ==> r == "key"
  {
    var trimmed := Trim(displayName);
    if trimmed != "" then trimmed
    else if fileName.Some? && fileName.value != "" then fileName.value
    else "key"
  }
}
