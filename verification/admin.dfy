/** The administrator's back-end service: paged user and company listings,
  * the company review queue, and changing a user's role. Every listing is
  * computed from a snapshot of the tables; every write is returned as the
  * new rows. */
module Admin {
  import opened Wrappers
  import opened Seqs
  import opened HttpErrors

  // The error messages the service answers with.
  const AdminRoleFixedMessage := "Cannot change role of admin user"

  datatype Role = Role(id: string, code: string)

  datatype AdminUser = AdminUser(
    id: string,
    email: string,
    name: Option<string>,
    createdAt: int,
    roleId: Option<string>,
    isPremium: bool)

  datatype AdminCompany = AdminCompany(id: string, name: string, isVerified: bool, rejected: bool)

  /** The code of the user's role, `user.role?.code`. */
  function RoleCode(roles: seq<Role>, u: AdminUser): (r: Option<string>)
    ensures r.Some? <==> u.roleId.Some? && exists i :: 0 <= i < |roles| && roles[i].id == u.roleId.value
  {
    if u.roleId.None? then None
    else
      var k := FindFirst((role: Role) => role.id == u.roleId.value, roles);
      if k.Some? then Some(roles[k.value].code) else None
  }

  /** No two roles share an id, and no two share a code. */
  predicate RolesUnique(roles: seq<Role>) {
    && (forall i, j :: 0 <= i < j < |roles| ==> roles[i].id != roles[j].id)
    && (forall i, j :: 0 <= i < j < |roles| ==> roles[i].code != roles[j].code)
  }

  // ----------------------------------------------------------- pagination

  const DefaultPage: int := 1
  const DefaultPageSize: int := 10

  /** `Number(x) || d`: a query value that is missing, not a number (`None`)
    * or 0 falls back to `d`. */
  function NumberOr(v: Option<int>, d: int): (r: int)
    ensures v.Some? && v.value != 0 ==> r == v.value
    ensures v.None? || v.value == 0 ==> r == d
  {
    if v.Some? && v.value != 0 then v.value else d
  }

  /** The rows passed over, `(page - 1) * limit`, counted out page by page
    * from page 1 (see `SkipIsProduct`). It is never negative for a page from
    * 1 on with a non-negative limit, nor for a page up to 1 with a
    * non-positive limit. */
  function Skip(page: int, limit: int): (k: int)
    ensures page >= 1 && limit >= 0 ==> k >= 0
    ensures page <= 1 && limit <= 0 ==> k >= 0
    decreases if page >= 1 then page - 1 else 1 - page
  {
    if page == 1 then 0
    else if page > 1 then Skip(page - 1, limit) + limit
    else Skip(page + 1, limit) - limit
  }

  /** `Skip` is the product the service computes. */
  lemma {:induction false} SkipIsProduct(page: int, limit: int)
    ensures Skip(page, limit) == (page - 1) * limit
    decreases if page >= 1 then page - 1 else 1 - page
  {
    if page > 1 {
      SkipIsProduct(page - 1, limit);
      assert (page - 1) * limit == (page - 2) * limit + limit;
    } else if page < 1 {
      SkipIsProduct(page + 1, limit);
      assert (page - 1) * limit == page * limit - limit;
    }
  }

  lemma {:induction false} NonNegativeProduct(a: nat, b: nat)
    ensures a * b >= 0
  {
  }

  /** Multiplying by a non-negative number keeps the order. */
  lemma {:induction false} ScaleMonotone(a: int, b: int, n: nat)
    requires a <= b
    ensures a * n <= b * n
  {
    NonNegativeProduct(b - a, n);
    assert b * n - a * n == (b - a) * n;
  }

  /** The next page starts `limit` rows further on. */
  lemma {:induction false} SkipNext(page: int, limit: int)
    ensures Skip(page + 1, limit) == Skip(page, limit) + limit
  {
  }

  /** The absolute value, `Math.abs`. */
  function Abs(n: int): (r: nat)
    ensures r == n || r == -n
  {
    if n >= 0 then n else -n
  }

  /** `take: limit, skip: (page - 1) * limit`. A missing (`NaN`) page or
    * limit, or a negative skip, is refused (`None`). A non-negative take
    * keeps up to `limit` rows from the skip on; a negative take counts from
    * the end instead: `skip` rows are passed over from the end and up to
    * `-limit` rows before them are kept, in list order. */
  function Window<T>(s: seq<T>, page: Option<int>, limit: Option<int>): (r: Option<seq<T>>)
    ensures r.Some? <==> page.Some? && limit.Some? && Skip(page.value, limit.value) >= 0
    ensures r.Some? ==> |r.value| <= Abs(limit.value)
    ensures r.Some? && limit.value >= 0 && Skip(page.value, limit.value) <= |s| ==>
      var skip := Skip(page.value, limit.value);
      r.value == s[skip..if skip + limit.value <= |s| then skip + limit.value else |s|]
    ensures r.Some? && limit.value >= 0 && Skip(page.value, limit.value) >= |s| ==> r.value == []
    ensures r.Some? && limit.value < 0 ==>
      var skip := Skip(page.value, limit.value);
      var hi := if skip <= |s| then |s| - skip else 0;
      r.value == s[if hi >= -limit.value then hi + limit.value else 0..hi]
    ensures r.Some? ==> multiset(r.value) <= multiset(s)
    ensures r.Some? ==> forall x :: x in r.value ==> x in s
  {
    if page.None? || limit.None? then None
    else
      var skip := Skip(page.value, limit.value);
      if skip < 0 then None
      else
        var p := if limit.value >= 0 then Page(s, skip, limit.value) else PageFromEnd(s, skip, -limit.value);
        assert forall x :: x in p ==> x in multiset(s) by {
          forall x | x in p ensures x in multiset(s) {
            assert x in multiset(p);
          }
        }
        Some(p)
  }

  /** With a negative limit the first page holds the last `-limit` rows, or
    * every row when there are fewer. */
  lemma {:induction false} NegativeLimitFirstPage<T>(s: seq<T>, limit: int)
    requires limit < 0
    ensures Window(s, Some(1), Some(limit)) == Some(if |s| >= -limit then s[|s| + limit..] else s)
  {
    assert Skip(1, limit) == 0;
    assert s[0..|s|] == s;
  }

  /** Every page from 1 on with a non-negative limit is served. */
  lemma WindowServesPositivePages<T>(s: seq<T>, page: int, limit: int)
    requires page >= 1 && limit >= 0
    ensures Window(s, Some(page), Some(limit)) == Some(Page(s, Skip(page, limit), limit))
  {
  }

  /** Pages `p` and `p + 1` together list the `2 * limit` rows from the first
    * row of page `p`, in order, with none repeated or skipped. */
  lemma {:induction false} ConsecutivePages<T>(s: seq<T>, page: int, limit: int)
    requires page >= 1 && limit >= 0
    ensures Window(s, Some(page), Some(limit)).Some? && Window(s, Some(page + 1), Some(limit)).Some?
    ensures Window(s, Some(page), Some(limit)).value + Window(s, Some(page + 1), Some(limit)).value
            == Page(s, Skip(page, limit), 2 * limit)
  {
    WindowServesPositivePages(s, page, limit);
    WindowServesPositivePages(s, page + 1, limit);
    SkipNext(page, limit);
    PagesJoin(s, Skip(page, limit), limit,
      Window(s, Some(page), Some(limit)).value, Window(s, Some(page + 1), Some(limit)).value);
  }

  /** The users, newest first. */
  function NewestUsers(users: seq<AdminUser>): (r: seq<AdminUser>)
    ensures multiset(r) == multiset(users)
    ensures SortedDesc((u: AdminUser) => u.createdAt as real, r)
  {
    SortDesc((u: AdminUser) => u.createdAt as real, users)
  }

  /** `getUsers`: newest first, page defaulting to 1 and limit to 10. */
  function GetUsers(users: seq<AdminUser>, page: Option<int>, limit: Option<int>): (r: Option<seq<AdminUser>>)
    ensures r == Window(NewestUsers(users), Some(NumberOr(page, DefaultPage)), Some(NumberOr(limit, DefaultPageSize)))
    ensures r.Some? ==> |r.value| <= Abs(NumberOr(limit, DefaultPageSize))
    ensures r.Some? ==> multiset(r.value) <= multiset(users)
  {
    Window(NewestUsers(users), Some(NumberOr(page, DefaultPage)), Some(NumberOr(limit, DefaultPageSize)))
  }

  /** With no query parameters, `getUsers` lists the ten newest users. */
  lemma DefaultUsersPage(users: seq<AdminUser>)
    ensures GetUsers(users, None, None) == Some(Take(NewestUsers(users), 10))
  {
  }

  /** The users whose role has the given code, in table order. */
  function WithRole(roles: seq<Role>, users: seq<AdminUser>, code: string): (r: seq<AdminUser>)
    ensures forall u :: u in r ==> u in users && RoleCode(roles, u) == Some(code)
    ensures forall i :: 0 <= i < |users| && RoleCode(roles, users[i]) == Some(code) ==> users[i] in r
    ensures IsSubsequence(r, users)
  {
    FilterIsSubsequence((u: AdminUser) => RoleCode(roles, u) == Some(code), users);
    Filter((u: AdminUser) => RoleCode(roles, u) == Some(code), users)
  }

  /** `getRecruiters` and `getCandidates` share one query that differs only
    * in the role code: the users with that role, windowed with the page and
    * limit as given (no defaults). */
  function ListByRole(roles: seq<Role>, users: seq<AdminUser>, code: string, page: Option<int>, limit: Option<int>)
    : (r: Option<seq<AdminUser>>)
    ensures r.Some? ==> forall u :: u in r.value ==> u in users && RoleCode(roles, u) == Some(code)
    ensures page.None? || limit.None? ==> r.None?
    ensures page.Some? && limit.Some? && page.value >= 1 && limit.value >= 0 ==>
      r == Some(Page(WithRole(roles, users, code), Skip(page.value, limit.value), limit.value))
  {
    var listed := WithRole(roles, users, code);
    if page.Some? && limit.Some? && page.value >= 1 && limit.value >= 0 then
      WindowServesPositivePages(listed, page.value, limit.value);
      Window(listed, page, limit)
    else
      Window(listed, page, limit)
  }

  /** `getRecruiters`. */
  function GetRecruiters(roles: seq<Role>, users: seq<AdminUser>, page: Option<int>, limit: Option<int>)
    : Option<seq<AdminUser>>
  {
    ListByRole(roles, users, "RECRUITER", page, limit)
  }

  /** `getCandidates`. */
  function GetCandidates(roles: seq<Role>, users: seq<AdminUser>, page: Option<int>, limit: Option<int>)
    : Option<seq<AdminUser>>
  {
    ListByRole(roles, users, "CANDIDATE", page, limit)
  }

  /** `k` is the quotient of `i` by `n` exactly when `i` lies in
    * `[k * n, k * n + n)`. */
  lemma {:induction false} QuotientOfRange(i: nat, n: int, k: int)
    requires n > 0
    ensures k * n <= i < k * n + n <==> k == i / n
  {
    var d := i / n;
    assert i == d * n + i % n && 0 <= i % n < n;
    if k < d {
      ScaleMonotone(k + 1, d, n);
      assert (k + 1) * n == k * n + n;
    } else if k > d {
      ScaleMonotone(d + 1, k, n);
      assert (d + 1) * n == d * n + n;
    }
  }

  /** In a list without repeated rows and with a positive limit, row `i` is
    * on page `i / limit + 1` and on no other page. */
  lemma {:induction false} RowOnOnePage<T>(s: seq<T>, limit: int, i: nat, page: int)
    requires NoDuplicates(s) && limit > 0 && i < |s| && page >= 1
    ensures Window(s, Some(page), Some(limit)).Some?
    ensures s[i] in Window(s, Some(page), Some(limit)).value <==> page == i / limit + 1
  {
    WindowServesPositivePages(s, page, limit);
    var skip := Skip(page, limit);
    var w := Page(s, skip, limit);
    SkipIsProduct(page, limit);
    QuotientOfRange(i, limit, page - 1);
    if skip <= i < skip + limit {
      assert s[i] == w[i - skip];
    } else {
      forall j | 0 <= j < |w| ensures w[j] != s[i] {
        assert w[j] == s[skip + j];
      }
    }
  }

  /** With distinct rows and a positive limit, every user with the role is
    * listed on exactly one page, the one its position in the role's list
    * gives. */
  lemma {:induction false} ListedOnOnePage(roles: seq<Role>, users: seq<AdminUser>, code: string, limit: int, i: nat, page: int)
    requires NoDuplicates(users) && limit > 0 && page >= 1
    requires i < |WithRole(roles, users, code)|
    ensures ListByRole(roles, users, code, Some(page), Some(limit)).Some?
    ensures WithRole(roles, users, code)[i] in ListByRole(roles, users, code, Some(page), Some(limit)).value
            <==> page == i / limit + 1
  {
    FilterKeepsNoDuplicates((u: AdminUser) => RoleCode(roles, u) == Some(code), users);
    RowOnOnePage(WithRole(roles, users, code), limit, i, page);
  }

  // ------------------------------------------------------- company review

  /** A company still waiting for review: neither verified nor rejected. */
  predicate AwaitingReview(c: AdminCompany) {
    !c.isVerified && !c.rejected
  }

  /** `getUnverifiedCompanies`: the companies awaiting review, paged. */
  function GetUnverifiedCompanies(companies: seq<AdminCompany>, page: Option<int>, limit: Option<int>)
    : (r: Option<seq<AdminCompany>>)
    ensures r.Some? ==> forall c :: c in r.value ==> c in companies && AwaitingReview(c)
    ensures page.None? || limit.None? ==> r.None?
    ensures page.Some? && limit.Some? && page.value >= 1 && limit.value >= 0 ==>
      r == Some(Page(Filter(AwaitingReview, companies), Skip(page.value, limit.value), limit.value))
  {
    var queue := Filter(AwaitingReview, companies);
    if page.Some? && limit.Some? && page.value >= 1 && limit.value >= 0 then
      WindowServesPositivePages(queue, page.value, limit.value);
      Window(queue, page, limit)
    else
      Window(queue, page, limit)
  }

  /** With distinct rows and a positive limit, every company awaiting review
    * is listed on exactly one page. */
  lemma {:induction false} QueuedOnOnePage(companies: seq<AdminCompany>, limit: int, i: nat, page: int)
    requires NoDuplicates(companies) && limit > 0 && page >= 1
    requires i < |Filter(AwaitingReview, companies)|
    ensures GetUnverifiedCompanies(companies, Some(page), Some(limit)).Some?
    ensures Filter(AwaitingReview, companies)[i] in GetUnverifiedCompanies(companies, Some(page), Some(limit)).value
            <==> page == i / limit + 1
  {
    FilterKeepsNoDuplicates(AwaitingReview, companies);
    RowOnOnePage(Filter(AwaitingReview, companies), limit, i, page);
  }

  function FindCompany(companies: seq<AdminCompany>, id: string): (r: Option<nat>)
    ensures r.Some? ==> r.value < |companies| && companies[r.value].id == id
    ensures r.None? <==> forall i :: 0 <= i < |companies| ==> companies[i].id != id
  {
    FindFirst((c: AdminCompany) => c.id == id, companies)
  }

  /** `verifyCompany`: `NotFound` for an unknown id; otherwise only
    * `isVerified` of that company becomes true. */
  method VerifyCompany(companies: seq<AdminCompany>, id: string)
    returns (r: Result<AdminCompany, HttpError>, companies': seq<AdminCompany>)
    ensures FindCompany(companies, id).None? ==> r == Err(NotFound("Company not found")) && companies' == companies
    ensures FindCompany(companies, id).Some? ==>
      var k := FindCompany(companies, id).value;
      && r == Ok(companies[k].(isVerified := true))
      && companies' == companies[k := companies[k].(isVerified := true)]
  {
    companies' := companies;
    var k := FindCompany(companies, id);
    if k.None? {
      return Err(NotFound("Company not found")), companies';
    }
    var updated := companies[k.value].(isVerified := true);
    companies' := companies[k.value := updated];
    r := Ok(updated);
  }

  /** `rejectCompany`: `NotFound` for an unknown id; otherwise only
    * `rejected` of that company becomes true. */
  method RejectCompany(companies: seq<AdminCompany>, id: string)
    returns (r: Result<AdminCompany, HttpError>, companies': seq<AdminCompany>)
    ensures FindCompany(companies, id).None? ==> r == Err(NotFound("Company not found")) && companies' == companies
    ensures FindCompany(companies, id).Some? ==>
      var k := FindCompany(companies, id).value;
      && r == Ok(companies[k].(rejected := true))
      && companies' == companies[k := companies[k].(rejected := true)]
  {
    companies' := companies;
    var k := FindCompany(companies, id);
    if k.None? {
      return Err(NotFound("Company not found")), companies';
    }
    var updated := companies[k.value].(rejected := true);
    companies' := companies[k.value := updated];
    r := Ok(updated);
  }

  predicate CompanyIdsUnique(companies: seq<AdminCompany>) {
    forall i, j :: 0 <= i < j < |companies| ==> companies[i].id != companies[j].id
  }

  /** Once a company is verified or rejected it leaves the review queue,
    * and the queue is what it was with that company removed. */
  lemma ReviewedLeavesQueue(companies: seq<AdminCompany>, k: nat, verified: bool)
    requires CompanyIdsUnique(companies) && k < |companies|
    ensures var c' := if verified then companies[k].(isVerified := true) else companies[k].(rejected := true);
      var queue' := Filter(AwaitingReview, companies[k := c']);
      && queue' == Filter(AwaitingReview, companies[..k] + companies[k + 1..])
      && (forall c :: c in queue' ==> c.id != companies[k].id)
  {
    var c' := if verified then companies[k].(isVerified := true) else companies[k].(rejected := true);
    FilterOverwriteDropped(AwaitingReview, companies, k, c');
    forall c | c in companies[..k] + companies[k + 1..] ensures c.id != companies[k].id {
      if c in companies[..k] {
        var i :| 0 <= i < k && companies[..k][i] == c;
      } else {
        var i :| 0 <= i < |companies| - k - 1 && companies[k + 1..][i] == c;
        assert companies[k + 1 + i] == c;
      }
    }
  }

  // ---------------------------------------------------------- user roles

  function FindUser(users: seq<AdminUser>, id: string): (r: Option<nat>)
    ensures r.Some? ==> r.value < |users| && users[r.value].id == id
    ensures r.None? <==> forall i :: 0 <= i < |users| ==> users[i].id != id
  {
    FindFirst((u: AdminUser) => u.id == id, users)
  }

  function FindRoleByCode(roles: seq<Role>, code: string): (r: Option<nat>)
    ensures r.Some? ==> r.value < |roles| && roles[r.value].code == code
    ensures r.None? <==> forall i :: 0 <= i < |roles| ==> roles[i].code != code
  {
    FindFirst((role: Role) => role.code == code, roles)
  }

  /** The only roles an administrator may assign. */
  predicate AssignableRole(code: string) {
    code == "RECRUITER" || code == "CANDIDATE"
  }

  /** `updateUserRole`. The guards run in order: target role assignable,
    * user exists, user not an administrator, role exists. On success only
    * the user's `roleId` changes, to the id of the requested role. */
  method UpdateUserRole(roles: seq<Role>, users: seq<AdminUser>, userId: string, roleCode: string)
    returns (r: Result<AdminUser, HttpError>, users': seq<AdminUser>)
    ensures !AssignableRole(roleCode) ==> r == Err(NotFound("Invalid role"))
    ensures AssignableRole(roleCode) && FindUser(users, userId).None? ==> r == Err(NotFound("User not found"))
    ensures (&& AssignableRole(roleCode) && FindUser(users, userId).Some?
             && RoleCode(roles, users[FindUser(users, userId).value]) == Some("ADMIN")) ==>
              r == Err(NotFound(AdminRoleFixedMessage))
    ensures r.Err? ==> users' == users
    ensures r.Ok? <==> (&& AssignableRole(roleCode) && FindUser(users, userId).Some?
                        && RoleCode(roles, users[FindUser(users, userId).value]) != Some("ADMIN")
                        && FindRoleByCode(roles, roleCode).Some?)
    ensures r.Ok? ==>
      var k := FindUser(users, userId).value;
      var roleId := roles[FindRoleByCode(roles, roleCode).value].id;
      && r.value == users[k].(roleId := Some(roleId))
      && users' == users[k := r.value]
  {
    users' := users;
    if !AssignableRole(roleCode) {
      return Err(NotFound("Invalid role")), users';
    }
    var k := FindUser(users, userId);
    if k.None? {
      return Err(NotFound("User not found")), users';
    }
    var user := users[k.value];
    if RoleCode(roles, user) == Some("ADMIN") {
      return Err(NotFound(AdminRoleFixedMessage)), users';
    }
    var role := FindRoleByCode(roles, roleCode);
    if role.None? {
      return Err(NotFound("Role not found")), users';
    }
    var updated := user.(roleId := Some(roles[role.value].id));
    users' := users[k.value := updated];
    r := Ok(updated);
  }

  /** With unique role ids, the changed user's role now has the requested
    * code. */
  lemma RoleChangeTakesEffect(roles: seq<Role>, u: AdminUser, roleCode: string)
    requires RolesUnique(roles) && AssignableRole(roleCode)
    requires FindRoleByCode(roles, roleCode).Some?
    ensures RoleCode(roles, u.(roleId := Some(roles[FindRoleByCode(roles, roleCode).value].id))) == Some(roleCode)
  {
    var k := FindRoleByCode(roles, roleCode).value;
    var j := FindFirst((role: Role) => role.id == roles[k].id, roles);
    assert j == Some(k);
  }
}
