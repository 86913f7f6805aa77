/** The admin's user list: paging through it, changing a user's role in
  * place, and the value the role dropdown shows. */
module UserAdmin {
  import opened Wrappers
  import opened JsStrings
  import opened Seqs
  import opened JsonValues

  /** A row of the list; `role` is `role?.code`. */
  datatype UserRow = UserRow(id: string, email: string, name: Option<string>, role: Option<string>, isPremium: bool)

  /** `handlePageChange`'s target: nothing below page 1, otherwise
    * `?page=<page>&limit=<limit>`. */
  function PageUrl(newPage: int, limit: int): (r: Option<string>)
    ensures r.None? <==> newPage < 1
    ensures r.Some? ==> r.value == "?page=" + IntToString(newPage) + "&limit=" + IntToString(limit)
  {
    if newPage < 1 then None
    else Some("?page=" + IntToString(newPage) + "&limit=" + IntToString(limit))
  }

  lemma NoAmpersandInNumber(n: int)
    ensures '&' !in IntToString(n)
  {
    var m: nat := if n < 0 then -n else n;
    var digits := NatToString(m);
    assert forall i :: 0 <= i < |digits| ==> digits[i] != '&' by {
      forall i | 0 <= i < |digits| ensures digits[i] != '&' {
        assert IsDigit(digits[i]);
      }
    }
    if n < 0 {
      assert IntToString(n) == "-" + digits;
    }
  }

  /** The query string reads back as the page and the limit it was built
    * from. */
  lemma PageUrlReadsBack(newPage: int, limit: int)
    requires newPage >= 1
    ensures var query := PageUrl(newPage, limit).value[1..];
      var parts := Split(query, '&');
      && |parts| == 2
      && parts[0] == "page=" + IntToString(newPage)
      && parts[1] == "limit=" + IntToString(limit)
      && ParseInt(parts[0][5..]) == Some(newPage)
      && ParseInt(parts[1][6..]) == Some(limit)
  {
    QueryParts(newPage, limit);
    ParamValue("page=", newPage);
    ParamValue("limit=", limit);
  }

  /** The query splits at its one '&' into the two parameters. */
  lemma QueryParts(newPage: int, limit: int)
    requires newPage >= 1
    ensures Split(PageUrl(newPage, limit).value[1..], '&')
            == ["page=" + IntToString(newPage), "limit=" + IntToString(limit)]
  {
    var p := "page=" + IntToString(newPage);
    var l := "limit=" + IntToString(limit);
    NoAmpersandInParam("page=", newPage);
    NoAmpersandInParam("limit=", limit);
    QueryShape(newPage, limit);
    SplitAtFirst(p, '&', l);
    SplitNoSeparator(l, '&');
  }

  /** Behind the '?' are the page parameter, an '&' and the limit
    * parameter. */
  lemma QueryShape(newPage: int, limit: int)
    requires newPage >= 1
    ensures PageUrl(newPage, limit).value[1..]
            == ("page=" + IntToString(newPage)) + ['&'] + ("limit=" + IntToString(limit))
  {
    var a, b := IntToString(newPage), IntToString(limit);
    var url := PageUrl(newPage, limit).value;
    assert url == "?page=" + a + "&limit=" + b;
    assert "?page=" + a + "&limit=" + b == ['?'] + (("page=" + a) + ['&'] + ("limit=" + b));
  }

  /** The text after a parameter's key parses back as its number. */
  lemma {:induction false} ParamValue(key: string, n: int)
    ensures ParseInt((key + IntToString(n))[|key|..]) == Some(n)
  {
    assert (key + IntToString(n))[|key|..] == IntToString(n);
    ParseIntOfIntToString(n);
  }

  /** A parameter label followed by a number holds no ampersand. */
  lemma {:induction false} NoAmpersandInParam(key: string, n: int)
    requires '&' !in key
    ensures '&' !in (key + IntToString(n))
  {
    NoAmpersandInNumber(n);
    var q := key + IntToString(n);
    forall i | 0 <= i < |q| ensures q[i] != '&' {
      if i >= |key| {
        assert q[i] == IntToString(n)[i - |key|];
      } else {
        assert q[i] == key[i];
      }
    }
  }

  /** The row with the new role when it is the user's, unchanged otherwise. */
  function WithRole(userId: string, roleCode: string): UserRow -> UserRow {
    (u: UserRow) => if u.id == userId then u.(role := Some(roleCode)) else u
  }

  /** `prev.map(...)` after a successful change. */
  function Relabelled(users: seq<UserRow>, userId: string, roleCode: string): (r: seq<UserRow>)
    ensures |r| == |users|
    ensures forall i :: 0 <= i < |users| && users[i].id == userId ==> r[i] == users[i].(role := Some(roleCode))
    ensures forall i :: 0 <= i < |users| && users[i].id != userId ==> r[i] == users[i]
  {
    Map(WithRole(userId, roleCode), users)
  }

  /** Changing a role twice keeps only the second change. */
  lemma RelabelledTwice(users: seq<UserRow>, userId: string, a: string, b: string)
    ensures Relabelled(Relabelled(users, userId, a), userId, b) == Relabelled(users, userId, b)
  {
  }

  /** `role?.code ?? "UNKNOWN"`, then the dropdown value: RECRUITER and
    * CANDIDATE show themselves, anything else shows CANDIDATE. */
  function DropdownValue(role: Option<string>): (v: string)
    ensures v == "RECRUITER" || v == "CANDIDATE"
    ensures role == Some("RECRUITER") ==> v == "RECRUITER"
    ensures role != Some("RECRUITER") ==> v == "CANDIDATE"
  {
    var code := if role.Some? then role.value else "UNKNOWN";
    if code == "RECRUITER" || code == "CANDIDATE" then code else "CANDIDATE"
  }

  /** An ADMIN row shows a badge instead of the dropdown. */
  predicate Editable(role: Option<string>) {
    (if role.Some? then role.value else "UNKNOWN") != "ADMIN"
  }

  const RoleUpdated := "User role updated"
  const RoleUpdateFailed := "Failed to update user role"

  /** How the PATCH ended: a response with its `ok` flag and the `message`
    * of its body (missing when the body has none or is not JSON), a
    * response whose body is the JSON `null`, or an exception thrown by
    * `fetch` with its message. */
  datatype RoleReply =
    | Answered(ok: bool, message: Option<Json>)
    | NullBody(ok: bool)
    | Thrown(error: string)

  /** An `ok` response succeeds whatever its body; its body is not read. */
  predicate Succeeded(reply: RoleReply) {
    !reply.Thrown? && reply.ok
  }

  /** The error toast: `err.message || "Failed to update user role"`, where
    * a refusal throws `new Error(res.message || "Failed to update user
    * role")`. A truthy message that prints as nothing, such as `[]`, falls
    * back to the fixed text too. Reading `message` of a `null` body throws
    * a `TypeError`, whose message is toasted. */
  function RoleErrorToast(reply: RoleReply): (t: string)
    requires !Succeeded(reply)
    ensures t != ""
    ensures reply.Thrown? ==> t == (if reply.error != "" then reply.error else RoleUpdateFailed)
    ensures (reply.Answered? && reply.message.Some? && JsonTruthy(reply.message.value)
             && ToJsString(reply.message.value) != "") ==> t == ToJsString(reply.message.value)
    ensures reply.Answered? && !(reply.message.Some? && JsonTruthy(reply.message.value)) ==> t == RoleUpdateFailed
    ensures reply.NullBody? ==> t == NullRead("message")
  {
    var m :=
      match reply
      case Thrown(error) => error
      case NullBody(_) => NullRead("message")
      case Answered(_, message) => ToJsString(OrElse(message, JString(RoleUpdateFailed)));
    if m != "" then m else RoleUpdateFailed
  }

  /** A refusal whose message is an empty array is truthy but prints as
    * nothing, so the second fallback shows the fixed text. */
  lemma EmptyArrayMessageFallsBack()
    ensures RoleErrorToast(Answered(false, Some(JArray([])))) == RoleUpdateFailed
  {
    assert ToJsString(JArray([])) == "";
  }

  /** `new Error(m)` turns a message that is not a string into its string
    * form, so a numeric, array or object message is toasted as printed. */
  lemma NonStringMessagesPrinted()
    ensures RoleErrorToast(Answered(false, Some(JNumber("404")))) == "404"
    ensures RoleErrorToast(Answered(false, Some(JArray([JString("a"), JString("b")])))) == "a,b"
    ensures RoleErrorToast(Answered(false, Some(JObject([])))) == "[object Object]"
  {
    assert ToJsString(JArray([JString("a"), JString("b")])) == "a,b";
  }

  /** The list page's state. */
  class UserAdminPage {
    var users: seq<UserRow>
    var updatingId: Option<string>
    /** The URLs navigated to, oldest first. */
    var pushed: seq<string>
    var toasts: seq<string>
    const limit: int

    constructor (initial: seq<UserRow>, limit: int)
      ensures users == initial && updatingId.None? && pushed == [] && toasts == [] && this.limit == limit
    {
      users := initial;
      updatingId := None;
      pushed := [];
      toasts := [];
      this.limit := limit;
    }

    /** `handlePageChange`. */
    method HandlePageChange(newPage: int)
      modifies this
      ensures newPage < 1 ==> pushed == old(pushed)
      ensures newPage >= 1 ==> pushed == old(pushed) + [PageUrl(newPage, limit).value]
      ensures users == old(users) && updatingId == old(updatingId) && toasts == old(toasts)
    {
      var url := PageUrl(newPage, limit);
      if url.Some? {
        pushed := pushed + [url.value];
      }
    }

    /** `handleRoleChange`, once the PATCH has ended: on success only the
      * user with that id gets the new role and a success toast is shown;
      * otherwise the list stays and the error toast is shown; the updating
      * id is cleared either way. */
    method HandleRoleChange(userId: string, roleCode: string, reply: RoleReply)
      modifies this
      ensures Succeeded(reply) ==> users == Relabelled(old(users), userId, roleCode) && toasts == old(toasts) + [RoleUpdated]
      ensures !Succeeded(reply) ==> users == old(users) && toasts == old(toasts) + [RoleErrorToast(reply)]
      ensures updatingId.None? && pushed == old(pushed)
    {
      updatingId := Some(userId);
      if Succeeded(reply) {
        users := Relabelled(users, userId, roleCode);
        toasts := toasts + [RoleUpdated];
      } else {
        toasts := toasts + [RoleErrorToast(reply)];
      }
      updatingId := None;
    }
  }

  /** After a successful change to RECRUITER or CANDIDATE, that user's
    * dropdown shows the new role and is still editable. */
  lemma DropdownShowsNewRole(users: seq<UserRow>, userId: string, roleCode: string, i: nat)
    requires roleCode == "RECRUITER" || roleCode == "CANDIDATE"
    requires i < |users| && users[i].id == userId
    ensures DropdownValue(Relabelled(users, userId, roleCode)[i].role) == roleCode
    ensures Editable(Relabelled(users, userId, roleCode)[i].role)
  {
  }
}
