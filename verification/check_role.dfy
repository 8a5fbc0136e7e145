/** The role middleware (src/middleware/checkRole.ts): an ordered list of
 *  checks that either lets the request through or names the refusal. */
module CheckRole {
  import opened Wrappers

  /** The outcome of reading the user's record: the read failed, found no
   *  user, or found one with this role. */
  datatype Lookup = Failed | Missing | Found(role: string)

  datatype Refusal = Refusal(status: int, message: string)

  /** `checkRole`: `None` lets the request through. */
  function Check(userId: Option<string>, lookup: Lookup, allowedRoles: seq<string>): (r: Option<Refusal>)
    ensures r.None? <==> userId.Some? && userId.value != [] && lookup.Found? && lookup.role in allowedRoles
    ensures r.Some? ==> r.value.status in {401, 404, 403, 500}
  {
    if userId.None? || userId.value == [] then Some(Refusal(401, "Unauthorized"))
    else match lookup
      case Failed => Some(Refusal(500, "Internal Server Error"))
      case Missing => Some(Refusal(404, "User not found"))
      case Found(role) =>
        if role !in allowedRoles then Some(Refusal(403, "Forbidden")) else None
  }

  /** The checks run in the order 401, then 404 (or 500 when the read
   *  fails), then 403: each refusal says the earlier checks passed. */
  lemma CheckOrder(userId: Option<string>, lookup: Lookup, allowedRoles: seq<string>)
    ensures var r := Check(userId, lookup, allowedRoles);
      (r == Some(Refusal(401, "Unauthorized")) <==> userId.None? || userId.value == []) &&
      (r == Some(Refusal(404, "User not found")) <==> userId.Some? && userId.value != [] && lookup.Missing?) &&
      (r == Some(Refusal(500, "Internal Server Error")) <==> userId.Some? && userId.value != [] && lookup.Failed?) &&
      (r == Some(Refusal(403, "Forbidden")) <==>
        userId.Some? && userId.value != [] && lookup.Found? && lookup.role !in allowedRoles)
  {
  }

  /** Widening the allowed roles never turns a pass into a refusal. */
  lemma MoreRolesStillPass(userId: Option<string>, lookup: Lookup, allowed: seq<string>, more: seq<string>)
    requires Check(userId, lookup, allowed).None?
    ensures Check(userId, lookup, allowed + more).None?
  {
  }
}
