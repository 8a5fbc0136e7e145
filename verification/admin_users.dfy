/** The admin user table (src/app/admin/components/adminusers.tsx): editing
 *  is locked until unlocked, a row is flagged while its update runs, and
 *  the search box filters on e-mail and names. Each handler is a state
 *  transition; the server's answers are the inputs of separate steps. */
module AdminUsers {
  import opened Wrappers
  import Text
  import Lists
  import UserMgmt

  /** A table row: the profile and its in-flight flag (absent until set). */
  datatype Row = Row(profile: UserMgmt.Profile, isUpdating: Option<bool>)

  datatype State = State(users: seq<Row>, searchTerm: string, loading: bool, isLocked: bool, dialogOpen: bool)

  /** The page as first rendered: no users yet, loading, and locked. */
  function Init(): (s: State)
    ensures s.isLocked && s.loading && !s.dialogOpen && s.users == []
  {
    State([], [], true, true, false)
  }

  /** The rows with one user's flag set to `flag`. */
  function Flag(users: seq<Row>, userId: string, flag: bool): (r: seq<Row>)
    ensures |r| == |users|
    ensures forall i :: 0 <= i < |users| ==>
      r[i].profile == users[i].profile &&
      r[i].isUpdating == (if users[i].profile.id == userId then Some(flag) else users[i].isUpdating)
  {
    Lists.MapWhere(users, (u: Row) => u.profile.id == userId, (u: Row) => u.(isUpdating := Some(flag)))
  }

  /** `after` is `before` with only the flag of `userId`'s rows set to
   *  `flag`: the search, loading, lock and dialog are as they were. */
  predicate Flagged(before: State, after: State, userId: string, flag: bool)
  {
    after.searchTerm == before.searchTerm && after.loading == before.loading &&
    after.isLocked == before.isLocked && after.dialogOpen == before.dialogOpen &&
    |after.users| == |before.users| &&
    forall i :: 0 <= i < |before.users| ==>
      after.users[i].profile == before.users[i].profile &&
      after.users[i].isUpdating == (if before.users[i].profile.id == userId then Some(flag) else before.users[i].isUpdating)
  }

  /** `handleUserUpdate`, up to the server call: nothing happens while
   *  locked; otherwise the target's rows are flagged and the request goes
   *  out. */
  function BeginUpdate(s: State, userId: string): (r: (State, bool))
    ensures s.isLocked <==> r == (s, false)
    ensures !s.isLocked ==> r.1 && Flagged(s, r.0, userId, true)
  {
    if s.isLocked then (s, false) else (s.(users := Flag(s.users, userId, true)), true)
  }

  /** The server call failed: only the target's flag is cleared. */
  function UpdateFailed(s: State, userId: string): (r: State)
    ensures Flagged(s, r, userId, false)
  {
    s.(users := Flag(s.users, userId, false))
  }

  /** `fetchUsers` finished: a list replaces the rows (without flags), a
   *  failure keeps them; either way loading ends. */
  function Fetched(s: State, data: Option<seq<UserMgmt.Profile>>): (r: State)
    ensures !r.loading && r.searchTerm == s.searchTerm && r.isLocked == s.isLocked
    ensures data.None? ==> r.users == s.users
    ensures data.Some? ==>
      (|r.users| == |data.value| &&
       forall i :: 0 <= i < |data.value| ==> r.users[i] == Row(data.value[i], None))
  {
    var users := if data.Some? then seq(|data.value|, i requires 0 <= i < |data.value| => Row(data.value[i], None))
                 else s.users;
    s.(users := users, loading := false)
  }

  /** A failed update touches nothing but the target's flag, and after a
   *  flag-and-fail round every row is back to the user it showed with the
   *  target marked idle. */
  lemma FailedUpdateOnlyTouchesTarget(s: State, userId: string)
    requires !s.isLocked
    ensures var r := UpdateFailed(BeginUpdate(s, userId).0, userId);
      r.searchTerm == s.searchTerm && r.isLocked == s.isLocked && |r.users| == |s.users| &&
      forall i :: 0 <= i < |s.users| ==>
        r.users[i].profile == s.users[i].profile &&
        (s.users[i].profile.id == userId ==> r.users[i].isUpdating == Some(false)) &&
        (s.users[i].profile.id != userId ==> r.users[i] == s.users[i])
  {
  }

  /** While locked no update reaches the server, whatever is asked. */
  lemma LockedPageIgnoresUpdates(userId: string)
    ensures BeginUpdate(Init(), userId) == (Init(), false)
  {
  }

  function Lock(s: State): (r: State)
    ensures r.isLocked && !r.dialogOpen
    ensures r.users == s.users && r.searchTerm == s.searchTerm && r.loading == s.loading
  {
    s.(isLocked := true, dialogOpen := false)
  }

  function Unlock(s: State): (r: State)
    ensures !r.isLocked && !r.dialogOpen
    ensures r.users == s.users && r.searchTerm == s.searchTerm && r.loading == s.loading
  {
    s.(isLocked := false, dialogOpen := false)
  }

  /** Unlocking lets the next update through; locking again stops it. */
  lemma UnlockThenLock(s: State, userId: string)
    ensures BeginUpdate(Unlock(s), userId).1
    ensures BeginUpdate(Lock(Unlock(s)), userId) == (Lock(Unlock(s)), false)
    ensures Lock(Unlock(s)) == Lock(s)
  {
  }

  /** `field?.toLowerCase().includes(term.toLowerCase())`: an absent field
   *  never matches. */
  predicate FieldMatches(field: Option<string>, term: string)
  {
    field.Some? && Text.Contains(Text.Lower(field.value), Text.Lower(term))
  }

  predicate Matches(u: Row, term: string)
  {
    FieldMatches(u.profile.email, term) || FieldMatches(u.profile.firstName, term) ||
    FieldMatches(u.profile.lastName, term)
  }

  /** `filteredUsers`. */
  function Filtered(s: State): (r: seq<Row>)
    ensures forall i :: 0 <= i < |r| ==> r[i] in s.users && Matches(r[i], s.searchTerm)
    ensures forall i :: 0 <= i < |s.users| && Matches(s.users[i], s.searchTerm) ==> s.users[i] in r
  {
    Lists.Filter(s.users, (u: Row) => Matches(u, s.searchTerm))
  }

  /** The search ignores the case of the term, and an empty term keeps
   *  exactly the rows that have an e-mail or a name. */
  lemma SearchCases(s: State)
    ensures Filtered(s.(searchTerm := Text.Lower(s.searchTerm))) == Filtered(s)
    ensures s.searchTerm == [] ==>
      forall u :: u in s.users ==>
        (u in Filtered(s) <==> u.profile.email.Some? || u.profile.firstName.Some? || u.profile.lastName.Some?)
  {
    Text.LowerIdempotent(s.searchTerm);
    Lists.FilterSame(s.users, (u: Row) => Matches(u, Text.Lower(s.searchTerm)), (u: Row) => Matches(u, s.searchTerm));
    if s.searchTerm == [] {
      forall u | u in s.users
        ensures u in Filtered(s) <==> u.profile.email.Some? || u.profile.firstName.Some? || u.profile.lastName.Some?
      {
        assert Text.Lower([]) == [];
        if u.profile.email.Some? {
          Text.ContainsEmpty(Text.Lower(u.profile.email.value));
        }
        if u.profile.firstName.Some? {
          Text.ContainsEmpty(Text.Lower(u.profile.firstName.value));
        }
        if u.profile.lastName.Some? {
          Text.ContainsEmpty(Text.Lower(u.profile.lastName.value));
        }
      }
    }
  }
}
