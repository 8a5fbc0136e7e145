/** The admin user-management actions
 *  (src/app/actions/server/admin/usermgmt/primary.ts): listing the combined
 *  profiles and updating one user's role, tier or onboarding flag. The
 *  profile store is a sequence of documents, the identity provider's
 *  private metadata a map from user id to role; the clock is an input. */
module UserMgmt {
  import opened Wrappers
  import Lists

  /** What the profile lookup combines for one user. */
  datatype Profile = Profile(id: string, email: Option<string>, firstName: Option<string>, lastName: Option<string>,
                             role: string, tier: string, onBoardingComplete: bool)

  /** A stored profile document, with the paths the user schema declares
   *  that this action touches; fields never written are `None`. The schema
   *  has no onboarding path. */
  datatype UserDoc = UserDoc(userId: string, role: Option<string>, tier: Option<string>, about: Option<string>,
                             dateCreated: Option<int>, dateUpdated: Option<int>)

  /** The requested changes; an absent field is `None`. */
  datatype Changes = Changes(role: Option<string>, tier: Option<string>, onBoardingComplete: Option<bool>)

  /** The `$set` part of the update. */
  datatype Fields = Fields(role: Option<string>, tier: Option<string>, onBoardingComplete: Option<bool>, dateUpdated: int)

  const ForbiddenError := "Forbidden"

  /** Both actions demand an admin session and an admin profile. */
  predicate Authorized(isAdminSession: bool, profileRole: Option<string>)
  {
    isAdminSession && profileRole == Some("admin")
  }

  predicate Truthy(s: Option<string>)
  {
    s.Some? && s.value != []
  }

  /** `srv_getUsers`: the profiles that exist, in the provider's order. */
  function GetUsers(isAdminSession: bool, profileRole: Option<string>, profiles: seq<Option<Profile>>):
    (r: Result<seq<Profile>, string>)
    ensures !Authorized(isAdminSession, profileRole) <==> r == Err(ForbiddenError)
    ensures r.Ok? ==> |r.value| <= |profiles|
  {
    if !Authorized(isAdminSession, profileRole) then Err(ForbiddenError)
    else Ok(Lists.FilterMap(profiles, (p: Option<Profile>) => p))
  }

  /** The listing drops exactly the missing profiles. */
  lemma GetUsersDropsMissing(profiles: seq<Option<Profile>>)
    ensures var r := GetUsers(true, Some("admin"), profiles);
      r.Ok? &&
      (forall j :: 0 <= j < |profiles| && profiles[j].Some? ==> profiles[j].value in r.value) &&
      (forall i :: 0 <= i < |r.value| ==> Some(r.value[i]) in profiles)
  {
    var f := (p: Option<Profile>) => p;
    var r := Lists.FilterMap(profiles, f);
    forall j | 0 <= j < |profiles| && profiles[j].Some?
      ensures profiles[j].value in r
    {
      Lists.FilterMapComplete(profiles, f, j);
    }
    forall i | 0 <= i < |r|
      ensures Some(r[i]) in profiles
    {
      Lists.FilterMapSound(profiles, f, i);
    }
  }

  /** The fields the update sets: always the time; role and tier only when
   *  non-empty; the onboarding flag whenever it is given, false included. */
  function UpdateFields(c: Changes, now: int): (f: Fields)
    ensures f.dateUpdated == now
    ensures f.role.Some? <==> Truthy(c.role)
    ensures f.tier.Some? <==> Truthy(c.tier)
    ensures f.onBoardingComplete == c.onBoardingComplete
    ensures f.role.Some? ==> f.role == c.role
    ensures f.tier.Some? ==> f.tier == c.tier
  {
    Fields(if Truthy(c.role) then c.role else None, if Truthy(c.tier) then c.tier else None,
           c.onBoardingComplete, now)
  }

  /** `$set` under the schema's strict mode: only the fields present
   *  change, and the onboarding flag, a path the schema does not declare,
   *  is dropped. */
  function Apply(d: UserDoc, f: Fields): UserDoc
  {
    UserDoc(d.userId, if f.role.Some? then f.role else d.role, if f.tier.Some? then f.tier else d.tier,
            d.about, d.dateCreated, Some(f.dateUpdated))
  }

  /** The document an upsert inserts before `$set` applies: the schema's
   *  defaults (role "user", tier "free", an empty about text, both dates
   *  now), `dateCreated` also being the `$setOnInsert`. */
  function Inserted(userId: string, now: int): (d: UserDoc)
    ensures d.userId == userId && d.role == Some("user") && d.tier == Some("free") && d.about == Some("")
    ensures d.dateCreated == Some(now) && d.dateUpdated == Some(now)
  {
    UserDoc(userId, Some("user"), Some("free"), Some(""), Some(now), Some(now))
  }

  function DocIndex(docs: seq<UserDoc>, userId: string): (i: int)
    ensures -1 <= i < |docs|
    ensures i == -1 <==> forall j :: 0 <= j < |docs| ==> docs[j].userId != userId
    ensures 0 <= i ==> docs[i].userId == userId
  {
    Lists.FindIndex(docs, (d: UserDoc) => d.userId == userId)
  }

  /** `findOneAndUpdate` with `upsert`: the first matching document is
   *  updated; without one a document is created with the schema's
   *  defaults, and only then does `dateCreated` get written. */
  function Upsert(docs: seq<UserDoc>, userId: string, f: Fields, now: int): (r: seq<UserDoc>)
    ensures DocIndex(docs, userId) >= 0 ==>
      (|r| == |docs| &&
       var i := DocIndex(docs, userId);
       r[i] == Apply(docs[i], f) && r[i].dateCreated == docs[i].dateCreated &&
       forall j :: 0 <= j < |docs| && j != i ==> r[j] == docs[j])
    ensures DocIndex(docs, userId) < 0 ==>
      |r| == |docs| + 1 && r[..|docs|] == docs &&
      r[|docs|] == UserDoc(userId, if f.role.Some? then f.role else Some("user"),
                           if f.tier.Some? then f.tier else Some("free"), Some(""), Some(now), Some(f.dateUpdated))
  {
    var i := DocIndex(docs, userId);
    if i >= 0 then docs[i := Apply(docs[i], f)]
    else docs + [Apply(Inserted(userId, now), f)]
  }

  /** Setting the onboarding flag or leaving it out stores the same
   *  documents. */
  lemma OnboardingFlagDropped(docs: seq<UserDoc>, userId: string, f: Fields, now: int)
    ensures Upsert(docs, userId, f, now) == Upsert(docs, userId, f.(onBoardingComplete := None), now)
  {
  }

  /** `srv_updateUser`: refused unless authorised; otherwise the document is
   *  upserted and the provider's metadata gets the role only when one is
   *  given. */
  function UpdateUser(isAdminSession: bool, profileRole: Option<string>, docs: seq<UserDoc>,
                      metadata: map<string, string>, target: string, c: Changes, now: int):
    (r: Result<(seq<UserDoc>, map<string, string>), string>)
    ensures !Authorized(isAdminSession, profileRole) <==> r == Err(ForbiddenError)
    ensures r.Ok? ==> r.value.0 == Upsert(docs, target, UpdateFields(c, now), now)
    ensures r.Ok? && Truthy(c.role) ==> r.value.1 == metadata[target := c.role.value]
    ensures r.Ok? && !Truthy(c.role) ==> r.value.1 == metadata
  {
    if !Authorized(isAdminSession, profileRole) then Err(ForbiddenError)
    else
      var meta := if Truthy(c.role) then metadata[target := c.role.value] else metadata;
      Ok((Upsert(docs, target, UpdateFields(c, now), now), meta))
  }

  /** After an update the target has a document that reflects the role and
   *  tier changes, and a new document otherwise holds the schema's
   *  defaults; a second update never adds another document and keeps the
   *  creation date from the first. */
  lemma UpdateCreatesOnce(docs: seq<UserDoc>, metadata: map<string, string>, target: string,
                          c1: Changes, t1: int, c2: Changes, t2: int)
    ensures var r1 := UpdateUser(true, Some("admin"), docs, metadata, target, c1, t1).value;
      var i := DocIndex(r1.0, target);
      i >= 0 && r1.0[i].dateUpdated == Some(t1) &&
      (Truthy(c1.role) ==> r1.0[i].role == c1.role) &&
      (Truthy(c1.tier) ==> r1.0[i].tier == c1.tier) &&
      (DocIndex(docs, target) < 0 ==>
        r1.0[i].about == Some("") &&
        (!Truthy(c1.role) ==> r1.0[i].role == Some("user")) &&
        (!Truthy(c1.tier) ==> r1.0[i].tier == Some("free"))) &&
      var r2 := UpdateUser(true, Some("admin"), r1.0, r1.1, target, c2, t2).value;
      |r2.0| == |r1.0| && r2.0[i].dateCreated == r1.0[i].dateCreated &&
      (DocIndex(docs, target) < 0 ==> r2.0[i].dateCreated == Some(t1))
  {
    var r1 := UpdateUser(true, Some("admin"), docs, metadata, target, c1, t1).value;
    if DocIndex(docs, target) < 0 {
      assert r1.0[|docs|].userId == target;
      assert DocIndex(r1.0, target) == |docs| by {
        assert forall j :: 0 <= j < |docs| ==> r1.0[j] == docs[j];
      }
    } else {
      var k := DocIndex(docs, target);
      assert DocIndex(r1.0, target) == k by {
        assert forall j :: 0 <= j < k ==> r1.0[j] == docs[j];
      }
    }
  }
}
