/** The waitlist and its referral campaigns: the homepage's server actions
 *  (src/app/actions/server/homepage/primary.ts) and the public signup
 *  endpoint (src/app/api/waitlist/route.ts). The two collections are
 *  sequences; the clock, the random draw and the outcome of outgoing mail
 *  and tracking requests are inputs. */
module Waitlist {
  import opened Wrappers
  import Text
  import Lists

  /** A referral campaign and its two counters. */
  datatype Campaign = Campaign(ref: string, signups: int, visits: int)

  /** A waitlist entry; fields a writer leaves out are `None`. */
  datatype Entry = Entry(email: string, dateSignedUp: Option<int>, isNotified: Option<bool>, dateUpdated: Option<int>)

  datatype Store = Store(entries: seq<Entry>, campaigns: seq<Campaign>)

  const CampaignNotFound := "Campaign not found"
  const AlreadyListed := "You're already on our waitlist"
  /** What the homepage adds to the real count when it reports a position. */
  const HomepageOffset := 432
  /** What the signup endpoint adds to the real count. */
  const EndpointOffset := 1300

  predicate Listed(entries: seq<Entry>, email: string)
  {
    exists i :: 0 <= i < |entries| && entries[i].email == email
  }

  /** `CampaignModel.findOne({ ref })`: the first campaign with that ref. */
  function CampaignIndex(cs: seq<Campaign>, ref: string): (i: int)
    ensures -1 <= i < |cs|
    ensures i == -1 <==> forall j :: 0 <= j < |cs| ==> cs[j].ref != ref
    ensures 0 <= i ==> cs[i].ref == ref
  {
    Lists.FindIndex(cs, (c: Campaign) => c.ref == ref)
  }

  /** `recordRefSignup`: the campaign's signup counter goes up by one; an
   *  unknown ref is an error. */
  function RecordRefSignup(cs: seq<Campaign>, ref: string): (r: Result<seq<Campaign>, string>)
    ensures CampaignIndex(cs, ref) < 0 <==> r == Err(CampaignNotFound)
    ensures r.Ok? ==>
      (|r.value| == |cs| &&
       var i := CampaignIndex(cs, ref);
       r.value[i] == cs[i].(signups := cs[i].signups + 1) &&
       forall j :: 0 <= j < |cs| && j != i ==> r.value[j] == cs[j])
  {
    var i := CampaignIndex(cs, ref);
    if i < 0 then Err(CampaignNotFound) else Ok(cs[i := cs[i].(signups := cs[i].signups + 1)])
  }

  /** `srv_recordPageVisit`: the same for the visit counter. */
  function RecordPageVisit(cs: seq<Campaign>, ref: string): (r: Result<seq<Campaign>, string>)
    ensures CampaignIndex(cs, ref) < 0 <==> r == Err(CampaignNotFound)
    ensures r.Ok? ==>
      (|r.value| == |cs| &&
       var i := CampaignIndex(cs, ref);
       r.value[i] == cs[i].(visits := cs[i].visits + 1) &&
       forall j :: 0 <= j < |cs| && j != i ==> r.value[j] == cs[j])
  {
    var i := CampaignIndex(cs, ref);
    if i < 0 then Err(CampaignNotFound) else Ok(cs[i := cs[i].(visits := cs[i].visits + 1)])
  }

  function TotalSignups(cs: seq<Campaign>): int
  {
    if |cs| == 0 then 0 else cs[0].signups + TotalSignups(cs[1..])
  }

  function TotalVisits(cs: seq<Campaign>): int
  {
    if |cs| == 0 then 0 else cs[0].visits + TotalVisits(cs[1..])
  }

  /** Raising one campaign's counters by `ds` and `dv` raises the totals by
   *  exactly that much. */
  lemma {:induction false} TotalsBump(cs: seq<Campaign>, i: nat, ds: int, dv: int)
    requires i < |cs|
    ensures TotalSignups(cs[i := cs[i].(signups := cs[i].signups + ds, visits := cs[i].visits + dv)]) ==
      TotalSignups(cs) + ds
    ensures TotalVisits(cs[i := cs[i].(signups := cs[i].signups + ds, visits := cs[i].visits + dv)]) ==
      TotalVisits(cs) + dv
  {
    var cs' := cs[i := cs[i].(signups := cs[i].signups + ds, visits := cs[i].visits + dv)];
    if i == 0 {
      assert cs'[1..] == cs[1..];
    } else {
      TotalsBump(cs[1..], i - 1, ds, dv);
      assert cs'[1..] == cs[1..][i - 1 := cs[i].(signups := cs[i].signups + ds, visits := cs[i].visits + dv)];
    }
  }

  /** A recorded visit or signup adds exactly one to the campaigns' totals
   *  of that counter and nothing to the other. */
  lemma CountersAddOne(cs: seq<Campaign>, ref: string)
    requires CampaignIndex(cs, ref) >= 0
    ensures TotalSignups(RecordRefSignup(cs, ref).value) == TotalSignups(cs) + 1
    ensures TotalVisits(RecordRefSignup(cs, ref).value) == TotalVisits(cs)
    ensures TotalVisits(RecordPageVisit(cs, ref).value) == TotalVisits(cs) + 1
    ensures TotalSignups(RecordPageVisit(cs, ref).value) == TotalSignups(cs)
  {
    SignupAddsOne(cs, ref);
    VisitAddsOne(cs, ref);
  }

  lemma SignupAddsOne(cs: seq<Campaign>, ref: string)
    requires CampaignIndex(cs, ref) >= 0
    ensures TotalSignups(RecordRefSignup(cs, ref).value) == TotalSignups(cs) + 1
    ensures TotalVisits(RecordRefSignup(cs, ref).value) == TotalVisits(cs)
  {
    var i := CampaignIndex(cs, ref);
    TotalsBump(cs, i, 1, 0);
    assert RecordRefSignup(cs, ref).value == cs[i := cs[i].(signups := cs[i].signups + 1, visits := cs[i].visits + 0)];
  }

  lemma VisitAddsOne(cs: seq<Campaign>, ref: string)
    requires CampaignIndex(cs, ref) >= 0
    ensures TotalVisits(RecordPageVisit(cs, ref).value) == TotalVisits(cs) + 1
    ensures TotalSignups(RecordPageVisit(cs, ref).value) == TotalSignups(cs)
  {
    var i := CampaignIndex(cs, ref);
    TotalsBump(cs, i, 0, 1);
    assert RecordPageVisit(cs, ref).value == cs[i := cs[i].(signups := cs[i].signups + 0, visits := cs[i].visits + 1)];
  }

  /** The homepage action's answer. */
  datatype Reply = Reply(error: bool, message: string, email: string, totalUsers: Option<int>)

  /** `srv_handleWaitlistSignup`: a non-empty ref is counted first (and an
   *  unknown one aborts); then a listed email is refused and a new one is
   *  added and told its position, the new count plus 432. */
  function HandleSignup(st: Store, email: string, ref: string): (r: Result<(Store, Reply), string>)
    ensures r.Err? <==> ref != [] && CampaignIndex(st.campaigns, ref) < 0
    ensures r.Err? ==> r.error == CampaignNotFound
    ensures r.Ok? ==> r.value.0.campaigns == (if ref == [] then st.campaigns else RecordRefSignup(st.campaigns, ref).value)
    ensures r.Ok? && Listed(st.entries, email) ==>
      r.value.0.entries == st.entries && r.value.1.error && r.value.1.message == AlreadyListed
    ensures r.Ok? && !Listed(st.entries, email) ==>
      r.value.0.entries == st.entries + [Entry(email, None, None, None)] && !r.value.1.error &&
      r.value.1.totalUsers == Some(|st.entries| + 1 + HomepageOffset)
  {
    var counted := if ref == [] then Ok(st.campaigns) else RecordRefSignup(st.campaigns, ref);
    if counted.Err? then Err(counted.error)
    else
      var campaigns := counted.value;
      if Listed(st.entries, email) then
        Ok((st.(campaigns := campaigns), Reply(true, AlreadyListed, email, None)))
      else
        var entries := st.entries + [Entry(email, None, None, None)];
        var total := |entries| + HomepageOffset;
        Ok((Store(entries, campaigns),
            Reply(false, "You're number " + Text.NatToString(total) + " on the waitlist. We'll notify you when we launch!",
                  email, Some(total))))
  }

  /** A known ref is counted even when the email is already listed, and
   *  signing up twice adds the email once while counting the ref twice. */
  lemma RefCountedForDuplicates(st: Store, email: string, ref: string)
    requires ref != [] && CampaignIndex(st.campaigns, ref) >= 0
    ensures var r1 := HandleSignup(st, email, ref);
      r1.Ok? && TotalSignups(r1.value.0.campaigns) == TotalSignups(st.campaigns) + 1 &&
      var r2 := HandleSignup(r1.value.0, email, ref);
      r2.Ok? && r2.value.1.error && r2.value.0.entries == r1.value.0.entries &&
      TotalSignups(r2.value.0.campaigns) == TotalSignups(st.campaigns) + 2
  {
    CountersAddOne(st.campaigns, ref);
    var r1 := HandleSignup(st, email, ref);
    var cs1 := r1.value.0.campaigns;
    assert CampaignIndex(cs1, ref) >= 0 by {
      var i := CampaignIndex(st.campaigns, ref);
      assert cs1[i].ref == ref;
    }
    CountersAddOne(cs1, ref);
    assert Listed(r1.value.0.entries, email) by {
      if !Listed(st.entries, email) {
        assert r1.value.0.entries[|st.entries|].email == email;
      }
    }
  }

  /** `Math.floor(Math.random() * 16) + 35` for a draw in [0, 1). */
  function DailySignups(draw: real): (n: int)
    requires 0.0 <= draw < 1.0
    ensures 35 <= n <= 50
  {
    (draw * 16.0).Floor + 35
  }

  /** Every figure between 35 and 50 is shown for some draw. */
  lemma DailySignupsOnto(n: int)
    requires 35 <= n <= 50
    ensures var draw := (n - 35) as real / 16.0;
      0.0 <= draw < 1.0 && DailySignups(draw) == n
  {
    var draw := (n - 35) as real / 16.0;
    assert draw * 16.0 == (n - 35) as real;
  }

  /** The endpoint's answer: a plain-text status, or the join confirmation. */
  datatype Response = Plain(status: int, text: string) | Joined(totalUsers: int, message: string, user: Entry)

  /** The endpoint's effects: the new store, and the ref it asks the tracking
   *  endpoint to count, if any. */
  datatype Outcome = Outcome(store: seq<Entry>, tracked: Option<string>, response: Response)

  /** `POST /api/waitlist` as written. The route imports
   *  `sendAdminNotification` from the e-mail service, which exports no such
   *  function, so the call after the welcome mail is a call of `undefined`:
   *  a missing email is 400 and a listed one 409 as intended, but a new
   *  email is tracked and saved and then the TypeError is caught and
   *  answered with a 500. The outcomes of the tracking request and the
   *  welcome mail change nothing. */
  function PostAsWritten(entries: seq<Entry>, email: Option<string>, ref: Option<string>, now: int,
                         trackingOk: bool, welcomeSent: bool): (o: Outcome)
    ensures email.None? || email.value == [] <==> o == Outcome(entries, None, Plain(400, "Email is required"))
    ensures email.Some? && email.value != [] && Listed(entries, email.value) <==>
      o == Outcome(entries, None, Plain(409, "Email already registered"))
    ensures !o.response.Joined?
    ensures o.response == Plain(500, "Error processing waitlist signup") <==>
      email.Some? && email.value != [] && !Listed(entries, email.value)
    ensures o.response.status == 500 ==>
      |o.store| == |entries| + 1 && o.store[..|entries|] == entries && o.store[|entries|].email == email.value &&
      o.tracked == (if ref.Some? && ref.value != [] then ref else None)
  {
    if email.None? || email.value == [] then Outcome(entries, None, Plain(400, "Email is required"))
    else if Listed(entries, email.value) then Outcome(entries, None, Plain(409, "Email already registered"))
    else
      var tracked := if ref.Some? && ref.value != [] then ref else None;
      var saved := entries + [Entry(email.value, Some(now), Some(false), Some(now))];
      Outcome(saved, tracked, Plain(500, "Error processing waitlist signup"))
  }

  /** As written, a new email is told that the signup failed although it was
   *  saved, so trying again is refused as already registered. */
  lemma NewEmailFailsButIsSaved(entries: seq<Entry>, email: string, ref: Option<string>, now: int, later: int,
                                t1: bool, w1: bool, t2: bool, w2: bool)
    requires email != [] && !Listed(entries, email)
    ensures var o := PostAsWritten(entries, Some(email), ref, now, t1, w1);
      o.response == Plain(500, "Error processing waitlist signup") && Listed(o.store, email) &&
      PostAsWritten(o.store, Some(email), ref, later, t2, w2).response == Plain(409, "Email already registered")
  {
    var o := PostAsWritten(entries, Some(email), ref, now, t1, w1);
    assert o.store[|entries|].email == email;
  }

  /** The route as written and the intended route store and track the same,
   *  and differ exactly in the answer to a new email: 500 instead of the
   *  join confirmation. */
  lemma MissingExportOnlyChangesAnswer(entries: seq<Entry>, email: Option<string>, ref: Option<string>, now: int,
                                       trackingOk: bool, welcomeSent: bool, adminNotified: bool)
    ensures var w := PostAsWritten(entries, email, ref, now, trackingOk, welcomeSent);
      var i := Post(entries, email, ref, now, trackingOk, welcomeSent, adminNotified);
      w.store == i.store && w.tracked == i.tracked &&
      (w.response != i.response <==> i.response.Joined?) &&
      (i.response.Joined? ==> w.response.status == 500)
  {
  }

  /** `POST /api/waitlist` as intended, with the admin notification
   *  exported: a missing email is 400, a listed one 409 before any
   *  tracking; otherwise the ref is sent for tracking, the entry saved and
   *  the count plus 1300 reported. Whether the tracking request or either
   *  mail fails does not change the outcome. */
  function Post(entries: seq<Entry>, email: Option<string>, ref: Option<string>, now: int,
                trackingOk: bool, welcomeSent: bool, adminNotified: bool): (o: Outcome)
    ensures email.None? || email.value == [] <==> o == Outcome(entries, None, Plain(400, "Email is required"))
    ensures email.Some? && email.value != [] && Listed(entries, email.value) <==>
      o == Outcome(entries, None, Plain(409, "Email already registered"))
    ensures o.response.Joined? ==>
      email.Some? && !Listed(entries, email.value) &&
      o.store == entries + [o.response.user] && o.response.user.email == email.value &&
      o.response.totalUsers == |entries| + 1 + EndpointOffset &&
      o.tracked == (if ref.Some? && ref.value != [] then ref else None)
  {
    if email.None? || email.value == [] then Outcome(entries, None, Plain(400, "Email is required"))
    else if Listed(entries, email.value) then Outcome(entries, None, Plain(409, "Email already registered"))
    else
      var tracked := if ref.Some? && ref.value != [] then ref else None;
      var user := Entry(email.value, Some(now), Some(false), Some(now));
      var saved := entries + [user];
      Outcome(saved, tracked, Joined(|saved| + EndpointOffset, "Successfully joined waitlist", user))
  }

  /** In the intended route, a new email always joins, whatever happens to
   *  the tracking request and the two mails. */
  lemma NewEmailJoins(entries: seq<Entry>, email: string, ref: Option<string>, now: int,
                      t1: bool, w1: bool, a1: bool, t2: bool, w2: bool, a2: bool)
    requires email != [] && !Listed(entries, email)
    ensures Post(entries, Some(email), ref, now, t1, w1, a1).response.Joined?
    ensures Post(entries, Some(email), ref, now, t1, w1, a1) == Post(entries, Some(email), ref, now, t2, w2, a2)
    ensures Listed(Post(entries, Some(email), ref, now, t1, w1, a1).store, email)
  {
    var o := Post(entries, Some(email), ref, now, t1, w1, a1);
    assert o.store[|entries|].email == email;
  }
}
