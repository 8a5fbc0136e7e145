/** Server actions behind the settings page
 *  (src/app/actions/server/settings/primary.ts): starting a Stripe checkout,
 *  adding and removing a resume, and the public view of the configuration. */
module SettingsActions {
  import opened Wrappers
  import opened JsObject
  import opened Text
  import ConfigData
  import Lists

  /** The two price ids read from the environment. */
  datatype PriceIds = PriceIds(pro: string, power: string)

  /** What is sent to Stripe to open a checkout session. */
  datatype CheckoutRequest = CheckoutRequest(customerEmail: string, coupon: Option<string>, priceId: string,
                                             tier: string, userId: string, sessionId: string)

  const ProductionPromotion: string := "yaH1WWJW"
  const DevelopmentPromotion: string := "v8SGiyAV"

  /** `PRICE_IDS[tier]`: only the two own keys of the table. */
  function PriceFor(tier: string, prices: PriceIds): (p: Option<string>)
    ensures p.Some? <==> tier == "pro" || tier == "power"
  {
    if tier == "pro" then Some(prices.pro) else if tier == "power" then Some(prices.power) else None
  }

  /** `srv_createStripeCheckout` up to the Stripe call. `user` is the signed-in
   *  user's id and email addresses, `production` the environment and `now`
   *  the clock in ms. */
  function CreateCheckout(user: Option<(string, seq<string>)>, tier: string, prices: PriceIds,
                          production: bool, now: int): (r: Result<CheckoutRequest, string>)
    ensures user.None? ==> r == Err("Unauthorized")
    ensures user.Some? && tier != "pro" && tier != "power" ==> r == Err("Invalid tier")
    ensures r.Ok? ==> (r.value.tier == "pro" || r.value.tier == "power") && r.value.tier == tier
    ensures r.Ok? ==> r.value.priceId != "" && r.value.priceId == (if tier == "pro" then prices.pro else prices.power)
    ensures r.Ok? ==> |user.value.1| > 0 && r.value.customerEmail == user.value.1[0] && r.value.customerEmail != ""
    ensures r.Ok? ==> (r.value.coupon.Some? <==> EndsWith(r.value.customerEmail, ".edu"))
  {
    if user.None? then Err("Unauthorized")
    else
      var (id, emails) := user.value;
      match PriceFor(tier, prices)
      case None => Err("Invalid tier")
      case Some(price) =>
        if price == "" then Err("Invalid tier")
        else if |emails| == 0 then Err("TypeError")
        else if emails[0] == "" then Err("No email address found")
        else
          var promotion := if production then ProductionPromotion else DevelopmentPromotion;
          var coupon := if EndsWith(emails[0], ".edu") then Some(promotion) else None;
          Ok(CheckoutRequest(emails[0], coupon, price, tier, id, id + "_" + IntToString(now)))
  }

  /** An academic address gets the environment's promotion code and nothing
   *  else about the request depends on it. */
  lemma EduDiscount(id: string, email: string, tier: string, prices: PriceIds, production: bool, now: int)
    requires tier == "pro" || tier == "power"
    requires prices.pro != "" && prices.power != ""
    requires email != ""
    ensures var r := CreateCheckout(Some((id, [email])), tier, prices, production, now);
      && r.Ok?
      && r.value.coupon == (if EndsWith(email, ".edu") then Some(if production then ProductionPromotion else DevelopmentPromotion) else None)
      && r.value.userId == id
  {
  }

  datatype Resume = Resume(userId: string, fileId: string, resumeId: string, fileUrl: string,
                           fileName: string, dateCreated: int)

  const ResumePrefix: string := "RESUME_"

  /** `srv_addResume`: the record created, or `None` when nobody is signed in
   *  (`{success: false}`). */
  function AddResume(user: Option<string>, fileUrl: string, fileName: string, fileKey: string, now: int)
    : (r: Option<Resume>)
    ensures r.None? <==> user.None?
    ensures r.Some? ==>
      (&& |ResumePrefix| <= |r.value.resumeId|
       && r.value.resumeId[..|ResumePrefix|] == ResumePrefix
       && r.value.resumeId[|ResumePrefix|..] == fileKey && r.value.fileId == fileKey
       && r.value.userId == user.value)
  {
    if user.None? then None
    else Some(Resume(user.value, fileKey, ResumePrefix + fileKey, fileUrl, fileName, now))
  }

  datatype RemoveOutcome =
    | Unauthorized
    | NotFound
    | Removed(resumes: seq<Resume>, deletedFile: Option<string>)

  predicate Owns(r: Resume, userId: string, resumeId: string)
  {
    r.resumeId == resumeId && r.userId == userId
  }

  /** The storage key in a file URL: the text after its last '/'. */
  function StorageKey(fileUrl: string): (k: string)
    ensures EndsWith(fileUrl, k) && '/' !in k
  {
    SplitLastSuffix(fileUrl, '/');
    Last(Split(fileUrl, '/'))
  }

  /** `srv_removeResume`: a missing resume throws before anything is
   *  deleted; otherwise the stored file (if its URL yields a key) and the
   *  first matching record are deleted. */
  function RemoveResume(user: Option<string>, resumes: seq<Resume>, resumeId: string): (r: RemoveOutcome)
    ensures user.None? ==> r == Unauthorized
    ensures user.Some? ==>
      (r == NotFound <==> forall j :: 0 <= j < |resumes| ==> !Owns(resumes[j], user.value, resumeId))
    ensures r.Removed? ==> |r.resumes| == |resumes| - 1
    ensures r.Removed? && r.deletedFile.Some? ==> r.deletedFile.value != "" && '/' !in r.deletedFile.value
  {
    if user.None? then Unauthorized
    else
      var i := Lists.FindIndex(resumes, x => Owns(x, user.value, resumeId));
      if i < 0 then NotFound
      else
        var url := resumes[i].fileUrl;
        var key := if url != "" && StorageKey(url) != "" then Some(StorageKey(url)) else None;
        Removed(resumes[..i] + resumes[i + 1..], key)
  }

  /** Removal takes out exactly the first record of that user with that id. */
  lemma RemoveTakesFirstMatch(userId: string, resumes: seq<Resume>, resumeId: string, i: nat)
    requires i < |resumes| && Owns(resumes[i], userId, resumeId)
    requires forall j :: 0 <= j < i ==> !Owns(resumes[j], userId, resumeId)
    ensures RemoveResume(Some(userId), resumes, resumeId) ==
      Removed(resumes[..i] + resumes[i + 1..],
              if resumes[i].fileUrl != "" && StorageKey(resumes[i].fileUrl) != ""
              then Some(StorageKey(resumes[i].fileUrl)) else None)
  {
    var k := Lists.FindIndex(resumes, x => Owns(x, userId, resumeId));
    assert k == i;
  }

  /** An entry of a stored tier: a service limit, or the subdocument id
   *  Mongo adds under `_id`. */
  datatype RawEntry = RawLimit(limit: Option<int>, description: Option<string>) | ObjectId(hex: string)

  datatype RawService = RawService(name: string, description: string, active: bool, id: string)

  datatype RawConfig = RawConfig(tierLimits: Obj<Obj<RawEntry>>, services: Obj<RawService>)

  function LimitOf(e: RawEntry): Option<int>
  {
    match e
    case RawLimit(l, _) => l
    case ObjectId(_) => None
  }

  /** One tier with `_id` dropped and only `limit` kept per service. */
  function CleanTier(t: Obj<RawEntry>): (r: Obj<Option<int>>)
    ensures !HasKey(r, "_id")
    ensures forall k :: k != "_id" ==> (HasKey(r, k) <==> HasKey(t, k))
    ensures forall k :: k != "_id" && HasKey(t, k) ==> Get(r, k) == Some(LimitOf(Get(t, k).value))
  {
    if |t| == 0 then []
    else
      assert Keys(t) == [t[0].0] + Keys(t[1..]);
      var rest := CleanTier(t[1..]);
      if t[0].0 == "_id" then rest
      else
        var r := [(t[0].0, LimitOf(t[0].1))] + rest;
        assert Keys(r) == [t[0].0] + Keys(rest);
        assert forall k :: HasKey(r, k) <==> k == t[0].0 || HasKey(rest, k);
        r
  }

  function CleanService(s: RawService): ConfigData.Service
  {
    ConfigData.Service(s.name, s.description, s.active)
  }

  /** `srv_getConfigTiers`: the configuration reshaped for the client. */
  function GetConfigTiers(config: Option<RawConfig>): (r: Result<(Obj<Obj<Option<int>>>, Obj<ConfigData.Service>), string>)
    ensures config.None? <==> r == Err("Configuration not found")
    ensures r.Ok? ==> Keys(r.value.0) == Keys(config.value.tierLimits) && Keys(r.value.1) == Keys(config.value.services)
  {
    if config.None? then Err("Configuration not found")
    else Ok((MapValues(config.value.tierLimits, CleanTier), MapValues(config.value.services, CleanService)))
  }

  /** Every tier keeps its services' limits and loses its `_id`; every
   *  service keeps exactly its name, description and active flag. */
  lemma ConfigTiersShape(config: RawConfig, tier: string, key: string)
    requires HasKey(config.tierLimits, tier)
    ensures var r := GetConfigTiers(Some(config)).value;
      var t := Get(config.tierLimits, tier).value;
      var clean := Get(r.0, tier).value;
      && !HasKey(clean, "_id")
      && (key != "_id" && HasKey(t, key) ==> Get(clean, key) == Some(LimitOf(Get(t, key).value)))
      && (HasKey(config.services, key) ==>
            var s := Get(config.services, key).value;
            Get(r.1, key) == Some(ConfigData.Service(s.name, s.description, s.active)))
  {
    GetMapValues(config.tierLimits, CleanTier, tier);
    GetMapValues(config.services, CleanService, key);
  }
}
