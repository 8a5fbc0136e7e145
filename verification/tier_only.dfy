/** The tier gate component (src/components/auth/TierOnly.tsx) and the role
 *  hook it reads the user's tier from (src/hooks/useRole.ts). */
module TierOnly {
  import opened Wrappers
  import opened Text

  /** What the component renders. */
  datatype View = Nothing | Fallback | Children

  /** `tier.split(',').map(t => t.trim().toLowerCase())`. */
  function AllowedTiers(tier: string): (r: seq<string>)
    ensures |r| == |Split(tier, ',')|
    ensures forall i :: 0 <= i < |r| ==> r[i] == Lower(Trim(Split(tier, ',')[i]))
  {
    var parts := Split(tier, ',');
    seq(|parts|, i requires 0 <= i < |parts| => Lower(Trim(parts[i])))
  }

  /** `TierOnly`: nothing while loading; the children only for a non-empty
   *  user tier whose lower-case form is allowed; the fallback otherwise. */
  function Render(loading: bool, tier: string, userTier: Option<string>): (r: View)
    ensures loading <==> r == Nothing
    ensures r == Children <==>
      !loading && userTier.Some? && userTier.value != [] && Lower(userTier.value) in AllowedTiers(tier)
  {
    if loading then Nothing
    else if userTier.None? || userTier.value == [] || Lower(userTier.value) !in AllowedTiers(tier) then Fallback
    else Children
  }

  /** A list of lower-case, space-free tier names written with commas is read
   *  back as the same list. */
  lemma AllowedTiersOfJoin(tiers: seq<string>)
    requires |tiers| >= 1
    requires forall k :: 0 <= k < |tiers| ==> ',' !in tiers[k] && NoSpace(tiers[k]) && Lower(tiers[k]) == tiers[k]
    ensures AllowedTiers(Join(tiers, ',')) == tiers
  {
    SplitJoin(tiers, ',');
    forall k | 0 <= k < |tiers|
      ensures Trim(tiers[k]) == tiers[k]
    {
      TrimNoSpace(tiers[k]);
    }
  }

  lemma TrimNoSpace(s: string)
    requires NoSpace(s)
    ensures Trim(s) == s
  {
    var t := TrimStart(s);
    if |s| > 0 {
      assert !IsSpace(s[0]);
    }
    assert t == s;
    if |t| > 0 {
      assert !IsSpace(t[|t| - 1]);
    }
  }

  /** Case does not matter on either side: "Pro" in the list admits a user
   *  whose tier is "PRO". */
  lemma GateIgnoresCase(tiers: seq<string>, userTier: string)
    requires |tiers| >= 1
    requires forall k :: 0 <= k < |tiers| ==> ',' !in tiers[k] && NoSpace(tiers[k]) && Lower(tiers[k]) == tiers[k]
    requires userTier != []
    ensures Render(false, Join(tiers, ','), Some(userTier)) == Children <==> Lower(userTier) in tiers
  {
    AllowedTiersOfJoin(tiers);
  }

  /** What `useRole` hands back: a role and a loading flag, and no tier. */
  datatype RoleState = RoleState(role: Option<string>, loading: bool)

  /** The tier the gate reads from the role hook, which has no such field. */
  function HookTier(s: RoleState): Option<string>
  {
    None
  }

  /** Because the hook never supplies a tier, the gate shows nothing while
   *  the role loads and its fallback afterwards, whatever tiers it allows:
   *  its children are never shown. */
  lemma LoadedGateShowsFallback(s: RoleState, tier: string)
    ensures Render(s.loading, tier, HookTier(s)) == if s.loading then Nothing else Fallback
    ensures Render(s.loading, tier, HookTier(s)) != Children
  {
  }
}
