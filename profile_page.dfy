/**
 * The profile page's decisions: its session guard (stricter than the
 * dashboard's), the wallet fallback, the tier badge class and icon, and the
 * display defaults.
 */
module ProfilePage {
  import opened Wrappers
  import opened AuthUtils
  import opened Records
  import Text
  import TierService
  import DashboardPage
  import CampaignsPage

  /** The guard: the page stays only when both a user and a profile are stored; the admin flag plays no part. */
  function MayProceed(user: Option<User>, influencerProfile: Option<Profile>): (ok: bool)
    ensures ok <==> user.Some? && influencerProfile.Some?
  {
    user.Some? && influencerProfile.Some?
  }

  /**
   * Whoever the profile page lets in, the dashboard and the campaigns page
   * let in too; an admin without a profile is let into those two but sent
   * to /login by this one.
   */
  lemma ProfileGateIsStricter(user: Option<User>, influencerProfile: Option<Profile>, isAdmin: bool)
    ensures MayProceed(user, influencerProfile) ==>
              && !DashboardPage.DashboardGate(user, influencerProfile, isAdmin).RedirectToLogin?
              && CampaignsPage.MayProceed(user, influencerProfile, isAdmin)
    ensures user.Some? && influencerProfile.None? && isAdmin ==>
              && !MayProceed(user, influencerProfile)
              && DashboardPage.DashboardGate(user, influencerProfile, isAdmin).Show?
              && CampaignsPage.MayProceed(user, influencerProfile, isAdmin)
  {
  }

  /** An admin session stored without a profile: admitted by the dashboard, refused by the profile page. */
  lemma AdminWithoutProfileOnStorage(s: Storage, u: User)
    requires IsAdminUser(u)
    ensures !MayProceed(UserIn(AfterSetAuth(s, u, None)), ProfileIn(AfterSetAuth(s, u, None)))
    ensures DashboardPage.GateOnStorage(AfterSetAuth(s, u, None)).Show?
  {
  }

  /** How the wallet call ended: it threw, or it returned a body whose `data` may be missing. */
  datatype WalletResponse = WalletThrew | WalletReturned(data: Option<Wallet>)

  const EmptyWallet: Wallet := Wallet(0.0, 0.0, 0.0)

  /** The wallet shown: the returned data, or all zeros when the call threw or returned none. */
  function WalletShown(response: WalletResponse): (w: Wallet)
    ensures response.WalletReturned? && response.data.Some? ==> w == response.data.value
    ensures !(response.WalletReturned? && response.data.Some?) ==> w == EmptyWallet
  {
    match response
    case WalletThrew => EmptyWallet
    case WalletReturned(data) => data.GetOr(EmptyWallet)
  }

  const DefaultTierClass: string := "bg-accent-light text-accent"
  const DefaultTierIcon: string := "⭐"

  /** `getTierColor`: a badge class for bronze, silver, gold and platinum in any letter case, the accent default otherwise. */
  function TierColor(tier: string): (cls: string)
    ensures cls != DefaultTierClass <==> Text.ToLower(tier) in {"bronze", "silver", "gold", "platinum"}
  {
    var key := Text.ToLower(tier);
    if key == "bronze" then "bg-amber-100 text-amber-800"
    else if key == "silver" then "bg-gray-100 text-gray-800"
    else if key == "gold" then "bg-yellow-100 text-yellow-800"
    else if key == "platinum" then "bg-purple-100 text-purple-800"
    else DefaultTierClass
  }

  /** `getTierIcon`: the same case-insensitive mapping, with a star as the default. */
  function TierIcon(tier: string): (icon: string)
    ensures icon != DefaultTierIcon <==> Text.ToLower(tier) in {"bronze", "silver", "gold", "platinum"}
  {
    var key := Text.ToLower(tier);
    if key == "bronze" then "🥉"
    else if key == "silver" then "🥈"
    else if key == "gold" then "🥇"
    else if key == "platinum" then "💎"
    else DefaultTierIcon
  }

  /** Both lookups ignore letter case. */
  lemma BadgeIsCaseInsensitive(tier: string)
    ensures TierColor(tier) == TierColor(Text.ToLower(tier))
    ensures TierIcon(tier) == TierIcon(Text.ToLower(tier))
  {
    Text.ToLowerIdempotent(tier);
  }

  /** The class falls back to its default exactly when the icon does. */
  lemma ColorAndIconAgree(tier: string)
    ensures TierColor(tier) == DefaultTierClass <==> TierIcon(tier) == DefaultTierIcon
  {
  }

  /**
   * Of the six tiers the tier service defines, only Platinum gets a badge of
   * its own; Hustler, Achiever, Premium, Diamond and Exclusive Black all get
   * the default class and the star.
   */
  lemma ServiceTiersMostlyDefault(i: nat)
    requires i < |TierService.InfluencerTiers|
    ensures var name := TierService.InfluencerTiers[i].tier;
      (TierColor(name) == DefaultTierClass) <==> name != TierService.Platinum
  {
    TierService.TableNames();
    assert i in {0, 1, 2, 3, 4, 5};
    assert Text.ToLower(TierService.Platinum) == "platinum";
    assert Text.ToLower(TierService.Hustler)[0] == 'h';
    assert Text.ToLower(TierService.Achiever)[0] == 'a';
    assert Text.ToLower(TierService.Premium)[0] == 'p' && Text.ToLower(TierService.Premium)[1] == 'r';
    assert Text.ToLower(TierService.Diamond)[0] == 'd';
    assert Text.ToLower(TierService.ExclusiveBlack)[0] == 'e';
  }

  /** `influencerProfile?.tier || "Bronze"`. */
  function DisplayedTier(influencerProfile: Option<Profile>): (shown: string)
    ensures shown != ""
    ensures influencerProfile.Some? && influencerProfile.value.tier != "" ==> shown == influencerProfile.value.tier
    ensures !(influencerProfile.Some? && influencerProfile.value.tier != "") ==> shown == "Bronze"
  {
    if influencerProfile.Some? && influencerProfile.value.tier != "" then influencerProfile.value.tier else "Bronze"
  }

  /** `influencerProfile?.referralCode || "N/A"`. */
  function DisplayedReferralCode(influencerProfile: Option<Profile>): (shown: string)
    ensures shown != ""
    ensures influencerProfile.Some? && influencerProfile.value.referralCode != "" ==> shown == influencerProfile.value.referralCode
    ensures !(influencerProfile.Some? && influencerProfile.value.referralCode != "") ==> shown == "N/A"
  {
    if influencerProfile.Some? && influencerProfile.value.referralCode != "" then influencerProfile.value.referralCode
    else "N/A"
  }

  /** The class and icon are computed from `tier || ""`, which is not the label's default: with no tier the label reads "Bronze" but the badge is the star, not the bronze medal. */
  lemma DefaultLabelAndIconDiffer(p: Profile)
    requires p.tier == ""
    ensures DisplayedTier(Some(p)) == "Bronze"
    ensures TierIcon(p.tier) == DefaultTierIcon && TierIcon("Bronze") == "🥉"
  {
    assert Text.ToLower("Bronze") == "bronze";
  }
}
