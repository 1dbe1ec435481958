/**
 * The campaigns page's decisions: the session guard, which requests the
 * mount effect issues, how the events list is assembled, and for each event
 * which referral, code, link and counters it shows.
 */
module CampaignsPage {
  import opened Wrappers
  import opened AuthUtils
  import opened Records
  import Text
  import Api

  /** The guard: no user, or no profile for a non-admin, redirects to /login. */
  function MayProceed(user: Option<User>, influencerProfile: Option<Profile>, isAdmin: bool): (ok: bool)
    ensures !ok <==> user.None? || (influencerProfile.None? && !isAdmin)
  {
    user.Some? && (influencerProfile.Some? || isAdmin)
  }

  /** One entry of the `promises` array. */
  datatype Request = GetEvents | GetReferral(influencerId: string) | ResolvedEmpty

  /** Whose referrals are fetched: only a non-admin with a profile gets a referral request. */
  function ReferralFetchFor(influencerProfile: Option<Profile>, isAdmin: bool): (who: Option<string>)
    ensures who.Some? <==> influencerProfile.Some? && !isAdmin
    ensures who.Some? ==> who.value == influencerProfile.value.id
  {
    if influencerProfile.Some? && !isAdmin then Some(influencerProfile.value.id) else None
  }

  /** The `promises` array, built by pushing onto `[getEvents()]`. */
  method PlanRequests(influencerProfile: Option<Profile>, isAdmin: bool) returns (requests: seq<Request>)
    ensures |requests| == 2 && requests[0] == GetEvents
    ensures ReferralFetchFor(influencerProfile, isAdmin).Some? ==>
              requests[1] == GetReferral(ReferralFetchFor(influencerProfile, isAdmin).value)
    ensures ReferralFetchFor(influencerProfile, isAdmin).None? ==> requests[1] == ResolvedEmpty
  {
    requests := [GetEvents];
    if influencerProfile.Some? && !isAdmin {
      requests := requests + [GetReferral(influencerProfile.value.id)];
    } else {
      requests := requests + [ResolvedEmpty];
    }
  }

  /** An admin is never sent a referral request, even with a profile; the referrals then come out empty. */
  lemma AdminGetsNoReferralFetch(influencerProfile: Option<Profile>)
    ensures ReferralFetchFor(influencerProfile, true).None?
  {
  }

  /** The session store's state decides the requests: after `setAuth(u, p)` a referral fetch is issued iff `u` is not an admin. */
  lemma ReferralFetchAfterSetAuth(s: Storage, u: User, p: Profile)
    ensures MayProceed(UserIn(AfterSetAuth(s, u, Some(p))), ProfileIn(AfterSetAuth(s, u, Some(p))), AdminIn(AfterSetAuth(s, u, Some(p))))
    ensures ReferralFetchFor(ProfileIn(AfterSetAuth(s, u, Some(p))), AdminIn(AfterSetAuth(s, u, Some(p))))
            == (if IsAdminUser(u) then None else Some(p.id))
  {
  }

  /** `[...(recentEvents || []), ...(upcomingEvents || [])]`. */
  function MergeEvents(recentEvents: Option<seq<Event>>, upcomingEvents: Option<seq<Event>>): (events: seq<Event>)
    ensures |events| == |recentEvents.GetOr([])| + |upcomingEvents.GetOr([])|
    ensures events[..|recentEvents.GetOr([])|] == recentEvents.GetOr([])
    ensures events[|recentEvents.GetOr([])|..] == upcomingEvents.GetOr([])
  {
    recentEvents.GetOr([]) + upcomingEvents.GetOr([])
  }

  /** The path of an event's page. */
  function EventPath(slug: string): string {
    "/events/" + slug
  }

  /** `r.link?.includes("/events/" + slug)`. */
  predicate LinksToEvent(r: Referral, slug: string) {
    r.link.Some? && Text.Includes(r.link.value, EventPath(slug))
  }

  /** `referrals.find(...)` for one event: the first referral whose link contains the event path. */
  function ExistingReferral(referrals: seq<Referral>, slug: string): (found: Option<Referral>)
    ensures found.None? <==> forall i :: 0 <= i < |referrals| ==> !LinksToEvent(referrals[i], slug)
    ensures found.Some? ==>
              exists i :: 0 <= i < |referrals| && referrals[i] == found.value && LinksToEvent(referrals[i], slug)
                          && forall j :: 0 <= j < i ==> !LinksToEvent(referrals[j], slug)
  {
    if referrals == [] then None
    else if LinksToEvent(referrals[0], slug) then Some(referrals[0])
    else ExistingReferral(referrals[1..], slug)
  }

  /**
   * The code shown for an event: the existing referral's code when there is
   * a non-empty one, otherwise "INF" + the upper-cased last six characters of
   * the event id (the whole id when it is shorter).
   */
  function EventReferralCode(existing: Option<Referral>, eventId: string): (code: string)
    ensures existing.Some? && existing.value.code != "" ==> code == existing.value.code
    ensures !(existing.Some? && existing.value.code != "") ==>
              && |code| == 3 + (if |eventId| < 6 then |eventId| else 6)
              && code[..3] == "INF"
              && code[3..] == Text.ToUpper(eventId[|eventId| - (|code| - 3)..])
  {
    if existing.Some? && existing.value.code != "" then existing.value.code
    else "INF" + Text.ToUpper(Text.SliceLast(eventId, 6))
  }

  /** The link shown for an event: the referral-link template with the event path. */
  function EventReferralLink(baseUrl: string, code: string, slug: string): (link: string)
    ensures link == baseUrl + "/events/" + slug + "?ref=" + code
  {
    Api.GenerateReferralLink(baseUrl, code, Some(EventPath(slug)))
  }

  /** The link carries exactly the code the card shows next to it. */
  lemma LinkCarriesShownCode(baseUrl: string, referrals: seq<Referral>, e: Event)
    ensures var code := EventReferralCode(ExistingReferral(referrals, e.slug), e.id);
      Api.CodeOfLink(baseUrl, Some(EventPath(e.slug)), EventReferralLink(baseUrl, code, e.slug)) == Some(code)
  {
    var code := EventReferralCode(ExistingReferral(referrals, e.slug), e.id);
    Api.LinkCodeRoundTrip(baseUrl, code, Some(EventPath(e.slug)));
  }

  /** `existingReferral?.clicks || 0`. */
  function DisplayedClicks(existing: Option<Referral>): (n: int)
    ensures existing.None? ==> n == 0
    ensures existing.Some? ==> n == existing.value.clicks
  {
    if existing.Some? then existing.value.clicks else 0
  }

  /** `existingReferral?.conversions || 0`. */
  function DisplayedConversions(existing: Option<Referral>): (n: int)
    ensures existing.None? ==> n == 0
    ensures existing.Some? ==> n == existing.value.conversions
  {
    if existing.Some? then existing.value.conversions else 0
  }

  /**
   * The event match is a substring test, so a referral made for the event
   * "gala-night" also counts as the existing referral of the event "gala".
   */
  lemma SlugPrefixAlsoMatches(baseUrl: string, code: string)
    ensures LinksToEvent(Referral("r1", code, Some(EventReferralLink(baseUrl, code, "gala-night")), 0, 0), "gala")
  {
    var link := EventReferralLink(baseUrl, code, "gala-night");
    var at := |baseUrl|;
    assert link[at..at + |EventPath("gala")|] == EventPath("gala");
    assert Text.OccursAt(link, EventPath("gala"), at);
  }
}
