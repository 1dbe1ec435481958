# Influencer dashboard: tier resolver, session store and page decisions

A Dafny model of the logic inside a client-rendered dashboard for an influencer-marketing
program. The model has three parts.

- **Tier resolver** (`tier_service.dfy`, `tier_timeline.dfy`). A static, ordered table of six
  commission tiers: Hustler, Achiever, Premium, Platinum, Diamond and Exclusive Black.
  - `calculateInfluencerTier` is a descending scan with an early return. The model keeps it as a
    method with a loop, proved against the function `ResolvedIndex`.
  - The commission rate, the next tier and the progress towards it are functions over the table.
  - The tier timeline modal decides per tier whether it is reached, current or next to unlock,
    and how wide its progress bar is.
- **Session store** (`auth_utils.dfy`). The three `localStorage` slots: user, influencer profile
  and admin flag.
  - `SessionStore` is a class whose `storage` map is updated in place by `SetAuth` and `Logout`.
  - The pure functions `AfterSetAuth`, `AfterLogout`, `UserIn`, `ProfileIn` and `AdminIn` state
    what the storage holds and what the getters read.
- **Page decisions and request building** (`dashboard_page.dfy`, `campaigns_page.dfy`,
  `profile_page.dfy`, `api.dfy`). Each page has a guard. Each page derives counts, lists, codes,
  links and display defaults from fetched data. The API client builds the referral link template,
  the request headers, the URL and the failure message.
  - The guards are stated both on their inputs and on the storage the session store leaves behind.

Shared pieces: `wrappers.dfy` (Option), `records.dfy` (the backend records the pages read) and
`text.dfy` (`includes`, `slice(-n)` and ASCII case mapping).

Three behaviours of the code are easy to miss, and the model states each one:

- `getTierProgress` returns progress 100 at the top tier.
- `logout` leaves the admin flag in place.
- A negative referral count is not rejected. It resolves to Hustler.

## Model

| member | source | states |
|---|---|---|
| TierService.TableIsContiguous | lib/services/tier-service.ts:14-51 | the table starts at 0, every row's max + 1 is the next row's min, every range is non-empty, and only the last row is unbounded |
| TierService.TableIsAscending | lib/services/tier-service.ts:14-51 | row starts strictly increase along the table (derived from contiguity) |
| TierService.TableRatesIncrease | lib/services/tier-service.ts:14-51 | commission rates strictly increase along the table |
| TierService.TableNamesDistinct | lib/services/tier-service.ts:14-51 | no tier name occurs twice, so name lookups are unambiguous |
| TierService.ScanFromFindsHighest | lib/services/tier-service.ts:58-66 | `ScanFrom(n, i)`, the descending scan from row i, stops at the highest row whose start is at most n, or falls back to row 0 when no row qualifies |
| TierService.ResolvedIndexIsHighestQualifying | lib/services/tier-service.ts:56-66 | for n >= 0 the resolved row `ResolvedIndex(n)` (the scan from the last row) has the largest start <= n and n lies in its [min, max] range; a negative n resolves to row 0 |
| TierService.RangesPartition | lib/services/tier-service.ts:14-66 | for n >= 0 a row contains n iff it is the resolved row, so the ranges partition the non-negative integers |
| TierService.ResolvedIndexMonotone | lib/services/tier-service.ts:58-66 | more referrals never resolve to an earlier row |
| TierService.BoundariesAreExact | lib/services/tier-service.ts:14-66 | 0 and 14 give Hustler, 15 Achiever, 119 Diamond, every n >= 120 Exclusive Black, every negative n Hustler |
| TierService.CalculateInfluencerTier | lib/services/tier-service.ts:56-67 | the loop returns the resolved row; for n >= 0 n lies in its range; for n < 0 the result is the first row |
| TierService.OnlyResolvedRowHolds | lib/services/tier-service.ts:14-66 | for n >= 0 no row other than the resolved one has n in its [min, max] range |
| TierService.GetInfluencerCommissionRate | lib/services/tier-service.ts:72-75 | for n >= 0 the rate is that of the row whose [min, max] range holds n; for n < 0 it is the first row's rate; it is always one of the table's rates |
| TierService.CommissionRateMonotone | lib/services/tier-service.ts:72-75 | the commission rate is non-decreasing in the referral count |
| TierService.IndexOfTier | lib/services/tier-service.ts:81 | findIndex: -1 iff no row has the name, otherwise the first row with that name |
| TierService.GetNextTier | lib/services/tier-service.ts:80-86 | some row iff the name belongs to a row other than the last, and then it is the row right after it; null for the last tier and unknown names |
| TierService.ClampPercent | lib/services/tier-service.ts:114 | the result lies in [0, 100], equals x inside that range, is 0 for x <= 0 and 100 for x >= 100 |
| TierService.GetTierProgress | lib/services/tier-service.ts:91-116 | current is the count; next is null exactly at the top row, and progress is then 100; otherwise next is the next row's start; progress always lies in [0, 100] |
| TierService.ProgressBelowTop | lib/services/tier-service.ts:107-114 | below the top row the progress is the clamped linear position between this row's start and the next row's start, over a positive span |
| TierService.ProgressIgnoresCurrentTier | lib/services/tier-service.ts:91-97 | the currentTier argument has no effect on the result |
| TierService.ProgressWithinBand | lib/services/tier-service.ts:107-115 | for n >= 0 below the top row the progress is below 100, and it is 0 exactly at the row's start |
| TierService.ProgressMonotoneInBand | lib/services/tier-service.ts:107-114 | within one row, more referrals never give less progress |
| TierService.NegativeCountHasNoProgress | lib/services/tier-service.ts:96-115 | a negative count reports next = 15 and progress 0 |
| TierService.ProgressSamples | lib/services/tier-service.ts:96-115 | 22 referrals are strictly between 0 and 100 percent; 500 referrals give next = null and 100 percent |
| TierService.GetAllTiers | lib/services/tier-service.ts:121-123 | the returned table is contiguous, ascending, has increasing rates and distinct names, and runs from Hustler to Exclusive Black |
| TierTimeline.FindTier | components/tier-timeline-modal.tsx:34 | find by name: none iff no row has the name, else that row |
| TierTimeline.IsTierReached | components/tier-timeline-modal.tsx:33-37 | reached iff some row with that name starts at or below the count |
| TierTimeline.ReachedIffAtLeastMin | components/tier-timeline-modal.tsx:33-63 | `Reached(index, n)`, the modal's `reached` for a table row (line 63), holds iff the count is at least the row's minReferrals |
| TierTimeline.UnknownNeverReached | components/tier-timeline-modal.tsx:34-35 | a name outside the table is never reached |
| TierTimeline.ReachedDownwardClosed | components/tier-timeline-modal.tsx:33-37 | if a row is reached, every earlier row is reached |
| TierTimeline.ReachedMatchesResolver | components/tier-timeline-modal.tsx:33-37 | for a count >= 0 the reached rows are exactly those up to the resolved row |
| TierTimeline.NegativeCountReachesNothing | components/tier-timeline-modal.tsx:33-37 | a negative count reaches no row |
| TierTimeline.IsNextIsFirstUnreached | components/tier-timeline-modal.tsx:65 | `IsNext`, the modal's `isNext`: a row is marked next iff it is not the first row, is unreached, and every earlier row is reached |
| TierTimeline.AtMostOneNext | components/tier-timeline-modal.tsx:65 | at most one row is marked next, and none when every row is reached |
| TierTimeline.NextMatchesGetNextTier | components/tier-timeline-modal.tsx:65 | for a count >= 0 the row marked next is getNextTier of the resolved tier; for a negative count no row is marked |
| TierTimeline.CurrentIsLastReached | components/tier-timeline-modal.tsx:39-41 | `IsCurrentTier` is name equality: when currentTier is the resolved tier, exactly one row is current, for every count; for a count >= 0 that row is reached while the row after it is not |
| TierTimeline.ProgressBarRows | components/tier-timeline-modal.tsx:128 | `ShowsProgressBar` (`!reached && index > 0`): for a count >= 0 bars appear exactly on the rows after the resolved one; the next-to-unlock row always has a bar |
| TierTimeline.ProgressWidth | components/tier-timeline-modal.tsx:134 | the bar width is capped at 100 |
| TierTimeline.ClampedProgressWidth | components/tier-timeline-modal.tsx:134 | the corrected width lies in [0, 100] and equals the written width whenever that is non-negative |
| TierTimeline.NextWidthInRange | components/tier-timeline-modal.tsx:65-134 | the next-to-unlock row's bar width lies in [0, 100) and needs no correction |
| TierTimeline.NegativeWidthBeyondNext | components/tier-timeline-modal.tsx:128-134 | with 0 referrals the Premium row shows a bar, is not next, and its written width is -100 (corrected: 0) |
| TierTimeline.TimelineTierColor | components/tier-timeline-modal.tsx:21-31 | a name outside the table gets the grey default gradient (for the table names the modal passes; see Left out) |
| TierTimeline.TimelineColorsDistinct | components/tier-timeline-modal.tsx:21-31 | different table tiers get different gradients; Hustler's gradient is the default, and no other tier's is |
| AuthUtils.UserIn | lib/auth-utils.ts:24-33 | a stored user reads back; a missing slot or one that does not decode to a user reads as null, not as a failure |
| AuthUtils.ProfileIn | lib/auth-utils.ts:36-45 | a stored profile reads back; a missing or undecodable slot reads as null |
| AuthUtils.AdminIn | lib/auth-utils.ts:77-83 | true when the flag is "true"; otherwise it is the stored user's role test, and false without a user |
| AuthUtils.AfterSetAuth | lib/auth-utils.ts:60-74 | afterwards the user reads back, the profile reads back (null when none was given), the flag is stored iff roleLevel >= 4 or the role is admin or super_admin, and every other key is unchanged |
| AuthUtils.AfterLogout | lib/auth-utils.ts:53-57 | afterwards user and profile read as null, and every other key, the admin flag included, is unchanged |
| AuthUtils.LogoutIdempotent | lib/auth-utils.ts:53-57 | logging out twice equals logging out once |
| AuthUtils.AdminFlagSurvivesLogout | lib/auth-utils.ts:53-83 | after an admin's setAuth and then logout, nobody is authenticated yet isAdmin still holds |
| AuthUtils.AdminAfterLogoutIsFlag | lib/auth-utils.ts:53-83 | after logout, isAdmin is true iff the flag slot holds "true" |
| AuthUtils.SetAuthLastWins | lib/auth-utils.ts:60-74 | a second setAuth leaves the storage as if only it had run |
| AuthUtils.SessionStore.GetUser | lib/auth-utils.ts:24-33 | null without a window; any user returned is the one stored; a stored user is returned when a window exists |
| AuthUtils.SessionStore.GetProfile | lib/auth-utils.ts:36-45 | null without a window; any profile returned is the one stored; a stored profile is returned when a window exists |
| AuthUtils.SessionStore.IsAuthenticated | lib/auth-utils.ts:48-50 | authenticated iff a window exists and the user slot holds a decodable user |
| AuthUtils.SessionStore.IsAdmin | lib/auth-utils.ts:77-83 | false without a window; with a window it is exactly `AdminIn` of the storage: true when the flag is "true", otherwise true iff a stored user passes the role test |
| AuthUtils.SessionStore.Logout | lib/auth-utils.ts:53-57 | the storage becomes AfterLogout of the old storage (unchanged without a window); afterwards not authenticated and no profile; the admin slot is untouched |
| AuthUtils.SessionStore.SetAuth | lib/auth-utils.ts:60-74 | the storage becomes AfterSetAuth of the old storage (unchanged without a window); afterwards the user and profile read back, the store is authenticated, and isAdmin matches the role test |
| Api.GenerateReferralLink | lib/api.ts:103-111 | base + path + "?ref=" + code for a non-empty path, base + "/r/" + code otherwise |
| Api.LinkCodeRoundTrip | lib/api.ts:106-110 | the code is inserted verbatim: stripping the base and the path part gives back exactly the code |
| Api.LinkCodeComplete | lib/api.ts:106-110 | every link that starts with the expected base and path part is the template applied to the code read from it |
| Api.LinkInjectiveInCode | lib/api.ts:106-110 | for a fixed base and path, different codes give different links |
| Api.BuildHeaders | lib/api.ts:29-39 | Content-Type is application/json unless the caller supplies one; Authorization is "Bearer " + token when a non-empty token is stored, overriding the caller, otherwise it is the caller's; every other key is the caller's and nothing else is added |
| Api.RequestUrl | lib/api.ts:41 | the URL is the base followed by the endpoint |
| Api.FailureMessage | lib/api.ts:47-50 | the body's non-empty error field, else "API request failed: " + statusText; never empty |
| Api.ResponseOutcome | lib/api.ts:47-52 | the body iff the response is ok, otherwise a thrown, non-empty message |
| DashboardPage.DashboardGate | app/dashboard/page.tsx:71-102 | redirect iff no user, or no profile and not admin; an admin without a profile is shown the user, a null profile and empty lists; a fetch for the profile's id iff user and profile are present |
| DashboardPage.LogoutRedirects | app/dashboard/page.tsx:71-84 | after logout the dashboard redirects, even while the admin flag survives |
| DashboardPage.SetAuthWithProfileFetches | app/dashboard/page.tsx:71-102 | after setAuth with a profile the dashboard fetches for that profile's id |
| DashboardPage.SetAuthWithoutProfile | app/dashboard/page.tsx:75-95 | after setAuth without a profile an admin gets the empty dashboard and anybody else is redirected |
| DashboardPage.FetchedData | app/dashboard/page.tsx:104-109 | the user and profile are kept; each present data list is kept as is, and a missing one gives an empty list |
| DashboardPage.CountStatus | app/dashboard/page.tsx:157-158 | the count is at most the list length, and 0 iff no submission has that status |
| DashboardPage.PendingPlusApprovedAtMostTotal | app/dashboard/page.tsx:157-158 | `PendingCount` + `ApprovedCount`, the page's pendingCount + approvedCount <= the number of submissions |
| DashboardPage.StatusCountsPartition | app/dashboard/page.tsx:157-158 | when every status is pending, approved or rejected, the three counts add up to the list length |
| DashboardPage.RecentSubmissions | app/dashboard/page.tsx:251 | the recent list holds the first min(3, length) submissions in their original order |
| DashboardPage.ViewAllIffTruncated | app/dashboard/page.tsx:278 | `ShowViewAll`: "View All Submissions" appears iff the recent list leaves a submission out |
| DashboardPage.TotalEarnings | app/dashboard/page.tsx:156 | 0 without a profile or with unparseable earnings, else the parsed earnings |
| CampaignsPage.MayProceed | app/campaigns/page.tsx:49-62 | redirect iff no user, or no profile and not admin |
| CampaignsPage.ReferralFetchFor | app/campaigns/page.tsx:70-75 | a referral fetch is issued iff a profile exists and the user is not admin, and then it is for the profile's id |
| CampaignsPage.PlanRequests | app/campaigns/page.tsx:68-75 | two requests: events first, then the referral fetch or an already-resolved empty result |
| CampaignsPage.AdminGetsNoReferralFetch | app/campaigns/page.tsx:70-79 | an admin never gets a referral fetch, even with a profile |
| CampaignsPage.ReferralFetchAfterSetAuth | app/campaigns/page.tsx:49-75 | after setAuth with a profile the page proceeds, and fetches referrals for the profile iff the user is not admin |
| CampaignsPage.MergeEvents | app/campaigns/page.tsx:82-86 | recent events followed by upcoming events, a missing list counting as empty |
| CampaignsPage.ExistingReferral | app/campaigns/page.tsx:149 | with `LinksToEvent` as the find predicate: none iff no referral's link contains "/events/" + slug; otherwise the first one that does |
| CampaignsPage.EventReferralCode | app/campaigns/page.tsx:150 | the existing non-empty code, else "INF" + the upper-cased last six characters of the id (the whole id if shorter) |
| CampaignsPage.EventReferralLink | app/campaigns/page.tsx:151 | base + "/events/" + slug + "?ref=" + code |
| CampaignsPage.LinkCarriesShownCode | app/campaigns/page.tsx:150-151 | the link shown for an event carries exactly the code shown beside it |
| CampaignsPage.DisplayedClicks | app/campaigns/page.tsx:195 | 0 without an existing referral, else its clicks |
| CampaignsPage.DisplayedConversions | app/campaigns/page.tsx:201 | 0 without an existing referral, else its conversions |
| CampaignsPage.SlugPrefixAlsoMatches | app/campaigns/page.tsx:149 | the match is a substring test: a referral made for event "gala-night" also matches event "gala" |
| ProfilePage.MayProceed | app/profile/page.tsx:46-52 | the page proceeds iff both a user and a profile are stored |
| ProfilePage.ProfileGateIsStricter | app/profile/page.tsx:46-52 | whoever the profile page admits, the dashboard and campaigns admit; an admin without a profile is admitted there but redirected here |
| ProfilePage.AdminWithoutProfileOnStorage | app/profile/page.tsx:46-52 | after an admin's setAuth without a profile, the profile page redirects while the dashboard shows |
| ProfilePage.WalletShown | app/profile/page.tsx:58-64 | the returned wallet data, or {0, 0, 0} when the call threw or returned no data |
| ProfilePage.TierColor | app/profile/page.tsx:78-91 | a specific class iff the lower-cased tier is bronze, silver, gold or platinum; the default otherwise |
| ProfilePage.TierIcon | app/profile/page.tsx:93-106 | a medal iff the lower-cased tier is bronze, silver, gold or platinum; the star otherwise |
| ProfilePage.BadgeIsCaseInsensitive | app/profile/page.tsx:78-106 | class and icon are unchanged by lower-casing the tier first |
| ProfilePage.ColorAndIconAgree | app/profile/page.tsx:78-106 | the class falls back to its default exactly when the icon does |
| ProfilePage.ServiceTiersMostlyDefault | app/profile/page.tsx:78-91 | of the six tier-service tiers only Platinum gets its own class; the rest get the default |
| ProfilePage.DisplayedTier | app/profile/page.tsx:191 | the stored non-empty tier, else "Bronze" (no profile or an empty tier); never empty |
| ProfilePage.DisplayedReferralCode | app/profile/page.tsx:198 | the stored non-empty code, else "N/A" (no profile or an empty code); never empty |
| ProfilePage.DefaultLabelAndIconDiffer | app/profile/page.tsx:186-191 | with no tier the label reads "Bronze" but the icon is the star, not the bronze medal |
| Text.Includes | app/campaigns/page.tsx:149 | includes holds iff the pattern occurs at some position of the string |
| Text.ToUpper | app/campaigns/page.tsx:150 | toUpperCase over ASCII: same length, no lower-case letter remains, every character that is not a lower-case letter is kept, and each character differs from the input only in case |
| Text.ToLower | app/profile/page.tsx:79 | toLowerCase over ASCII: same length, no upper-case letter remains, every character that is not an upper-case letter is kept, and each character differs from the input only in case |
| Text.SliceLast | app/campaigns/page.tsx:150 | slice(-n) is the last n characters, or the whole string when it is shorter |

## Left out

- The effect lifecycle of every page is not modelled. This covers fetch and await, `Promise.all`, React state setters, router pushes, loading spinners and the catch blocks. The model keeps the decision each page takes and the values it derives.
- The HTTP round trip is not modelled. Bodies are abstract values. A failing `response.json()` on an ok response is not modelled. The `credentials` and pass-through request options are not modelled either.
- JSON encoding in the session store is abstracted. A slot holds a typed value. `Text` stands for a string that does not decode to the slot's record, and it reads as null. In the program, a valid JSON string of another shape in the user slot would read back as a non-null value.
- Optional display-only profile fields are not modelled: Instagram and YouTube handles, and follower counts.
- The fallbacks for the user's name and for the follower count are display-only and not modelled.
- `parseFloat` is a function parameter of `DashboardPage.TotalEarnings`. `toLocaleString` and date formatting are left out.
- Rates, percentages and wallet amounts are exact reals, not IEEE doubles.
- Referral counts are whole numbers (`int`) in the model; in the program they are JavaScript numbers. A fractional count such as 14.5 lies in no row's [min, max] range, so `TierService.RangesPartition` speaks only of integers. A NaN count makes `getTierProgress` return progress NaN, which is outside [0, 100]. Neither case is modelled.
- Api.FailureMessage: treats an error body as either an object that may have an `error` field or as `{}` (unparseable). A body that parses to JSON `null` makes `errorData.error` throw a TypeError, so the page sees that error's message instead. This case is not modelled.
- TierTimeline.TimelineTierColor: treats every name outside the table as unknown and returns the grey default. In the program, `colors[tier]` is a plain object lookup, so a name inherited from `Object.prototype` (such as "toString" or "constructor") yields a truthy inherited member instead. The modal only ever passes table names (components/tier-timeline-modal.tsx:72), so this case is not reached.
- `Text.ToUpper` and `Text.ToLower` map only ASCII letters. JavaScript's `toUpperCase` and `toLowerCase` cover all of Unicode.
- Base URLs and the stored API token are parameters, because they come from environment variables and `localStorage`. The login page stores the token under `authToken`, while `apiRequest` reads `influencerAuthToken`. The login page is not part of this model.
- `Api.BuildHeaders` takes the caller's headers as a plain dictionary with case-sensitive keys, as object spread treats them. A `Headers` object or an array of pairs is not modelled.
- The absence of `window` is modelled only in the session store, as `SessionStore.hasWindow`. The pages run on the client, where a window exists.
- Other pages and components are not part of this model: login, submissions, wallet, the landing page, the Firebase client, the updates panel, the share modal, the header, the stat card, the layout and the sitemap. They consist of I/O, foreign calls or static rendering.
- The seeding script is not part of this model.

## Findings

| source | as written | input that shows it | evidently intended | confidence | as-written member | corrected member |
|---|---|---|---|---|---|---|
| components/tier-timeline-modal.tsx:134 | bar width is `min(100, ratio * 100)` with no floor at 0, and every unreached row after the first shows a bar | 0 referrals, Premium row (index 2): width -100% | a bar beyond the next tier is empty (width 0), as `getTierProgress` floors its value at 0 | medium; not executed (a negative CSS width is an invalid declaration, so the browser would drop it and leave the inner bar at its default width) | TierTimeline.NegativeWidthBeyondNext | TierTimeline.ClampedProgressWidth |
