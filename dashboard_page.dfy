/**
 * The dashboard page's decisions: the session guard that runs on mount,
 * the data it assembles, and the counts and slices it renders.
 */
module DashboardPage {
  import opened Wrappers
  import opened AuthUtils
  import opened Records

  const Pending: string := "pending"
  const Approved: string := "approved"
  const Rejected: string := "rejected"

  datatype DashboardData = DashboardData(
    profile: User,
    influencerProfile: Option<Profile>,
    referrals: seq<Referral>,
    submissions: seq<Submission>)

  /** What the mount effect does next. */
  datatype DashboardStep =
    | RedirectToLogin
    | Show(data: DashboardData)
    | FetchFor(influencerId: string)

  /**
   * The guard: no user, or no profile for a non-admin, redirects; an admin
   * without a profile is shown an empty dashboard without any API call; a
   * user with a profile has its referrals and submissions fetched.
   */
  function DashboardGate(user: Option<User>, influencerProfile: Option<Profile>, isAdmin: bool): (step: DashboardStep)
    ensures step.RedirectToLogin? <==> user.None? || (influencerProfile.None? && !isAdmin)
    ensures step.Show? ==> step.data == DashboardData(user.value, None, [], [])
    ensures step.FetchFor? <==> user.Some? && influencerProfile.Some?
    ensures step.FetchFor? ==> step.influencerId == influencerProfile.value.id
  {
    if user.None? then RedirectToLogin
    else if influencerProfile.None? && !isAdmin then RedirectToLogin
    else if influencerProfile.None? then Show(DashboardData(user.value, None, [], []))
    else FetchFor(influencerProfile.value.id)
  }

  /** The guard applied to what the session store holds. */
  function GateOnStorage(s: Storage): DashboardStep {
    DashboardGate(UserIn(s), ProfileIn(s), AdminIn(s))
  }

  /** After logout the dashboard always redirects, even for an admin whose flag survived. */
  lemma LogoutRedirects(s: Storage)
    ensures GateOnStorage(AfterLogout(s)) == RedirectToLogin
  {
  }

  /** After `setAuth(u, p)` with a profile, the dashboard fetches for that profile. */
  lemma SetAuthWithProfileFetches(s: Storage, u: User, p: Profile)
    ensures GateOnStorage(AfterSetAuth(s, u, Some(p))) == FetchFor(p.id)
  {
  }

  /** After `setAuth(u, null)`, an admin sees the empty dashboard and anybody else is redirected. */
  lemma SetAuthWithoutProfile(s: Storage, u: User)
    ensures IsAdminUser(u) ==> GateOnStorage(AfterSetAuth(s, u, None)) == Show(DashboardData(u, None, [], []))
    ensures !IsAdminUser(u) ==> GateOnStorage(AfterSetAuth(s, u, None)) == RedirectToLogin
  {
  }

  /** The data after the two fetches: a missing `data` field reads as an empty list. */
  function FetchedData(user: User, influencerProfile: Profile,
                       referralsData: Option<seq<Referral>>, submissionsData: Option<seq<Submission>>): (d: DashboardData)
    ensures d.profile == user && d.influencerProfile == Some(influencerProfile)
    ensures referralsData.None? ==> d.referrals == []
    ensures referralsData.Some? ==> d.referrals == referralsData.value
    ensures submissionsData.None? ==> d.submissions == []
    ensures submissionsData.Some? ==> d.submissions == submissionsData.value
  {
    DashboardData(user, Some(influencerProfile), referralsData.GetOr([]), submissionsData.GetOr([]))
  }

  /** `submissions.filter(s => s.status === status).length`. */
  function CountStatus(submissions: seq<Submission>, status: string): (n: nat)
    ensures n <= |submissions|
    ensures n == 0 <==> forall i :: 0 <= i < |submissions| ==> submissions[i].status != status
  {
    if submissions == [] then 0
    else
      (if submissions[0].status == status then 1 else 0) + CountStatus(submissions[1..], status)
  }

  function PendingCount(submissions: seq<Submission>): nat {
    CountStatus(submissions, Pending)
  }

  function ApprovedCount(submissions: seq<Submission>): nat {
    CountStatus(submissions, Approved)
  }

  /** Pending and approved submissions together are at most all of them. */
  lemma {:induction false} PendingPlusApprovedAtMostTotal(submissions: seq<Submission>)
    ensures PendingCount(submissions) + ApprovedCount(submissions) <= |submissions|
  {
    if submissions != [] {
      PendingPlusApprovedAtMostTotal(submissions[1..]);
    }
  }

  /** When every status is one of the three the backend uses, the three counts add up to the list length. */
  lemma {:induction false} StatusCountsPartition(submissions: seq<Submission>)
    requires forall i :: 0 <= i < |submissions| ==> submissions[i].status in {Pending, Approved, Rejected}
    ensures PendingCount(submissions) + ApprovedCount(submissions) + CountStatus(submissions, Rejected)
            == |submissions|
  {
    if submissions != [] {
      StatusCountsPartition(submissions[1..]);
    }
  }

  /** The recent-activity list: the first min(3, length) submissions, in their original order. */
  function RecentSubmissions(submissions: seq<Submission>): (recent: seq<Submission>)
    ensures |recent| == if |submissions| < 3 then |submissions| else 3
    ensures forall i :: 0 <= i < |recent| ==> recent[i] == submissions[i]
  {
    if |submissions| < 3 then submissions else submissions[..3]
  }

  /** Whether the "View All Submissions" button is rendered. */
  predicate ShowViewAll(submissions: seq<Submission>) {
    |submissions| > 3
  }

  /** The button appears exactly when the recent list leaves some submission out. */
  lemma ViewAllIffTruncated(submissions: seq<Submission>)
    ensures ShowViewAll(submissions) <==> |RecentSubmissions(submissions)| < |submissions|
  {
  }

  /**
   * The "Total Earnings" figure: 0 without an influencer profile, otherwise
   * the parsed earnings string, with an unparseable string (NaN) shown as 0.
   * `parseFloat` is a parameter.
   */
  function TotalEarnings(influencerProfile: Option<Profile>, parseFloat: string -> Option<real>): (total: real)
    ensures influencerProfile.None? ==> total == 0.0
    ensures influencerProfile.Some? && parseFloat(influencerProfile.value.totalEarnings).None? ==> total == 0.0
    ensures influencerProfile.Some? && parseFloat(influencerProfile.value.totalEarnings).Some? ==>
              total == parseFloat(influencerProfile.value.totalEarnings).value
  {
    if influencerProfile.None? then 0.0
    else parseFloat(influencerProfile.value.totalEarnings).GetOr(0.0)
  }
}
