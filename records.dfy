/**
 * The remote records the pages receive from the backend, reduced to the
 * fields the modelled decisions read.
 */
module Records {
  import opened Wrappers

  /** A referral; `link` is optional because the page reads it as `r.link?`. */
  datatype Referral = Referral(id: string, code: string, link: Option<string>, clicks: int, conversions: int)

  datatype Submission = Submission(id: string, amount: int, status: string)

  datatype Event = Event(id: string, slug: string, title: string)

  datatype Wallet = Wallet(balance: real, totalEarned: real, pendingAmount: real)
}
