/** The outcome of one query as the traverser classifies it. */
module Outcomes {
  /**
   * The six statuses a decoded query can take, the `referral_lame` status a
   * response may turn a referral into, and `noglue` for a referral to an
   * in-bailiwick server without glue.
   */
  datatype Status = Exception | Restart | Error | Answered | NoData | Referral | ReferralLame | NoGlue

  /** The symbol's name, as it appears inside statistics keys. */
  function StatusName(s: Status): (r: string)
    ensures |r| > 0
  {
    match s
    case Exception => "exception"
    case Restart => "restart"
    case Error => "error"
    case Answered => "answered"
    case NoData => "nodata"
    case Referral => "referral"
    case ReferralLame => "referral_lame"
    case NoGlue => "noglue"
  }

  /** Different statuses print differently, so keys built from them differ. */
  lemma StatusNameInjective(a: Status, b: Status)
    requires a != b
    ensures StatusName(a) != StatusName(b)
  {
  }

  /** No status name contains the `:` that separates the fields of a statistics key. */
  lemma StatusNameHasNoColon(s: Status)
    ensures ':' !in StatusName(s)
  {
  }
}
