/** Results of the deterministic matchers that billing reads (`app/matching/result.py`). */
module MatchTypes {
  import opened Core

  datatype Status = Matched | NotFound | MultipleMatches | InvalidInput

  datatype PartnerMatch = PartnerMatch(status: Status, partnerId: Option<int>, count: nat)
}
