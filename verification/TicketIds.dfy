/** The shape of ticket ids (domain/ticket.py) and the path-segment rule built on it. */
module TicketIds {

  predicate IsDigit(c: char) { '0' <= c <= '9' }

  predicate IsIdChar(c: char) {
    'A' <= c <= 'Z' || 'a' <= c <= 'z' || IsDigit(c) || c == '_' || c == '.' || c == '-'
  }

  /** `re.fullmatch(TICKET_ID_PATTERN, s)`. */
  predicate MatchesIdPattern(s: string) {
    s != "" && forall i :: 0 <= i < |s| ==> IsIdChar(s[i])
  }

  /** `validate_ticket_id_as_segment` returns rather than raising PathTraversal. */
  predicate IsSafeSegment(id: string) {
    MatchesIdPattern(id) && id != "." && id != ".."
  }
}
