/**
 * The challenge database of the cog: every challenge ever set, keyed by its
 * bracketed title, plus the pointer to the current one and the two flags
 * the operators raise to force the end of a period.
 */
module Store {
  import opened Options

  type AuthorId = nat
  type MessageId = nat

  /** The `"state"` of a challenge; it only ever moves forward. */
  datatype Phase = Open | Voting | Ended

  /** Position of a phase in the lifecycle. */
  function Stage(p: Phase): nat {
    match p
    case Open => 0
    case Voting => 1
    case Ended => 2
  }

  /** The `"dates"` of a challenge, as `%d/%m/%y` text; `ended` is empty until it ends. */
  datatype Dates = Dates(started: string, ended: string)

  /**
   * One entry of a challenge's participations: the id of the submitted
   * message and, once the participations report has posted its summary,
   * the id of that summary (`bot_message_id`).
   */
  datatype Participation = Participation(messageId: MessageId, summaryId: Option<MessageId>)

  /**
   * A challenge record. In the stored document the participations share one
   * dictionary with the `"state"` and `"dates"` keys; here they are apart.
   */
  datatype Challenge = Challenge(phase: Phase, dates: Dates, participations: map<AuthorId, Participation>)

  type Database = map<string, Challenge>

  /**
   * Everything the cog keeps between events: `challenges_database`,
   * `actual_challenge`, `force_end` and `force_end_votes`.
   */
  datatype CogState = CogState(db: Database, current: Option<string>, forceEnd: bool, forceEndVotes: bool)

  /** `if self.actual_challenge:` -- a pointer that is absent or empty means no challenge. */
  predicate HasCurrent(s: CogState) {
    s.current.Some? && s.current.value != ""
  }

  /** No participation has a summary yet. */
  ghost predicate NoSummaries(parts: map<AuthorId, Participation>) {
    forall a :: a in parts ==> parts[a].summaryId.None?
  }

  /**
   * What the cog's own operations keep true: the current key is that of a
   * stored challenge that has not ended, and a challenge still open for
   * submissions has no summaries posted.
   */
  ghost predicate Consistent(s: CogState) {
    && (s.current.Some? ==> HasCurrent(s) && s.current.value in s.db && s.db[s.current.value].phase != Ended)
    && (forall k :: k in s.db && s.db[k].phase == Open ==> NoSummaries(s.db[k].participations))
  }

  /** Every challenge that has not ended is the current one (so there is at most one). */
  ghost predicate SingleActive(s: CogState) {
    forall k :: k in s.db && s.db[k].phase != Ended ==> s.current == Some(k)
  }

  /** No challenge moved back in its lifecycle and none disappeared. */
  ghost predicate PhasesAdvance(before: Database, after: Database) {
    && before.Keys <= after.Keys
    && forall k :: k in before ==> Stage(before[k].phase) <= Stage(after[k].phase)
  }

  /**
   * The state the cog starts in: the stored pointer (absent or empty means
   * no current challenge) and both flags down.
   */
  function Load(db: Database, storedCurrent: Option<string>): (s: CogState)
    ensures s.db == db && !s.forceEnd && !s.forceEndVotes
    ensures s.current.Some? <==> storedCurrent.Some? && storedCurrent.value != ""
    ensures s.current.Some? ==> s.current == storedCurrent
  {
    var current := match storedCurrent
      case Some(name) => if name == "" then None else Some(name)
      case None => None;
    CogState(db, current, false, false)
  }
}
