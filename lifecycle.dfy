/**
 * The challenge lifecycle: the `set` command that opens a new challenge,
 * and one pass of the `manage_challenge` loop, which closes submissions
 * (open -> voting) and then closes the votes (voting -> ended).
 *
 * The clock, the chat client and the results it returns are parameters:
 * `weekday` is `now.weekday()` (0 is Monday, 1 is Tuesday), `date` is
 * `now.strftime("%d/%m/%y")`, `posted` gives the id of the summary the
 * participations report posted for each entry it could resolve, and
 * `votes` gives, per author, the count of the bot's own thumbs-up read
 * back from that author's summary.
 */
module Lifecycle {
  import opened Options
  import opened Store
  import opened Podium

  /** The key a new challenge is stored under: its title in brackets. */
  function ChallengeKey(name: string): (key: string)
    ensures |key| == |name| + 2 && key[0] == '[' && key[|key| - 1] == ']'
    ensures key[1..|key| - 1] == name
  {
    "[" + name + "]"
  }

  /**
   * The `set` command: `None` when a challenge with that key already exists
   * (nothing changes); otherwise the state with a new open challenge,
   * started on `started`, that becomes the current one.
   */
  function Create(s: CogState, name: string, started: string): (r: Option<CogState>)
    ensures r.None? <==> ChallengeKey(name) in s.db
    ensures r.Some? ==>
      var key := ChallengeKey(name);
      && r.value.db.Keys == s.db.Keys + {key}
      && r.value.db[key] == Challenge(Open, Dates(started, ""), map[])
      && (forall k :: k in s.db ==> r.value.db[k] == s.db[k])
      && r.value.current == Some(key)
      && r.value.forceEnd == s.forceEnd && r.value.forceEndVotes == s.forceEndVotes
  {
    var key := ChallengeKey(name);
    if key in s.db then None
    else Some(s.(db := s.db[key := Challenge(Open, Dates(started, ""), map[])], current := Some(key)))
  }

  /** Creating a challenge keeps the store consistent and moves no phase. */
  lemma CreateKeepsConsistent(s: CogState, name: string, started: string)
    requires Consistent(s)
    requires Create(s, name, started).Some?
    ensures Consistent(Create(s, name, started).value)
    ensures PhasesAdvance(s.db, Create(s, name, started).value.db)
  {
  }

  /** With no challenge running, the new one is the only active challenge. */
  lemma CreateWhenIdleKeepsSingleActive(s: CogState, name: string, started: string)
    requires SingleActive(s) && s.current.None?
    requires Create(s, name, started).Some?
    ensures SingleActive(Create(s, name, started).value)
  {
  }

  /**
   * `set` does not look at the running challenge: setting a new one while a
   * challenge is open or voting leaves that one un-ended and no longer
   * current, so it is never ended by the loop.
   */
  lemma CreateWhileActiveOrphansCurrent(s: CogState, name: string, started: string)
    requires Consistent(s) && s.current.Some?
    requires Create(s, name, started).Some?
    ensures !SingleActive(Create(s, name, started).value)
  {
    var running := s.current.value;
    var r := Create(s, name, started).value;
    assert running in r.db && r.db[running].phase != Ended && r.current != Some(running);
  }

  /** A challenge title once used stays taken: `set` with it is refused. */
  lemma TitleIsNeverReused(s: CogState, name: string, started: string, again: string)
    requires Create(s, name, started).Some?
    ensures Create(Create(s, name, started).value, name, again).None?
  {
  }

  /**
   * `print_participations` as it changes the store: each entry for which a
   * summary was posted gets that summary's id; the others keep theirs.
   */
  function WithSummaries(parts: map<AuthorId, Participation>, posted: map<AuthorId, MessageId>): (r: map<AuthorId, Participation>)
    ensures r.Keys == parts.Keys
    ensures forall a :: a in parts ==> r[a].messageId == parts[a].messageId
    ensures forall a :: a in parts && a in posted ==> r[a].summaryId == Some(posted[a])
    ensures forall a :: a in parts && a !in posted ==> r[a] == parts[a]
  {
    map a | a in parts :: if a in posted then parts[a].(summaryId := Some(posted[a])) else parts[a]
  }

  /** The entries the podium counts: those with a summary (`"bot_message_id" in value`). */
  function Rendered(parts: map<AuthorId, Participation>): set<AuthorId> {
    set a | a in parts && parts[a].summaryId.Some?
  }

  /**
   * The tally `print_podium` builds before ranking. When some summarised
   * entry has no reading (its summary, its author or the bot's reaction
   * cannot be resolved), the source fails with an exception: `None`.
   */
  function Tally(parts: map<AuthorId, Participation>, votes: map<AuthorId, int>): (r: Option<map<AuthorId, int>>)
    ensures r.None? <==> exists a :: a in Rendered(parts) && a !in votes
    ensures r.Some? ==> r.value.Keys == Rendered(parts)
    ensures r.Some? ==> forall a :: a in r.value ==> r.value[a] == votes[a]
  {
    if exists a :: a in Rendered(parts) && a !in votes then None
    else Some(map a | a in Rendered(parts) :: votes[a])
  }

  /**
   * The loop of `print_podium` that reads the counts, one participation at
   * a time; it stops at the first summarised entry without a reading.
   */
  method CollectTally(parts: map<AuthorId, Participation>, votes: map<AuthorId, int>) returns (r: Option<map<AuthorId, int>>)
    ensures r == Tally(parts, votes)
  {
    var counts: map<AuthorId, int> := map[];
    var todo := parts.Keys;
    while todo != {}
      invariant todo <= parts.Keys
      invariant counts.Keys == Rendered(parts) - todo
      invariant forall a :: a in counts ==> a in votes && counts[a] == votes[a]
      invariant forall a :: a in Rendered(parts) && a !in todo ==> a in votes
      decreases |todo|
    {
      var key :| key in todo;
      todo := todo - {key};
      if parts[key].summaryId.None? {
        continue;
      }
      if key !in votes {
        assert key in Rendered(parts);
        return None;
      }
      counts := counts[key := votes[key]];
    }
    ghost var expected := Tally(parts, votes);
    assert expected.Some? && expected.value.Keys == counts.Keys;
    assert expected.value == counts;
    return Some(counts);
  }

  /** The first condition of the loop: Monday and open, or a forced end. */
  predicate ClosingDue(s: CogState, key: string, weekday: int)
    requires key in s.db
  {
    (weekday == 0 && s.db[key].phase == Open) || s.forceEnd
  }

  /** The second condition of the loop: Tuesday and voting, or a forced end of votes. */
  predicate EndingDue(s: CogState, key: string, weekday: int)
    requires key in s.db
  {
    (weekday == 1 && s.db[key].phase == Voting) || s.forceEndVotes
  }

  /**
   * What the first block of the loop does to the state: the summaries of
   * the report recorded, the challenge moved to voting, `force_end` lowered.
   */
  function OpenVotes(s: CogState, key: string, posted: map<AuthorId, MessageId>): (r: CogState)
    requires key in s.db
    ensures r.db.Keys == s.db.Keys && (forall k :: k in s.db && k != key ==> r.db[k] == s.db[k])
    ensures r.db[key].phase == Voting && r.db[key].dates == s.db[key].dates
    ensures r.db[key].participations == WithSummaries(s.db[key].participations, posted)
    ensures r.current == s.current && !r.forceEnd && r.forceEndVotes == s.forceEndVotes
  {
    var record := s.db[key];
    s.(db := s.db[key := record.(phase := Voting, participations := WithSummaries(record.participations, posted))],
       forceEnd := false)
  }

  /**
   * What the second block of the loop does to the state once the podium is
   * out: the challenge ended on `date`, no current challenge, and
   * `force_end_votes` lowered.
   */
  function Finish(s: CogState, key: string, date: string): (r: CogState)
    requires key in s.db
    ensures r.db.Keys == s.db.Keys && (forall k :: k in s.db && k != key ==> r.db[k] == s.db[k])
    ensures r.db[key].phase == Ended && r.db[key].dates == Dates(s.db[key].dates.started, date)
    ensures r.db[key].participations == s.db[key].participations
    ensures r.current.None? && r.forceEnd == s.forceEnd && !r.forceEndVotes
  {
    var record := s.db[key];
    s.(db := s.db[key := record.(phase := Ended, dates := record.dates.(ended := date))],
       current := None,
       forceEndVotes := false)
  }

  /** The state the first block leaves: moved to voting when closing is due, untouched otherwise. */
  function AfterClosing(s: CogState, key: string, weekday: int, posted: map<AuthorId, MessageId>): CogState
    requires key in s.db
  {
    if ClosingDue(s, key, weekday) then OpenVotes(s, key, posted) else s
  }

  /** What one tick did: the new state, whether the participations were reported, the podium, a halt. */
  datatype TickResult = TickResult(state: CogState, reported: bool, podium: Option<seq<set<AuthorId>>>, halted: bool)

  /**
   * One pass of the `manage_challenge` loop. With no current challenge
   * nothing happens. Otherwise the first block may move the challenge to
   * voting (recording the summaries, lowering `force_end`); then, on the
   * state it left, the second block may end the challenge (recording the
   * end date, clearing the pointer, lowering `force_end_votes`) and rank
   * the podium. A lookup of a missing record or a tally that cannot be read
   * stops the loop (`halted`), keeping what was done before the failure.
   */
  ghost function Step(s: CogState, weekday: int, date: string, posted: map<AuthorId, MessageId>, votes: map<AuthorId, int>): (r: TickResult)
    ensures !HasCurrent(s) ==> r == TickResult(s, false, None, false)
    ensures r.state.db.Keys == s.db.Keys
    ensures forall k :: k in s.db && Some(k) != s.current ==> r.state.db[k] == s.db[k]
    ensures r.reported <==> HasCurrent(s) && s.current.value in s.db && ClosingDue(s, s.current.value, weekday)
    ensures r.podium.Some? ==> !r.halted && r.state.current.None? && !r.state.forceEndVotes
    // The second block runs on the state the first one left: it halts on an
    // unreadable tally without touching that state, and otherwise ends the
    // challenge with the podium of the tally.
    ensures HasCurrent(s) && s.current.value in s.db ==>
      var key := s.current.value;
      var s1 := AfterClosing(s, key, weekday, posted);
      var tally := Tally(s1.db[key].participations, votes);
      && (r.podium.Some? <==> EndingDue(s1, key, weekday) && tally.Some?)
      && (r.halted <==> EndingDue(s1, key, weekday) && tally.None?)
      && (r.podium.None? ==> r.state == s1)
      && (r.podium.Some? ==>
            && r.podium == Some(Ranking(tally.value, Places))
            && r.state.db[key].phase == Ended
            && r.state.db[key].dates == s.db[key].dates.(ended := date)
            && r.state.db[key].participations == s1.db[key].participations
            && r.state.current.None? && !r.state.forceEndVotes
            && r.state.forceEnd == s1.forceEnd)
  {
    if !HasCurrent(s) then TickResult(s, false, None, false)
    else if s.current.value !in s.db then
      // The record is only looked up on a Monday, on a Tuesday, or when a
      // flag sends the loop into a block that reads it.
      TickResult(s, false, None, weekday == 0 || weekday == 1 || s.forceEnd || s.forceEndVotes)
    else
      var key := s.current.value;
      var closing := ClosingDue(s, key, weekday);
      var s1 := AfterClosing(s, key, weekday, posted);
      if !EndingDue(s1, key, weekday) then TickResult(s1, closing, None, false)
      else
        match Tally(s1.db[key].participations, votes)
        case None => TickResult(s1, closing, None, true)
        case Some(counts) => TickResult(Finish(s1, key, date), closing, Some(Ranking(counts, Places)), false)
  }

  /**
   * A tick keeps the store consistent, keeps a single active challenge
   * single, and never moves a challenge backwards.
   */
  lemma StepKeepsInvariants(s: CogState, weekday: int, date: string, posted: map<AuthorId, MessageId>, votes: map<AuthorId, int>)
    requires Consistent(s)
    ensures var r := Step(s, weekday, date, posted, votes);
      && Consistent(r.state)
      && (SingleActive(s) ==> SingleActive(r.state))
      && PhasesAdvance(s.db, r.state.db)
  {
    var r := Step(s, weekday, date, posted, votes);
    if HasCurrent(s) {
      var key := s.current.value;
      assert forall k :: k in r.state.db && k != key ==> r.state.db[k] == s.db[k];
      if SingleActive(s) {
        forall k | k in r.state.db && r.state.db[k].phase != Ended
          ensures r.state.current == Some(k)
        {
          if k != key {
            assert s.db[k] == r.state.db[k];
          }
        }
      }
    }
  }

  /**
   * A current pointer to a record that is not stored stops the loop exactly
   * on the ticks that read the record, and changes nothing.
   */
  lemma MissingRecordHaltsWhenRead(s: CogState, weekday: int, date: string, posted: map<AuthorId, MessageId>, votes: map<AuthorId, int>)
    requires HasCurrent(s) && s.current.value !in s.db
    ensures var r := Step(s, weekday, date, posted, votes);
      && r.state == s && !r.reported && r.podium.None?
      && (r.halted <==> weekday == 0 || weekday == 1 || s.forceEnd || s.forceEndVotes)
  {
  }

  /**
   * Monday, open: submissions close, the summaries are recorded and
   * `force_end` is lowered. Without `force_end_votes` the votes then stay
   * open and the challenge current; with it, the same tick goes on to the
   * votes, and ends the challenge when the new summaries can be tallied.
   */
  lemma MondayClosesSubmissions(s: CogState, date: string, posted: map<AuthorId, MessageId>, votes: map<AuthorId, int>)
    requires HasCurrent(s) && s.current.value in s.db && s.db[s.current.value].phase == Open
    ensures var r := Step(s, 0, date, posted, votes);
      var key := s.current.value;
      var renewed := WithSummaries(s.db[key].participations, posted);
      && r.reported && !r.state.forceEnd
      && r.state.db[key].participations == renewed
      && (!s.forceEndVotes ==>
            && r.podium.None? && !r.halted
            && r.state.current == s.current
            && r.state.db[key].phase == Voting)
      && (s.forceEndVotes ==>
            && (r.podium.Some? <==> Tally(renewed, votes).Some?)
            && (r.podium.Some? ==> r.state.db[key].phase == Ended && r.state.current.None?)
            && (r.podium.None? ==> r.halted && r.state.db[key].phase == Voting && r.state.current == s.current))
  {
  }

  /**
   * A forced end closes submissions on any day and in any phase: the
   * participations are reported, the flag is lowered, and the challenge is
   * at least voting afterwards.
   */
  lemma ForcedEndClosesSubmissions(s: CogState, weekday: int, date: string, posted: map<AuthorId, MessageId>, votes: map<AuthorId, int>)
    requires HasCurrent(s) && s.current.value in s.db && s.forceEnd
    ensures var r := Step(s, weekday, date, posted, votes);
      && r.reported && !r.state.forceEnd
      && Stage(r.state.db[s.current.value].phase) >= 1
  {
  }

  /**
   * Without a flag for the votes and off Tuesday, a forced end stops at
   * voting: no podium and the challenge still current.
   */
  lemma ForcedEndStopsAtVoting(s: CogState, weekday: int, date: string, posted: map<AuthorId, MessageId>, votes: map<AuthorId, int>)
    requires HasCurrent(s) && s.current.value in s.db && s.forceEnd
    requires !s.forceEndVotes && weekday != 1
    ensures var r := Step(s, weekday, date, posted, votes);
      && r.reported && r.podium.None? && !r.halted
      && r.state.db[s.current.value].phase == Voting
      && r.state.current == s.current
  {
  }

  /**
   * A forced end on a Tuesday takes an open challenge all the way to ended
   * in one tick: the submissions close, and the Tuesday test then sees it
   * voting and tallies the freshly posted summaries.
   */
  lemma ForcedEndOnTuesdayEndsOpen(s: CogState, date: string, posted: map<AuthorId, MessageId>, votes: map<AuthorId, int>)
    requires HasCurrent(s) && s.current.value in s.db && s.db[s.current.value].phase == Open
    requires s.forceEnd
    requires Tally(WithSummaries(s.db[s.current.value].participations, posted), votes).Some?
    ensures var r := Step(s, 1, date, posted, votes);
      var counts := Tally(WithSummaries(s.db[s.current.value].participations, posted), votes).value;
      && r.reported && !r.halted
      && r.podium == Some(Ranking(counts, Places))
      && r.state.db[s.current.value].phase == Ended
      && r.state.current.None?
  {
  }

  /**
   * A flag raised while no challenge is current is never lowered by a
   * tick, and it is not lowered by `set` either.
   */
  lemma IdleFlagsPersist(s: CogState, weekday: int, date: string, posted: map<AuthorId, MessageId>, votes: map<AuthorId, int>, name: string, started: string)
    requires !HasCurrent(s)
    ensures var r := Step(s, weekday, date, posted, votes);
      r.state.forceEnd == s.forceEnd && r.state.forceEndVotes == s.forceEndVotes
    ensures Create(s, name, started).Some? ==>
      Create(s, name, started).value.forceEnd == s.forceEnd && Create(s, name, started).value.forceEndVotes == s.forceEndVotes
  {
  }

  /**
   * So the next challenge created has its submissions closed by its very
   * first tick, whatever the day.
   */
  lemma IdleForcedEndClosesNextChallenge(s: CogState, name: string, started: string, weekday: int, date: string, posted: map<AuthorId, MessageId>, votes: map<AuthorId, int>)
    requires !HasCurrent(s) && s.forceEnd
    requires Create(s, name, started).Some?
    ensures var s' := Create(s, name, started).value;
      var r := Step(s', weekday, date, posted, votes);
      && r.reported && !r.state.forceEnd
      && Stage(r.state.db[ChallengeKey(name)].phase) >= 1
  {
    var s' := Create(s, name, started).value;
    ForcedEndClosesSubmissions(s', weekday, date, posted, votes);
  }

  /**
   * A forced end of votes raised while no challenge is current ends the
   * next challenge created on its first tick off Monday (with `force_end`
   * down): no report is made, and the podium is empty.
   */
  lemma IdleForcedEndOfVotesEndsNextChallenge(s: CogState, name: string, started: string, weekday: int, date: string, posted: map<AuthorId, MessageId>, votes: map<AuthorId, int>)
    requires !HasCurrent(s) && s.forceEndVotes && !s.forceEnd && weekday != 0
    requires Create(s, name, started).Some?
    ensures var s' := Create(s, name, started).value;
      var r := Step(s', weekday, date, posted, votes);
      && !r.reported && !r.halted && r.podium == Some([])
      && r.state.db[ChallengeKey(name)].phase == Ended
      && r.state.current.None?
  {
    var s' := Create(s, name, started).value;
    ForcedEndOfVotesWhileOpen(s', weekday, date, posted, votes);
  }

  /**
   * A forced end while voting runs the report again: every entry for which
   * a summary is posted gets the new summary's id, so the votes read at the
   * end of the challenge are those on the new summaries, not on the first.
   */
  lemma ForcedEndWhileVotingResummarises(s: CogState, weekday: int, date: string, posted: map<AuthorId, MessageId>, votes: map<AuthorId, int>)
    requires HasCurrent(s) && s.current.value in s.db && s.db[s.current.value].phase == Voting
    requires s.forceEnd
    ensures var r := Step(s, weekday, date, posted, votes);
      var key := s.current.value;
      && r.reported
      && r.state.db[key].participations == WithSummaries(s.db[key].participations, posted)
      && (forall a :: a in s.db[key].participations && a in posted ==>
            r.state.db[key].participations[a].summaryId == Some(posted[a]))
  {
  }

  /**
   * Tuesday (or a forced end of votes) while voting: the podium of the
   * tally is announced, the challenge ends on `date`, the pointer and the
   * flag are cleared.
   */
  lemma VotingEnds(s: CogState, weekday: int, date: string, posted: map<AuthorId, MessageId>, votes: map<AuthorId, int>)
    requires HasCurrent(s) && s.current.value in s.db && s.db[s.current.value].phase == Voting
    requires !s.forceEnd && (weekday == 1 || s.forceEndVotes)
    requires Tally(s.db[s.current.value].participations, votes).Some?
    ensures var r := Step(s, weekday, date, posted, votes);
      var key := s.current.value;
      && !r.reported && !r.halted
      && r.podium == Some(Ranking(Tally(s.db[key].participations, votes).value, Places))
      && r.state.db[key].phase == Ended
      && r.state.db[key].dates == s.db[key].dates.(ended := date)
      && r.state.db[key].participations == s.db[key].participations
      && r.state.current.None? && !r.state.forceEndVotes
  {
  }

  /**
   * A forced end of votes while still open ends the challenge in the same
   * tick. When the first block does not run (off Monday, `force_end` down)
   * no entry has a summary, so the podium is empty. When it runs, the podium
   * ranks the summaries it has just posted, if they can be tallied.
   */
  lemma ForcedEndOfVotesWhileOpen(s: CogState, weekday: int, date: string, posted: map<AuthorId, MessageId>, votes: map<AuthorId, int>)
    requires HasCurrent(s) && s.current.value in s.db && s.db[s.current.value].phase == Open
    requires NoSummaries(s.db[s.current.value].participations)
    requires s.forceEndVotes
    ensures var r := Step(s, weekday, date, posted, votes);
      var key := s.current.value;
      var renewed := WithSummaries(s.db[key].participations, posted);
      && (r.reported <==> weekday == 0 || s.forceEnd)
      && (!r.reported ==>
            && !r.halted && r.podium == Some([])
            && r.state.db[key].phase == Ended && r.state.current.None?)
      && (r.reported ==>
            && (r.podium.Some? <==> Tally(renewed, votes).Some?)
            && (r.podium.Some? ==>
                  && r.podium == Some(Ranking(Tally(renewed, votes).value, Places))
                  && r.state.db[key].phase == Ended && r.state.current.None?))
  {
    var key := s.current.value;
    if !(weekday == 0 || s.forceEnd) {
      var parts := s.db[key].participations;
      assert Rendered(parts) == {};
      var counts := Tally(parts, votes).value;
      assert |counts| == 0;
      EmptyTallyHasNoPlaces(counts);
    }
  }

  /**
   * The votes close in the same tick as the submissions when the flag asks
   * for it, and then the freshly posted summaries are what is tallied.
   */
  lemma BothFlagsEndInOneTick(s: CogState, weekday: int, date: string, posted: map<AuthorId, MessageId>, votes: map<AuthorId, int>)
    requires HasCurrent(s) && s.current.value in s.db && s.db[s.current.value].phase == Open
    requires s.forceEnd && s.forceEndVotes
    requires Tally(WithSummaries(s.db[s.current.value].participations, posted), votes).Some?
    ensures var r := Step(s, weekday, date, posted, votes);
      var counts := Tally(WithSummaries(s.db[s.current.value].participations, posted), votes).value;
      && r.reported && !r.halted
      && r.podium == Some(Ranking(counts, Places))
      && r.state.db[s.current.value].phase == Ended
      && r.state.current.None? && !r.state.forceEnd && !r.state.forceEndVotes
  {
  }

  /**
   * A tally that cannot be read stops the loop before anything of the
   * second block happens: the challenge stays voting and current.
   */
  lemma UnreadableTallyHalts(s: CogState, weekday: int, date: string, posted: map<AuthorId, MessageId>, votes: map<AuthorId, int>)
    requires HasCurrent(s) && s.current.value in s.db && s.db[s.current.value].phase == Voting
    requires !s.forceEnd && (weekday == 1 || s.forceEndVotes)
    requires Tally(s.db[s.current.value].participations, votes).None?
    ensures var r := Step(s, weekday, date, posted, votes);
      && r.halted && r.podium.None?
      && r.state == s
  {
  }

  /**
   * Without a flag, the phase only changes on Monday (to voting) and on
   * Tuesday (to ended); every other weekday leaves the state as it is.
   */
  lemma OtherDaysChangeNothing(s: CogState, weekday: int, date: string, posted: map<AuthorId, MessageId>, votes: map<AuthorId, int>)
    requires !s.forceEnd && !s.forceEndVotes
    requires weekday != 0 && weekday != 1
    ensures Step(s, weekday, date, posted, votes) == TickResult(s, false, None, false)
  {
  }
}
