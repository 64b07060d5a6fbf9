/**
 * The cog object: its four fields and the handlers that update them in
 * place. Each handler is proved to leave the fields exactly as the
 * matching function of the model says. `AddParticipation`, `Set`, `End`
 * and `EndVotes` are also proved to keep the store consistent; for `Tick`
 * that follows from `Lifecycle.StepKeepsInvariants`.
 */
module Cog {
  import opened Options
  import opened Text
  import opened Store
  import opened Podium
  import opened Recorder
  import opened Lifecycle

  class ChallengeCog {
    /** `challenges_database`, without its `"current"` entry. */
    var db: Database
    /** `actual_challenge`. */
    var current: Option<string>
    /** `force_end`: close submissions on the next tick. */
    var forceEnd: bool
    /** `force_end_votes`: close the votes on the next tick. */
    var forceEndVotes: bool

    /** The fields as one value. */
    function State(): CogState
      reads this
    {
      CogState(db, current, forceEnd, forceEndVotes)
    }

    /** `__init__`: the stored challenges, the stored pointer, both flags down. */
    constructor (stored: Database, storedCurrent: Option<string>)
      ensures State() == Load(stored, storedCurrent)
    {
      db := stored;
      match storedCurrent {
        case Some(name) => current := if name == "" then None else Some(name);
        case None => current := None;
      }
      forceEnd := false;
      forceEndVotes := false;
    }

    /** `add_participation`, for a new or an edited message. */
    method AddParticipation(msg: Message) returns (outcome: Outcome)
      modifies this
      ensures outcome == Classify(old(State()), msg)
      ensures State() == Participate(old(State()), msg)
      ensures Consistent(old(State())) ==> Consistent(State())
    {
      ghost var before := State();
      ParticipateKeepsInvariants(before, msg);
      if current.None? || current.value == "" || msg.channelId != ChallengeChannel || msg.authorIsBot {
        return Ignored;
      }
      var key := current.value;
      if key !in db || db[key].phase != Open {
        return Ignored;
      }
      var content := Lower(Strip(msg.content));
      var code := Lower(key);
      if StartsWith(content, code) || EndsWith(content, code) {
        if content == code && !msg.hasAttachments {
          return Rejected;
        }
        var record := db[key];
        db := db[key := record.(participations := record.participations[msg.authorId := Participation(msg.id, None)])];
        return Recorded;
      }
      return Ignored;
    }

    /** The `set` command; `created` is false when the title was already used. */
    method Set(name: string, started: string) returns (created: bool)
      modifies this
      ensures created <==> Create(old(State()), name, started).Some?
      ensures created ==> State() == Create(old(State()), name, started).value
      ensures !created ==> State() == old(State())
      ensures Consistent(old(State())) ==> Consistent(State())
    {
      ghost var before := State();
      var key := "[" + name + "]";
      if key in db {
        return false;
      }
      db := db[key := Challenge(Open, Dates(started, ""), map[])];
      current := Some(key);
      if Consistent(before) {
        CreateKeepsConsistent(before, name, started);
      }
      return true;
    }

    /** The `end` command: raise `force_end` (restarting the loop is left out). */
    method End()
      modifies this
      ensures State() == old(State()).(forceEnd := true)
      ensures Consistent(old(State())) ==> Consistent(State())
    {
      forceEnd := true;
    }

    /** The `end_votes` command: raise `force_end_votes`. */
    method EndVotes()
      modifies this
      ensures State() == old(State()).(forceEndVotes := true)
      ensures Consistent(old(State())) ==> Consistent(State())
    {
      forceEndVotes := true;
    }

    /**
     * One pass of `manage_challenge`: `reported` when the participations
     * were reported and the votes opened, `podium` when the challenge ended,
     * `halted` when the pass raised and the loop stopped.
     */
    method Tick(weekday: int, date: string, posted: map<AuthorId, MessageId>, votes: map<AuthorId, int>)
      returns (reported: bool, podium: Option<seq<set<AuthorId>>>, halted: bool)
      modifies this
      ensures TickResult(State(), reported, podium, halted) == Step(old(State()), weekday, date, posted, votes)
    {
      reported, podium, halted := false, None, false;
      if current.Some? && current.value != "" {
        var key := current.value;
        if key !in db {
          halted := weekday == 0 || weekday == 1 || forceEnd || forceEndVotes;
        } else {
          if (weekday == 0 && db[key].phase == Open) || forceEnd {
            OpenVoting(key, posted);
            reported := true;
          }
          if (weekday == 1 && db[key].phase == Voting) || forceEndVotes {
            var counts := CollectTally(db[key].participations, votes);
            if counts.None? {
              halted := true;
            } else {
              var places := RankPodium(counts.value, Places);
              podium := Some(places);
              Close(key, date);
            }
          }
        }
      }
    }

    /** Lines of the first block that change the state. */
    method OpenVoting(key: string, posted: map<AuthorId, MessageId>)
      requires key in db
      modifies this
      ensures State() == OpenVotes(old(State()), key, posted)
    {
      var record := db[key];
      db := db[key := record.(phase := Voting, participations := WithSummaries(record.participations, posted))];
      forceEnd := false;
    }

    /** Lines of the second block that change the state. */
    method Close(key: string, date: string)
      requires key in db
      modifies this
      ensures State() == Finish(old(State()), key, date)
    {
      var record := db[key];
      db := db[key := record.(phase := Ended, dates := record.dates.(ended := date))];
      current := None;
      forceEndVotes := false;
    }
  }
}
