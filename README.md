# Weekly challenge cog, modelled in Dafny

This project models the bookkeeping of the weekly-challenge cog of the
RPG Maker Alliance Discord bot (`cogs/challenge.py`). Operators set a
challenge, named by a bracketed tag such as `[foo]`. Members then post
entries in the challenge channel, and the bot records one entry per author.
On Monday the submissions close: the bot posts a summary of each entry and
voting opens. On Tuesday the votes close: the bot counts the thumbs-up on
each summary, announces a podium of up to three places and ends the
challenge. Two operator commands force either transition early.

The model keeps everything the cog decides and leaves out everything it
only says. Clock readings, the chat client and its results are parameters.

| file | module | what it holds |
|---|---|---|
| `options.dfy` | `Options` | the `Option` type |
| `text.dfy` | `Text` | `str.strip()`, `str.lower()` for ASCII and Latin-1 capitals, `startswith`/`endswith`, the attachment image test |
| `truncate.dfy` | `Truncate` | `smart_truncate` with Python's `split(' ')` and `' '.join` |
| `store.dfy` | `Store` | the challenge database, the cog's state, its invariants, start-up |
| `recorder.dfy` | `Recorder` | `add_participation` as a verdict and a state change |
| `lifecycle.dfy` | `Lifecycle` | `set`, the vote tally, one pass of `manage_challenge` |
| `podium.dfy` | `Podium` | the ranking loop of `print_podium` and its specification |
| `cog.dfy` | `Cog` | the class `ChallengeCog`: fields updated in place by each handler |

The handlers of `ChallengeCog` are imperative. Each one is proved to leave
its fields exactly as the matching function of the model says. The
properties are proved as lemmas about those functions. For example,
`ChallengeCog.Tick` ends in `Lifecycle.Step`'s state, and
`Lifecycle.StepKeepsInvariants` shows that state stays consistent.
Likewise, `Podium.RankPodium` computes `Podium.Ranking`, whose shape and
order are proved separately.

Where the code does not do what the cog is evidently meant to do, the model
follows the code:

- The cog is meant to have at most one challenge that is not ended at any
  time: the one `actual_challenge` holds. The `set`
  command (`cogs/challenge.py:103-124`) never checks the running challenge.
  `Lifecycle.CreateWhileActiveOrphansCurrent` shows that setting a new
  challenge while one is open or voting breaks that invariant. The old
  challenge is left un-ended and no longer current, so the loop never ends
  it. `Lifecycle.CreateWhenIdleKeepsSingleActive` shows the invariant does
  hold when no challenge is running.
- A summary whose vote count cannot be read is evidently meant to be
  skipped, so that the votes still close. The podium code (`cogs/challenge.py:301-311`) fetches the summary, the member
  and the bot's own reaction without any guard, so a failure raises. The
  loop then stops at `cogs/challenge.py:199-200`. `Lifecycle.Tally` returns
  `None` in that case, and `Lifecycle.Step` reports `halted`.
- The comments at `cogs/challenge.py:160` and `:178` name Sunday and
  Monday. The code tests `weekday() == 0` (Monday) and `== 1` (Tuesday), and
  the model uses the code's values.
- `force_end` is meant to close the running challenge's submissions. When
  it is raised while no challenge is current, no pass lowers it
  (`cogs/challenge.py:152`), and neither does `set`
  (`cogs/challenge.py:109-122`). It then closes the submissions of the next
  challenge on that challenge's very first tick
  (`Lifecycle.IdleFlagsPersist`,
  `Lifecycle.IdleForcedEndClosesNextChallenge`).
- `end_votes` is meant to close the votes of the running challenge. Raised
  while no challenge is current, it is likewise never lowered. The next
  challenge created is then ended on its first tick off Monday, without any
  report and with an empty podium
  (`Lifecycle.IdleForcedEndOfVotesEndsNextChallenge`).
- `force_end` is meant to close submissions. Raised while the challenge is
  already voting, it runs the report again (`cogs/challenge.py:161`). Every
  entry whose summary is posted again gets the new summary's id
  (`cogs/challenge.py:281`), so the votes already cast on the first
  summaries are never read at `cogs/challenge.py:301`
  (`Lifecycle.ForcedEndWhileVotingResummarises`).
- `force_end` is meant to close submissions only. On a Tuesday it also lets
  the Tuesday test see the challenge as voting, so an open challenge goes to
  ended in a single tick (`Lifecycle.ForcedEndOnTuesdayEndsOpen`).

## Model

| member | source | states |
|---|---|---|
| Text.StripStartDropsLeadingSpace | cogs/challenge.py:77 | `lstrip` returns a suffix of the text; everything it removed is whitespace; what remains starts with a non-space character or is empty |
| Text.StripEndDropsTrailingSpace | cogs/challenge.py:77 | `rstrip` returns a prefix of the text; everything it removed is whitespace; what remains ends with a non-space character or is empty |
| Text.StripKeepsTrimmed | cogs/challenge.py:77 | a text with no whitespace at either end is unchanged by `strip()` |
| Text.LowerAt | cogs/challenge.py:77-78 | `lower()` maps the text character by character |
| Text.LowerIdempotent | cogs/challenge.py:77-78 | lower-casing an already lower-cased text changes nothing |
| Text.LowerChar | cogs/challenge.py:77-78 | a character changes exactly when it is a capital, and what comes out is never a capital |
| Text.LowerKeepsLowerCase | cogs/challenge.py:78 | a text with no capital is its own lower-case form |
| Text.LowerAccentedExample | cogs/challenge.py:77-78 | the accented tag "[ÉTÉ]" lower-cases to "[été]" |
| Text.ImageTestIgnoresCase | cogs/challenge.py:244-250 | the thumbnail test gives the same answer for a filename and its lower-cased form |
| Text.ImageTestUpperCase | cogs/challenge.py:244-250 | `a.PNG` counts as an image |
| Text.ImageTestNoDot | cogs/challenge.py:244-250 | `jpeg`, with no dot, counts as an image |
| Text.ImageTestOtherExtension | cogs/challenge.py:244-250 | `a.mp4` is not an image |
| Truncate.Split | cogs/challenge.py:23 | `split(' ')` yields at least one piece, and no piece contains a space |
| Truncate.LastSpaceOrZero | cogs/challenge.py:23 | the position found is a space with no space after it, or 0 when the text has no space |
| Truncate.JoinSplit | cogs/challenge.py:23 | `' '.join(s.split(' '))` gives back `s` |
| Truncate.DropLastWord | cogs/challenge.py:23 | joining all pieces but the last gives the text before its last space |
| Truncate.SmartTruncate | cogs/challenge.py:19-23 | a text within the budget is returned unchanged; a longer one ends with the suffix |
| Truncate.TruncateCutsAtLastSpace | cogs/challenge.py:19-23 | an over-long text becomes `content[:p] + suffix`, where `p` <= `length` is the last space within the first `length + 1` characters, or 0 when there is none; the cut never falls inside a word |
| Truncate.DefaultTruncateBound | cogs/challenge.py:19-23 | with the default budget of 175 and the ellipsis, as the report applies them to each description (`cogs/challenge.py:262`), a text is kept exactly when it has at most 175 characters, and the result never has more than 176 |
| Truncate.TruncateExample | cogs/challenge.py:19-23 | a budget of 10 turns "one two three four five" into "one two…" |
| Store.Load | cogs/challenge.py:37-47 | start-up keeps the stored challenges; a stored pointer that is absent or empty means no current challenge; both force flags start down |
| Recorder.Classify | cogs/challenge.py:68-84 | a message is recorded exactly when all of these hold: a current challenge is open, the message is in the challenge channel, the author is not a bot, the stripped lower-cased text starts or ends with the lower-cased tag, and it is not the bare tag without an attachment; it is rejected exactly when it is that bare tag |
| Recorder.Participate | cogs/challenge.py:68-89 | only a recorded message changes the state; it sets its author's entry of the current challenge to its id, replacing an earlier entry; the other entries, the phase, the dates, the other challenges, the pointer and the flags stay as they were |
| Recorder.ParticipateKeepsInvariants | cogs/challenge.py:68-89 | recording keeps the store consistent, keeps a single active challenge, and moves no phase |
| Recorder.ClassifyAfterParticipate | cogs/challenge.py:68-86 | recording one message does not change the verdict on any other message |
| Recorder.ResubmissionIsIdempotent | cogs/challenge.py:55-89 | handling the same message twice (a post, then an edit event) gives the same state as handling it once |
| Recorder.LatestSubmissionWins | cogs/challenge.py:86 | of two recorded messages by one author, the later one is the entry kept |
| Recorder.TaggedEntryIsRecorded | cogs/challenge.py:80-86 | "[foo] hi" in the channel, while `[foo]` is open, is recorded under its author |
| Recorder.BareTagIsRejected | cogs/challenge.py:82-84 | the bare tag with nothing attached is rejected |
| Recorder.BareTagWithAttachmentIsRecorded | cogs/challenge.py:82-86 | the bare tag with an attachment is recorded |
| Recorder.NormalizeExample | cogs/challenge.py:77 | " Hi [FOO]\n" normalises to "hi [foo]" |
| Recorder.TrailingTagAnyCaseIsRecorded | cogs/challenge.py:77-86 | a tag at the end, in any case and with surrounding whitespace, is recorded |
| Recorder.OtherChannelIsIgnored | cogs/challenge.py:69-72 | a message outside the challenge channel is ignored whatever it contains |
| Lifecycle.ChallengeKey | cogs/challenge.py:110 | the stored key is the name in brackets, and the name can be read back from it |
| Lifecycle.Create | cogs/challenge.py:109-122 | `set` is refused exactly when the bracketed name is already stored; otherwise it adds an open record with the given start date and an empty end date, makes it current, and leaves every other record and both flags unchanged |
| Lifecycle.CreateKeepsConsistent | cogs/challenge.py:109-122 | creation keeps the store consistent and moves no phase |
| Lifecycle.CreateWhenIdleKeepsSingleActive | cogs/challenge.py:109-122 | with no challenge running, the new challenge is the only one not ended |
| Lifecycle.CreateWhileActiveOrphansCurrent | cogs/challenge.py:112-122 | with a challenge running, `set` leaves two challenges not ended |
| Lifecycle.TitleIsNeverReused | cogs/challenge.py:112-114 | once a name is used, setting it again is refused |
| Lifecycle.WithSummaries | cogs/challenge.py:281 | each entry with a posted summary gets that summary's id; the other entries, and every submitted message id, are unchanged |
| Lifecycle.Tally | cogs/challenge.py:293-311 | the tally counts exactly the entries that have a summary, each with its reading; it fails exactly when one of them has no reading |
| Lifecycle.CollectTally | cogs/challenge.py:293-313 | the loop over the entries computes `Tally` |
| Lifecycle.OpenVotes | cogs/challenge.py:165-176 | closing submissions records the summaries, moves the challenge to voting, lowers `force_end`, and touches nothing else |
| Lifecycle.Finish | cogs/challenge.py:184-189 | ending records the end date, marks the challenge ended, clears the pointer, lowers `force_end_votes`, and touches nothing else |
| Lifecycle.Step | cogs/challenge.py:150-200 | a tick without a current challenge changes nothing, including the flags; no challenge is added or removed; only the current record can change; the participations are reported exactly when the first condition holds. With the current record present, let `s1` be the state the first block leaves. A podium comes out exactly when the second condition holds on `s1` and the tally of `s1`'s entries can be read. The loop halts exactly when that condition holds and the tally cannot be read. Without a podium the state is `s1`. With one, the podium is the ranking of that tally; the challenge is ended on `date` with its start date and `s1`'s entries kept; the pointer and `force_end_votes` are cleared |
| Lifecycle.StepKeepsInvariants | cogs/challenge.py:152-189 | a tick keeps the store consistent, keeps a single active challenge, and never moves a phase backwards |
| Lifecycle.MissingRecordHaltsWhenRead | cogs/challenge.py:152-200 | a pointer to a missing record stops the loop on exactly the ticks that look the record up, and changes nothing |
| Lifecycle.MondayClosesSubmissions | cogs/challenge.py:161-189 | on Monday an open challenge has its submissions closed: the summaries are recorded and `force_end` is lowered. With `force_end_votes` down it is left voting and current, with no podium. With that flag up the same tick goes on to the votes: a podium comes out exactly when the new summaries can be tallied, and the challenge is then ended and no longer current; otherwise the loop halts with it voting and current |
| Lifecycle.ForcedEndClosesSubmissions | cogs/challenge.py:161-176 | `force_end` reports the participations on any day and in any phase, is lowered, and leaves the challenge voting or ended |
| Lifecycle.ForcedEndStopsAtVoting | cogs/challenge.py:161-189 | off Tuesday and without `force_end_votes`, `force_end` leaves the challenge voting and current, with no podium |
| Lifecycle.ForcedEndOnTuesdayEndsOpen | cogs/challenge.py:161-189 | when the summaries just posted can be tallied, `force_end` on a Tuesday takes an open challenge to ended in one tick, ranking those summaries |
| Lifecycle.IdleFlagsPersist | cogs/challenge.py:109-152 | `force_end` and `force_end_votes`, raised with no current challenge, survive every tick and `set` |
| Lifecycle.IdleForcedEndClosesNextChallenge | cogs/challenge.py:109-176 | such a `force_end` closes the submissions of the next challenge created on its first tick, whatever the day |
| Lifecycle.IdleForcedEndOfVotesEndsNextChallenge | cogs/challenge.py:109-189 | such a `force_end_votes`, with `force_end` down, ends the next challenge created on its first tick off Monday, with no report and an empty podium |
| Lifecycle.ForcedEndWhileVotingResummarises | cogs/challenge.py:161-176 | `force_end` while voting runs the report again: the entries become `WithSummaries` of the old ones, so each entry with a newly posted summary holds that summary's id |
| Lifecycle.VotingEnds | cogs/challenge.py:179-189 | with `force_end` down, on Tuesday or with `force_end_votes`, a voting challenge whose tally can be read ends on the given date; the podium is the ranking of its tally; the pointer and the flag are cleared (`Step` states the case with `force_end` up) |
| Lifecycle.ForcedEndOfVotesWhileOpen | cogs/challenge.py:161-189 | for an open challenge with no summary yet, `force_end_votes` ends it in the same tick. The report runs exactly on Monday or with `force_end` up. Without the report the podium is empty, and the challenge is ended and no longer current. With it, a podium comes out exactly when the new summaries can be tallied; it is their ranking, and the challenge is then ended and no longer current |
| Lifecycle.BothFlagsEndInOneTick | cogs/challenge.py:161-189 | with both flags up and the summaries just posted readable by the tally, one tick closes the submissions of an open challenge and then ends it, ranking those summaries |
| Lifecycle.UnreadableTallyHalts | cogs/challenge.py:179-200 | with `force_end` down, on Tuesday or with `force_end_votes`, a voting challenge whose tally cannot be read stops the loop, and the state is left as it was (`Step` states the case with `force_end` up) |
| Lifecycle.OtherDaysChangeNothing | cogs/challenge.py:152-192 | with no flag up, a tick on any day other than Monday or Tuesday changes nothing, even when `actual_challenge` holds the key of a missing record |
| Podium.MaxCountExists | cogs/challenge.py:319 | a non-empty tally has a largest count |
| Podium.MaxCount | cogs/challenge.py:319 | `max(counts.values())` is one of the counts and no count exceeds it |
| Podium.MaxCountAt | cogs/challenge.py:319 | a key that no other key beats holds the maximum |
| Podium.RankingStep | cogs/challenge.py:319-325 | each place is exactly the set of remaining keys tied at the remaining maximum; the rest continue with strictly lower counts |
| Podium.RankingShape | cogs/challenge.py:315-325 | there are at most `rounds` places, none empty, all made of tally keys; there are none exactly when the tally is empty |
| Podium.RankingOrdered | cogs/challenge.py:315-325 | every placed key is a tally key; keys in one place have equal counts; keys in an earlier place have strictly higher counts than keys in a later one |
| Podium.RankingDisjoint | cogs/challenge.py:315-325 | no key is in two places |
| Podium.RankingLeavesOnlyLower | cogs/challenge.py:315-325 | a key left off the podium counts less than every placed key; when fewer places than rounds come out, every key has been placed |
| Podium.EmptyTallyHasNoPlaces | cogs/challenge.py:315-317 | an empty tally gives no places |
| Podium.MaxOf | cogs/challenge.py:319 | the loop over the keys computes the maximum |
| Podium.DeleteKeys | cogs/challenge.py:324-325 | deleting the placed keys one by one leaves exactly the other keys |
| Podium.TakeTop | cogs/challenge.py:319-325 | one round returns the keys tied at the maximum and the tally without them |
| Podium.RankPodium | cogs/challenge.py:315-325 | the ranking loop, with its early exit, computes `Ranking` |
| Podium.RankingExample | cogs/challenge.py:315-325 | the tally {1: 5, 2: 5, 3: 3, 4: 1} ranks {1, 2}, then {3}, then {4} |
| Cog.ChallengeCog.constructor | cogs/challenge.py:37-47 | the object starts in the state `Load` describes |
| Cog.ChallengeCog.AddParticipation | cogs/challenge.py:68-89 | the handler returns `Classify`'s verdict, leaves the fields as `Participate` says, and keeps the store consistent |
| Cog.ChallengeCog.Set | cogs/challenge.py:103-124 | the command succeeds exactly when `Create` does, leaves the fields as `Create` says, and keeps the store consistent |
| Cog.ChallengeCog.End | cogs/challenge.py:127-135 | only `force_end` changes, and it is raised |
| Cog.ChallengeCog.EndVotes | cogs/challenge.py:138-146 | only `force_end_votes` changes, and it is raised |
| Cog.ChallengeCog.Tick | cogs/challenge.py:152-190 | the fields and the returned report, podium and halt are exactly those of `Step` |
| Cog.ChallengeCog.OpenVoting | cogs/challenge.py:174-176 | the fields end as `OpenVotes` says |
| Cog.ChallengeCog.Close | cogs/challenge.py:184-189 | the fields end as `Finish` says |

## Left out

- Every call to the chat client is outside the model. This covers messages,
  embeds, reactions, typing indicators, member and message lookups, and the
  channel permission lock and unlock. The lock is set whenever the first
  block is entered. That is every tick that reports the participations
  (`reported`), and also a tick where `force_end` is up off Monday and the
  current key is missing from the store: there the lock is set and the pass then
  fails on the lookup (`cogs/challenge.py:162`, `:205`), which the model
  shows as `halted` without `reported`. The unlock happens exactly when a
  podium comes out.
- Sends, reactions and permission changes of the chat client are assumed
  to succeed. A failure of one of them would stop the pass in the middle of
  a block (for example with some summaries recorded and the phase still
  open, or after the podium but before the challenge is ended); that is
  not modelled.
- The `challenge` command (`cogs/challenge.py:92-100`) only sends a private
  message.
- A pass of the loop is treated as one atomic step with respect to the
  event handlers and commands. In the source they can run at every await
  inside a block (the sends, `print_participations` with its 1.5-second
  sleeps at `cogs/challenge.py:284`, and `print_podium`). Three effects of
  that are not modelled. An edit during the report is still recorded, since
  the phase becomes voting only at `cogs/challenge.py:174`. That replaces
  the whole entry, so a summary id already written is lost and those votes
  are not counted; a new entry can also make the iteration at
  `cogs/challenge.py:205` fail. A `set` during a pass moves the rest of the
  pass onto the new challenge. An `end` or `end_votes` during a pass
  cancels it at its current await, and the pass that follows runs the
  report again, posting duplicate summaries.
- The asyncio loop is outside the model. This covers the 30-second sleep,
  the task restart on a connection error, and the swallowed cancellation.
  Only one pass is modelled. A pass that fails on a record lookup or on an
  unreadable tally reports `halted`, and no further pass is modelled.
- `End` and `EndVotes` do not model cancelling and recreating the loop task.
  In the source that makes a pass run at once; in the model the next `Tick`
  sees the flag.
- The retry loop that fetches a participation's message
  (`cogs/challenge.py:215-226`) is I/O.
- `print_participations` is reduced to its effect on the store. Which
  entries get a summary, and that summary's id, is the `posted` input.
  Entries whose member or message cannot be found are simply absent from
  `posted`.
- The vote reading is the `votes` input. It stands for the count of the
  bot's own thumbs-up on each summary, including the author and reaction
  lookups of `cogs/challenge.py:301-311`.
- `get_link`, `URL_REGEX`, the summary text (`re.sub`, `escape_mentions`)
  and the embed layout are not modelled. They depend on Python's `re` and
  on library code that is not part of this model.
- Persistence is not modelled. `cogs/utilities/config.py` (`JSONAsset`) is
  not part of this model, and `save`, `put` and durability are not
  modelled. The store is an in-memory map. It is assumed that reading a
  missing key raises `KeyError`, as a `dict` does.
- `datetime.now()` is replaced by the `weekday` and `date` parameters of
  `Tick`. The `date` text is taken as already formatted (`%d/%m/%y`).
- `get_channels_server` and the role checks of the commands are not
  modelled.
- Text.Lower: lower-cases the ASCII, Latin-1 and French capitals only
  (`Text.IsUpper`); Python's `str.lower()` also maps the other capitals of
  Unicode, and a few of them to several characters.
- Recorder.Watched: when `actual_challenge` holds the key of a record that is not stored,
  `add_participation` raises `KeyError` at `cogs/challenge.py:74`; the model
  gives `Ignored` there, with no change of state and no reaction.
- Podium.Ranking: each place is a set, so the order of tied names in the
  announcement (dictionary order in the source) is not kept. Places are
  keyed by author id rather than by the display label `name (mention)`.
  The mention makes that label one per author.
- The `"current"` entry that the source stores next to the challenges is
  held apart, as the pointer field.
