/**
 * `add_participation`: decides whether a message posted (or edited) in the
 * challenge channel is a submission for the current challenge, and records
 * it under its author's id.
 */
module Recorder {
  import opened Options
  import opened Text
  import opened Store

  /** `CHALLENGE_CHANNEL`. */
  const ChallengeChannel: nat := 529648061937352704

  /** What the handler reads of a message. */
  datatype Message = Message(
    id: MessageId,
    channelId: nat,
    authorId: AuthorId,
    authorIsBot: bool,
    content: string,
    hasAttachments: bool)

  /**
   * What the handler does: nothing, a thumbs-down reaction (a bare tag with
   * nothing attached), or a recorded participation and a thumbs-up.
   */
  datatype Outcome = Ignored | Rejected | Recorded

  /**
   * The message is looked at at all: there is a current challenge, still
   * open, the message is in the challenge channel and its author is not a
   * bot. (A current key that no stored challenge has makes the source
   * raise `KeyError`, which aborts the handler with nothing changed.)
   */
  predicate Watched(s: CogState, msg: Message) {
    && HasCurrent(s)
    && msg.channelId == ChallengeChannel
    && !msg.authorIsBot
    && s.current.value in s.db
    && s.db[s.current.value].phase == Open
  }

  /** `message.content.strip().lower()`. */
  function NormalizedText(msg: Message): string {
    Lower(Strip(msg.content))
  }

  /** The text starts or ends with the challenge's tag. */
  predicate Tagged(text: string, code: string) {
    StartsWith(text, code) || EndsWith(text, code)
  }

  /** The verdict of `add_participation` on a message. */
  function Classify(s: CogState, msg: Message): (r: Outcome)
    ensures r == Recorded <==>
      && Watched(s, msg)
      && Tagged(NormalizedText(msg), Lower(s.current.value))
      && !(NormalizedText(msg) == Lower(s.current.value) && !msg.hasAttachments)
    ensures r == Rejected <==>
      Watched(s, msg) && NormalizedText(msg) == Lower(s.current.value) && !msg.hasAttachments
  {
    if !Watched(s, msg) then Ignored
    else
      var text := NormalizedText(msg);
      var code := Lower(s.current.value);
      if !Tagged(text, code) then Ignored
      else if text == code && !msg.hasAttachments then Rejected
      else Recorded
  }

  /**
   * The state after `add_participation`: a recorded message sets its
   * author's entry of the current challenge to the message id (replacing
   * any earlier one); nothing else changes, and nothing at all otherwise.
   */
  function Participate(s: CogState, msg: Message): (r: CogState)
    ensures Classify(s, msg) != Recorded ==> r == s
    ensures r.current == s.current && r.forceEnd == s.forceEnd && r.forceEndVotes == s.forceEndVotes
    ensures r.db.Keys == s.db.Keys
    ensures forall k :: k in s.db && Some(k) != s.current ==> r.db[k] == s.db[k]
    ensures Classify(s, msg) == Recorded ==>
      var key := s.current.value;
      var before := s.db[key];
      var after := r.db[key];
      && after.phase == before.phase
      && after.dates == before.dates
      && after.participations.Keys == before.participations.Keys + {msg.authorId}
      && after.participations[msg.authorId] == Participation(msg.id, None)
      && forall a :: a in before.participations && a != msg.authorId ==> after.participations[a] == before.participations[a]
  {
    if Classify(s, msg) != Recorded then s
    else
      var key := s.current.value;
      var record := s.db[key];
      var entries := record.participations[msg.authorId := Participation(msg.id, None)];
      s.(db := s.db[key := record.(participations := entries)])
  }

  /** Recording keeps the store consistent, keeps at most one challenge active and moves no phase. */
  lemma ParticipateKeepsInvariants(s: CogState, msg: Message)
    ensures Consistent(s) ==> Consistent(Participate(s, msg))
    ensures SingleActive(s) ==> SingleActive(Participate(s, msg))
    ensures PhasesAdvance(s.db, Participate(s, msg).db)
  {
    var r := Participate(s, msg);
    if Classify(s, msg) == Recorded {
      var key := s.current.value;
      assert forall k :: k in r.db ==> k == key || r.db[k] == s.db[k];
      if Consistent(s) {
        var entries := r.db[key].participations;
        assert forall a :: a in entries ==> a == msg.authorId || entries[a] == s.db[key].participations[a];
      }
    }
  }

  /** Recording leaves the next message's verdict unaffected. */
  lemma ClassifyAfterParticipate(s: CogState, first: Message, next: Message)
    ensures Classify(Participate(s, first), next) == Classify(s, next)
  {
  }

  /**
   * Editing a message re-runs the same rule, so handling the same message
   * twice changes nothing more than handling it once.
   */
  lemma ResubmissionIsIdempotent(s: CogState, msg: Message)
    ensures Participate(Participate(s, msg), msg) == Participate(s, msg)
  {
    ClassifyAfterParticipate(s, msg, msg);
    if Classify(s, msg) == Recorded {
      var r := Participate(s, msg);
      var key := s.current.value;
      var once := r.db[key].participations;
      assert once[msg.authorId := Participation(msg.id, None)] == once;
      assert r.db[key := r.db[key].(participations := once)] == r.db;
    }
  }

  /** Of two recorded messages by one author, the later one is kept. */
  lemma LatestSubmissionWins(s: CogState, first: Message, second: Message)
    requires first.authorId == second.authorId
    requires Classify(s, first) == Recorded && Classify(s, second) == Recorded
    ensures var r := Participate(Participate(s, first), second);
      r.db[s.current.value].participations[second.authorId] == Participation(second.id, None)
  {
    ClassifyAfterParticipate(s, first, second);
  }

  /** A store whose current challenge is `[foo]`, open, with no entries yet. */
  function FooOpen(): CogState {
    CogState(map["[foo]" := Challenge(Open, Dates("01/01/24", ""), map[])], Some("[foo]"), false, false)
  }

  /** The tag of `FooOpen`, lower-cased, is itself. */
  lemma FooTag()
    ensures Lower(FooOpen().current.value) == "[foo]"
  {
    LowerKeepsLowerCase("[foo]");
  }

  /** A submission that starts with the tag is recorded. */
  lemma TaggedEntryIsRecorded(msg: Message)
    requires msg == Message(1, ChallengeChannel, 7, false, "[foo] hi", false)
    ensures Classify(FooOpen(), msg) == Recorded
  {
    var text := msg.content;
    StripKeepsTrimmed(text);
    LowerKeepsLowerCase(text);
    assert NormalizedText(msg) == text;
    FooTag();
    assert Watched(FooOpen(), msg);
    assert StartsWith(text, "[foo]");
  }

  /** The tag alone, with nothing attached, is rejected. */
  lemma BareTagIsRejected()
    ensures Classify(FooOpen(), Message(1, ChallengeChannel, 7, false, "[foo]", false)) == Rejected
  {
    StripKeepsTrimmed("[foo]");
    LowerKeepsLowerCase("[foo]");
  }

  /** The tag alone with an attachment is recorded. */
  lemma BareTagWithAttachmentIsRecorded()
    ensures Classify(FooOpen(), Message(1, ChallengeChannel, 7, false, "[foo]", true)) == Recorded
  {
    StripKeepsTrimmed("[foo]");
    LowerKeepsLowerCase("[foo]");
  }

  /** Normalizing strips the surrounding whitespace and lower-cases the letters. */
  lemma NormalizeExample(msg: Message)
    requires msg.content == " Hi [FOO]\n"
    ensures NormalizedText(msg) == "hi [foo]"
  {
    StripExample(msg.content);
    LowerExample("Hi [FOO]");
  }

  /** The strip half of the example above. */
  lemma StripExample(content: string)
    requires content == " Hi [FOO]\n"
    ensures Strip(content) == "Hi [FOO]"
  {
    assert StripStart(content) == content[1..];
    assert StripEnd(content[1..]) == "Hi [FOO]";
  }

  /** The lower-casing half of the example above. */
  lemma LowerExample(text: string)
    requires text == "Hi [FOO]"
    ensures Lower(text) == "hi [foo]"
  {
    LowerAt(text);
  }

  /** Surrounding whitespace and letter case do not matter; the tag may end the text. */
  lemma TrailingTagAnyCaseIsRecorded(msg: Message)
    requires msg == Message(1, ChallengeChannel, 7, false, " Hi [FOO]\n", false)
    ensures Classify(FooOpen(), msg) == Recorded
  {
    NormalizeExample(msg);
    FooTag();
    assert Watched(FooOpen(), msg);
    assert EndsWith("hi [foo]", "[foo]");
  }

  /** A message outside the challenge channel is ignored whatever it says. */
  lemma OtherChannelIsIgnored(content: string, attached: bool)
    ensures Classify(FooOpen(), Message(1, 42, 7, false, content, attached)) == Ignored
  {
  }
}
