/**
 * The entities of the planning-poker application (poker/models.py): rooms,
 * participants, stories and votes as values, the card decks, the room-code
 * assignment done by `Room.save`, and the column length bounds.
 */
module Models {
  import opened Wrappers
  import opened Strings

  // ----- card decks (CARD_SETS) --------------------------------------------

  const FibonacciCards: seq<string> := ["?", "\U{2615}", "0", "1", "2", "3", "5", "8", "13", "21", "34"]
  const TshirtCards: seq<string> := ["?", "XS", "S", "M", "L", "XL"]

  const CardSets: map<string, seq<string>> := map["fibonacci" := FibonacciCards, "tshirt" := TshirtCards]

  /** The deck a room plays with: its configured set, or the fibonacci deck for an unknown name. */
  function CardsFor(cardSet: string): (cards: seq<string>)
    ensures cardSet in CardSets ==> cards == CardSets[cardSet]
    ensures cardSet !in CardSets ==> cards == CardSets["fibonacci"]
  {
    if cardSet in CardSets then CardSets[cardSet] else FibonacciCards
  }

  /** Exactly two decks are defined; both begin with the "?" card. */
  lemma CardSetsShape()
    ensures CardSets.Keys == {"fibonacci", "tshirt"}
    ensures |CardSets["fibonacci"]| == 11 && CardSets["fibonacci"][0] == "?"
    ensures |CardSets["tshirt"]| == 6 && CardSets["tshirt"][0] == "?"
    ensures forall name :: CardsFor(name) in CardSets.Values
  {
    forall name ensures CardsFor(name) in CardSets.Values {
      assert CardSets["fibonacci"] == FibonacciCards;
    }
  }

  // ----- entities ------------------------------------------------------------

  /** A room; `id == 0` stands for a row that has not been saved yet (Django's `pk is None`). */
  datatype Room = Room(
    id: nat,
    code: string,
    name: string,
    cardSet: string,
    jiraBaseUrl: string,
    jiraEmail: string,
    jiraToken: string,
    jiraProjectKey: string,
    jiraBoardId: Option<int>)

  datatype Participant = Participant(id: nat, room: nat, displayName: string, isFacilitator: bool)

  datatype Story = Story(
    id: nat,
    room: nat,
    title: string,
    notes: string,
    jiraIssueType: string,
    revealed: bool,
    consensusValue: string)

  datatype Vote = Vote(story: nat, participant: nat, value: string)

  /** The pair `unique_together` constrains: one vote per story and participant. */
  datatype VoteKey = VoteKey(story: nat, participant: nat)

  function KeyOf(v: Vote): VoteKey {
    VoteKey(v.story, v.participant)
  }

  function StoryId(s: Story): nat { s.id }
  function ParticipantId(p: Participant): nat { p.id }

  /** A story as `Story.objects.create` makes it: not revealed, no consensus. */
  function NewStory(id: nat, room: nat, title: string, notes: string, issueType: string): (s: Story)
    ensures !s.revealed && s.consensusValue == ""
    ensures s.id == id && s.room == room && s.title == title && s.notes == notes && s.jiraIssueType == issueType
  {
    Story(id, room, title, notes, issueType, false, "")
  }

  /** The room's derived view that get_room_snapshot caches. */
  datatype Snapshot = Snapshot(
    stories: seq<Story>,
    participants: seq<Participant>,
    cards: seq<string>,
    votes: seq<Vote>)

  // ----- Room.save -------------------------------------------------------------

  const RoomCodeLength := 6

  /** What `get_random_string(6)` can return: six ASCII letters or digits. */
  predicate IsRandomCode(r: string) {
    |r| == RoomCodeLength &&
    forall i :: 0 <= i < |r| ==> IsDigit(r[i]) || 'a' <= r[i] <= 'z' || 'A' <= r[i] <= 'Z'
  }

  /**
   * The code `Room.save` leaves on a room: an existing code is kept, an empty
   * one is replaced by the upper-cased random string.
   */
  function AssignCode(code: string, random: string): (r: string)
    requires IsRandomCode(random)
    ensures code != "" ==> r == code
    ensures code == "" ==> |r| == RoomCodeLength && forall i :: 0 <= i < |r| ==> IsDigit(r[i]) || 'A' <= r[i] <= 'Z'
    ensures r != ""
  {
    if code != "" then code else Upper(random)
  }

  /** Saving again never changes the code, whatever the random string of the second save. */
  lemma ResaveKeepsCode(code: string, random1: string, random2: string)
    requires IsRandomCode(random1) && IsRandomCode(random2)
    ensures AssignCode(AssignCode(code, random1), random2) == AssignCode(code, random1)
  {
  }

  // ----- column bounds -----------------------------------------------------------

  const RoomCodeMax := 8
  const TitleMax := 200

  /** A freshly assigned room code fits the `max_length=8` column. */
  lemma AssignedCodeFits(random: string)
    requires IsRandomCode(random)
    ensures |AssignCode("", random)| <= RoomCodeMax
  {
  }
}
