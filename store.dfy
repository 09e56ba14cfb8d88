/**
 * The relational store behind the Django models, as one object whose tables
 * are fields: `Story.objects.create`, `update_or_create`, `save(update_fields=...)`
 * and `delete()` with the `on_delete=CASCADE` rules of poker/models.py.
 */
module EntityStore {
  import opened Wrappers
  import opened Seqs
  import opened Models

  function FindStory(stories: seq<Story>, id: nat): Option<Story> {
    FindFirst(stories, (s: Story) => s.id == id)
  }

  function FindParticipant(participants: seq<Participant>, id: nat): Option<Participant> {
    FindFirst(participants, (p: Participant) => p.id == id)
  }

  /** The vote `(story, participant)` holds, if one exists. */
  function VoteOf(votes: seq<Vote>, story: nat, participant: nat): Option<string> {
    var v := FindFirst(votes, (v: Vote) => v.story == story && v.participant == participant);
    if v.Some? then Some(v.value.value) else None
  }

  /** The table after `save()` of `s`: the row with its id now holds `s`. */
  function ReplaceStory(stories: seq<Story>, s: Story): (r: seq<Story>)
    ensures |r| == |stories|
    ensures forall i :: 0 <= i < |stories| ==> r[i] == if stories[i].id == s.id then s else stories[i]
  {
    seq(|stories|, i requires 0 <= i < |stories| => if stories[i].id == s.id then s else stories[i])
  }

  /** `Vote.objects.update_or_create(story=..., participant=..., defaults={"value": ...})`. */
  function Upsert(votes: seq<Vote>, v: Vote): seq<Vote> {
    if votes == [] then [v]
    else if KeyOf(votes[0]) == KeyOf(v) then [v] + votes[1..]
    else [votes[0]] + Upsert(votes[1..], v)
  }

  /**
   * Under the uniqueness constraint, an upsert leaves exactly one vote for the
   * pair, holding the latest value, keeps every other vote, and keeps the
   * constraint.
   */
  lemma {:induction false} UpsertContents(votes: seq<Vote>, v: Vote)
    requires DistinctBy(votes, KeyOf)
    ensures DistinctBy(Upsert(votes, v), KeyOf)
    ensures forall x :: x in Upsert(votes, v) <==> x == v || (x in votes && KeyOf(x) != KeyOf(v))
  {
    if votes != [] {
      var tail := votes[1..];
      DistinctTail(votes, KeyOf);
      assert votes == [votes[0]] + tail;
      if KeyOf(votes[0]) != KeyOf(v) {
        UpsertContents(tail, v);
        DistinctCons(votes[0], Upsert(tail, v), KeyOf);
      } else {
        DistinctCons(v, tail, KeyOf);
      }
    }
  }

  /** After an upsert the pair's vote reads back as the value just submitted. */
  lemma UpsertReadsBack(votes: seq<Vote>, v: Vote)
    requires DistinctBy(votes, KeyOf)
    ensures VoteOf(Upsert(votes, v), v.story, v.participant) == Some(v.value)
  {
    UpsertContents(votes, v);
    var r := Upsert(votes, v);
    var found := FindFirst(r, (x: Vote) => x.story == v.story && x.participant == v.participant);
    assert v in r;
    assert found.Some? && KeyOf(found.value) == KeyOf(v);
  }

  /** The story rows after replacing one by `s`: ids stay where they were, and every row is `s` or an old row. */
  lemma ReplaceStoryFacts(stories: seq<Story>, s: Story)
    requires FindStory(stories, s.id).Some?
    ensures forall i :: 0 <= i < |stories| ==> ReplaceStory(stories, s)[i].id == stories[i].id
    ensures forall x :: x in ReplaceStory(stories, s) ==> x == s || x in stories
    ensures Keys(ReplaceStory(stories, s), StoryId) == Keys(stories, StoryId)
  {
    var r := ReplaceStory(stories, s);
    forall x | x in stories ensures x.id in Keys(r, StoryId) {
      var i :| 0 <= i < |stories| && stories[i] == x;
      assert r[i].id == x.id && r[i] in r;
    }
    forall x | x in r ensures x.id in Keys(stories, StoryId) {
      var i :| 0 <= i < |r| && r[i] == x;
      assert stories[i].id == x.id;
    }
  }

  /** The votes that survive when only the given stories and participants remain. */
  function SurvivesIn(stories: seq<Story>, participants: seq<Participant>): Vote -> bool {
    (v: Vote) => v.story in Keys(stories, StoryId) && v.participant in Keys(participants, ParticipantId)
  }

  /** `Room.code` is `unique=True`: no two rooms share a code. */
  ghost predicate CodesUnique(rooms: map<nat, Room>) {
    forall i, j :: i in rooms && j in rooms && rooms[i].code == rooms[j].code ==> i == j
  }

  /** Some room other than `except` already uses `code`. */
  predicate CodeTaken(rooms: map<nat, Room>, code: string, except: nat) {
    exists k :: k in rooms && k != except && rooms[k].code == code
  }

  /** `get_object_or_404(Room, code=code)`: the room with that code, if there is one. */
  function RoomByCode(rooms: map<nat, Room>, code: string): (r: Option<Room>)
    requires CodesUnique(rooms) && forall k :: k in rooms ==> rooms[k].id == k
    ensures r.Some? ==> r.value.id in rooms && rooms[r.value.id] == r.value && r.value.code == code
    ensures r.None? ==> forall k :: k in rooms ==> rooms[k].code != code
  {
    if exists k :: k in rooms && rooms[k].code == code then
      var k :| k in rooms && rooms[k].code == code;
      Some(rooms[k])
    else None
  }

  /**
   * The table invariant: primary keys are positive, unique and below the
   * next key handed out, room codes are unique, foreign keys point at
   * existing rows, and votes obey `unique_together`.
   */
  ghost predicate Tables(rooms: map<nat, Room>, participants: seq<Participant>, stories: seq<Story>, votes: seq<Vote>, nextId: nat) {
    && 1 <= nextId
    && (forall k :: k in rooms ==> rooms[k].id == k && 1 <= k < nextId)
    && CodesUnique(rooms)
    && (forall s :: s in stories ==> s.room in rooms && 1 <= s.id < nextId)
    && (forall p :: p in participants ==> p.room in rooms && 1 <= p.id < nextId)
    && (forall v :: v in votes ==> v.story in Keys(stories, StoryId) && v.participant in Keys(participants, ParticipantId))
    && DistinctBy(stories, StoryId)
    && DistinctBy(participants, ParticipantId)
    && DistinctBy(votes, KeyOf)
  }

  /** The cascade of `room.delete()` keeps the table invariant. */
  lemma DeleteRoomKeepsTables(rooms: map<nat, Room>, participants: seq<Participant>, stories: seq<Story>, votes: seq<Vote>, nextId: nat, id: nat)
    requires Tables(rooms, participants, stories, votes, nextId)
    ensures var ps := Filter(participants, (p: Participant) => p.room != id);
            var ss := Filter(stories, (s: Story) => s.room != id);
            Tables(rooms - {id}, ps, ss, Filter(votes, SurvivesIn(ss, ps)), nextId)
  {
    FilterKeepsDistinct(participants, (p: Participant) => p.room != id, ParticipantId);
    FilterKeepsDistinct(stories, (s: Story) => s.room != id, StoryId);
    var ps := Filter(participants, (p: Participant) => p.room != id);
    var ss := Filter(stories, (s: Story) => s.room != id);
    var keep := SurvivesIn(ss, ps);
    FilterKeepsDistinct(votes, keep, KeyOf);
    var vs := Filter(votes, keep);
    var rs := rooms - {id};
    assert CodesUnique(rs) by {
      forall i, j | i in rs && j in rs && rs[i].code == rs[j].code ensures i == j {
        assert rooms[i].code == rooms[j].code;
      }
    }
    assert forall v :: v in vs ==> v.story in Keys(ss, StoryId) && v.participant in Keys(ps, ParticipantId) by {
      forall v | v in vs ensures v.story in Keys(ss, StoryId) && v.participant in Keys(ps, ParticipantId) {
        assert keep(v);
      }
    }
    assert forall s :: s in ss ==> s.room in rs && 1 <= s.id < nextId by {
      forall s | s in ss ensures s.room in rs && 1 <= s.id < nextId {
        assert s in stories && s.room != id;
      }
    }
    assert forall p :: p in ps ==> p.room in rs && 1 <= p.id < nextId by {
      forall p | p in ps ensures p.room in rs && 1 <= p.id < nextId {
        assert p in participants && p.room != id;
      }
    }
  }

  class Store {
    var rooms: map<nat, Room>
    var participants: seq<Participant>
    var stories: seq<Story>
    var votes: seq<Vote>
    /** The next primary key the database hands out. */
    var nextId: nat

    /** Primary keys are positive and unique, foreign keys point at existing rows, and votes obey `unique_together`. */
    ghost predicate Valid()
      reads this
    {
      Tables(rooms, participants, stories, votes, nextId)
    }

    constructor ()
      ensures Valid()
      ensures rooms == map[] && participants == [] && stories == [] && votes == []
    {
      rooms, participants, stories, votes := map[], [], [], [];
      nextId := 1;
    }

    /**
     * `Room.save`: assign a code if there is none, then insert (new row) or
     * update; a code another room already holds violates the unique
     * constraint, and the save fails with nothing written.
     */
    method SaveRoom(r: Room, random: string) returns (saved: Option<Room>)
      requires Valid() && IsRandomCode(random)
      requires r.id != 0 ==> r.id in rooms
      modifies this
      ensures Valid()
      ensures var id := if r.id == 0 then old(nextId) else r.id;
              var code := AssignCode(r.code, random);
              if CodeTaken(old(rooms), code, id) then
                saved.None? && rooms == old(rooms) && nextId == old(nextId)
              else
                && saved == Some(r.(id := id, code := code))
                && rooms == old(rooms)[id := saved.value]
                && nextId == (if r.id == 0 then old(nextId) + 1 else old(nextId))
      ensures participants == old(participants) && stories == old(stories) && votes == old(votes)
    {
      var code := AssignCode(r.code, random);
      var id := if r.id == 0 then nextId else r.id;
      if CodeTaken(rooms, code, id) {
        return None;
      }
      var row := r.(id := id, code := code);
      if r.id == 0 {
        nextId := nextId + 1;
      }
      rooms := rooms[id := row];
      saved := Some(row);
    }

    /** `room.save(update_fields=["jira_board_id"])`: only the room's board id is written. */
    method SaveBoardId(id: nat, board: int)
      requires Valid() && id in rooms
      modifies this
      ensures Valid()
      ensures rooms == old(rooms)[id := old(rooms)[id].(jiraBoardId := Some(board))]
      ensures participants == old(participants) && stories == old(stories) && votes == old(votes) && nextId == old(nextId)
    {
      var rs := rooms[id := rooms[id].(jiraBoardId := Some(board))];
      assert CodesUnique(rs) by {
        forall i, j | i in rs && j in rs && rs[i].code == rs[j].code ensures i == j {
          assert rooms[i].code == rs[i].code && rooms[j].code == rs[j].code;
        }
      }
      rooms := rs;
    }

    method AddParticipant(room: nat, displayName: string, isFacilitator: bool) returns (p: Participant)
      requires Valid() && room in rooms
      modifies this
      ensures Valid()
      ensures p == Participant(old(nextId), room, displayName, isFacilitator)
      ensures participants == old(participants) + [p] && nextId == old(nextId) + 1
      ensures rooms == old(rooms) && stories == old(stories) && votes == old(votes)
    {
      p := Participant(nextId, room, displayName, isFacilitator);
      assert p.id !in Keys(participants, ParticipantId);
      participants := participants + [p];
      nextId := nextId + 1;
      assert Keys(old(participants), ParticipantId) <= Keys(participants, ParticipantId);
    }

    /** `Story.objects.create(...)`: a new row with the model's defaults. */
    method AddStory(room: nat, title: string, notes: string, issueType: string) returns (s: Story)
      requires Valid() && room in rooms
      modifies this
      ensures Valid()
      ensures s == NewStory(old(nextId), room, title, notes, issueType)
      ensures stories == old(stories) + [s] && nextId == old(nextId) + 1
      ensures rooms == old(rooms) && participants == old(participants) && votes == old(votes)
    {
      s := NewStory(nextId, room, title, notes, issueType);
      assert s.id !in Keys(stories, StoryId);
      stories := stories + [s];
      nextId := nextId + 1;
      assert Keys(old(stories), StoryId) <= Keys(stories, StoryId);
    }

    method UpsertVote(v: Vote)
      requires Valid()
      requires v.story in Keys(stories, StoryId) && v.participant in Keys(participants, ParticipantId)
      modifies this
      ensures Valid()
      ensures votes == Upsert(old(votes), v)
      ensures rooms == old(rooms) && participants == old(participants) && stories == old(stories) && nextId == old(nextId)
    {
      UpsertContents(votes, v);
      votes := Upsert(votes, v);
    }

    /** `story.save(update_fields=...)` for a story that exists; the room it belongs to is unchanged. */
    method UpdateStory(s: Story)
      requires Valid()
      requires FindStory(stories, s.id).Some? && FindStory(stories, s.id).value.room == s.room
      modifies this
      ensures Valid()
      ensures stories == ReplaceStory(old(stories), s)
      ensures rooms == old(rooms) && participants == old(participants) && votes == old(votes) && nextId == old(nextId)
    {
      ReplaceStoryFacts(stories, s);
      var before := stories;
      stories := ReplaceStory(stories, s);
      assert DistinctBy(stories, StoryId) by {
        forall i, j | 0 <= i < j < |stories| ensures stories[i].id != stories[j].id {
          assert before[i].id != before[j].id;
        }
      }
      var found := FindStory(before, s.id).value;
      assert found in before;
    }

    /** `story.votes.all().delete()`: the story's votes go, the story stays. */
    method DeleteVotesOf(storyId: nat)
      requires Valid()
      modifies this
      ensures Valid()
      ensures votes == Filter(old(votes), (v: Vote) => v.story != storyId)
      ensures rooms == old(rooms) && participants == old(participants) && stories == old(stories) && nextId == old(nextId)
    {
      FilterKeepsDistinct(votes, (v: Vote) => v.story != storyId, KeyOf);
      votes := Filter(votes, (v: Vote) => v.story != storyId);
    }

    /** `story.delete()`: the story goes, and with it its votes. */
    method DeleteStory(id: nat)
      requires Valid()
      modifies this
      ensures Valid()
      ensures stories == Filter(old(stories), (s: Story) => s.id != id)
      ensures votes == Filter(old(votes), (v: Vote) => v.story != id)
      ensures rooms == old(rooms) && participants == old(participants) && nextId == old(nextId)
    {
      FilterKeepsDistinct(stories, (s: Story) => s.id != id, StoryId);
      FilterKeepsDistinct(votes, (v: Vote) => v.story != id, KeyOf);
      var before := stories;
      stories := Filter(stories, (s: Story) => s.id != id);
      votes := Filter(votes, (v: Vote) => v.story != id);
      forall v | v in votes ensures v.story in Keys(stories, StoryId) {
        var s :| s in before && s.id == v.story;
        assert s in stories;
      }
    }

    /** `participant.delete()`: the participant goes, and with it their votes. */
    method DeleteParticipant(id: nat)
      requires Valid()
      modifies this
      ensures Valid()
      ensures participants == Filter(old(participants), (p: Participant) => p.id != id)
      ensures votes == Filter(old(votes), (v: Vote) => v.participant != id)
      ensures rooms == old(rooms) && stories == old(stories) && nextId == old(nextId)
    {
      FilterKeepsDistinct(participants, (p: Participant) => p.id != id, ParticipantId);
      FilterKeepsDistinct(votes, (v: Vote) => v.participant != id, KeyOf);
      var before := participants;
      participants := Filter(participants, (p: Participant) => p.id != id);
      votes := Filter(votes, (v: Vote) => v.participant != id);
      forall v | v in votes ensures v.participant in Keys(participants, ParticipantId) {
        var p :| p in before && p.id == v.participant;
        assert p in participants;
      }
    }

    /** `room.delete()`: the room, its participants and stories, and every vote on those. */
    method DeleteRoom(id: nat)
      requires Valid()
      modifies this
      ensures Valid()
      ensures rooms == old(rooms) - {id}
      ensures participants == Filter(old(participants), (p: Participant) => p.room != id)
      ensures stories == Filter(old(stories), (s: Story) => s.room != id)
      ensures votes == Filter(old(votes), SurvivesIn(stories, participants))
      ensures nextId == old(nextId)
    {
      DeleteRoomKeepsTables(rooms, participants, stories, votes, nextId, id);
      var ps := Filter(participants, (p: Participant) => p.room != id);
      var ss := Filter(stories, (s: Story) => s.room != id);
      var vs := Filter(votes, SurvivesIn(ss, ps));
      var rs := rooms - {id};
      rooms := rs;
      participants := ps;
      stories := ss;
      votes := vs;
    }
  }
}
