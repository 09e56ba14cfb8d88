/**
 * The room views of poker/views.py: who the current participant is, the
 * facilitator gate, the vote and story actions with their version bumps,
 * joining and leaving, and the permission flags and per-story vote
 * highlighting of `_room_context`. Request data (method, POST fields,
 * staff flag) are parameters; a view ends in an abstract outcome.
 */
module RoomViews {
  import opened Wrappers
  import opened Strings
  import opened Seqs
  import opened Models
  import opened EntityStore
  import opened KeyValueCache
  import opened RoomCache
  import opened Sessions

  datatype Outcome =
    | NotFound
    | BadRequest
    | Forbidden
    | MethodNotAllowed
    | RedirectToJoin
    /** The form page is shown again, nothing was written. */
    | Shown
    /** The action went through (a redirect, or the HTMX fragment). */
    | Done

  /**
   * `current_participant`: the session's "p_{code}" id, if it is non-zero and
   * names a participant of this room.
   */
  function CurrentParticipant(d: map<string, SessionValue>, participants: seq<Participant>, room: Room): (r: Option<Participant>)
    requires Sessions.WellTyped(d)
    ensures r.Some? <==>
      && ParticipantKey(room.code) in d && d[ParticipantKey(room.code)].id != 0
      && exists x :: x in participants && x.id == d[ParticipantKey(room.code)].id && x.room == room.id
    ensures r.Some? ==> r.value in participants && r.value.room == room.id && r.value.id == d[ParticipantKey(room.code)].id
  {
    var k := ParticipantKey(room.code);
    if k !in d || d[k].id == 0 then None
    else FindFirst(participants, (x: Participant) => x.id == d[k].id && x.room == room.id)
  }

  /** `facilitator_required`. */
  function FacilitatorRequired(p: Option<Participant>): (r: bool)
    ensures r <==> p.Some? && p.value.isFacilitator
  {
    p.Some? && p.value.isFacilitator
  }

  /** The current participant of the room a story belongs to. */
  function StoryActor(d: map<string, SessionValue>, rooms: map<nat, Room>, participants: seq<Participant>, story: Option<Story>): Option<Participant>
    requires Sessions.WellTyped(d)
    requires story.Some? ==> story.value.room in rooms
  {
    if story.None? then None else CurrentParticipant(d, participants, rooms[story.value.room])
  }

  /**
   * The checks that reveal, revote, set-consensus and delete make, in their
   * order: 404 for a missing story, 400 for a non-POST, 403 unless the
   * requester is a facilitator; `None` lets the action proceed.
   */
  function StoryActionGate(story: Option<Story>, actor: Option<Participant>, isPost: bool): (r: Option<Outcome>)
    ensures r.None? <==> story.Some? && isPost && actor.Some? && actor.value.isFacilitator
    ensures r == Some(Forbidden) <==> story.Some? && isPost && !(actor.Some? && actor.value.isFacilitator)
    ensures r.Some? ==> r.value in {NotFound, BadRequest, Forbidden}
  {
    if story.None? then Some(NotFound)
    else if !isPost then Some(BadRequest)
    else if !FacilitatorRequired(actor) then Some(Forbidden)
    else None
  }

  /** The participant a freshly joined session names is its current participant in that room. */
  lemma JoinedIsCurrent(d: map<string, SessionValue>, participants: seq<Participant>, room: Room, p: Participant)
    requires Sessions.WellTyped(d)
    requires p.room == room.id && p.id != 0
    requires forall x :: x in participants ==> x.id != p.id
    ensures Sessions.WellTyped(d[ParticipantKey(room.code) := Pid(p.id)])
    ensures CurrentParticipant(d[ParticipantKey(room.code) := Pid(p.id)], participants + [p], room) == Some(p)
  {
    var d2 := d[ParticipantKey(room.code) := Pid(p.id)];
    var s := participants + [p];
    var pred := (x: Participant) => x.id == p.id && x.room == room.id;
    forall j | 0 <= j < |participants| ensures !pred(s[j]) {
      assert s[j] in participants;
    }
    FindFirstAt(s, pred, |participants|);
  }

  // ----- story actions ------------------------------------------------------------

  /** `cast_vote`: upsert the participant's vote and bump the room version. */
  method CastVote(store: Store, cache: Cache, session: Session, storyId: nat, isPost: bool, value: Option<string>)
    returns (outcome: Outcome)
    requires store.Valid() && cache.Valid() && session.Valid()
    modifies store, cache
    ensures store.Valid() && cache.Valid()
    ensures var story := FindStory(old(store.stories), storyId);
      var actor := StoryActor(session.data, old(store.rooms), old(store.participants), story);
      && (outcome == NotFound <==> story.None?)
      && (outcome == RedirectToJoin <==> story.Some? && actor.None?)
      && (outcome == BadRequest <==> story.Some? && actor.Some? && (!isPost || value.None?))
      && (outcome == Done <==> story.Some? && actor.Some? && isPost && value.Some?)
      && (outcome == Done ==>
            && store.votes == Upsert(old(store.votes), Vote(storyId, actor.value.id, value.value))
            && cache.entries == Bumped(old(cache.entries), story.value.room))
      && (outcome != Done ==> store.votes == old(store.votes) && cache.entries == old(cache.entries))
    ensures store.rooms == old(store.rooms) && store.participants == old(store.participants)
    ensures store.stories == old(store.stories) && store.nextId == old(store.nextId)
  {
    var story := FindStory(store.stories, storyId);
    if story.None? {
      return NotFound;
    }
    var s := story.value;
    var actor := CurrentParticipant(session.data, store.participants, store.rooms[s.room]);
    if actor.None? {
      return RedirectToJoin;
    }
    if !isPost || value.None? {
      return BadRequest;
    }
    store.UpsertVote(Vote(s.id, actor.value.id, value.value));
    InvalidateRoomCache(cache, s.room);
    return Done;
  }

  /** `reveal_votes`. */
  method RevealVotes(store: Store, cache: Cache, session: Session, storyId: nat, isPost: bool) returns (outcome: Outcome)
    requires store.Valid() && cache.Valid() && session.Valid()
    modifies store, cache
    ensures store.Valid() && cache.Valid()
    ensures var story := FindStory(old(store.stories), storyId);
      var gate := StoryActionGate(story, StoryActor(session.data, old(store.rooms), old(store.participants), story), isPost);
      && outcome == gate.GetOr(Done)
      && (gate.Some? ==> unchanged(store) && cache.entries == old(cache.entries))
      && (gate.None? ==>
            && store.stories == ReplaceStory(old(store.stories), story.value.(revealed := true))
            && cache.entries == Bumped(old(cache.entries), story.value.room))
    ensures store.rooms == old(store.rooms) && store.participants == old(store.participants)
    ensures store.votes == old(store.votes) && store.nextId == old(store.nextId)
  {
    var story := FindStory(store.stories, storyId);
    if story.None? {
      return NotFound;
    }
    var s := story.value;
    var actor := CurrentParticipant(session.data, store.participants, store.rooms[s.room]);
    if !isPost {
      return BadRequest;
    }
    if !FacilitatorRequired(actor) {
      return Forbidden;
    }
    store.UpdateStory(s.(revealed := true));
    InvalidateRoomCache(cache, s.room);
    return Done;
  }

  /** `revote_story`: hide the votes again, clear the consensus, and delete the story's votes. */
  method RevoteStory(store: Store, cache: Cache, session: Session, storyId: nat, isPost: bool) returns (outcome: Outcome)
    requires store.Valid() && cache.Valid() && session.Valid()
    modifies store, cache
    ensures store.Valid() && cache.Valid()
    ensures var story := FindStory(old(store.stories), storyId);
      var gate := StoryActionGate(story, StoryActor(session.data, old(store.rooms), old(store.participants), story), isPost);
      && outcome == gate.GetOr(Done)
      && (gate.Some? ==> unchanged(store) && cache.entries == old(cache.entries))
      && (gate.None? ==>
            && store.stories == ReplaceStory(old(store.stories), story.value.(revealed := false, consensusValue := ""))
            && store.votes == Filter(old(store.votes), (v: Vote) => v.story != storyId)
            && cache.entries == Bumped(old(cache.entries), story.value.room))
    ensures store.rooms == old(store.rooms) && store.participants == old(store.participants) && store.nextId == old(store.nextId)
  {
    var story := FindStory(store.stories, storyId);
    if story.None? {
      return NotFound;
    }
    var s := story.value;
    var actor := CurrentParticipant(session.data, store.participants, store.rooms[s.room]);
    if !isPost {
      return BadRequest;
    }
    if !FacilitatorRequired(actor) {
      return Forbidden;
    }
    store.UpdateStory(s.(revealed := false, consensusValue := ""));
    store.DeleteVotesOf(s.id);
    InvalidateRoomCache(cache, s.room);
    return Done;
  }

  /** `set_consensus`: a missing field stores the empty string. */
  method SetConsensus(store: Store, cache: Cache, session: Session, storyId: nat, isPost: bool, consensus: Option<string>)
    returns (outcome: Outcome)
    requires store.Valid() && cache.Valid() && session.Valid()
    modifies store, cache
    ensures store.Valid() && cache.Valid()
    ensures var story := FindStory(old(store.stories), storyId);
      var gate := StoryActionGate(story, StoryActor(session.data, old(store.rooms), old(store.participants), story), isPost);
      && outcome == gate.GetOr(Done)
      && (gate.Some? ==> unchanged(store) && cache.entries == old(cache.entries))
      && (gate.None? ==>
            && store.stories == ReplaceStory(old(store.stories), story.value.(consensusValue := consensus.GetOr("")))
            && cache.entries == Bumped(old(cache.entries), story.value.room))
    ensures store.rooms == old(store.rooms) && store.participants == old(store.participants)
    ensures store.votes == old(store.votes) && store.nextId == old(store.nextId)
  {
    var story := FindStory(store.stories, storyId);
    if story.None? {
      return NotFound;
    }
    var s := story.value;
    var actor := CurrentParticipant(session.data, store.participants, store.rooms[s.room]);
    if !isPost {
      return BadRequest;
    }
    if !FacilitatorRequired(actor) {
      return Forbidden;
    }
    store.UpdateStory(s.(consensusValue := consensus.GetOr("")));
    InvalidateRoomCache(cache, s.room);
    return Done;
  }

  /** `delete_story`: the story and its votes go. */
  method DeleteStory(store: Store, cache: Cache, session: Session, storyId: nat, isPost: bool) returns (outcome: Outcome)
    requires store.Valid() && cache.Valid() && session.Valid()
    modifies store, cache
    ensures store.Valid() && cache.Valid()
    ensures var story := FindStory(old(store.stories), storyId);
      var gate := StoryActionGate(story, StoryActor(session.data, old(store.rooms), old(store.participants), story), isPost);
      && outcome == gate.GetOr(Done)
      && (gate.Some? ==> unchanged(store) && cache.entries == old(cache.entries))
      && (gate.None? ==>
            && store.stories == Filter(old(store.stories), (s: Story) => s.id != storyId)
            && store.votes == Filter(old(store.votes), (v: Vote) => v.story != storyId)
            && cache.entries == Bumped(old(cache.entries), story.value.room))
    ensures store.rooms == old(store.rooms) && store.participants == old(store.participants) && store.nextId == old(store.nextId)
  {
    var story := FindStory(store.stories, storyId);
    if story.None? {
      return NotFound;
    }
    var s := story.value;
    var actor := CurrentParticipant(session.data, store.participants, store.rooms[s.room]);
    if !isPost {
      return BadRequest;
    }
    if !FacilitatorRequired(actor) {
      return Forbidden;
    }
    store.DeleteStory(s.id);
    InvalidateRoomCache(cache, s.room);
    return Done;
  }

  // ----- rooms and membership -----------------------------------------------------------

  /** What a valid `JoinForm` holds. */
  datatype JoinForm = JoinForm(displayName: string, isFacilitator: bool)

  /** `join_room`: a valid POST creates the participant, remembers it in the session, and bumps the version. */
  method JoinRoom(store: Store, cache: Cache, session: Session, code: string, isPost: bool, form: Option<JoinForm>)
    returns (outcome: Outcome)
    requires store.Valid() && cache.Valid() && session.Valid()
    modifies store, cache, session
    ensures store.Valid() && cache.Valid() && session.Valid()
    ensures var room := RoomByCode(old(store.rooms), code);
      && (outcome == NotFound <==> room.None?)
      && (outcome == Done <==> room.Some? && isPost && form.Some?)
      && (outcome == Shown <==> room.Some? && !(isPost && form.Some?))
      && (outcome == Done ==>
            var p := Participant(old(store.nextId), room.value.id, form.value.displayName, form.value.isFacilitator);
            && store.participants == old(store.participants) + [p]
            && session.data == old(session.data)[ParticipantKey(code) := Pid(p.id)]
            && CurrentParticipant(session.data, store.participants, room.value) == Some(p)
            && cache.entries == Bumped(old(cache.entries), room.value.id))
      && (outcome != Done ==> unchanged(store) && unchanged(session) && cache.entries == old(cache.entries))
    ensures store.rooms == old(store.rooms) && store.stories == old(store.stories) && store.votes == old(store.votes)
  {
    var room := RoomByCode(store.rooms, code);
    if room.None? {
      return NotFound;
    }
    var r := room.value;
    if !(isPost && form.Some?) {
      return Shown;
    }
    ghost var before := store.participants;
    var p := store.AddParticipant(r.id, form.value.displayName, form.value.isFacilitator);
    assert forall x :: x in before ==> x.id != p.id;
    JoinedIsCurrent(session.data, before, r, p);
    session.Set(ParticipantKey(r.code), Pid(p.id));
    InvalidateRoomCache(cache, r.id);
    return Done;
  }

  /** `leave_room` (POST only): forget the session's participant and delete it, bumping the version if there was one. */
  method LeaveRoom(store: Store, cache: Cache, session: Session, code: string, isPost: bool) returns (outcome: Outcome)
    requires store.Valid() && cache.Valid() && session.Valid()
    modifies store, cache, session
    ensures store.Valid() && cache.Valid() && session.Valid()
    ensures !isPost ==> outcome == MethodNotAllowed && unchanged(store) && unchanged(session) && cache.entries == old(cache.entries)
    ensures isPost ==>
      var room := RoomByCode(old(store.rooms), code);
      && (outcome == NotFound <==> room.None?)
      && (room.None? ==> unchanged(store) && unchanged(session) && cache.entries == old(cache.entries))
      && (room.Some? ==>
            var actor := CurrentParticipant(old(session.data), old(store.participants), room.value);
            && outcome == Done
            && session.data == old(session.data) - {ParticipantKey(code)}
            && CurrentParticipant(session.data, store.participants, room.value).None?
            && (actor.Some? ==>
                  && store.participants == Filter(old(store.participants), (p: Participant) => p.id != actor.value.id)
                  && store.votes == Filter(old(store.votes), (v: Vote) => v.participant != actor.value.id)
                  && cache.entries == Bumped(old(cache.entries), room.value.id))
            && (actor.None? ==> unchanged(store) && cache.entries == old(cache.entries)))
    ensures store.rooms == old(store.rooms) && store.stories == old(store.stories)
  {
    if !isPost {
      return MethodNotAllowed;
    }
    var room := RoomByCode(store.rooms, code);
    if room.None? {
      return NotFound;
    }
    var r := room.value;
    var actor := CurrentParticipant(session.data, store.participants, r);
    session.Pop(ParticipantKey(r.code));
    if actor.Some? {
      store.DeleteParticipant(actor.value.id);
      InvalidateRoomCache(cache, r.id);
    }
    return Done;
  }

  /** `delete_room`: facilitators and staff may delete a room; its rows cascade and the room list is dropped from the cache. */
  method DeleteRoom(store: Store, cache: Cache, session: Session, code: string, isPost: bool, isStaff: bool)
    returns (outcome: Outcome)
    requires store.Valid() && cache.Valid() && session.Valid()
    modifies store, cache
    ensures store.Valid() && cache.Valid()
    ensures var room := RoomByCode(old(store.rooms), code);
      var actor := if room.Some? then CurrentParticipant(session.data, old(store.participants), room.value) else None;
      && (outcome == NotFound <==> room.None?)
      && (outcome == BadRequest <==> room.Some? && !isPost)
      && (outcome == Forbidden <==> room.Some? && isPost && !(FacilitatorRequired(actor) || isStaff))
      && (outcome == Done <==> room.Some? && isPost && (FacilitatorRequired(actor) || isStaff))
      && (outcome == Done ==>
            && store.rooms == old(store.rooms) - {room.value.id}
            && store.participants == Filter(old(store.participants), (p: Participant) => p.room != room.value.id)
            && store.stories == Filter(old(store.stories), (s: Story) => s.room != room.value.id)
            && store.votes == Filter(old(store.votes), SurvivesIn(store.stories, store.participants))
            && cache.entries == old(cache.entries) - {RoomListKey})
      && (outcome != Done ==> unchanged(store) && cache.entries == old(cache.entries))
  {
    var room := RoomByCode(store.rooms, code);
    if room.None? {
      return NotFound;
    }
    var r := room.value;
    var actor := CurrentParticipant(session.data, store.participants, r);
    if !isPost {
      return BadRequest;
    }
    if !(FacilitatorRequired(actor) || isStaff) {
      return Forbidden;
    }
    store.DeleteRoom(r.id);
    InvalidateRoomList(cache);
    return Done;
  }

  /** What a valid `StoryForm` holds. */
  datatype StoryForm = StoryForm(title: string, notes: string)

  /** `story_create`: a member of the room adds a story (with no issue type) and the version is bumped. */
  method StoryCreate(store: Store, cache: Cache, session: Session, code: string, isPost: bool, form: Option<StoryForm>)
    returns (outcome: Outcome)
    requires store.Valid() && cache.Valid() && session.Valid()
    modifies store, cache
    ensures store.Valid() && cache.Valid()
    ensures var room := RoomByCode(old(store.rooms), code);
      var actor := if room.Some? then CurrentParticipant(session.data, old(store.participants), room.value) else None;
      && (outcome == NotFound <==> room.None?)
      && (outcome == RedirectToJoin <==> room.Some? && actor.None?)
      && (outcome == Done <==> room.Some? && actor.Some?)
      && (outcome == Done && isPost && form.Some? ==>
            && store.stories == old(store.stories) + [NewStory(old(store.nextId), room.value.id, form.value.title, form.value.notes, "")]
            && cache.entries == Bumped(old(cache.entries), room.value.id))
      && (!(outcome == Done && isPost && form.Some?) ==> unchanged(store) && cache.entries == old(cache.entries))
    ensures store.rooms == old(store.rooms) && store.participants == old(store.participants) && store.votes == old(store.votes)
  {
    var room := RoomByCode(store.rooms, code);
    if room.None? {
      return NotFound;
    }
    var r := room.value;
    var actor := CurrentParticipant(session.data, store.participants, r);
    if actor.None? {
      return RedirectToJoin;
    }
    if isPost && form.Some? {
      var _ := store.AddStory(r.id, form.value.title, form.value.notes, "");
      InvalidateRoomCache(cache, r.id);
    }
    return Done;
  }

  // ----- room context and the polled fragments -------------------------------------------

  datatype RoomContextData = RoomContextData(
    participant: Option<Participant>,
    isFacilitator: bool,
    stories: seq<Story>,
    /** The requester's vote on each story, or "" where there is none (or no participant). */
    currentVotes: seq<string>,
    cards: seq<string>,
    canManage: bool,
    staffCanDelete: bool,
    version: int)

  /** The highlight for story `s`: the participant's own vote, read from the vote table. */
  function CurrentVote(votes: seq<Vote>, participant: Option<Participant>, s: Story): string {
    if participant.Some? then VoteOf(votes, s.id, participant.value.id).GetOr("") else ""
  }

  /** The context `_room_context` builds from a snapshot. */
  function ContextFor(snapshot: Snapshot, version: int, participant: Option<Participant>, votes: seq<Vote>, isStaff: bool): RoomContextData {
    var fac := FacilitatorRequired(participant);
    RoomContextData(
      participant, fac, snapshot.stories,
      seq(|snapshot.stories|, i requires 0 <= i < |snapshot.stories| => CurrentVote(votes, participant, snapshot.stories[i])),
      snapshot.cards, fac || isStaff, isStaff && !fac, version)
  }

  /**
   * `_room_context`: the permission flags, and the current vote of each
   * story, first cleared and then filled in from the participant's votes.
   */
  method RoomContext(snapshot: Snapshot, version: int, participant: Option<Participant>, votes: seq<Vote>, isStaff: bool)
    returns (ctx: RoomContextData)
    ensures ctx == ContextFor(snapshot, version, participant, votes, isStaff)
    ensures ctx.isFacilitator <==> participant.Some? && participant.value.isFacilitator
    ensures ctx.canManage <==> ctx.isFacilitator || isStaff
    ensures ctx.staffCanDelete <==> isStaff && !ctx.isFacilitator
    ensures ctx.staffCanDelete ==> ctx.canManage
    ensures |ctx.currentVotes| == |snapshot.stories|
    ensures forall i :: 0 <= i < |ctx.currentVotes| ==>
              (participant.None? ==> ctx.currentVotes[i] == "") &&
              (participant.Some? ==> ctx.currentVotes[i] == VoteOf(votes, snapshot.stories[i].id, participant.value.id).GetOr(""))
  {
    var stories := snapshot.stories;
    var fac := FacilitatorRequired(participant);
    var current: seq<string> := [];
    var i := 0;
    while i < |stories|
      invariant 0 <= i <= |stories|
      invariant |current| == i && forall j :: 0 <= j < i ==> current[j] == ""
    {
      current := current + [""];
      i := i + 1;
    }
    if participant.Some? {
      i := 0;
      while i < |stories|
        invariant 0 <= i <= |stories| && |current| == |stories|
        invariant forall j :: 0 <= j < i ==> current[j] == CurrentVote(votes, participant, stories[j])
        invariant forall j :: i <= j < |stories| ==> current[j] == ""
      {
        current := current[i := VoteOf(votes, stories[i].id, participant.value.id).GetOr("")];
        i := i + 1;
      }
    }
    ctx := RoomContextData(participant, fac, stories, current, snapshot.cards, fac || isStaff, isStaff && !fac, version);
  }

  function ViewerOf(p: Option<Participant>): Viewer {
    if p.Some? then Member(p.value.id) else Anonymous
  }

  /**
   * `room_stories_partial` / `room_sidebar_partial` (GET only): read the
   * snapshot, then serve the fragment cached for (room, fragment, version,
   * viewer), rendering and caching it on a miss. `render` stands for the
   * template.
   */
  method RoomPartial(store: Store, cache: Cache, session: Session, code: string, isGet: bool, fragment: string,
                     isStaff: bool, render: RoomContextData -> string)
    returns (outcome: Outcome, html: string)
    requires store.Valid() && cache.Valid() && session.Valid()
    modifies cache
    ensures cache.Valid()
    ensures !isGet ==> outcome == MethodNotAllowed && cache.entries == old(cache.entries)
    ensures isGet ==>
      var room := RoomByCode(store.rooms, code);
      && (outcome == NotFound <==> room.None?)
      && (room.None? ==> cache.entries == old(cache.entries))
      && (room.Some? ==>
            var r := room.value;
            var actor := CurrentParticipant(session.data, store.participants, r);
            var read := SnapshotRead(old(cache.entries), r.id, ComputeSnapshot(r, store.stories, store.participants, store.votes));
            var key := FragmentKey(r.id, fragment, read.version, ViewerOf(actor));
            && outcome == Done
            && (key in read.entries ==> html == read.entries[key].html && cache.entries == read.entries)
            && (key !in read.entries ==>
                  && html == render(ContextFor(read.data, read.version, actor, store.votes, isStaff))
                  && cache.entries == read.entries[key := Fragment(html)]))
  {
    if !isGet {
      return MethodNotAllowed, "";
    }
    var room := RoomByCode(store.rooms, code);
    if room.None? {
      return NotFound, "";
    }
    var r := room.value;
    var actor := CurrentParticipant(session.data, store.participants, r);
    var snapshot, version := GetRoomSnapshot(cache, store, r);
    var key := FragmentKey(r.id, fragment, version, ViewerOf(actor));
    var cached := cache.Get(key);
    if cached.Some? {
      return Done, cached.value.html;
    }
    var ctx := RoomContext(snapshot, version, actor, store.votes, isStaff);
    html := render(ctx);
    cache.Set(key, Fragment(html));
    outcome := Done;
  }

  /**
   * After a bump the polled fragment is looked up under a key that differs
   * from every key of the previous version, for every viewer: no fragment
   * rendered before the change is served at the new version.
   */
  lemma FragmentKeysSeparateVersions(e: map<string, CacheValue>, roomId: nat, fragment: string, w1: Viewer, w2: Viewer)
    requires KeyValueCache.WellTyped(e)
    ensures FragmentKey(roomId, fragment, CurrentVersion(e, roomId), w1) != FragmentKey(roomId, fragment, BumpedVersion(e, roomId), w2)
  {
    BumpRaisesVersion(e, roomId);
    if FragmentKey(roomId, fragment, CurrentVersion(e, roomId), w1) == FragmentKey(roomId, fragment, BumpedVersion(e, roomId), w2) {
      FragmentKeyInjective(roomId, fragment, CurrentVersion(e, roomId), w1, BumpedVersion(e, roomId), w2);
    }
  }
}
