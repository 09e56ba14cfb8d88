/**
 * The Jira side of poker/views.py that works on lists the HTTP layer has
 * already returned: choosing the next sprint, recognising Epics, and the
 * import loop that turns a sprint's issues into stories while skipping
 * titles the room already has.
 */
module JiraImport {
  import opened Wrappers
  import opened Strings
  import opened Seqs
  import opened Models
  import opened EntityStore
  import opened KeyValueCache
  import opened RoomCache
  import opened Sessions
  import opened RoomViews

  // ----- board lookup --------------------------------------------------------------------

  /** `_jira_auth` returns credentials: base URL, email and token are all filled in. */
  predicate JiraAuthSet(r: Room) {
    r.jiraBaseUrl != "" && r.jiraEmail != "" && r.jiraToken != ""
  }

  /** The stored board id is truthy: set and not 0. */
  predicate HasBoardId(r: Room) {
    r.jiraBoardId.Some? && r.jiraBoardId.value != 0
  }

  /** The fields of a board in Jira's listing: its id and `location.projectKey`, if any. */
  datatype Board = Board(id: int, projectKey: Option<string>)

  /**
   * The board `_jira_get_board_id` picks from the complete listing: the first
   * one located in the project, else the first one; nothing for an empty listing.
   */
  function ChooseBoard(boards: seq<Board>, projectKey: string): (r: Option<int>)
    ensures r.None? <==> boards == []
    ensures r.Some? && (exists b :: b in boards && b.projectKey == Some(projectKey)) ==>
              exists i :: 0 <= i < |boards| && boards[i].id == r.value && boards[i].projectKey == Some(projectKey)
                          && forall j :: 0 <= j < i ==> boards[j].projectKey != Some(projectKey)
    ensures r.Some? && (forall b :: b in boards ==> b.projectKey != Some(projectKey)) ==> r == Some(boards[0].id)
  {
    var inProject := (b: Board) => b.projectKey == Some(projectKey);
    var preferred := FindFirst(boards, inProject);
    if preferred.Some? then
      FindFirstIsFirst(boards, inProject);
      Some(preferred.value.id)
    else if boards == [] then None
    else Some(boards[0].id)
  }

  /**
   * `_jira_get_board_id` over `boards`, the listing Jira would page through:
   * a truthy stored id is returned as it is; without credentials or a
   * project key there is none; otherwise the board `ChooseBoard` picks.
   */
  function BoardLookup(r: Room, boards: seq<Board>): Option<int> {
    if HasBoardId(r) then r.jiraBoardId
    else if !JiraAuthSet(r) || r.jiraProjectKey == "" then None
    else ChooseBoard(boards, r.jiraProjectKey)
  }

  /** The lookup went to Jira and found a board, so it saves that board on the room. */
  predicate SavesBoard(r: Room, boards: seq<Board>) {
    !HasBoardId(r) && JiraAuthSet(r) && r.jiraProjectKey != "" && boards != []
  }

  /** The rooms table after the lookup for room `id`. */
  function RoomsAfterLookup(rooms: map<nat, Room>, id: nat, boards: seq<Board>): map<nat, Room>
    requires id in rooms
  {
    if SavesBoard(rooms[id], boards) then rooms[id := rooms[id].(jiraBoardId := BoardLookup(rooms[id], boards))]
    else rooms
  }

  /**
   * A stored id wins over whatever Jira lists, and a board found once is
   * remembered: every later lookup returns it without asking Jira, unless
   * the board found had id 0, which the truthiness test does not accept.
   */
  lemma BoardRemembered(r: Room, boards: seq<Board>, later: seq<Board>)
    ensures HasBoardId(r) ==> BoardLookup(r, boards) == r.jiraBoardId
    ensures SavesBoard(r, boards) && BoardLookup(r, boards) != Some(0) ==>
              BoardLookup(r.(jiraBoardId := BoardLookup(r, boards)), later) == BoardLookup(r, boards)
    ensures !HasBoardId(r) && (!JiraAuthSet(r) || r.jiraProjectKey == "") ==> BoardLookup(r, boards).None?
  {
    if SavesBoard(r, boards) {
      assert ChooseBoard(boards, r.jiraProjectKey).Some?;
    }
  }

  /** `_jira_get_board_id` on the room `id`, saving the board it found. */
  method GetBoardId(store: Store, id: nat, boards: seq<Board>) returns (b: Option<int>)
    requires store.Valid() && id in store.rooms
    modifies store
    ensures store.Valid()
    ensures b == BoardLookup(old(store.rooms[id]), boards)
    ensures store.rooms == RoomsAfterLookup(old(store.rooms), id, boards)
    ensures store.participants == old(store.participants) && store.stories == old(store.stories)
    ensures store.votes == old(store.votes) && store.nextId == old(store.nextId)
  {
    var r := store.rooms[id];
    if HasBoardId(r) {
      return r.jiraBoardId;
    }
    if !JiraAuthSet(r) || r.jiraProjectKey == "" {
      return None;
    }
    b := ChooseBoard(boards, r.jiraProjectKey);
    if b.None? {
      return None;
    }
    store.SaveBoardId(id, b.value);
  }

  // ----- sprint choice -------------------------------------------------------------------

  /** The fields of a Jira sprint the choice looks at; a missing JSON field is `None`. */
  datatype Sprint = Sprint(id: int, originBoardId: Option<int>, startDate: Option<string>, createdDate: Option<string>)

  const FarFuture := "9999-12-31"

  /** `startDate or createdDate or "9999-12-31"`: an empty string counts as missing. */
  function SortKey(s: Sprint): string {
    if s.startDate.Some? && s.startDate.value != "" then s.startDate.value
    else if s.createdDate.Some? && s.createdDate.value != "" then s.createdDate.value
    else FarFuture
  }

  /**
   * The key is never empty: a non-empty start date, else a non-empty
   * creation date, else the far-future date that sorts undated sprints last.
   */
  lemma SortKeyChoice(s: Sprint)
    ensures SortKey(s) != ""
    ensures SortKey(s) == FarFuture || Some(SortKey(s)) == s.startDate || Some(SortKey(s)) == s.createdDate
    ensures s.startDate.Some? && s.startDate.value != "" ==> SortKey(s) == s.startDate.value
    ensures (s.startDate.None? || s.startDate == Some("")) && s.createdDate.Some? && s.createdDate.value != "" ==> SortKey(s) == s.createdDate.value
  {
  }

  /**
   * The position a stable sort by `SortKey` moves to the front: no key is
   * smaller than its key, and every earlier position has a strictly larger key.
   */
  function FirstMinimal(s: seq<Sprint>): (i: nat)
    requires |s| > 0
    ensures i < |s|
    ensures forall j :: 0 <= j < |s| ==> !StrLess(SortKey(s[j]), SortKey(s[i]))
    ensures forall j :: 0 <= j < i ==> StrLess(SortKey(s[i]), SortKey(s[j]))
  {
    if |s| == 1 then
      StrLessIrreflexive(SortKey(s[0]));
      0
    else
      var m := FirstMinimal(s[..|s| - 1]);
      var km := SortKey(s[m]);
      var kl := SortKey(s[|s| - 1]);
      if StrLess(kl, km) then
        assert forall j :: 0 <= j < |s| - 1 ==> StrLess(kl, SortKey(s[j])) by {
          forall j | 0 <= j < |s| - 1 ensures StrLess(kl, SortKey(s[j])) {
            assert s[..|s| - 1][j] == s[j];
            if SortKey(s[j]) != km {
              StrLessTotal(SortKey(s[j]), km);
              StrLessTransitive(kl, km, SortKey(s[j]));
            }
          }
        }
        StrLessIrreflexive(kl);
        assert forall j :: 0 <= j < |s| ==> !StrLess(SortKey(s[j]), kl) by {
          forall j | 0 <= j < |s| ensures !StrLess(SortKey(s[j]), kl) {
            if j < |s| - 1 && StrLess(SortKey(s[j]), kl) {
              StrLessTransitive(SortKey(s[j]), kl, SortKey(s[j]));
              StrLessIrreflexive(SortKey(s[j]));
            }
          }
        }
        |s| - 1
      else
        assert forall j :: 0 <= j < |s| - 1 ==> s[..|s| - 1][j] == s[j];
        m
  }

  /**
   * `_jira_next_sprint` on the sprints Jira returned: nothing for an empty
   * list; otherwise the board's own sprints if there are any, else all of
   * them, and among those the one a stable sort by `SortKey` puts first:
   * no eligible sprint has a smaller key, and every eligible sprint listed
   * before the chosen one has a strictly larger key, so ties go to the one
   * Jira listed first.
   */
  function NextSprint(values: seq<Sprint>, boardId: int): (r: Option<Sprint>)
    ensures r.None? <==> values == []
    ensures r.Some? ==> r.value in values
    ensures r.Some? && (exists s :: s in values && s.originBoardId == Some(boardId)) ==> r.value.originBoardId == Some(boardId)
    ensures r.Some? ==> forall s :: s in values && (s.originBoardId == Some(boardId) || r.value.originBoardId != Some(boardId))
                          ==> !StrLess(SortKey(s), SortKey(r.value))
    ensures r.Some? ==> exists i :: 0 <= i < |values| && values[i] == r.value &&
                          (forall j :: 0 <= j < i && (values[j].originBoardId == Some(boardId) || r.value.originBoardId != Some(boardId))
                                       ==> StrLess(SortKey(r.value), SortKey(values[j])))
  {
    if values == [] then None
    else
      var keep := (s: Sprint) => s.originBoardId == Some(boardId);
      var scoped := Filter(values, keep);
      var candidates := if scoped != [] then scoped else values;
      var i := FirstMinimal(candidates);
      assert forall s :: s in candidates ==> !StrLess(SortKey(s), SortKey(candidates[i])) by {
        forall s | s in candidates ensures !StrLess(SortKey(s), SortKey(candidates[i])) {
          var j :| 0 <= j < |candidates| && candidates[j] == s;
        }
      }
      assert scoped == [] ==> forall s :: s in values ==> s.originBoardId != Some(boardId);
      if scoped != [] then
        ScopedChoiceListedFirst(values, keep, i);
        Some(candidates[i])
      else
        Some(candidates[i])
  }

  /**
   * The origin in `values` of the `m`-th kept sprint, when that one is the
   * stable minimum of the kept sprints, has no kept sprint with a key as
   * small before it.
   */
  lemma ScopedChoiceListedFirst(values: seq<Sprint>, keep: Sprint -> bool, m: nat)
    requires Filter(values, keep) != [] && m == FirstMinimal(Filter(values, keep))
    ensures var o := FilterOrigin(values, keep, m);
            forall j :: 0 <= j < o && keep(values[j]) ==> StrLess(SortKey(values[o]), SortKey(values[j]))
  {
    var scoped := Filter(values, keep);
    var o := FilterOrigin(values, keep, m);
    FilterOriginPrefix(values, keep, m);
    forall j | 0 <= j < o && keep(values[j]) ensures StrLess(SortKey(values[o]), SortKey(values[j])) {
      assert values[j] == values[..o][j];
      assert values[j] in Filter(values[..o], keep);
      var j' :| 0 <= j' < m && scoped[j'] == values[j];
    }
  }

  /**
   * A sprint with no start date is keyed by its creation date: one created
   * before another sprint starts is chosen ahead of it, whatever the order
   * Jira listed them in.
   */
  lemma NextSprintFallsBackToCreated(boardId: int, started: string, created: string)
    requires started != "" && created != "" && StrLess(created, started)
    ensures NextSprint([Sprint(1, Some(boardId), Some(started), None), Sprint(2, Some(boardId), None, Some(created))], boardId)
         == Some(Sprint(2, Some(boardId), None, Some(created)))
  {
    var a := Sprint(1, Some(boardId), Some(started), None);
    var b := Sprint(2, Some(boardId), None, Some(created));
    assert b in [a, b];
  }

  /** When every sprint has the same key and the first is the board's own, the first is chosen, as a stable sort keeps it first. */
  lemma NextSprintEqualKeysFirst(values: seq<Sprint>, boardId: int)
    requires values != [] && values[0].originBoardId == Some(boardId)
    requires forall s :: s in values ==> SortKey(s) == SortKey(values[0])
    ensures NextSprint(values, boardId) == Some(values[0])
  {
    var r := NextSprint(values, boardId).value;
    assert values[0] in values;
    var i :| 0 <= i < |values| && values[i] == r &&
             (forall j :: 0 <= j < i && (values[j].originBoardId == Some(boardId) || r.originBoardId != Some(boardId))
                          ==> StrLess(SortKey(r), SortKey(values[j])));
    StrLessIrreflexive(SortKey(values[0]));
    assert i == 0;
  }

  /** Two sprints with the same key: the one Jira listed first is chosen. */
  lemma NextSprintTieGoesToFirst(boardId: int, d: string)
    requires d != ""
    ensures NextSprint([Sprint(1, Some(boardId), Some(d), None), Sprint(2, Some(boardId), None, Some(d))], boardId)
         == Some(Sprint(1, Some(boardId), Some(d), None))
  {
    NextSprintEqualKeysFirst([Sprint(1, Some(boardId), Some(d), None), Sprint(2, Some(boardId), None, Some(d))], boardId);
  }

  /** A sprint with neither date sorts after any sprint dated in a year before 9000, even when listed first. */
  lemma NextSprintUndatedLast(boardId: int, started: string)
    requires started != "" && started[0] < '9'
    ensures NextSprint([Sprint(3, Some(boardId), None, None), Sprint(1, Some(boardId), Some(started), None)], boardId)
         == Some(Sprint(1, Some(boardId), Some(started), None))
  {
    var a := Sprint(1, Some(boardId), Some(started), None);
    StrLessAt(started, FarFuture, 0);
    assert a in [Sprint(3, Some(boardId), None, None), a];
  }

  // ----- Epics ---------------------------------------------------------------------------

  /** `_is_epic`: the type, stripped and lower-cased, is "epic" (a missing type is ""). */
  predicate IsEpic(issueType: string): (r: bool)
    ensures r <==> IEquals(Strip(issueType), "Epic")
    ensures r ==> |Strip(issueType)| == 4
  {
    assert Lower("Epic") == "epic" by {
      assert |Lower("Epic")| == 4;
    }
    Lower(Strip(issueType)) == "epic"
  }

  /**
   * `_is_epic` ignores whitespace around the type, and a missing type
   * (`None or ""`) is not an Epic.
   */
  lemma IsEpicIgnoresPadding(t: string, lead: string, trail: string)
    requires AllSpace(lead) && AllSpace(trail)
    ensures IsEpic(lead + t + trail) == IsEpic(t)
    ensures !IsEpic("")
  {
    StripIgnoresPadding(lead, t, trail);
    assert |Lower("")| == 0;
  }

  /**
   * Every type the snapshot filter treats as Epic (case-insensitive, not
   * stripped) is an Epic for `_is_epic` too, but not conversely: " Epic" is
   * skipped on import yet would not be hidden from a snapshot.
   */
  lemma EpicChecksDiffer(t: string)
    ensures IEquals(t, "Epic") ==> IsEpic(t)
    ensures IsEpic(" Epic") && !IEquals(" Epic", "Epic")
  {
    assert Lower("Epic") == "epic" by {
      assert |Lower("Epic")| == 4;
    }
    if IEquals(t, "Epic") {
      assert |t| == 4;
      assert LowerChar(t[0]) == 'e' && LowerChar(t[3]) == 'c';
      assert TrimStart(t) == t;
      assert TrimEnd(t) == t;
    }
    assert TrimStart(" Epic") == "Epic" by {
      assert " Epic"[1..] == "Epic";
    }
    assert TrimEnd("Epic") == "Epic";
    assert |Lower(" Epic")| == 5;
  }

  // ----- the import loop ----------------------------------------------------------------------

  /** One issue as `_jira_issues_in_sprint_for_project` returns it. */
  datatype Issue = Issue(key: string, summary: string, browseUrl: string, issueType: string)

  const TitleSeparator := " \U{2014} "

  /** `f"{key} — {summary}"[:200]`. */
  function ImportTitle(i: Issue): (t: string)
    ensures |t| <= TitleMax
    ensures StartsWith(i.key + TitleSeparator + i.summary, t)
  {
    Truncate(i.key + TitleSeparator + i.summary, TitleMax)
  }

  /** `f"Issue: {key}\n{browse_url}"`, the back-reference the snapshot filter reads. */
  function ImportNotes(i: Issue): string {
    "Issue: " + i.key + "\n" + i.browseUrl
  }

  /** The titles of the room's stories: `set(room.stories.values_list("title", flat=True))`. */
  function RoomTitles(stories: seq<Story>, roomId: nat): set<string> {
    set s | s in stories && s.room == roomId :: s.title
  }

  /** The issues the loop creates stories for: those whose title was not in the room before the import. */
  function Planned(issues: seq<Issue>, existing: set<string>): seq<Issue> {
    Filter(issues, (i: Issue) => ImportTitle(i) !in existing)
  }

  /** The stories created for `plan`, in order, with consecutive ids from `firstId`. */
  function ImportedStories(plan: seq<Issue>, firstId: nat, roomId: nat): (r: seq<Story>)
    ensures |r| == |plan|
    ensures forall k :: 0 <= k < |plan| ==>
              r[k] == NewStory(firstId + k, roomId, ImportTitle(plan[k]), ImportNotes(plan[k]), plan[k].issueType)
  {
    seq(|plan|, k requires 0 <= k < |plan| =>
      NewStory(firstId + k, roomId, ImportTitle(plan[k]), ImportNotes(plan[k]), plan[k].issueType))
  }

  lemma ImportedStoriesSnoc(plan: seq<Issue>, i: Issue, firstId: nat, roomId: nat)
    ensures ImportedStories(plan + [i], firstId, roomId)
         == ImportedStories(plan, firstId, roomId) + [NewStory(firstId + |plan|, roomId, ImportTitle(i), ImportNotes(i), i.issueType)]
  {
  }

  /**
   * No imported story carries a title the room had before the import began,
   * every imported title fits the column, and every imported story starts
   * unrevealed with no consensus.
   */
  lemma ImportedTitlesAreNew(issues: seq<Issue>, stories: seq<Story>, firstId: nat, roomId: nat)
    ensures forall s :: s in ImportedStories(Planned(issues, RoomTitles(stories, roomId)), firstId, roomId) ==>
              s.title !in RoomTitles(stories, roomId) && |s.title| <= TitleMax && !s.revealed && s.consensusValue == ""
  {
    var plan := Planned(issues, RoomTitles(stories, roomId));
    var r := ImportedStories(plan, firstId, roomId);
    forall s | s in r ensures s.title !in RoomTitles(stories, roomId) {
      var k :| 0 <= k < |r| && r[k] == s;
      assert plan[k] in plan;
    }
  }

  /**
   * Titles are checked against the room as it was before the loop, so two
   * issues of one sprint that truncate to the same title both become stories.
   */
  lemma SameBatchTitlesNotDeduplicated(i: Issue, existing: set<string>)
    requires ImportTitle(i) !in existing
    ensures Planned([i, i], existing) == [i, i]
  {
    assert [i, i][1..] == [i];
  }

  /**
   * A story imported from an issue of the room's own project that
   * `_is_epic` let through is shown in the room's snapshot.
   */
  lemma OwnProjectImportVisible(room: Room, i: Issue, id: nat)
    requires room.jiraProjectKey != "" && StartsWith(i.key, room.jiraProjectKey + "-")
    requires !IsEpic(i.issueType)
    ensures !ExcludedFromSnapshot(room, NewStory(id, room.id, ImportTitle(i), ImportNotes(i), i.issueType))
  {
    EpicChecksDiffer(i.issueType);
    var pk := room.jiraProjectKey + "-";
    var notes := ImportNotes(i);
    var rest := i.key[|pk|..] + "\n" + i.browseUrl;
    assert i.key == pk + i.key[|pk|..];
    assert notes == ("Issue: " + pk) + rest;
    StartsWithConcat("Issue: " + pk, rest);
    assert "Issue: " + room.jiraProjectKey + "-" == "Issue: " + pk;
  }

  /**
   * In a room linked to a project whose key has no line break, a story
   * imported from an issue whose type is not Epic (compared ignoring case) is
   * hidden from the snapshot exactly when the issue key is not of the form
   * "{project key}-…".
   */
  lemma ImportHiddenIff(room: Room, i: Issue, id: nat)
    requires room.jiraProjectKey != "" && '\n' !in room.jiraProjectKey
    requires !IEquals(i.issueType, "Epic")
    ensures ExcludedFromSnapshot(room, NewStory(id, room.id, ImportTitle(i), ImportNotes(i), i.issueType))
        <==> !StartsWith(i.key, room.jiraProjectKey + "-")
  {
    var rest := i.key + "\n" + i.browseUrl;
    assert ImportNotes(i) == "Issue: " + rest;
    assert "Issue: " + room.jiraProjectKey + "-" == "Issue: " + (room.jiraProjectKey + "-");
    StartsWithConcat("Issue: ", rest);
    StartsWithCommonPrefix("Issue: ", rest, room.jiraProjectKey + "-");
    NotesNameProjectIff(i.key, i.browseUrl, room.jiraProjectKey);
  }

  /** "{issue}\n{url}" starts with "{key}-" exactly when the issue key does, for a key without a line break. */
  lemma NotesNameProjectIff(issueKey: string, url: string, projectKey: string)
    requires '\n' !in projectKey
    ensures StartsWith(issueKey + "\n" + url, projectKey + "-") <==> StartsWith(issueKey, projectKey + "-")
  {
    var pk := projectKey + "-";
    if StartsWith(issueKey + "\n" + url, pk) {
      KeyPrefixBeforeNewline(issueKey, url, projectKey);
    }
    if StartsWith(issueKey, pk) {
      assert (issueKey + "\n" + url)[..|pk|] == issueKey[..|pk|];
    }
  }

  /** A prefix of "{issue}\n…" that reaches past the issue key has the line break at that position. */
  lemma PrefixPastKey(issueKey: string, url: string, p: string)
    requires StartsWith(issueKey + "\n" + url, p)
    ensures |issueKey| >= |p| || p[|issueKey|] == '\n'
  {
    if |issueKey| < |p| {
      assert (issueKey + "\n" + url)[|issueKey|] == '\n';
    }
  }

  /** A prefix "{key}-" of "{issue}\n…" lies within the issue key when the project key has no line break. */
  lemma KeyPrefixBeforeNewline(issueKey: string, url: string, projectKey: string)
    requires '\n' !in projectKey
    requires StartsWith(issueKey + "\n" + url, projectKey + "-")
    ensures StartsWith(issueKey, projectKey + "-")
  {
    var pk := projectKey + "-";
    var rest := issueKey + "\n" + url;
    PrefixPastKey(issueKey, url, pk);
    assert forall c :: 0 <= c < |pk| ==> pk[c] != '\n' by {
      forall c | 0 <= c < |pk| ensures pk[c] != '\n' {
        if c < |projectKey| {
          assert pk[c] == projectKey[c];
        }
      }
    }
    assert forall k :: 0 <= k < |pk| ==> issueKey[k] == rest[k];
  }

  /** Extending the scanned prefix by one issue extends the plan by that issue exactly when its title is new. */
  lemma PlannedStep(issues: seq<Issue>, i: nat, existing: set<string>)
    requires i < |issues|
    ensures Planned(issues[..i + 1], existing)
         == Planned(issues[..i], existing) + (if ImportTitle(issues[i]) !in existing then [issues[i]] else [])
  {
    assert issues[..i + 1] == issues[..i] + [issues[i]];
    FilterAppend(issues[..i], [issues[i]], (x: Issue) => ImportTitle(x) !in existing);
    assert [issues[i]][1..] == [];
  }

  /** The loop of `jira_import_next_sprint`: create a story for each issue whose title is not in `existing`. */
  method ImportIssues(store: Store, roomId: nat, issues: seq<Issue>, existing: set<string>) returns (created: nat)
    requires store.Valid() && roomId in store.rooms
    modifies store
    ensures store.Valid()
    ensures created == |Planned(issues, existing)|
    ensures store.stories == old(store.stories) + ImportedStories(Planned(issues, existing), old(store.nextId), roomId)
    ensures store.nextId == old(store.nextId) + created
    ensures store.rooms == old(store.rooms) && store.participants == old(store.participants) && store.votes == old(store.votes)
  {
    created := 0;
    var i := 0;
    ghost var plan: seq<Issue> := [];
    while i < |issues|
      invariant 0 <= i <= |issues|
      invariant store.Valid() && roomId in store.rooms
      invariant plan == Planned(issues[..i], existing) && created == |plan|
      invariant store.stories == old(store.stories) + ImportedStories(plan, old(store.nextId), roomId)
      invariant store.nextId == old(store.nextId) + created
      invariant store.rooms == old(store.rooms) && store.participants == old(store.participants) && store.votes == old(store.votes)
    {
      var issue := issues[i];
      var title := ImportTitle(issue);
      PlannedStep(issues, i, existing);
      if title !in existing {
        ImportedStoriesSnoc(plan, issue, old(store.nextId), roomId);
        ghost var before := store.stories;
        var s := store.AddStory(roomId, title, ImportNotes(issue), issue.issueType);
        assert store.stories == before + [s];
        plan := plan + [issue];
        created := created + 1;
      }
      i := i + 1;
    }
    assert issues[..i] == issues;
  }

  datatype ImportOutcome =
    | ImportNotAllowed
    | ImportNotFound
    | ImportForbidden
    | SettingsMissing
    | NoBoard
    | NoSprint
    | Imported(created: nat)
    | NothingNew

  /** The four settings an import needs are all filled in. */
  predicate JiraConfigured(r: Room) {
    r.jiraBaseUrl != "" && r.jiraEmail != "" && r.jiraToken != "" && r.jiraProjectKey != ""
  }

  /**
   * `jira_import_next_sprint` (POST only). `boards` is the board listing
   * `_jira_get_board_id` would page through, `sprints` the future sprints of
   * the board it settles on, and `issues` what the issue listing returned
   * for the chosen sprint. A board found on Jira is saved on the room before
   * anything else can fail.
   */
  method ImportNextSprint(store: Store, cache: Cache, session: Session, code: string, isPost: bool,
                          boards: seq<Board>, sprints: seq<Sprint>, issues: seq<Issue>)
    returns (outcome: ImportOutcome)
    requires store.Valid() && cache.Valid() && session.Valid()
    modifies store, cache
    ensures store.Valid() && cache.Valid()
    ensures var room := RoomByCode(old(store.rooms), code);
      var actor := if room.Some? then CurrentParticipant(session.data, old(store.participants), room.value) else None;
      var board := if room.Some? then BoardLookup(room.value, boards) else None;
      && (outcome == ImportNotAllowed <==> !isPost)
      && (outcome == ImportNotFound <==> isPost && room.None?)
      && (outcome == ImportForbidden <==> isPost && room.Some? && !FacilitatorRequired(actor))
      && (outcome == SettingsMissing <==> isPost && room.Some? && FacilitatorRequired(actor) && !JiraConfigured(room.value))
      && (outcome == NoBoard <==>
            isPost && room.Some? && FacilitatorRequired(actor) && JiraConfigured(room.value) && (board.None? || board.value == 0))
      && (outcome == NoSprint <==>
            isPost && room.Some? && FacilitatorRequired(actor) && JiraConfigured(room.value) && board.Some? && board.value != 0
            && sprints == [])
      && (outcome.Imported? || outcome == NothingNew ==>
            var plan := Planned(issues, RoomTitles(old(store.stories), room.value.id));
            && store.stories == old(store.stories) + ImportedStories(plan, old(store.nextId), room.value.id)
            && store.nextId == old(store.nextId) + |plan|
            && (outcome == NothingNew <==> plan == [])
            && (outcome.Imported? ==> outcome.created == |plan| && cache.entries == Bumped(old(cache.entries), room.value.id))
            && (outcome == NothingNew ==> cache.entries == old(cache.entries)))
      && (outcome == NoBoard || outcome == NoSprint ==>
            store.stories == old(store.stories) && store.nextId == old(store.nextId) && cache.entries == old(cache.entries))
      && (outcome in {NoBoard, NoSprint, NothingNew} || outcome.Imported? ==>
            store.rooms == RoomsAfterLookup(old(store.rooms), room.value.id, boards))
      && (outcome in {ImportNotAllowed, ImportNotFound, ImportForbidden, SettingsMissing} ==>
            unchanged(store) && cache.entries == old(cache.entries))
    ensures store.participants == old(store.participants) && store.votes == old(store.votes)
  {
    if !isPost {
      return ImportNotAllowed;
    }
    var room := RoomByCode(store.rooms, code);
    if room.None? {
      return ImportNotFound;
    }
    var r := room.value;
    var actor := CurrentParticipant(session.data, store.participants, r);
    if !FacilitatorRequired(actor) {
      return ImportForbidden;
    }
    if !JiraConfigured(r) {
      return SettingsMissing;
    }
    var boardId := GetBoardId(store, r.id, boards);
    if boardId.None? || boardId.value == 0 {
      return NoBoard;
    }
    var sprint := NextSprint(sprints, boardId.value);
    if sprint.None? {
      return NoSprint;
    }
    var created := ImportIssues(store, r.id, issues, RoomTitles(store.stories, r.id));
    if created > 0 {
      InvalidateRoomCache(cache, r.id);
      return Imported(created);
    }
    return NothingNew;
  }
}
