# Planning poker: the cache, login and voting core in Dafny

This project models the core logic of a Django planning-poker app. Facilitators
open rooms, participants join them and vote with cards on stories, and a room
can import the next Jira sprint as stories. Access to the app goes through an
organisation login, which mails a one-time code.

The model works over three explicit stores:

- **The key-value cache.** `KeyValueCache.Cache` holds a map from key strings
  to values and has Django-cache `get`/`set`/`incr`/`delete`.
- **The session.** `Sessions.Session` holds the session dictionary.
- **The database.** `EntityStore.Store` holds the rooms, participants, stories
  and votes, together with the table invariant: unique ids, unique room codes,
  one vote per (story, participant) pair, and references that point at
  existing rows.

Each view or helper that changes one of these stores is a method. Each method
is proved against a pure function of the old state, and the properties are
lemmas about those functions. The modules are:

- **`RoomCache`** (poker/cache_utils.py):
  - the per-room version counter, which is lazily seeded to 1 and bumped with
    `incr`, falling back to 2;
  - the snapshot cache, keyed by room and version, with its story filter and
    card-deck fallback;
  - the fragment key and the room-list key.
- **`RateCounter`**: the get/set/incr counter shared by the OTP limiter and
  the error-mail limiter.
- **`Sessions`** and **`OrgLogin`** (poker/views.py:45-98, 424-514):
  - the pending one-time code, with expiry checked when it is read;
  - the per-email limit of three codes per window;
  - the whole `org_login` transition as one function `Login` over the session
    and the cache;
  - `org_logout`.
- **`RoomViews`** (poker/views.py:117-400, 519-546):
  - the current-participant lookup;
  - the facilitator gate;
  - the vote and story actions, join, leave, room deletion and story creation;
  - the room context flags;
  - the polled fragment views.
- **`JiraImport`** (poker/views.py:551-621, 721-769):
  - the board lookup, which uses a stored board id or else picks a board from
    Jira's listing and saves it on the room;
  - choosing the next sprint from the list Jira returned;
  - `_is_epic`;
  - the import loop that skips titles the room already had.
- **`ErrorEmails`** (poker/logging_handlers.py): the rate-limited admin error
  mail.
- **`OrgAccessGate`** (poker/middleware.py): the pass-or-redirect decision of
  the organisation access middleware. URL resolution is an input.

The model makes three behaviours of the code visible:

- **A stale snapshot after eviction** (`RoomCache.EvictedVersionServesStale`).
  The version counter is set without a timeout, so it can still be evicted.
  When that happens, it restarts at 1, and a snapshot still cached for version
  1 is served although the room has changed since then.
- **Duplicate titles in one import** (`JiraImport.SameBatchTitlesNotDeduplicated`).
  The import checks titles only against those the room had before the import
  began. Two issues of one batch with the same title are both created.
- **Two different Epic checks** (`JiraImport.EpicChecksDiffer`).
  - The snapshot filter compares the issue type with "Epic" ignoring case but
    not whitespace.
  - `_is_epic` also strips whitespace.
  - So " Epic" is skipped on import, but a stored story of that type is not
    hidden from the snapshot.

## Model

| member | source | states |
|---|---|---|
| Models.CardsFor | poker/cache_utils.py:53 | a known card-set name gives its own deck; any other name gives the fibonacci deck |
| Models.CardSetsShape | poker/models.py:4-7 | there are exactly the fibonacci deck (11 labels) and the tshirt deck (6 labels), both starting with "?"; every card-set lookup yields one of them |
| Models.NewStory | poker/models.py:38-45 | a newly created story is not revealed and has a blank consensus, and carries the given room, title, notes and issue type |
| Models.AssignCode | poker/models.py:22-25 | an existing code is kept; an empty code becomes 6 upper-case letters or digits; a saved room's code is never empty |
| Models.ResaveKeepsCode | poker/models.py:22-25 | saving a room again never changes its code, whatever the random string |
| Models.AssignedCodeFits | poker/models.py:10-24 | a freshly assigned code fits the 8-character code column |
| EntityStore.ReplaceStoryFacts | poker/views.py:310-311 | saving a story keeps every row's id and the set of story ids, and puts only the saved story into the table |
| EntityStore.UpsertContents | poker/models.py:53-54 | an upsert keeps one vote per (story, participant) pair: the new vote is present, every vote for another pair is kept, and nothing else is |
| EntityStore.UpsertReadsBack | poker/views.py:293 | after an upsert, the pair's vote reads back as the value just submitted |
| EntityStore.RoomByCode | poker/models.py:10 | `get_object_or_404` by the unique code gives the room with that code; it is absent exactly when no room has the code |
| EntityStore.DeleteRoomKeepsTables | poker/models.py:32-50 | the cascade of a room deletion (participants, stories, then their votes) keeps the table invariant |
| EntityStore.Store.SaveRoom | poker/models.py:22-25 | a new room gets a fresh id; the code is assigned as by `AssignCode`; a code another room already uses is refused with nothing changed; other tables are untouched |
| EntityStore.Store.AddParticipant | poker/views.py:239-243 | appends the participant with a fresh id; nothing else changes |
| EntityStore.Store.AddStory | poker/views.py:750-755 | appends a new story (not revealed, no consensus) with a fresh id; nothing else changes |
| EntityStore.Store.UpsertVote | poker/views.py:293 | `update_or_create`: the vote table becomes the upsert of the vote and keeps the invariant |
| EntityStore.Store.UpdateStory | poker/views.py:310-311 | the row with the story's id is replaced by the story; nothing else changes |
| EntityStore.Store.DeleteVotesOf | poker/views.py:331 | exactly the votes of that story are deleted |
| EntityStore.Store.DeleteStory | poker/models.py:48-50 | the story and, by cascade, exactly its votes are deleted |
| EntityStore.Store.DeleteParticipant | poker/models.py:48-50 | the participant and, by cascade, exactly its votes are deleted |
| EntityStore.Store.DeleteRoom | poker/models.py:32-50 | the room goes, and so do its participants, its stories and every vote that no longer points at both a story and a participant |
| KeyValueCache.Cache.Get | poker/cache_utils.py:19 | `cache.get`: the stored value when the key is present, otherwise nothing |
| KeyValueCache.Cache.Set | poker/cache_utils.py:22 | `cache.set` stores the value under the key and changes no other key |
| KeyValueCache.Cache.Incr | poker/cache_utils.py:29-30 | `cache.incr` adds one to a present counter and returns the new value; on a missing key it fails (`ValueError`) and changes nothing |
| KeyValueCache.Cache.Delete | poker/cache_utils.py:68 | `cache.delete` removes exactly that key |
| RateCounter.Hit | poker/views.py:73-82 | a missing counter is set to 1 and the call passes; a counter at or above the limit is limited and left unchanged; otherwise it is incremented and the call passes |
| RateCounter.PassedFromCount | poker/views.py:75-82 | from a counter at c ≥ 1, exactly min(calls, max(limit − c, 0)) more calls pass |
| RateCounter.WindowAllowsLimit | poker/views.py:75-82 | from a missing counter, exactly min(calls, limit) of a run of calls pass in one window |
| RateCounter.HitKeepsTyped | poker/views.py:74-82 | a hit on a counter key leaves every cache entry of the kind its key's namespace holds |
| RateCounter.HitTouchesOnlyItsKey | poker/views.py:74-82 | a hit on one key leaves every other key's presence and value unchanged |
| RoomCache.VersionKey | poker/cache_utils.py:12 | the version key is a counter key, outside the snapshot and fragment key namespaces |
| RoomCache.SnapshotKey | poker/cache_utils.py:13 | the snapshot key lies in the snapshot namespace and is neither a counter nor a fragment key |
| RoomCache.FragmentKey | poker/cache_utils.py:63-64 | the fragment key lies in the fragment namespace and is neither a counter nor a snapshot key |
| RoomCache.RoomListKeyKind | poker/cache_utils.py:14 | the room-list key is none of the counter, snapshot or fragment keys |
| RoomCache.VersionKeyInjective | poker/cache_utils.py:12 | different rooms have different version keys |
| RoomCache.SnapshotKeyInjective | poker/cache_utils.py:13 | the snapshot key determines both the room and the version |
| RoomCache.ViewerTextInjective | poker/views.py:524 | different participant ids, and "anon", give different key parts |
| RoomCache.FragmentKeyInjective | poker/cache_utils.py:63-64 | for a fixed room and fragment, different versions or different viewers give different keys |
| RoomCache.EnsureRoomVersion | poker/cache_utils.py:17-23 | returns the room's current version and stores 1 when there was none |
| RoomCache.BumpRoomVersion | poker/cache_utils.py:26-32 | stores and returns v+1 for a stored v, and 2 when the counter was missing |
| RoomCache.InvalidateRoomCache | poker/cache_utils.py:59-60 | only the version is bumped; no snapshot entry is deleted |
| RoomCache.InvalidateRoomList | poker/cache_utils.py:67-68 | only the room-list key is deleted |
| RoomCache.EnsureRoomVersionFacts | poker/cache_utils.py:17-23 | seeding does not change the reported version, is idempotent, leaves a cache that has a counter untouched, and changes no other key |
| RoomCache.BumpRaisesVersion | poker/cache_utils.py:26-32 | the bumped version is strictly greater than the current one (1 when absent) and becomes the current one; no key is deleted and no other key changes |
| RoomCache.ExcludedFromSnapshot | poker/cache_utils.py:40-48 | an Epic (type equal to "Epic" ignoring case) is always left out; in a room without a Jira project key, or for notes not starting "Issue: ", a story is left out exactly when it is an Epic |
| RoomCache.ComputeSnapshot | poker/cache_utils.py:39-54 | the rebuilt snapshot keeps exactly the room's stories that the filter does not exclude, the room's participants, and the votes on kept stories; the deck is the card-set lookup |
| RoomCache.GetRoomSnapshot | poker/cache_utils.py:35-56 | returns the data, the version and the new cache exactly as `SnapshotRead` describes: a hit returns the cached data, a miss stores the rebuilt snapshot under the current version's key |
| RoomCache.SnapshotReadFacts | poker/cache_utils.py:35-56 | the returned version is the current version; a hit returns the cached data with the cache only seeded; a miss returns the rebuilt data; either way the data ends up under that version's key |
| RoomCache.ReadTwiceSame | poker/cache_utils.py:37-56 | with no bump and no eviction between them, a second read returns the same data and version and changes nothing |
| RoomCache.BumpForcesRecompute | poker/cache_utils.py:36-39 | when no snapshot is stored for a future version, the first read after a bump rebuilds the snapshot under the new version |
| RoomCache.BumpKeepsNoFutureSnapshots | poker/cache_utils.py:26-32 | bumping any room keeps the fact that no snapshot is stored above a room's current version |
| RoomCache.ReadKeepsNoFutureSnapshots | poker/cache_utils.py:35-56 | a snapshot read of any room keeps that fact |
| RoomCache.EvictionKeepsNoFutureSnapshots | poker/cache_utils.py:55 | evicting any key other than the room's version counter keeps that fact |
| RoomCache.SetKeepsNoFutureSnapshots | poker/cache_utils.py:35-56 | storing a fitting value under a key that is neither a snapshot key nor the room's own counter keeps that fact |
| RoomCache.FragmentSetKeepsNoFutureSnapshots | poker/views.py:525-545 | caching a rendered fragment of any room keeps that fact |
| RoomCache.RateHitKeepsNoFutureSnapshots | poker/views.py:73-82 | a hit on a rate counter outside the version namespace (the OTP or error-mail limiter) keeps that fact |
| RoomCache.EvictedVersionServesStale | poker/cache_utils.py:17-23 | if the version counter alone is evicted after a bump, the read restarts at version 1 and serves the stale version-1 snapshot |
| Sessions.ParticipantKey | poker/views.py:118 | "p_{code}" is a participant key, distinct from the pending-token and org-email keys |
| Sessions.NamedKeysAreNotParticipantKeys | poker/views.py:508-512 | the org-email and pending-token keys do not start with "p_" |
| Sessions.PendingExpiry | poker/views.py:85-93 | reading the pending token gives nothing, and removes exactly that record, exactly when now > expires_at; otherwise it gives the record unchanged and leaves the session as it was |
| Sessions.SetThenRead | poker/views.py:68-93 | a record just set reads back as (email, token, now + TTL) until it expires, then as nothing |
| Sessions.LoggedOutFacts | poker/views.py:507-512 | after logout the session is not signed in, has no pending token and no participant key, and keeps every other key |
| Sessions.Session.Get | poker/views.py:86 | `session.get`: the stored value when present |
| Sessions.Session.Set | poker/views.py:70 | stores the value under the key and changes no other key |
| Sessions.Session.Pop | poker/views.py:91 | `session.pop(key, None)` removes exactly that key |
| Sessions.Session.SetPendingToken | poker/views.py:68-70 | replaces any pending record with (email, token, now + TTL) |
| Sessions.Session.GetPendingToken | poker/views.py:85-93 | returns the pending record and the new session as `PendingAfterRead` describes |
| Sessions.Session.ClearPendingToken | poker/views.py:96-97 | removes exactly the pending-token key |
| Sessions.Session.Logout | poker/views.py:507-512 | the loop removes every "p_" key, then the org email and the pending token: the session becomes `LoggedOut` of the old one |
| OrgLogin.GenerateAccessToken | poker/views.py:64-65 | the code has exactly 6 decimal digits, zero-padded, and denotes the random number drawn |
| OrgLogin.GenerateAccessTokenInjective | poker/views.py:64-65 | different random numbers give different codes |
| OrgLogin.OtpRateKey | poker/views.py:74 | the OTP counter key is a counter key |
| OrgLogin.OtpRateKeyIgnoresCase | poker/views.py:74 | emails that differ only in letter case share one counter |
| OrgLogin.OtpRateLimited | poker/views.py:73-82 | is the shared counter hit with the limit 3 on the lower-cased email's key |
| OrgLogin.FourthRequestLimited | poker/views.py:73-82 | from a fresh window the counter reads 1 after the first request and 3 after the third; the first three pass and the fourth is limited |
| OrgLogin.Login | poker/views.py:424-503 | the session and the cache stay well typed; the outcome is AlreadySignedIn exactly when the old session is signed in; the session ends signed in only after AlreadySignedIn or Granted; the cache changes only on the outcomes that hit the OTP counter |
| OrgLogin.OrgLogin | poker/views.py:424-503 | the session and cache after the view are exactly those of `Login` on the old ones |
| OrgLogin.GrantedIff | poker/views.py:454-464 | access is granted exactly when the session is not signed in, the request is a verified POST and not a resend, a valid form is given, a pending token survives the read, and both the email and the token match it |
| OrgLogin.GrantConsumesToken | poker/views.py:460-464 | on a grant the pending token is cleared and org_email is set to the pending email, so every later login request finds the session already signed in |
| OrgLogin.PendingExpiryOrAbsent | poker/views.py:85-93 | reading the pending token only ever removes keys |
| OrgLogin.MismatchKeepsToken | poker/views.py:455-459 | a wrong email or a wrong token leaves the session (pending token included) and the cache as they were, and does not sign in |
| OrgLogin.CodeStoredOnlyIfSent | poker/views.py:439-491 | when the mail fails and DEBUG is off, no new pending code is stored, on a first request or on a resend |
| OrgLogin.StoredCodeShape | poker/views.py:439-491 | a code is stored only after a successful send or under DEBUG, as a 6-digit code for the pending email (resend) or the form's email (first request) |
| OrgLogin.ResendLimitedKeepsToken | poker/views.py:439-442 | a rate-limited resend leaves the pending token in place and the counter unchanged |
| OrgLogin.ExpiredTokenNeverGrants | poker/views.py:85-93 | a pending token past its expiry never grants access |
| OrgLogin.OrgLogout | poker/views.py:506-514 | a request other than POST gets 405 and leaves the session alone; a POST signs out: the session becomes `LoggedOut` of the old one |
| OrgLogin.LogoutRevokesAccess | poker/views.py:507-512 | after logout no login request is granted right away or treated as signed in |
| RoomViews.CurrentParticipant | poker/views.py:117-124 | the participant is found exactly when the session holds a non-zero id under "p_{code}" and a participant of this room has that id |
| RoomViews.FacilitatorRequired | poker/views.py:127-128 | true exactly for a present participant who is a facilitator |
| RoomViews.StoryActionGate | poker/views.py:302-308 | the story actions proceed exactly for an existing story, a POST and a facilitator; a POST by anyone else is Forbidden; the only other outcomes are 404 and 400 |
| RoomViews.JoinedIsCurrent | poker/views.py:239-244 | the participant just created and stored in the session is the room's current participant |
| RoomViews.CastVote | poker/views.py:280-299 | 404 for a missing story, then a redirect to join for a non-member, then 400 for a non-POST or a missing value; otherwise the vote is upserted and the room version bumped; every failure changes nothing |
| RoomViews.RevealVotes | poker/views.py:302-317 | past the gate, the story becomes revealed and the version is bumped; when the gate stops the request (404, 400, 403), store and cache are unchanged |
| RoomViews.RevoteStory | poker/views.py:320-337 | past the gate, the story is hidden again with a blank consensus, all its votes are deleted and the version is bumped; otherwise nothing changes |
| RoomViews.SetConsensus | poker/views.py:340-355 | past the gate, the consensus becomes the posted value ("" when missing) and the version is bumped; otherwise nothing changes |
| RoomViews.DeleteStory | poker/views.py:358-375 | past the gate, the story and its votes are deleted and the version is bumped; otherwise nothing changes |
| RoomViews.JoinRoom | poker/views.py:234-249 | for an existing room and a valid POST, a participant is created, recorded in the session as the current participant, and the version is bumped; a GET or an invalid form changes nothing |
| RoomViews.LeaveRoom | poker/views.py:391-400 | POST only; the session forgets the room's participant; if there was one, it is deleted with its votes and the version is bumped |
| RoomViews.DeleteRoom | poker/views.py:378-388 | 404, then 400 for a non-POST, then 403 unless facilitator or staff; otherwise the room and its rows cascade away and only the room-list key is dropped from the cache |
| RoomViews.StoryCreate | poker/views.py:259-277 | a non-member is sent to join; a member's valid POST appends a new story without an issue type and bumps the version; nothing else writes |
| RoomViews.RoomContext | poker/views.py:131-168 | the flags: facilitator exactly for a facilitator participant, manage for a facilitator or staff, staff-delete for staff who are not the facilitator; each story's highlight is the participant's own vote, or "" |
| RoomViews.RoomPartial | poker/views.py:519-546 | GET only; reads the snapshot, then serves the fragment cached for (room, fragment, version, viewer), or renders the context, stores it under that key and serves it |
| RoomViews.FragmentKeysSeparateVersions | poker/views.py:523-526 | after a bump, no fragment key of the new version equals a key of the old version, for any viewers |
| JiraImport.FirstMinimal | poker/views.py:612-617 | the stable sort's first element: no candidate has a smaller key, and every earlier candidate has a strictly larger one |
| JiraImport.NextSprint | poker/views.py:596-617 | nothing exactly for an empty list; otherwise a listed sprint, one of the board's own when any exist, with the least `startDate or createdDate or "9999-12-31"` among the candidates, and listed at a position before which every candidate has a strictly larger key (the stable sort keeps ties in Jira's order) |
| JiraImport.NextSprintEqualKeysFirst | poker/views.py:609-617 | when every sprint has the same key and the first listed is the board's own, the first listed is chosen |
| JiraImport.NextSprintTieGoesToFirst | poker/views.py:612-617 | of two board sprints with the same key, the one listed first is chosen |
| Seqs.FilterOriginPrefix | poker/views.py:609-610 | filtering the list up to where the k-th kept sprint came from gives exactly the first k kept sprints: the comprehension keeps Jira's order |
| JiraImport.SortKeyChoice | poker/views.py:612-614 | the key is never empty: a non-empty start date, else a non-empty creation date, else "9999-12-31" |
| JiraImport.NextSprintFallsBackToCreated | poker/views.py:612-616 | a sprint without a start date is ordered by its creation date ahead of a sprint starting later |
| JiraImport.NextSprintUndatedLast | poker/views.py:612-616 | a sprint with neither date sorts after any sprint dated in a year before 9000, even when it is listed first |
| JiraImport.IsEpic | poker/views.py:620-621 | an Epic type is exactly one that equals "Epic" ignoring case once stripped, so four characters long after stripping |
| JiraImport.IsEpicIgnoresPadding | poker/views.py:620-621 | whitespace around the type does not change the answer, and a missing type is not an Epic |
| Strings.StripIgnoresPadding | poker/views.py:621 | `strip()` removes any whitespace padding on either side |
| JiraImport.EpicChecksDiffer | poker/views.py:620-621 | every type the snapshot filter treats as Epic is an Epic for `_is_epic`, but " Epic" is an Epic for `_is_epic` only |
| JiraImport.ImportTitle | poker/views.py:747 | the title is the start of "{key} — {summary}" and is at most 200 characters |
| JiraImport.ImportedStories | poker/views.py:750-755 | one new story per planned issue with consecutive ids, its title, notes "Issue: {key}\n{url}" and issue type, not revealed |
| JiraImport.ImportedTitlesAreNew | poker/views.py:745-749 | no imported story has a title the room had before the import |
| JiraImport.SameBatchTitlesNotDeduplicated | poker/views.py:745-749 | the same new issue listed twice is created twice |
| JiraImport.ImportHiddenIff | poker/cache_utils.py:40-48 | in a room linked to a project key without a line break, an imported story whose type is not Epic is hidden from the snapshot exactly when its issue key does not start with "{project key}-" |
| JiraImport.OwnProjectImportVisible | poker/views.py:750-754 | a non-Epic issue of the room's own project, once imported, is not hidden by the snapshot filter |
| JiraImport.ImportIssues | poker/views.py:744-756 | the loop counts and appends exactly the issues whose titles the room did not have, in order |
| JiraImport.ChooseBoard | poker/views.py:586-590 | nothing exactly for an empty listing; the first board located in the room's project when there is one, else the first board |
| JiraImport.BoardRemembered | poker/views.py:557-593 | a truthy stored board id is used as it is; without credentials or a project key there is no board; a board found on Jira and saved is returned by every later lookup without the listing |
| JiraImport.GetBoardId | poker/views.py:557-593 | returns the lookup's board and writes it to the room's `jira_board_id` exactly when it was found on Jira; nothing else in the store changes |
| EntityStore.Store.SaveBoardId | poker/views.py:591-592 | only the room's board id changes, and the table invariant is kept |
| JiraImport.ImportNextSprint | poker/views.py:721-769 | POST only: 404, 403 for a non-facilitator, then missing settings, no board (the stored or discovered board id is missing or 0), no sprint; otherwise the new stories are imported and the version is bumped exactly when at least one was created; from the board lookup on, a board found on Jira stays saved on the room whatever the outcome |
| ErrorEmails.ErrorRateKey | poker/logging_handlers.py:20 | the per-level key is a counter key |
| ErrorEmails.ErrorRateKeyInjective | poker/logging_handlers.py:20 | different levels have different counters |
| ErrorEmails.Emit | poker/logging_handlers.py:13-29 | without a positive limit the record is mailed with no counting; otherwise the counter is hit and the record mailed exactly when not limited |
| ErrorEmails.UnlimitedMailsAll | poker/logging_handlers.py:17-18 | with the limit unset or ≤ 0, every record is mailed and the cache is not touched |
| ErrorEmails.MailedIsPassed | poker/logging_handlers.py:20-29 | with a positive limit, the records mailed are exactly the calls the shared counter lets pass |
| ErrorEmails.AtMostLimitPerWindow | poker/logging_handlers.py:20-29 | in one window exactly min(records, limit) records of a level are mailed |
| ErrorEmails.LevelsCountedSeparately | poker/logging_handlers.py:20 | a record of one level leaves another level's counter as it was |
| OrgAccessGate.OrgAccessMiddleware.constructor | poker/middleware.py:14-21 | the exempt names are the configured ones plus org_login and org_logout; the prefixes are STATIC_URL and MEDIA_URL (the `getattr` fallbacks /static/ and /media/ when a setting is not defined), without the empty ones |
| OrgAccessGate.OrgAccessMiddleware.IsExemptPath | poker/middleware.py:37-51 | exempt exactly when a non-empty prefix starts the path, or the route is of the admin app, or its url name or namespaced name is exempt |
| OrgAccessGate.OrgAccessMiddleware.Call | poker/middleware.py:23-35 | passes exactly when the path is exempt, the session holds a non-empty org_email, or the path is the login URL; otherwise redirects with `next` set to the full path |
| OrgAccessGate.LoginRoutesAlwaysExempt | poker/middleware.py:47-51 | org_login and org_logout are exempt under any configuration, with or without a namespace |
| OrgAccessGate.DefaultPrefixesExempt | poker/middleware.py:17-19 | with the `getattr` fallbacks /static/ and /media/, every path under either is exempt |

## Left out

- Jira HTTP calls are not modelled: the paginated board listing, the sprint request and the paginated issue listings, with their exceptions (`HTTPError`, a board without an `id`) and messages. This is network I/O. `ImportNextSprint` takes the complete board listing, the sprints Jira lists for the board and the issues of the chosen sprint as inputs; the model does not tie the sprints to the board id or the issues to the chosen sprint's id.
- `jira_settings`, `room_list`, `room_create`, `room_detail` and `rename_room` are not modelled. They are form and template plumbing around operations that are modelled: `Store.SaveRoom`, `InvalidateRoomList` and `RoomContext`.
- The follow-up render of the HTMX branches (`_render_story` and the stories panel) is not modelled. It does one more snapshot read, as `GetRoomSnapshot` describes, and renders a template.
- Turnstile verification, mail delivery, `random.randint`, `get_random_string`, the clock, `request.user.is_staff` and the form validation are boolean or value inputs. The 6-digit and email-domain checks of the login form are not part of this model.
- Templates, `messages`, the `next` handling of `_next_or_home`/`_requested_next` (`url_has_allowed_host_and_scheme`), and the `urlencode`/`quote` of `next` are not modelled. A redirect is an outcome tag, and the middleware's redirect carries the raw full path.
- `resolve()` is an input to the middleware, and so is `reverse("poker:org_login")`.
- Time-to-live expiry is modelled as an explicit deletion of one key. Timestamps are integers rather than floats. Django's default timeout on the version counter is one reason that key can be evicted.
- Concurrency is not modelled: the get-then-set races of lazy seeding and of both rate limiters.
- Letter case and whitespace are handled for ASCII only. Python's `lower`, `upper`, `strip` and Django's `iexact` are Unicode-aware. Django's `startswith` is modelled as case-sensitive.
- Database field lengths (`max_length`) are not enforced. Only the title bound (`JiraImport.ImportTitle`) and the room-code bound (`Models.AssignedCodeFits`) are proved. A consensus or vote value longer than 10 characters or a display name longer than 60 is stored, where the database would reject it.
- Queryset ordering is not modelled. A snapshot's stories keep table order, and the room list is not modelled.
- Integers are unbounded, as Python's are.
- KeyValueCache.Cache.Incr: requires that a present key holds a number, since every writer of a counter key stores one. The `ValueError` that Django raises for a non-numeric value is not modelled.
- RoomCache.GetRoomSnapshot: the rebuilt snapshot keeps the votes on kept stories, but not the prefetched participant of each vote.
