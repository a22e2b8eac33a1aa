/** The in-memory session store of the application context: the current user,
    the append-only swipe log, the match list, the per-match message threads,
    the two filter lists and the theme. Timers become an explicit queue of
    pending tasks that `RunTask` fires one at a time; the random draw and the
    clock are parameters. */
module AppContext {
  import opened Types
  import opened Ids
  import Catalog
  import Filters

  datatype Theme = Light | Dark

  /** Work a timer will do later. Each task keeps what its closure captured when it
      was scheduled: the typed email, or the id of the user who swiped. */
  datatype Task =
    | FinishLogin(email: string)
    | StudyOpener(matchId: string, senderId: string)
    | AutoReply(matchId: string)

  const StudyOpenerText: string := "Oi! Vi que você topa um Study Date. Vamos marcar na biblioteca?"
  const AutoReplyText: string := "Opa! Claro, adoraria."
  /** The sender id of every automatic reply. */
  const ReplySenderId: string := "other"

  /** The whole observable state of a session, for stating what a method leaves behind. */
  datatype State = State(
    currentUser: Option<User>,
    swipes: seq<SwipeAction>,
    matches: seq<Match>,
    messages: map<string, seq<Message>>,
    activeFilters: seq<string>,
    activeCourseFilters: seq<string>,
    theme: Theme,
    loading: bool,
    pending: seq<Task>)

  /** A partial profile: a field that is None is left as it was. */
  datatype ProfilePatch = ProfilePatch(
    id: Option<string>,
    email: Option<string>,
    name: Option<string>,
    age: Option<int>,
    course: Option<Option<string>>,
    semester: Option<Option<int>>,
    role: Option<Role>,
    bio: Option<string>,
    photos: Option<seq<string>>,
    interests: Option<seq<string>>,
    gender: Option<Gender>,
    verified: Option<bool>,
    shift: Option<Shift>,
    intention: Option<Intention>)

  const NoChanges: ProfilePatch :=
    ProfilePatch(None, None, None, None, None, None, None, None, None, None, None, None, None, None)

  function Pick<T>(o: Option<T>, keep: T): T
  {
    if o.Some? then o.value else keep
  }

  /** The profile with each field the patch sets replaced by the patch's value. */
  function ApplyPatch(u: User, p: ProfilePatch): User
  {
    User(Pick(p.id, u.id), Pick(p.email, u.email), Pick(p.name, u.name), Pick(p.age, u.age),
         Pick(p.course, u.course), Pick(p.semester, u.semester), Pick(p.role, u.role),
         Pick(p.bio, u.bio), Pick(p.photos, u.photos), Pick(p.interests, u.interests),
         Pick(p.gender, u.gender), Pick(p.verified, u.verified), Pick(p.shift, u.shift),
         Pick(p.intention, u.intention))
  }

  /** Merging the same patch twice is merging it once, and an empty patch changes nothing. */
  lemma PatchIdempotent(u: User, p: ProfilePatch)
    ensures ApplyPatch(ApplyPatch(u, p), p) == ApplyPatch(u, p)
    ensures ApplyPatch(u, NoChanges) == u
  {
  }

  /** Changing only the shift (as the profile screen does) keeps every other field. */
  lemma ShiftPatchChangesOnlyShift(u: User, s: Shift)
    ensures ApplyPatch(u, NoChanges.(shift := Some(s))) == u.(shift := s)
  {
  }

  /** The thread of a match, or the empty thread when the map has none. */
  function Thread(messages: map<string, seq<Message>>, matchId: string): (t: seq<Message>)
    ensures matchId !in messages ==> t == []
  {
    if matchId in messages then messages[matchId] else []
  }

  /** The match a successful swipe creates. */
  function NewMatch(fromId: string, targetId: string, action: SwipeKind, now: nat): Match
  {
    Types.Match.Match(MatchId(now), (fromId, targetId), now, None, None, 0,
          if action == Study then Some(StudyDate) else None)
  }

  /** A message sent by `senderId`: marked read, since one has read what one sent. */
  function SentMessage(senderId: string, matchId: string, content: string, kind: MessageKind, now: nat): Message
  {
    Message(MessageId(now), matchId, senderId, content, now, true, kind)
  }

  /** The scripted answer of the simulated partner: unread. */
  function ReplyMessage(matchId: string, now: nat): Message
  {
    Message(ReplyId(now), matchId, ReplySenderId, AutoReplyText, now, false, Text)
  }

  /** The match list with the last message and its time set on every match with that id. */
  function SetLastMessage(ms: seq<Match>, matchId: string, content: string, now: nat): (r: seq<Match>)
    ensures |r| == |ms|
    ensures forall i :: 0 <= i < |ms| ==>
              r[i] == if ms[i].id == matchId
                      then ms[i].(lastMessage := Some(content), lastMessageTime := Some(now))
                      else ms[i]
  {
    if ms == [] then []
    else
      var m := ms[0];
      var m' := if m.id == matchId then m.(lastMessage := Some(content), lastMessageTime := Some(now)) else m;
      [m'] + SetLastMessage(ms[1..], matchId, content, now)
  }

  // ----- invariants of the session -----

  /** No match ever has unread messages counted: nothing changes unreadCount from 0. */
  predicate NoUnread(ms: seq<Match>)
  {
    forall i :: 0 <= i < |ms| ==> ms[i].unreadCount == 0
  }

  /** The swipe `s` is the one that created `m`: same two users, a like or study, and the
      match is a study date exactly when the swipe was a study. */
  predicate Creates(s: SwipeAction, m: Match)
  {
    && s.fromUserId == m.users.0
    && s.toUserId == m.users.1
    && s.action != Pass
    && (m.kind == Some(StudyDate) <==> s.action == Study)
  }

  /** Some swipe of the log created `m`. */
  predicate Recorded(swipes: seq<SwipeAction>, m: Match)
  {
    exists j :: 0 <= j < |swipes| && Creates(swipes[j], m)
  }

  /** Every match in the list was created by a like or study swipe of the log. */
  predicate MatchesBackedBySwipes(ms: seq<Match>, swipes: seq<SwipeAction>)
  {
    forall i :: 0 <= i < |ms| ==> Recorded(swipes, ms[i])
  }

  /** Every message is filed under its own match id. */
  predicate ThreadsFiled(messages: map<string, seq<Message>>)
  {
    forall k :: k in messages ==> forall j :: 0 <= j < |messages[k]| ==> messages[k][j].matchId == k
  }

  /** Only automatic replies arrive unread. */
  predicate UnreadOnlyFromReplies(messages: map<string, seq<Message>>)
  {
    forall k :: k in messages ==>
      forall j :: 0 <= j < |messages[k]| ==> !messages[k][j].isRead ==> messages[k][j].senderId == ReplySenderId
  }

  lemma BackedAfterSwipe(ms: seq<Match>, swipes: seq<SwipeAction>, s: SwipeAction)
    requires MatchesBackedBySwipes(ms, swipes)
    ensures MatchesBackedBySwipes(ms, swipes + [s])
  {
    var t := swipes + [s];
    forall i | 0 <= i < |ms|
      ensures Recorded(t, ms[i])
    {
      var j :| 0 <= j < |swipes| && Creates(swipes[j], ms[i]);
      assert t[j] == swipes[j];
    }
  }

  lemma BackedAfterMatch(ms: seq<Match>, swipes: seq<SwipeAction>, m: Match)
    requires MatchesBackedBySwipes(ms, swipes)
    requires |swipes| > 0 && Creates(swipes[|swipes| - 1], m)
    ensures MatchesBackedBySwipes([m] + ms, swipes)
  {
    forall i | 0 <= i < |[m] + ms|
      ensures Recorded(swipes, ([m] + ms)[i])
    {
      if i == 0 {
        assert Creates(swipes[|swipes| - 1], ([m] + ms)[i]);
      } else {
        assert ([m] + ms)[i] == ms[i - 1];
      }
    }
  }

  lemma BackedAfterLastMessage(ms: seq<Match>, swipes: seq<SwipeAction>, matchId: string, content: string, now: nat)
    requires MatchesBackedBySwipes(ms, swipes) && NoUnread(ms)
    ensures MatchesBackedBySwipes(SetLastMessage(ms, matchId, content, now), swipes)
    ensures NoUnread(SetLastMessage(ms, matchId, content, now))
  {
    var r := SetLastMessage(ms, matchId, content, now);
    forall i | 0 <= i < |r|
      ensures Recorded(swipes, r[i])
    {
      var j :| 0 <= j < |swipes| && Creates(swipes[j], ms[i]);
      assert Creates(swipes[j], r[i]);
    }
  }

  /** A candidate one has matched with never shows up in one's feed again: the swipe that
      created the match is still in the log. */
  lemma MatchedUserLeavesFeed(users: seq<User>, me: User, swipes: seq<SwipeAction>, ms: seq<Match>,
                              interestFilters: seq<string>, courseFilters: seq<string>, i: nat)
    requires MatchesBackedBySwipes(ms, swipes)
    requires i < |ms| && ms[i].users.0 == me.id
    ensures forall u :: u in Filters.PotentialMatches(users, Some(me), swipes, interestFilters, courseFilters) ==>
              u.id != ms[i].users.1
  {
    var j :| 0 <= j < |swipes| && Creates(swipes[j], ms[i]);
    assert Filters.HasSwiped(swipes, me.id, ms[i].users.1);
  }

  class Session {
    /** The candidate catalog; the source never replaces it. */
    const catalog: seq<User>
    var currentUser: Option<User>
    var swipes: seq<SwipeAction>
    var matches: seq<Match>
    var messages: map<string, seq<Message>>
    var activeFilters: seq<string>
    var activeCourseFilters: seq<string>
    var theme: Theme
    var loading: bool
    var pending: seq<Task>

    ghost predicate Valid()
      reads this
    {
      && NoUnread(matches)
      && MatchesBackedBySwipes(matches, swipes)
      && ThreadsFiled(messages)
      && UnreadOnlyFromReplies(messages)
    }

    function Snapshot(): State
      reads this
    {
      State(currentUser, swipes, matches, messages, activeFilters, activeCourseFilters, theme, loading, pending)
    }

    /** The discovery feed derived from the current state. */
    function Feed(): seq<User>
      reads this
    {
      Filters.PotentialMatches(catalog, currentUser, swipes, activeFilters, activeCourseFilters)
    }

    /** A session after start-up with nothing stored: nobody logged in, everything empty. */
    constructor ()
      ensures Valid()
      ensures catalog == Catalog.MockUsers
      ensures Snapshot() == State(None, [], [], map[], [], [], Light, false, [])
    {
      catalog := Catalog.MockUsers;
      currentUser := None;
      swipes := [];
      matches := [];
      messages := map[];
      activeFilters := [];
      activeCourseFilters := [];
      theme := Light;
      loading := false;
      pending := [];
    }

    /** Starts the simulated authentication round trip; the user is set when the task fires. */
    method Login(email: string)
      modifies this
      ensures Snapshot() == old(Snapshot()).(loading := true, pending := old(pending) + [FinishLogin(email)])
    {
      loading := true;
      pending := pending + [FinishLogin(email)];
    }

    /** Clears the user, the swipe log, the matches, the threads and both filter lists.
        Timers already scheduled are not cancelled. */
    method Logout()
      modifies this
      ensures Valid()
      ensures Snapshot() == old(Snapshot()).(currentUser := None, swipes := [], matches := [], messages := map[],
                                             activeFilters := [], activeCourseFilters := [])
    {
      currentUser := None;
      swipes := [];
      matches := [];
      messages := map[];
      activeFilters := [];
      activeCourseFilters := [];
    }

    /** Merges a partial profile into the current user; nothing happens when logged out. */
    method UpdateProfile(patch: ProfilePatch)
      requires Valid()
      modifies this
      ensures Valid()
      ensures old(currentUser).None? ==> Snapshot() == old(Snapshot())
      ensures old(currentUser).Some? ==>
                Snapshot() == old(Snapshot()).(currentUser := Some(ApplyPatch(old(currentUser).value, patch)))
    {
      if currentUser.Some? {
        currentUser := Some(ApplyPatch(currentUser.value, patch));
      }
    }

    method ToggleFilter(interest: string)
      modifies this
      ensures Snapshot() == old(Snapshot()).(activeFilters := Filters.Toggle(old(activeFilters), interest))
    {
      activeFilters := Filters.Toggle(activeFilters, interest);
    }

    method ToggleCourseFilter(course: string)
      modifies this
      ensures Snapshot() == old(Snapshot()).(activeCourseFilters := Filters.Toggle(old(activeCourseFilters), course))
    {
      activeCourseFilters := Filters.Toggle(activeCourseFilters, course);
    }

    method ClearFilters()
      modifies this
      ensures Snapshot() == old(Snapshot()).(activeFilters := [], activeCourseFilters := [])
    {
      activeFilters := [];
      activeCourseFilters := [];
    }

    method ToggleTheme()
      modifies this
      ensures theme != old(theme)
      ensures Snapshot() == old(Snapshot()).(theme := if old(theme) == Light then Dark else Light)
    {
      theme := if theme == Light then Dark else Light;
    }

    /** Records a swipe and, for a like or study whose draw exceeds 0.4, creates a match.
        Returns whether a match was created. */
    method Swipe(targetId: string, action: SwipeKind, draw: real, now: nat) returns (matched: bool)
      requires Valid() && 0.0 <= draw < 1.0
      modifies this
      ensures Valid()
      ensures matched <==> old(currentUser).Some? && action != Pass && draw > 0.4
      ensures old(currentUser).None? ==> Snapshot() == old(Snapshot())
      ensures old(currentUser).Some? && !matched ==>
                Snapshot() == old(Snapshot()).(swipes := old(swipes) + [SwipeAction(old(currentUser).value.id, targetId, action, now)])
      ensures matched ==>
                var me := old(currentUser).value.id;
                var m := NewMatch(me, targetId, action, now);
                Snapshot() == old(Snapshot()).(
                  swipes := old(swipes) + [SwipeAction(me, targetId, action, now)],
                  matches := [m] + old(matches),
                  messages := old(messages)[m.id := []],
                  pending := old(pending) + if action == Study then [StudyOpener(m.id, me)] else [])
    {
      if currentUser.None? {
        return false;
      }
      var me := currentUser.value.id;
      var s := SwipeAction(me, targetId, action, now);
      BackedAfterSwipe(matches, swipes, s);
      swipes := swipes + [s];
      matched := false;
      if action == Like || action == Study {
        if draw > 0.4 {
          var m := NewMatch(me, targetId, action, now);
          BackedAfterMatch(matches, swipes, m);
          matches := [m] + matches;
          messages := messages[m.id := []];
          if action == Study {
            pending := pending + [StudyOpener(m.id, me)];
          }
          matched := true;
        }
      }
    }

    /** Appends a message from `senderId` to the thread of `matchId` (creating it if absent)
        and mirrors the content into every match with that id. */
    method Post(senderId: string, matchId: string, content: string, kind: MessageKind, now: nat)
      requires Valid()
      modifies this
      ensures Valid()
      ensures Snapshot() == old(Snapshot()).(
                messages := old(messages)[matchId := Thread(old(messages), matchId) + [SentMessage(senderId, matchId, content, kind, now)]],
                matches := SetLastMessage(old(matches), matchId, content, now))
    {
      BackedAfterLastMessage(matches, swipes, matchId, content, now);
      messages := messages[matchId := Thread(messages, matchId) + [SentMessage(senderId, matchId, content, kind, now)]];
      matches := SetLastMessage(matches, matchId, content, now);
    }

    /** Sends as the current user; for the local user 'me' an automatic reply is scheduled. */
    method SendMessage(matchId: string, content: string, kind: MessageKind, now: nat)
      requires Valid() && kind != Image
      modifies this
      ensures Valid()
      ensures old(currentUser).None? ==> Snapshot() == old(Snapshot())
      ensures old(currentUser).Some? ==>
                var me := old(currentUser).value.id;
                Snapshot() == old(Snapshot()).(
                  messages := old(messages)[matchId := Thread(old(messages), matchId) + [SentMessage(me, matchId, content, kind, now)]],
                  matches := SetLastMessage(old(matches), matchId, content, now),
                  pending := old(pending) + if me == Catalog.LocalUserId then [AutoReply(matchId)] else [])
    {
      if currentUser.None? {
        return;
      }
      var me := currentUser.value.id;
      Post(me, matchId, content, kind, now);
      if me == Catalog.LocalUserId {
        pending := pending + [AutoReply(matchId)];
      }
    }

    /** Fires the timer task at position `i` of the queue at time `now`. */
    method RunTask(i: nat, now: nat)
      requires Valid() && i < |pending|
      modifies this
      ensures Valid()
      ensures var rest := old(pending)[..i] + old(pending)[i + 1..];
              match old(pending)[i]
              case FinishLogin(email) =>
                Snapshot() == old(Snapshot()).(currentUser := Some(Catalog.InitialUser.(email := email)),
                                               loading := false, pending := rest)
              case StudyOpener(matchId, senderId) =>
                Snapshot() == old(Snapshot()).(
                  messages := old(messages)[matchId := Thread(old(messages), matchId) + [SentMessage(senderId, matchId, StudyOpenerText, Text, now)]],
                  matches := SetLastMessage(old(matches), matchId, StudyOpenerText, now),
                  pending := rest + if senderId == Catalog.LocalUserId then [AutoReply(matchId)] else [])
              case AutoReply(matchId) =>
                Snapshot() == old(Snapshot()).(
                  messages := old(messages)[matchId := Thread(old(messages), matchId) + [ReplyMessage(matchId, now)]],
                  pending := rest)
    {
      var task := pending[i];
      pending := pending[..i] + pending[i + 1..];
      match task
      case FinishLogin(email) =>
        currentUser := Some(Catalog.InitialUser.(email := email));
        loading := false;
      case StudyOpener(matchId, senderId) =>
        Post(senderId, matchId, StudyOpenerText, Text, now);
        if senderId == Catalog.LocalUserId {
          pending := pending + [AutoReply(matchId)];
        }
      case AutoReply(matchId) =>
        messages := messages[matchId := Thread(messages, matchId) + [ReplyMessage(matchId, now)]];
    }
  }
}
