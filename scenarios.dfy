/** Client walks through the session, written only against the contracts of
    its methods and the lemmas about the feed. */
module Scenarios {
  import opened Types
  import opened Ids
  import Catalog
  import Filters
  import opened AppContext

  /** A session in which the login flow has completed with the given email. */
  method LoggedIn(email: string) returns (s: Session)
    ensures fresh(s) && s.Valid() && s.catalog == Catalog.MockUsers
    ensures s.Snapshot() == State(Some(Catalog.InitialUser.(email := email)), [], [], map[], [], [], Light, false, [])
  {
    s := new Session();
    s.Login(email);
    assert s.pending == [FinishLogin(email)] && s.loading;
    s.RunTask(0, 1000);
  }

  /** Logging in shows the whole catalog; a pass never matches and removes that candidate. */
  method LoginThenPass()
  {
    var s := LoggedIn("nome@gmail.com");
    var me := Catalog.InitialUser.(email := "nome@gmail.com");
    Filters.InitialFeedIsWholeCatalog("nome@gmail.com");
    assert s.Feed() == Catalog.MockUsers;

    var matched := s.Swipe("user_2", Pass, 0.99, 2000);
    assert !matched && s.matches == [];
    Filters.SwipeRemovesTarget(Catalog.MockUsers, me, [], [], [], SwipeAction("me", "user_2", Pass, 2000));
    assert s.Feed() == Filters.RemoveId(Catalog.MockUsers, "user_2");
  }

  /** A like with a draw above 0.4 matches, and the new match starts with an empty thread. */
  method LikeMatches()
  {
    var s := LoggedIn("nome@gmail.com");
    var matched := s.Swipe("user_3", Like, 0.5, 3000);
    var mid := MatchId(3000);
    assert matched && |s.matches| == 1 && s.matches[0].id == mid && s.matches[0].kind == None;
    assert s.messages[mid] == [] && s.pending == [];
    ChatThenReply(s, mid);
  }

  /** The local user's message is read at once; the automatic reply arrives later, unread. */
  method ChatThenReply(s: Session, mid: string)
    requires s.Valid() && s.currentUser.Some? && s.currentUser.value.id == Catalog.LocalUserId
    requires s.pending == [] && |s.matches| == 1 && s.matches[0].id == mid
    requires mid in s.messages && s.messages[mid] == []
    modifies s
  {
    s.SendMessage(mid, "oi", Text, 4000);
    assert |s.messages[mid]| == 1 && s.messages[mid][0].isRead && s.messages[mid][0].senderId == "me";
    assert s.matches[0].lastMessage == Some("oi");
    assert s.pending == [AutoReply(mid)];
    s.RunTask(0, 7000);
    assert |s.messages[mid]| == 2 && !s.messages[mid][1].isRead && s.messages[mid][1].senderId == ReplySenderId;
    assert s.matches[0].unreadCount == 0;
  }

  /** Toggling a course filter twice restores the empty list. */
  method ToggleCourseTwice()
  {
    var s := new Session();
    s.ToggleCourseFilter("Direito");
    s.ToggleCourseFilter("Direito");
    Filters.ToggleTwice([], "Direito");
    assert s.activeCourseFilters == [];
  }

  /** A study swipe that matches creates a study-date match and schedules the opener as the
      user who swiped. */
  method StudyMatches()
  {
    var s := LoggedIn("nome@gmail.com");
    var matched := s.Swipe("user_6", Study, 0.7, 2000);
    var mid := MatchId(2000);
    assert matched && s.matches[0].kind == Some(StudyDate);
    assert s.pending == [StudyOpener(mid, "me")];
    OpenerThenReply(s, mid);
  }

  /** The opener is filed as sent by the local user, who then also gets the automatic reply. */
  method OpenerThenReply(s: Session, mid: string)
    requires s.Valid() && s.pending == [StudyOpener(mid, Catalog.LocalUserId)]
    requires mid in s.messages && s.messages[mid] == []
    modifies s
  {
    s.RunTask(0, 2500);
    assert s.messages[mid] == [SentMessage(Catalog.LocalUserId, mid, StudyOpenerText, Text, 2500)];
    assert s.pending == [AutoReply(mid)];
  }
}
