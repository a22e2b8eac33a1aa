/** The discovery screen (pages/Feed.tsx): it turns a swipe direction into an
    action on the first candidate of the feed, shows the match popup when the
    swipe produced a match, and stacks at most two cards. */
module Feed {
  import opened Types
  import opened Card
  import Filters
  import AppContext

  /** right is a like, up a study date, anything else a pass. */
  function ActionFor(dir: Direction): (a: SwipeKind)
    ensures a == Like <==> dir == Right
    ensures a == Study <==> dir == Up
    ensures a == Pass <==> dir.Left?
  {
    if dir == Right then Like else if dir == Up then Study else Pass
  }

  /** Each action button produces the action its icon promises. */
  lemma ButtonsProduceTheirActions()
    ensures ActionFor(ButtonDirection(PassButton)) == Pass
    ensures ActionFor(ButtonDirection(StudyButton)) == Study
    ensures ActionFor(ButtonDirection(LikeButton)) == Like
  {
  }

  /** A drag that crosses the threshold upwards, within the horizontal band, asks for a study date. */
  lemma UpwardDragIsStudy(x: real, y: real)
    requires -Threshold <= x <= Threshold && y < -Threshold
    ensures DragDirection(x, y).Some? && ActionFor(DragDirection(x, y).value) == Study
  {
  }

  /** The number on the filter badge: it is zero exactly when no filter of either kind is active. */
  function TotalFilters(interestFilters: seq<string>, courseFilters: seq<string>): (n: nat)
    ensures n == 0 <==> interestFilters == [] && courseFilters == []
    ensures n >= |interestFilters| && n >= |courseFilters|
  {
    |interestFilters| + |courseFilters|
  }

  /** The rendered cards, bottom first: the first two candidates in reverse order, each paired
      with the stacking index it is given. */
  function CardStack(feed: seq<User>): (cards: seq<(User, int)>)
    ensures |cards| == if |feed| < 2 then |feed| else 2
    ensures feed != [] ==> cards[|cards| - 1] == (feed[0], 1)
    ensures forall k :: 0 <= k < |cards| - 1 ==> cards[k] == (feed[1], 0)
  {
    if |feed| == 0 then []
    else if |feed| == 1 then [(feed[0], 1)]
    else [(feed[1], 0), (feed[0], 1)]
  }

  /** Exactly one rendered card can be dragged, and it is the first candidate of the feed. */
  lemma OnlyTopCardDraggable(feed: seq<User>, k: nat)
    requires k < |CardStack(feed)|
    ensures IsDraggable(CardStack(feed)[k].1) <==> k == |CardStack(feed)| - 1
    ensures IsDraggable(CardStack(feed)[k].1) ==> CardStack(feed)[k].0 == feed[0]
  {
  }

  /** What the match celebration shows: the candidate and how they were swiped. */
  datatype Popup = Popup(user: User, action: SwipeKind)

  class FeedView {
    const session: AppContext.Session
    var matchPopup: Option<Popup>

    constructor (s: AppContext.Session)
      ensures session == s && matchPopup == None
    {
      session := s;
      matchPopup := None;
    }

    /** Swipes the first candidate of the feed; with an empty feed nothing happens. The popup
        is raised only when the swipe created a match. */
    method HandleSwipe(dir: Direction, draw: real, now: nat)
      requires session.Valid() && 0.0 <= draw < 1.0
      modifies this, session
      ensures session.Valid()
      ensures old(session.Feed()) == [] ==>
                session.Snapshot() == old(session.Snapshot()) && matchPopup == old(matchPopup)
      ensures old(session.Feed()) != [] ==>
                var target := old(session.Feed())[0];
                var action := ActionFor(dir);
                var matched := action != Pass && draw > 0.4;
                && old(session.currentUser).Some?
                && var me := old(session.currentUser).value.id;
                   var m := AppContext.NewMatch(me, target.id, action, now);
                   && session.Snapshot() == old(session.Snapshot()).(
                        swipes := old(session.swipes) + [SwipeAction(me, target.id, action, now)],
                        matches := if matched then [m] + old(session.matches) else old(session.matches),
                        messages := if matched then old(session.messages)[m.id := []] else old(session.messages),
                        pending := old(session.pending) +
                                   if matched && action == Study then [AppContext.StudyOpener(m.id, me)] else [])
                   && matchPopup == if matched then Some(Popup(target, action)) else old(matchPopup)
    {
      var feed := session.Feed();
      if |feed| == 0 {
        return;
      }
      var target := feed[0];
      var action := ActionFor(dir);
      var isMatch := session.Swipe(target.id, action, draw, now);
      if isMatch {
        matchPopup := Some(Popup(target, action));
      }
    }
  }
}
