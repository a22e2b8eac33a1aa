/** The matches screen (pages/Matches.tsx): the split of the match list into
    new matches and conversations, the lookup of the other participant, the
    chat's message list and its send box. */
module Matches {
  import opened Types
  import Catalog
  import Filters
  import AppContext

  /** The first of the match's two ids that is not the current user's; with nobody logged in,
      the first id. */
  function OtherParticipant(m: Match, currentId: Option<string>): (r: Option<string>)
    ensures r.Some? ==> (r.value == m.users.0 || r.value == m.users.1) && Some(r.value) != currentId
    ensures r.None? <==> Some(m.users.0) == currentId && Some(m.users.1) == currentId
    ensures Some(m.users.0) != currentId ==> r == Some(m.users.0)
  {
    if Some(m.users.0) != currentId then Some(m.users.0)
    else if Some(m.users.1) != currentId then Some(m.users.1)
    else None
  }

  /** For a match the current user created by swiping someone else, the other participant
      is the swiped candidate. */
  lemma OtherParticipantIsSwipedUser(me: string, targetId: string, action: SwipeKind, now: nat)
    requires targetId != me
    ensures OtherParticipant(AppContext.NewMatch(me, targetId, action, now), Some(me)) == Some(targetId)
  {
  }

  /** Position k of the catalog holds the first entry with that id. */
  predicate FirstUserAt(catalog: seq<User>, id: Option<string>, k: int)
  {
    0 <= k < |catalog| && Some(catalog[k].id) == id &&
    forall j :: 0 <= j < k ==> Some(catalog[j].id) != id
  }

  /** The first catalog entry with that id, if any. */
  function FindUser(catalog: seq<User>, id: Option<string>): (r: Option<User>)
    ensures r.Some? ==> r.value in catalog && Some(r.value.id) == id
    ensures r.Some? ==> exists k :: FirstUserAt(catalog, id, k) && catalog[k] == r.value
    ensures r.None? <==> forall u :: u in catalog ==> Some(u.id) != id
  {
    if catalog == [] then None
    else if Some(catalog[0].id) == id then
      assert FirstUserAt(catalog, id, 0);
      Some(catalog[0])
    else
      var r := FindUser(catalog[1..], id);
      if r.Some? then
        var k :| FirstUserAt(catalog[1..], id, k) && catalog[1..][k] == r.value;
        assert FirstUserAt(catalog, id, k + 1);
        r
      else r
  }

  /** Position k of the list holds the first match with that id. */
  predicate FirstMatchAt(ms: seq<Match>, matchId: string, k: int)
  {
    0 <= k < |ms| && ms[k].id == matchId &&
    forall j :: 0 <= j < k ==> ms[j].id != matchId
  }

  /** The first match in the list with that id, if any. */
  function FindMatch(ms: seq<Match>, matchId: string): (r: Option<Match>)
    ensures r.Some? ==> r.value in ms && r.value.id == matchId
    ensures r.Some? ==> exists k :: FirstMatchAt(ms, matchId, k) && ms[k] == r.value
    ensures r.None? <==> forall m :: m in ms ==> m.id != matchId
  {
    if ms == [] then None
    else if ms[0].id == matchId then
      assert FirstMatchAt(ms, matchId, 0);
      Some(ms[0])
    else
      var r := FindMatch(ms[1..], matchId);
      if r.Some? then
        var k :| FirstMatchAt(ms[1..], matchId, k) && ms[1..][k] == r.value;
        assert FirstMatchAt(ms, matchId, k + 1);
        r
      else r
  }

  /** Who the chat header shows: a catalog profile, or the placeholder when the other id is
      unknown to the catalog. */
  datatype Partner = Known(user: User) | Placeholder

  const PlaceholderId: string := "unknown"

  function PartnerId(p: Partner): string
  {
    if p.Known? then p.user.id else PlaceholderId
  }

  function ChatPartner(catalog: seq<User>, ms: seq<Match>, matchId: string, currentId: Option<string>): (p: Partner)
    ensures p.Known? ==> p.user in catalog
    ensures p.Known? ==>
              FindMatch(ms, matchId).Some? &&
              FindUser(catalog, OtherParticipant(FindMatch(ms, matchId).value, currentId)) == Some(p.user)
    ensures p.Placeholder? <==>
              FindMatch(ms, matchId).None? ||
              FindUser(catalog, OtherParticipant(FindMatch(ms, matchId).value, currentId)).None?
  {
    var m := FindMatch(ms, matchId);
    if m.None? then Placeholder
    else
      var u := FindUser(catalog, OtherParticipant(m.value, currentId));
      if u.Some? then Known(u.value) else Placeholder
  }

  /** The placeholder never impersonates a catalog user, as long as no catalog id is "unknown". */
  lemma PlaceholderIsNotACatalogUser(catalog: seq<User>, ms: seq<Match>, matchId: string, currentId: Option<string>)
    requires forall u :: u in catalog ==> u.id != PlaceholderId
    ensures var p := ChatPartner(catalog, ms, matchId, currentId);
            p.Placeholder? <==> PartnerId(p) == PlaceholderId
  {
  }

  /** No mock candidate has the placeholder's id. */
  lemma MockCatalogHasNoPlaceholder()
    ensures forall u :: u in Catalog.MockUsers ==> u.id != PlaceholderId
  {
    Catalog.MockIdsDistinctAndNotLocal();
    forall u | u in Catalog.MockUsers
      ensures u.id != PlaceholderId
    {
      var k :| 0 <= k < |Catalog.MockUsers| && Catalog.MockUsers[k] == u;
      assert u.id[..5] == "user_";
    }
  }

  /** A match has a conversation once its thread holds at least one message. */
  predicate HasConversation(messages: map<string, seq<Message>>, m: Match)
  {
    |AppContext.Thread(messages, m.id)| > 0
  }

  /** The matches whose thread is missing or empty, in list order: the "new matches" row. */
  function NewMatches(ms: seq<Match>, messages: map<string, seq<Message>>): (r: seq<Match>)
    ensures forall m :: m in r <==> m in ms && !HasConversation(messages, m)
  {
    if ms == [] then []
    else
      var rest := NewMatches(ms[1..], messages);
      if !HasConversation(messages, ms[0]) then [ms[0]] + rest else rest
  }

  /** The matches whose thread holds a message, in list order: the conversations row. */
  function Conversations(ms: seq<Match>, messages: map<string, seq<Message>>): (r: seq<Match>)
    ensures forall m :: m in r <==> m in ms && HasConversation(messages, m)
  {
    if ms == [] then []
    else
      var rest := Conversations(ms[1..], messages);
      if HasConversation(messages, ms[0]) then [ms[0]] + rest else rest
  }

  /** The two rows split the match list: every match lands in exactly one of them, both keep
      the list's order, and their sizes add up to the list's. */
  lemma {:induction false} RowsPartitionMatches(ms: seq<Match>, messages: map<string, seq<Message>>)
    ensures |NewMatches(ms, messages)| + |Conversations(ms, messages)| == |ms|
    ensures Filters.Subsequence(NewMatches(ms, messages), ms)
    ensures Filters.Subsequence(Conversations(ms, messages), ms)
    ensures forall m :: m in ms ==> (m in NewMatches(ms, messages) <==> m !in Conversations(ms, messages))
    decreases |ms|
  {
    if ms != [] {
      RowsPartitionMatches(ms[1..], messages);
      var n, c := NewMatches(ms[1..], messages), Conversations(ms[1..], messages);
      if HasConversation(messages, ms[0]) {
        assert Conversations(ms, messages) == [ms[0]] + c;
        assert ([ms[0]] + c)[1..] == c;
        if n != [] {
          assert Filters.Subsequence(n, ms[1..]);
        }
      } else {
        assert NewMatches(ms, messages) == [ms[0]] + n;
        assert ([ms[0]] + n)[1..] == n;
        if c != [] {
          assert Filters.Subsequence(c, ms[1..]);
        }
      }
    }
  }

  /** The matches of a rendered row, in the order they are drawn. */
  function Rendered(r: seq<(Match, User)>): (ms: seq<Match>)
    ensures |ms| == |r|
    ensures forall k :: 0 <= k < |r| ==> ms[k] == r[k].0
  {
    if r == [] then [] else [r[0].0] + Rendered(r[1..])
  }

  /** A row as rendered: each match paired with its other participant's profile, matches
      whose other participant is not in the catalog skipped. The drawn matches keep the
      row's order, each at most once per occurrence in the row. */
  function ListedRow(catalog: seq<User>, row: seq<Match>, currentId: Option<string>): (r: seq<(Match, User)>)
    ensures |r| <= |row|
    ensures Filters.Subsequence(Rendered(r), row)
    ensures forall e :: e in r ==> e.0 in row && FindUser(catalog, OtherParticipant(e.0, currentId)) == Some(e.1)
    ensures forall m :: m in row && FindUser(catalog, OtherParticipant(m, currentId)).Some? ==>
              exists u :: (m, u) in r
  {
    if row == [] then []
    else
      var rest := ListedRow(catalog, row[1..], currentId);
      var u := FindUser(catalog, OtherParticipant(row[0], currentId));
      if u.Some? then
        var r := [(row[0], u.value)] + rest;
        assert r[1..] == rest;
        assert Rendered(r) == [row[0]] + Rendered(rest);
        assert ([row[0]] + Rendered(rest))[1..] == Rendered(rest);
        r
      else
        assert Rendered(rest) != [] ==> Filters.Subsequence(Rendered(rest), row[1..]);
        rest
  }

  /** A message is drawn on the right ("mine") when its sender is the current user. */
  predicate IsMine(msg: Message, currentId: Option<string>)
    ensures IsMine(msg, currentId) ==> currentId.Some? && currentId.value == msg.senderId
    ensures currentId.None? ==> !IsMine(msg, currentId)
  {
    Some(msg.senderId) == currentId
  }

  /** The scripted study-date opener goes through the ordinary send path, so it is shown as
      written by the user who swiped, while an automatic reply never is (unless that user's
      id is "other"). */
  lemma OpenerShownAsMine(swiper: string, matchId: string, now: nat, me: Option<string>)
    ensures IsMine(AppContext.SentMessage(swiper, matchId, AppContext.StudyOpenerText, Text, now), me) <==>
            me == Some(swiper)
    ensures IsMine(AppContext.ReplyMessage(matchId, now), me) <==> me == Some(AppContext.ReplySenderId)
  {
  }

  // ----- the send box -----

  /** The characters String.prototype.trim removes: white space and line terminators. */
  predicate IsJsSpace(c: char)
  {
    || c == '\t' || c == '\n' || c == '\U{000B}' || c == '\U{000C}' || c == '\r' || c == ' '
    || c == '\U{00A0}' || c == '\U{1680}' || ('\U{2000}' <= c <= '\U{200A}')
    || c == '\U{2028}' || c == '\U{2029}' || c == '\U{202F}' || c == '\U{205F}'
    || c == '\U{3000}' || c == '\U{FEFF}'
  }

  function TrimStart(s: string): (r: string)
    ensures |r| <= |s| && r == s[|s| - |r|..]
    ensures r != [] ==> !IsJsSpace(r[0])
    ensures forall i :: 0 <= i < |s| - |r| ==> IsJsSpace(s[i])
  {
    if s != [] && IsJsSpace(s[0]) then TrimStart(s[1..]) else s
  }

  function TrimEnd(s: string): (r: string)
    ensures |r| <= |s| && r == s[..|r|]
    ensures r != [] ==> !IsJsSpace(r[|r| - 1])
    ensures forall i :: |r| <= i < |s| ==> IsJsSpace(s[i])
  {
    if s != [] && IsJsSpace(s[|s| - 1]) then TrimEnd(s[..|s| - 1]) else s
  }

  function Trim(s: string): string
  {
    TrimEnd(TrimStart(s))
  }

  /** Input is blank, and ignored, exactly when every character is white space. */
  lemma {:induction false} TrimEmptyIffBlank(s: string)
    ensures Trim(s) == "" <==> forall i :: 0 <= i < |s| ==> IsJsSpace(s[i])
    decreases |s|
  {
    if s != [] {
      if IsJsSpace(s[0]) {
        TrimEmptyIffBlank(s[1..]);
        assert forall i :: 1 <= i < |s| ==> s[i] == s[1..][i - 1];
      } else {
        assert TrimStart(s) == s;
        TrimEndKeepsNonSpace(s);
      }
    }
  }

  lemma {:induction false} TrimEndKeepsNonSpace(s: string)
    requires s != [] && !IsJsSpace(s[0])
    ensures TrimEnd(s) != []
    decreases |s|
  {
    if |s| > 1 && IsJsSpace(s[|s| - 1]) {
      TrimEndKeepsNonSpace(s[..|s| - 1]);
    }
  }

  class ChatView {
    const session: AppContext.Session
    const matchId: string
    var input: string

    constructor (s: AppContext.Session, id: string)
      ensures session == s && matchId == id && input == ""
    {
      session := s;
      matchId := id;
      input := "";
    }

    /** What the chat lists: the match's thread, or nothing when it has none. */
    function ChatMessages(): (r: seq<Message>)
      reads this, session
      ensures matchId in session.messages ==> r == session.messages[matchId]
      ensures matchId !in session.messages ==> r == []
    {
      AppContext.Thread(session.messages, matchId)
    }

    method Type(text: string)
      modifies this
      ensures input == text
    {
      input := text;
    }

    /** Sends the box's text as typed (untrimmed) and clears the box; blank text is ignored. */
    method HandleSend(now: nat)
      requires session.Valid()
      modifies this, session
      ensures session.Valid()
      ensures Trim(old(input)) == "" ==> input == old(input) && session.Snapshot() == old(session.Snapshot())
      ensures Trim(old(input)) != "" ==>
                input == "" &&
                (old(session.currentUser).None? ==> session.Snapshot() == old(session.Snapshot())) &&
                (old(session.currentUser).Some? ==>
                   matchId in session.messages &&
                   ChatMessages() ==
                     old(ChatMessages()) +
                     [AppContext.SentMessage(old(session.currentUser).value.id, matchId, old(input), Text, now)])
    {
      if Trim(input) == "" {
        return;
      }
      session.SendMessage(matchId, input, Text, now);
      input := "";
    }
  }
}
