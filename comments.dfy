/**
 * The comment routes of server.js: the `isLoggedIn` guard, posting a comment
 * (length check, toxicity screen, insertion) and listing a game's comments
 * newest first.
 */
module Comments {
  import opened Wrappers
  import opened Accounts
  import opened JsText

  /** A stored comment (the `Comment` schema); `id` stands for the generated document id. */
  datatype Comment = Comment(
    id: nat,
    gameId: int,
    userGoogleId: string,
    userName: string,
    userPhoto: string,
    text: string,
    timestamp: int,
    isApproved: bool)

  /** The replies of the posting route. */
  datatype Reply =
    | Created201(comment: Comment)
    | BadRequest400(message: string)
    | Unauthorized401(message: string)
    | ServerError500(message: string)

  const NotLoggedInMessage := "Você precisa estar logado para fazer isso."
  const TooShortMessage := "Comentário muito curto."
  const ToxicMessage := "Seu comentário foi bloqueado por conter linguagem ofensiva."
  const PostFailedMessage := "Erro ao postar comentário"
  const ListFailedMessage := "Erro ao buscar comentários"

  const MinTextLength := 3
  const ToxicityThreshold: real := 0.7

  // ---------------------------------------------------------------- the guard

  /** `isLoggedIn`: either the request goes on to the handler with the signed-in user, or it is answered with 401. */
  datatype Gate = Next(user: User) | Stop(reply: Reply)

  function IsLoggedIn(caller: Option<User>): (g: Gate)
    ensures g.Next? <==> caller.Some?
    ensures g.Next? ==> g.user == caller.value
    ensures g.Stop? ==> g.reply == Unauthorized401(NotLoggedInMessage)
  {
    match caller
    case Some(u) => Next(u)
    case None => Stop(Unauthorized401(NotLoggedInMessage))
  }

  // ------------------------------------------------------------ the screener

  /** What the Perspective call gave: no key configured, a failed call (network, HTTP or a reply without a score), or the toxicity score. */
  datatype ScreenerOutcome = NoKey | ProviderError | Score(value: real)

  /** `checkToxicity`: toxic only on a score strictly above the threshold; a missing key or any failure lets the comment through. */
  predicate CheckToxicity(o: ScreenerOutcome): (toxic: bool)
    ensures toxic ==> o.Score?
    ensures o.Score? ==> (toxic <==> o.value > ToxicityThreshold)
  {
    match o
    case NoKey => false
    case ProviderError => false
    case Score(v) => v > ToxicityThreshold
  }

  /** The screener fails open, and the threshold itself passes. */
  lemma ScreenerFailsOpen(v: real)
    ensures !CheckToxicity(NoKey) && !CheckToxicity(ProviderError)
    ensures CheckToxicity(Score(v)) <==> v > 0.7
    ensures !CheckToxicity(Score(0.7))
  {
  }

  // -------------------------------------------------------------- posting

  /** `!text || text.trim().length < 3`, where `None` is a missing `text` field. */
  predicate TooShort(text: Option<string>)
  {
    text.None? || |Trim(text.value)| < MinTextLength
  }

  /** How the posting route decides: a reply it sends without saving, or the fields of the comment it saves. */
  datatype Verdict = Rejected(reply: Reply) | Accepted(gameId: int, author: User, text: string)

  /**
   * `POST /api/game/:id/comments` up to the save: the login guard, then the
   * length check, then the screen. `gameId` is `parseInt(req.params.id)`,
   * `None` when that is `NaN`, which Mongoose's Number cast rejects when
   * `save` validates the document, so the route answers 500. A post is
   * accepted exactly when it passes every check and the game id is a number,
   * and it then carries that id, the caller and the text as sent.
   */
  function PostVerdict(caller: Option<User>, gameId: Option<int>, text: Option<string>, screen: ScreenerOutcome): (v: Verdict)
    ensures caller.None? ==> v == Rejected(Unauthorized401(NotLoggedInMessage))
    ensures caller.Some? && TooShort(text) ==> v == Rejected(BadRequest400(TooShortMessage))
    ensures caller.Some? && !TooShort(text) && CheckToxicity(screen) ==> v == Rejected(BadRequest400(ToxicMessage))
    ensures caller.Some? && !TooShort(text) && !CheckToxicity(screen) && gameId.None? ==> v == Rejected(ServerError500(PostFailedMessage))
    ensures v.Accepted? <==> caller.Some? && !TooShort(text) && !CheckToxicity(screen) && gameId.Some?
    ensures v.Accepted? ==> v.gameId == gameId.value && v.author == caller.value && v.text == text.value
  {
    match IsLoggedIn(caller)
    case Stop(reply) => Rejected(reply)
    case Next(user) =>
      if TooShort(text) then Rejected(BadRequest400(TooShortMessage))
      else if CheckToxicity(screen) then Rejected(BadRequest400(ToxicMessage))
      else if gameId.None? then Rejected(ServerError500(PostFailedMessage))
      else Accepted(gameId.value, user, text.value)
  }

  /** An anonymous request is answered 401 whatever it carries: the handler does not run. */
  lemma AnonymousPostIgnoresRequest(g1: Option<int>, g2: Option<int>, t1: Option<string>, t2: Option<string>, s1: ScreenerOutcome, s2: ScreenerOutcome)
    ensures PostVerdict(None, g1, t1, s1) == PostVerdict(None, g2, t2, s2)
  {
  }

  /** A too short text is refused before the screener is consulted: its outcome makes no difference. */
  lemma ShortTextIsNotScreened(caller: Option<User>, gameId: Option<int>, text: Option<string>, s1: ScreenerOutcome, s2: ScreenerOutcome)
    requires caller.Some? && TooShort(text)
    ensures PostVerdict(caller, gameId, text, s1) == PostVerdict(caller, gameId, text, s2)
  {
  }

  /** Two non-space characters at least two positions apart, the first and last of a trimmed text of length at least 3. */
  predicate HasSpan(s: string)
  {
    exists i, j :: 0 <= i && i + 2 <= j < |s| && !IsJsSpace(s[i]) && !IsJsSpace(s[j])
  }

  /** A text is too short exactly when it is missing or has no two non-spaces at least two positions apart. */
  lemma TooShortIff(text: Option<string>)
    ensures TooShort(text) <==> text.None? || !HasSpan(text.value)
  {
    if text.Some? {
      if |Trim(text.value)| >= MinTextLength {
        LongTrimHasSpan(text.value);
      }
      if HasSpan(text.value) {
        SpanMakesLongTrim(text.value);
      }
    }
  }

  lemma LongTrimHasSpan(s: string)
    requires |Trim(s)| >= MinTextLength
    ensures HasSpan(s)
  {
    var r := Trim(s);
    var a := |s| - |TrimStart(s)|;
    assert r == s[a..a + |r|];
    assert s[a] == r[0];
    assert s[a + |r| - 1] == r[|r| - 1];
    assert 0 <= a && a + 2 <= a + |r| - 1 < |s|;
  }

  lemma SpanMakesLongTrim(s: string)
    requires HasSpan(s)
    ensures |Trim(s)| >= MinTextLength
  {
    var i, j :| 0 <= i && i + 2 <= j < |s| && !IsJsSpace(s[i]) && !IsJsSpace(s[j]);
    var r := Trim(s);
    var a := |s| - |TrimStart(s)|;
    assert a <= i;
    assert j < a + |r|;
  }

  /** Two characters are too short, and so is an empty or missing text; three are enough. */
  lemma ShortExamples()
    ensures TooShort(Some("hi")) && TooShort(Some("")) && TooShort(None)
    ensures !TooShort(Some("abc"))
  {
    assert "abc"[0] == 'a' && "abc"[2] == 'c';
    assert !IsJsSpace('a') && !IsJsSpace('c');
    assert TrimStart("abc") == "abc";
    assert TrimEnd("abc") == "abc";
  }

  /** The comment saved for an accepted post: the author's identity denormalised, the text as sent (not trimmed), approved. */
  function NewComment(id: nat, v: Verdict, now: int): (c: Comment)
    requires v.Accepted?
    ensures c.gameId == v.gameId && c.text == v.text && c.isApproved
    ensures c.userGoogleId == v.author.googleId && c.userName == v.author.displayName && c.userPhoto == v.author.photo
    ensures c.id == id && c.timestamp == now
  {
    Comment(id, v.gameId, v.author.googleId, v.author.displayName, v.author.photo, v.text, now, true)
  }

  // -------------------------------------------------------------- listing

  /** `Comment.find({ gameId, isApproved: true })`: the approved comments of one game, in stored order. */
  function ApprovedFor(comments: seq<Comment>, gameId: int): (r: seq<Comment>)
    ensures forall c :: c in r <==> c in comments && c.gameId == gameId && c.isApproved
    ensures |r| <= |comments|
  {
    if comments == [] then []
    else
      var rest := ApprovedFor(comments[1..], gameId);
      assert comments == [comments[0]] + comments[1..];
      if comments[0].gameId == gameId && comments[0].isApproved then [comments[0]] + rest else rest
  }

  /** The filter keeps each matching comment exactly as often as it is stored, and no other comment. */
  lemma {:induction false} ApprovedForCounts(comments: seq<Comment>, gameId: int)
    ensures forall c :: multiset(ApprovedFor(comments, gameId))[c]
                        == if c.gameId == gameId && c.isApproved then multiset(comments)[c] else 0
  {
    if comments != [] {
      ApprovedForCounts(comments[1..], gameId);
      assert comments == [comments[0]] + comments[1..];
    }
  }

  lemma {:induction false} ApprovedForAppend(comments: seq<Comment>, c: Comment, gameId: int)
    ensures ApprovedFor(comments + [c], gameId)
            == ApprovedFor(comments, gameId) + (if c.gameId == gameId && c.isApproved then [c] else [])
  {
    if comments == [] {
      assert comments + [c] == [c];
      assert [c][1..] == [];
    } else {
      var rest := comments[1..];
      assert (comments + [c])[0] == comments[0];
      assert (comments + [c])[1..] == rest + [c];
      ApprovedForAppend(rest, c, gameId);
    }
  }

  /** Timestamps never increase along `s`. */
  predicate NewestFirst(s: seq<Comment>)
  {
    forall i, j :: 0 <= i < j < |s| ==> s[i].timestamp >= s[j].timestamp
  }

  /** Puts `c` into a sequence just before the first comment that is not newer than it. */
  function Insert(c: Comment, s: seq<Comment>): (r: seq<Comment>)
    ensures multiset(r) == multiset(s) + multiset{c}
    ensures r != [] && (r[0] == c || (s != [] && r[0] == s[0]))
  {
    if s == [] then [c]
    else if c.timestamp >= s[0].timestamp then [c] + s
    else
      assert s == [s[0]] + s[1..];
      [s[0]] + Insert(c, s[1..])
  }

  /** Inserting into a newest-first sequence keeps it newest first. */
  lemma {:induction false} InsertKeepsOrder(c: Comment, s: seq<Comment>)
    requires NewestFirst(s)
    ensures NewestFirst(Insert(c, s))
  {
    if s != [] && c.timestamp < s[0].timestamp {
      var rest := Insert(c, s[1..]);
      InsertKeepsOrder(c, s[1..]);
      var r := [s[0]] + rest;
      assert Insert(c, s) == r;
      forall i, j | 0 <= i < j < |r| ensures r[i].timestamp >= r[j].timestamp {
        assert r[j] == rest[j - 1];
        if i == 0 {
          assert rest[0].timestamp <= s[0].timestamp;
          assert rest[0].timestamp >= rest[j - 1].timestamp;
        } else {
          assert r[i] == rest[i - 1];
        }
      }
    }
  }

  /** `.sort({ timestamp: -1 })`: the same comments, newest first. Comments with equal timestamps keep their stored order (the database leaves that order open). */
  function SortNewestFirst(s: seq<Comment>): (r: seq<Comment>)
    ensures NewestFirst(r)
    ensures multiset(r) == multiset(s)
  {
    if s == [] then []
    else
      assert s == [s[0]] + s[1..];
      var rest := SortNewestFirst(s[1..]);
      InsertKeepsOrder(s[0], rest);
      Insert(s[0], rest)
  }

  /** The replies of the listing route. */
  datatype ListReply = Listed(comments: seq<Comment>) | ListFailed500(message: string)

  /** A new comment strictly newer than every approved comment of its game is the first one listed for that game. */
  lemma PostedIsListedFirst(comments: seq<Comment>, c: Comment)
    requires c.isApproved
    requires forall x :: x in comments && x.gameId == c.gameId && x.isApproved ==> x.timestamp < c.timestamp
    ensures var listed := SortNewestFirst(ApprovedFor(comments + [c], c.gameId));
            |listed| > 0 && listed[0] == c
  {
    ApprovedForAppend(comments, c, c.gameId);
    var approved := ApprovedFor(comments + [c], c.gameId);
    var listed := SortNewestFirst(approved);
    assert c in multiset(approved);
    assert c in multiset(listed);
    var k :| 0 <= k < |listed| && listed[k] == c;
    assert listed[0] in multiset(approved);
    assert listed[0].timestamp >= c.timestamp;
  }

  /** The Comment collection. */
  class CommentStore {
    var comments: seq<Comment>
    var nextId: nat

    /** Document ids are distinct, and all below the next one to hand out. */
    ghost predicate Valid()
      reads this
    {
      IdsBelow(comments, nextId)
    }

    constructor ()
      ensures Valid() && comments == [] && nextId == 0
    {
      comments := [];
      nextId := 0;
    }

    /**
     * `GET /api/game/:id/comments`: exactly the stored approved comments of the
     * game, each as often as it is stored, newest first; 500 when the id is not a number.
     */
    function List(gameId: Option<int>): (r: ListReply)
      reads this
      ensures r.Listed? <==> gameId.Some?
      ensures r.ListFailed500? ==> r.message == ListFailedMessage
      ensures r.Listed? ==> NewestFirst(r.comments)
      ensures r.Listed? ==> multiset(r.comments) == multiset(ApprovedFor(comments, gameId.value))
      ensures r.Listed? ==> forall c :: c in r.comments <==> c in comments && c.gameId == gameId.value && c.isApproved
    {
      match gameId
      case None => ListFailed500(ListFailedMessage)
      case Some(g) =>
        var r := SortNewestFirst(ApprovedFor(comments, g));
        assert forall c :: c in r <==> c in multiset(ApprovedFor(comments, g));
        Listed(r)
    }

    /**
     * `POST /api/game/:id/comments`: saves exactly one comment when the post is
     * accepted and answers 201 with it; otherwise saves nothing. `now` is the
     * `Date.now` default of the timestamp.
     */
    method Post(caller: Option<User>, gameId: Option<int>, text: Option<string>, screen: ScreenerOutcome, now: int) returns (reply: Reply)
      requires Valid()
      modifies this
      ensures Valid()
      ensures var v := PostVerdict(caller, gameId, text, screen);
              v.Rejected? ==> reply == v.reply && comments == old(comments) && nextId == old(nextId)
      ensures var v := PostVerdict(caller, gameId, text, screen);
              v.Accepted? ==>
                var c := NewComment(old(nextId), v, now);
                reply == Created201(c) && comments == old(comments) + [c] && nextId == old(nextId) + 1
    {
      var v := PostVerdict(caller, gameId, text, screen);
      if v.Rejected? {
        reply := v.reply;
      } else {
        var c := NewComment(nextId, v, now);
        StoredAppendKeepsIds(comments, nextId, c);
        comments := comments + [c];
        nextId := nextId + 1;
        reply := Created201(c);
      }
    }
  }

  /** The document ids of `comments` are distinct and all below `nextId`. */
  ghost predicate IdsBelow(comments: seq<Comment>, nextId: nat)
  {
    && (forall i :: 0 <= i < |comments| ==> comments[i].id < nextId)
    && (forall i, j :: 0 <= i < j < |comments| ==> comments[i].id != comments[j].id)
  }

  /** Appending a comment with id `nextId` and moving the counter on keeps the ids distinct and below the counter. */
  lemma StoredAppendKeepsIds(comments: seq<Comment>, nextId: nat, c: Comment)
    requires IdsBelow(comments, nextId)
    requires c.id == nextId
    ensures IdsBelow(comments + [c], nextId + 1)
  {
  }
}
