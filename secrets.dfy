/** The anonymous secret board (backend/routes/secrets.js; backend/controllers/secretController.js
    holds the same handlers): listing with authors hidden, posting, the like toggle,
    comments and the author-only soft delete, over an in-memory collection of secrets. */
module Secrets {
  import opened Wrappers
  import Sorting
  import Text
  import TextLength

  type UserId = nat
  type SecretId = nat

  /** The board shows at most this many secrets. */
  const PageSize := 50

  datatype Like = Like(user: UserId, createdAt: int)
  datatype Comment = Comment(content: string, author: UserId, isAnonymous: bool, createdAt: int)

  /** A stored secret document (models/Secret.js). */
  datatype Secret = Secret(
    id: SecretId, content: string, author: UserId, isAnonymous: bool,
    likes: seq<Like>, comments: seq<Comment>, isActive: bool, createdAt: int)

  /** A comment as the API sends it: `author` is `null` for an anonymous comment. */
  datatype CommentView = CommentView(content: string, author: Option<UserId>, isAnonymous: bool, createdAt: int)

  /** A secret as the API sends it: `author` is `null` for an anonymous secret. */
  datatype SecretView = SecretView(
    id: SecretId, content: string, author: Option<UserId>, isAnonymous: bool,
    likes: seq<Like>, comments: seq<CommentView>, isActive: bool, createdAt: int)

  function CreatedAtOf(s: Secret): int { s.createdAt }
  function ViewCreatedAtOf(v: SecretView): int { v.createdAt }

  /** An `isAnonymous` request field checked with `optional().isBoolean()`. */
  datatype Flag = Unset | Given(b: bool) | NotBoolean

  /** `isAnonymous = true` as a destructuring default. */
  function AnonymousOrDefault(f: Flag): bool
    requires !f.NotBoolean?
  {
    if f.Given? then f.b else true
  }

  /** `body('content').notEmpty().isLength({ max })` with an `optional().isBoolean()` flag. */
  predicate PostValid(content: Option<string>, max: nat, anonymous: Flag) {
    content.Some? && content.value != [] && TextLength.CheckedLen(content.value) <= max && !anonymous.NotBoolean?
  }

  /** A stored (trimmed) text that the schema's `required` and `maxlength: max` accept:
      not empty, and at most `max` UTF-16 units. */
  predicate ContentFits(text: string, max: nat) {
    text != [] && TextLength.Utf16Len(text) <= max
  }

  /** What `save()` checks of a secret: content within 1000 units, each comment within 500. */
  predicate SchemaAccepts(s: Secret) {
    ContentFits(s.content, 1000) && forall i :: 0 <= i < |s.comments| ==> ContentFits(s.comments[i].content, 500)
  }

  /** A comment that fits keeps a stored secret storable. */
  lemma CommentKeepsSchema(s: Secret, c: Comment)
    requires SchemaAccepts(s) && ContentFits(c.content, 500)
    ensures SchemaAccepts(s.(comments := s.comments + [c]))
  {
    var cs := s.comments + [c];
    forall i | 0 <= i < |cs| ensures ContentFits(cs[i].content, 500) {
      if i < |s.comments| {
        assert cs[i] == s.comments[i];
      }
    }
  }

  /** On plain text the request check leaves `save()` one way to fail: content that trims
      to nothing. */
  lemma PlainPostFits(content: Option<string>, max: nat, anonymous: Flag)
    requires PostValid(content, max, anonymous) && TextLength.Plain(content.value)
    ensures ContentFits(Text.Trim(content.value), max) <==> Text.Trim(content.value) != []
  {
    TextLength.PlainLengths(content.value);
    TextLength.TrimmedUnits(content.value);
  }

  // ---------------------------------------------------------------- the anonymity projection

  /** A comment in a response. */
  function ShowComment(c: Comment): (v: CommentView)
    ensures v.author.None? <==> c.isAnonymous
    ensures v.author.Some? ==> v.author.value == c.author
    ensures v.content == c.content && v.isAnonymous == c.isAnonymous && v.createdAt == c.createdAt
  {
    CommentView(c.content, if c.isAnonymous then None else Some(c.author), c.isAnonymous, c.createdAt)
  }

  /** A secret in a response, its comments shown one by one. */
  function Show(s: Secret): (v: SecretView)
    ensures v.author.None? <==> s.isAnonymous
    ensures v.author.Some? ==> v.author.value == s.author
    ensures v.id == s.id && v.content == s.content && v.createdAt == s.createdAt && v.isActive == s.isActive
    ensures v.likes == s.likes && |v.comments| == |s.comments|
    ensures forall i :: 0 <= i < |s.comments| ==> v.comments[i] == ShowComment(s.comments[i])
  {
    SecretView(s.id, s.content, if s.isAnonymous then None else Some(s.author), s.isAnonymous,
               s.likes, seq(|s.comments|, (i: int) requires 0 <= i < |s.comments| => ShowComment(s.comments[i])),
               s.isActive, s.createdAt)
  }

  /** Nothing in the response to an anonymous secret depends on who wrote it. */
  lemma AnonymousSecretHidesAuthor(s: Secret, other: UserId)
    requires s.isAnonymous
    ensures Show(s) == Show(s.(author := other))
  {
  }

  /** Nothing in the response depends on who wrote an anonymous comment. */
  lemma AnonymousCommentHidesAuthor(s: Secret, i: nat, other: UserId)
    requires i < |s.comments| && s.comments[i].isAnonymous
    ensures Show(s) == Show(s.(comments := s.comments[i := s.comments[i].(author := other)]))
  {
    var t := s.(comments := s.comments[i := s.comments[i].(author := other)]);
    assert ShowComment(s.comments[i]) == ShowComment(t.comments[i]);
    assert Show(s).comments == Show(t).comments;
  }

  // ---------------------------------------------------------------- listing

  /** `Secret.find({ isActive: true })`: the active secrets, each as often as it is stored. */
  function Active(docs: seq<Secret>): (r: seq<Secret>)
    ensures forall s :: multiset(r)[s] == if s.isActive then multiset(docs)[s] else 0
  {
    var active := (s: Secret) => s.isActive;
    Sorting.FilterCounts(docs, active);
    Sorting.Filter(docs, active)
  }

  /** `Secret.find({ isActive: true }).sort({ createdAt: -1 }).limit(50)`: the 50 newest
      active secrets (all of them when there are fewer), newest first. */
  function Newest(docs: seq<Secret>): (r: seq<Secret>)
    ensures forall i :: 0 <= i < |r| ==> r[i] in docs && r[i].isActive
    ensures Sorting.Descending(r, CreatedAtOf)
    ensures |r| == if |Active(docs)| < PageSize then |Active(docs)| else PageSize
    ensures Sorting.TopOf(r, multiset(Active(docs)), CreatedAtOf)
    ensures |Active(docs)| <= PageSize ==> multiset(r) == multiset(Active(docs))
  {
    var active := Active(docs);
    Sorting.LimitedTop(active, CreatedAtOf, PageSize);
    var r := Sorting.Limit(Sorting.SortDescending(active, CreatedAtOf), PageSize);
    forall i | 0 <= i < |r| ensures r[i] in docs && r[i].isActive {
      assert r[i] in multiset(active);
    }
    r
  }

  /** GET /api/secrets: the newest active secrets, projected. */
  function Board(docs: seq<Secret>): (r: seq<SecretView>)
    ensures |r| == |Newest(docs)| <= PageSize
    ensures forall i :: 0 <= i < |r| ==> r[i] == Show(Newest(docs)[i])
    ensures Sorting.Descending(r, ViewCreatedAtOf)
  {
    var top := Newest(docs);
    var r := seq(|top|, (i: int) requires 0 <= i < |top| => Show(top[i]));
    assert Sorting.Descending(r, ViewCreatedAtOf) by {
      forall i, j | 0 <= i < j < |r| ensures ViewCreatedAtOf(r[i]) >= ViewCreatedAtOf(r[j]) {
        assert CreatedAtOf(top[i]) >= CreatedAtOf(top[j]);
      }
    }
    r
  }

  /** No two documents share an id. */
  ghost predicate IdsDistinct(docs: seq<Secret>) {
    forall i, j :: 0 <= i < j < |docs| ==> docs[i].id != docs[j].id
  }

  /** A collection of secrets as the store keeps it: ids distinct and below `nextId`, and
      every secret one the schema accepted. */
  ghost predicate Stored(docs: seq<Secret>, nextId: nat) {
    IdsDistinct(docs) && forall i :: 0 <= i < |docs| ==> docs[i].id < nextId && SchemaAccepts(docs[i])
  }

  /** Saving a secret back under its own id keeps the collection stored. */
  lemma ReplaceKeepsStored(docs: seq<Secret>, nextId: nat, k: nat, s: Secret)
    requires Stored(docs, nextId) && k < |docs| && s.id == docs[k].id && SchemaAccepts(s)
    ensures Stored(docs[k := s], nextId)
  {
    var after := docs[k := s];
    forall i, j | 0 <= i < j < |after| ensures after[i].id != after[j].id {
      assert after[i].id == docs[i].id && after[j].id == docs[j].id;
    }
  }

  /** A new secret that takes the next id and passed the schema keeps the collection stored. */
  lemma AppendKeepsStored(docs: seq<Secret>, nextId: nat, s: Secret)
    requires Stored(docs, nextId) && s.id == nextId && SchemaAccepts(s)
    ensures Stored(docs + [s], nextId + 1)
  {
    var after := docs + [s];
    forall i, j | 0 <= i < j < |after| ensures after[i].id != after[j].id {
      assert after[i] == docs[i];
    }
  }

  /** A soft-deleted secret drops out of the board. */
  lemma DeletedNotListed(docs: seq<Secret>, k: nat)
    requires IdsDistinct(docs) && k < |docs|
    ensures var board := Board(docs[k := docs[k].(isActive := false)]);
      forall i :: 0 <= i < |board| ==> board[i].id != docs[k].id
  {
    var after := docs[k := docs[k].(isActive := false)];
    var top := Newest(after);
    forall i | 0 <= i < |top| ensures top[i].id != docs[k].id {
      assert top[i] in after && top[i].isActive;
      var j :| 0 <= j < |after| && after[j] == top[i];
      assert j != k;
    }
    var board := Board(after);
    assert |board| == |top| && forall i :: 0 <= i < |board| ==> board[i] == Show(top[i]);
  }

  // ---------------------------------------------------------------- likes

  /** The users who like a secret. */
  function Likers(likes: seq<Like>): set<UserId> {
    set i | 0 <= i < |likes| :: likes[i].user
  }

  /** `secret.likes.filter(like => like.user !== user)`. */
  function Unliked(likes: seq<Like>, user: UserId): (r: seq<Like>)
    ensures Likers(r) == Likers(likes) - {user}
    ensures |r| <= |likes|
  {
    var others := (l: Like) => l.user != user;
    var r := Sorting.Filter(likes, others);
    Sorting.FilterCounts(likes, others);
    assert forall u :: u in Likers(r) ==> u in Likers(likes) - {user} by {
      forall u | u in Likers(r) ensures u in Likers(likes) - {user} {
        var i :| 0 <= i < |r| && r[i].user == u;
        assert r[i] in likes;
        var j :| 0 <= j < |likes| && likes[j] == r[i];
      }
    }
    assert forall u :: u in Likers(likes) - {user} ==> u in Likers(r) by {
      forall u | u in Likers(likes) - {user} ensures u in Likers(r) {
        var i :| 0 <= i < |likes| && likes[i].user == u;
        assert likes[i] in r;
        var j :| 0 <= j < |r| && r[j] == likes[i];
      }
    }
    r
  }

  /** The like toggle: a user who likes the secret stops liking it (every like of theirs
      goes), anyone else adds one like at the end. */
  function Toggled(likes: seq<Like>, user: UserId, now: int): (r: seq<Like>)
    ensures user in Likers(likes) ==> Likers(r) == Likers(likes) - {user}
    ensures user !in Likers(likes) ==> Likers(r) == Likers(likes) + {user}
  {
    if user in Likers(likes) then Unliked(likes, user)
    else
      var r := likes + [Like(user, now)];
      assert Likers(r) == Likers(likes) + {user} by {
        assert r[|likes|].user == user;
        forall u | u in Likers(r) ensures u in Likers(likes) + {user} {
          var i :| 0 <= i < |r| && r[i].user == u;
          if i < |likes| { assert r[i] == likes[i]; }
        }
        forall u | u in Likers(likes) ensures u in Likers(r) {
          var i :| 0 <= i < |likes| && likes[i].user == u;
          assert r[i] == likes[i];
        }
      }
      r
  }

  /** Toggling twice gives the same set of likers. */
  lemma {:induction false} ToggleTwice(likes: seq<Like>, user: UserId, t1: int, t2: int)
    ensures Likers(Toggled(Toggled(likes, user, t1), user, t2)) == Likers(likes)
  {
    var once := Toggled(likes, user, t1);
    if user in Likers(likes) {
      assert user !in Likers(once);
    } else {
      assert user in Likers(once);
    }
  }

  /** Liking and then unliking restores the likes exactly. */
  lemma {:induction false} LikeThenUnlike(likes: seq<Like>, user: UserId, t1: int, t2: int)
    requires user !in Likers(likes)
    ensures Toggled(Toggled(likes, user, t1), user, t2) == likes
  {
    var once := likes + [Like(user, t1)];
    assert user in Likers(once) by { assert once[|likes|].user == user; }
    assert forall i :: 0 <= i < |likes| ==> likes[i].user != user;
    Sorting.FilterAppend(likes, [Like(user, t1)], (l: Like) => l.user != user);
    FilterKeepsAll(likes, user);
  }

  lemma {:induction false} FilterKeepsAll(likes: seq<Like>, user: UserId)
    requires forall i :: 0 <= i < |likes| ==> likes[i].user != user
    ensures Sorting.Filter(likes, (l: Like) => l.user != user) == likes
    decreases |likes|
  {
    if likes != [] {
      FilterKeepsAll(likes[1..], user);
    }
  }

  /** The body of the like response. */
  datatype LikeResult = LikeResult(message: string, likesCount: nat, isLiked: bool)

  /** The secret collection. */
  class SecretBoard {
    var docs: seq<Secret>
    var nextId: nat

    /** Ids are distinct and below `nextId`, and every stored secret passed the schema. */
    ghost predicate Valid()
      reads this
    {
      Stored(docs, nextId)
    }

    constructor ()
      ensures Valid() && docs == [] && nextId == 0
    {
      docs, nextId := [], 0;
    }

    /** GET /api/secrets. */
    method GetSecrets() returns (r: seq<SecretView>)
      ensures r == Board(docs)
    {
      r := Board(docs);
    }

    /** POST /api/secrets: the schema trims the content and measures it in UTF-16 units, so
        blank or too long content is refused at save. */
    method CreateSecret(user: UserId, content: Option<string>, isAnonymous: Flag, now: int)
      returns (r: Outcome<SecretView>)
      requires Valid()
      modifies this
      ensures Valid()
      ensures !PostValid(content, 1000, isAnonymous) ==> r == Fail(400, ValidationFailed)
      ensures PostValid(content, 1000, isAnonymous) && !ContentFits(Text.Trim(content.value), 1000)
              ==> r == Fail(500, ServerError)
      ensures PostValid(content, 1000, isAnonymous) && ContentFits(Text.Trim(content.value), 1000) ==> r.Ok?
      ensures r.Fail? ==> docs == old(docs) && nextId == old(nextId)
      ensures r.Ok? ==>
        var s := Secret(old(nextId), Text.Trim(content.value), user, AnonymousOrDefault(isAnonymous), [], [], true, now);
        && docs == old(docs) + [s] && nextId == old(nextId) + 1
        && r.value == Show(s)
    {
      if !PostValid(content, 1000, isAnonymous) {
        return Fail(400, ValidationFailed);
      }
      var text := Text.Trim(content.value);
      if !ContentFits(text, 1000) {
        return Fail(500, ServerError);
      }
      var s := Secret(nextId, text, user, AnonymousOrDefault(isAnonymous), [], [], true, now);
      AppendKeepsStored(docs, nextId, s);
      docs, nextId := docs + [s], nextId + 1;
      r := Ok(Show(s));
    }

    /** POST /api/secrets/:id/like. `findById` does not look at `isActive`. */
    method ToggleLike(id: SecretId, user: UserId, now: int) returns (r: Outcome<LikeResult>)
      requires Valid()
      modifies this
      ensures Valid() && nextId == old(nextId)
      ensures var k := Sorting.FindFirst(old(docs), (s: Secret) => s.id == id);
        && (k.None? ==> r == Fail(404, "Secret not found") && docs == old(docs))
        && (k.Some? ==>
              var likes := old(docs)[k.value].likes;
              var liked := user in Likers(likes);
              && docs == old(docs)[k.value := old(docs)[k.value].(likes := Toggled(likes, user, now))]
              && r == Ok(LikeResult(if liked then "Secret unliked" else "Secret liked",
                                    |Toggled(likes, user, now)|, !liked)))
    {
      var k := Sorting.FindFirst(docs, (s: Secret) => s.id == id);
      if k.None? {
        return Fail(404, "Secret not found");
      }
      var secret := docs[k.value];
      var existing := Sorting.FindFirst(secret.likes, (l: Like) => l.user == user);
      assert existing.Some? <==> user in Likers(secret.likes);
      var likes := secret.likes;
      if existing.Some? {
        likes := Sorting.Filter(likes, (l: Like) => l.user != user);
      } else {
        likes := likes + [Like(user, now)];
      }
      ReplaceKeepsStored(docs, nextId, k.value, secret.(likes := likes));
      docs := docs[k.value := secret.(likes := likes)];
      r := Ok(LikeResult(if existing.Some? then "Secret unliked" else "Secret liked", |likes|, existing.None?));
    }

    /** POST /api/secrets/:id/comment: the new comment goes last and is the one returned. */
    method AddComment(id: SecretId, user: UserId, content: Option<string>, isAnonymous: Flag, now: int)
      returns (r: Outcome<CommentView>)
      requires Valid()
      modifies this
      ensures Valid() && nextId == old(nextId)
      ensures r.Fail? ==> docs == old(docs)
      ensures !PostValid(content, 500, isAnonymous) ==> r == Fail(400, ValidationFailed)
      ensures PostValid(content, 500, isAnonymous) ==>
        var k := Sorting.FindFirst(old(docs), (s: Secret) => s.id == id);
        && (k.None? ==> r == Fail(404, "Secret not found"))
        && (k.Some? && !ContentFits(Text.Trim(content.value), 500) ==> r == Fail(500, ServerError))
        && (k.Some? && ContentFits(Text.Trim(content.value), 500) ==>
              var c := Comment(Text.Trim(content.value), user, AnonymousOrDefault(isAnonymous), now);
              var s := old(docs)[k.value];
              && docs == old(docs)[k.value := s.(comments := s.comments + [c])]
              && r == Ok(ShowComment(c)))
    {
      if !PostValid(content, 500, isAnonymous) {
        return Fail(400, ValidationFailed);
      }
      var k := Sorting.FindFirst(docs, (s: Secret) => s.id == id);
      if k.None? {
        return Fail(404, "Secret not found");
      }
      var text := Text.Trim(content.value);
      if !ContentFits(text, 500) {
        return Fail(500, ServerError);
      }
      var secret := docs[k.value];
      assert SchemaAccepts(secret);
      var c := Comment(text, user, AnonymousOrDefault(isAnonymous), now);
      var comments := secret.comments + [c];
      CommentKeepsSchema(secret, c);
      ReplaceKeepsStored(docs, nextId, k.value, secret.(comments := comments));
      docs := docs[k.value := secret.(comments := comments)];
      r := Ok(ShowComment(c));
    }

    /** DELETE /api/secrets/:id: only the author's own secret is found, and it is only flagged. */
    method DeleteSecret(id: SecretId, user: UserId) returns (r: Outcome<string>)
      requires Valid()
      modifies this
      ensures Valid() && nextId == old(nextId)
      ensures var k := Sorting.FindFirst(old(docs), (s: Secret) => s.id == id && s.author == user);
        && (k.None? ==> r == Fail(404, "Secret not found or unauthorized") && docs == old(docs))
        && (k.Some? ==> r == Ok("Secret deleted successfully")
                        && docs == old(docs)[k.value := old(docs)[k.value].(isActive := false)])
    {
      var k := Sorting.FindFirst(docs, (s: Secret) => s.id == id && s.author == user);
      if k.None? {
        return Fail(404, "Secret not found or unauthorized");
      }
      ReplaceKeepsStored(docs, nextId, k.value, docs[k.value].(isActive := false));
      docs := docs[k.value := docs[k.value].(isActive := false)];
      r := Ok("Secret deleted successfully");
    }
  }
}
