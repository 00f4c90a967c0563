/**
 * The decision rules of the blog's request handlers: the WRITE gate of post
 * creation, the author-or-ADMIN gate of editing and deleting, the COMMENT gate
 * and the 60-second throttle of commenting, the rule that turns page -1 into
 * the last comment page, and the year / month / "m-d" grouping of the archive.
 * The post and comment tables are maps from id to row; a handler's outcome is
 * a `Response` instead of a rendered page, a redirect or an abort.
 */
module Views {
  import opened Optional
  import opened Permissions
  import opened Roles
  import opened Accounts

  /** The calendar part of a post's creation timestamp. */
  datatype Date = Date(year: int, month: nat, day: nat)

  datatype Post = Post(
    id: int,
    authorId: Option<int>,
    title: string,
    categoryId: int,
    summary: string,
    body: string,
    timestamp: Date)

  /** A comment row; `postId` is `None` once the post it belonged to is deleted. */
  datatype Comment = Comment(
    id: int,
    postId: Option<int>,
    body: string,
    userName: string,
    email: string,
    url: string,
    replayId: Option<int>)

  /** The submitted fields of a valid post form. */
  datatype PostDraft = PostDraft(title: string, categoryId: int, summary: string, body: string)

  /** The submitted fields of the comment form. */
  datatype CommentDraft = CommentDraft(body: string, userName: string, email: string, url: string,
                                       replayId: Option<int>)

  /** How a handler ends: a redirect to the login page, `abort(403)`, `abort(404)`,
      the throttle's "too frequent" response, the form page, or a committed change. */
  datatype Response = LoginRequired | Forbidden | NotFound | TooFrequent | FormShown | Done

  // ---------------------------------------------------------------- comment pages

  /** The `page` argument of the post view: -1 stands for the last page of a post
      with `count` comments, `per_page` to a page; any other value is kept. Python's
      `//` floors, which for a positive divisor is Dafny's `/`. */
  function ResolvePage(page: int, count: nat, perPage: nat): (r: int)
    requires perPage > 0
    ensures page != -1 ==> r == page
    ensures page == -1 && count >= 1 ==> r >= 1
  {
    if page == -1 then (count - 1) / perPage + 1 else page
  }

  lemma MulMono(q: nat, perPage: nat)
    requires perPage >= 1
    ensures q <= q * perPage
  {
  }

  /** Page -1 resolves to the page holding the last comment: a page between 1 and
      `count` whose range ((p-1)*per_page, p*per_page] contains `count`; with no
      comments it resolves to 0. Other page numbers are passed through. */
  lemma {:induction false} LastPageBounds(count: nat, perPage: nat)
    requires perPage > 0
    ensures count >= 1 ==>
              var p := ResolvePage(-1, count, perPage);
              1 <= p <= count && (p - 1) * perPage < count <= p * perPage
    ensures count == 0 ==> ResolvePage(-1, count, perPage) == 0
  {
    if count >= 1 {
      var q := (count - 1) / perPage;
      var rem := (count - 1) % perPage;
      assert count - 1 == q * perPage + rem && 0 <= rem < perPage;
      assert ResolvePage(-1, count, perPage) == q + 1;
      MulMono(q, perPage);
      assert (q + 1) * perPage == q * perPage + perPage;
    } else {
      assert -1 == (-1) * perPage + (perPage - 1);
      assert (count - 1) / perPage == -1;
    }
  }

  // ---------------------------------------------------------------- gates

  /** The author-or-ADMIN gate of `edit` and `delete_post`: the signed-in user may
      change a post it wrote, or any post when its role holds the ADMIN bit. */
  predicate MayModify(u: User, p: Post)
    reads u, u.role
    ensures MayModify(u, p) <==>
              p.authorId == Some(u.id) || (u.role != null && TestBit(u.role.permissions, 4))
  {
    CanAdminIsBit(u);
    !(Some(u.id) != p.authorId && !u.Can(ADMIN))
  }

  /** `can(ADMIN)` is the ADMIN bit of the user's role. */
  lemma CanAdminIsBit(u: User)
    ensures u.Can(ADMIN) <==> u.role != null && TestBit(u.role.permissions, 4)
  {
    if u.role != null {
      HasFlagIffBit(u.role.permissions, ADMIN);
    }
  }

  /** The throttle test of `add_comment`: a stored time that is truthy (present and
      not zero) and less than 60 seconds before `now`. */
  predicate Throttled(last: Option<real>, now: real)
    ensures Throttled(last, now) ==> last.Some? && now < last.value + 60.0
  {
    last.Some? && last.value != 0.0 && now - last.value < 60.0
  }

  /** Python truthiness of an optional integer id: present and not zero. */
  predicate Truthy(id: Option<int>) {
    id.Some? && id.value != 0
  }

  /** After a comment accepted at a non-zero time `first`, a request at `second` is
      throttled exactly when it comes less than 60 seconds later, so two accepted
      comments are at least 60 seconds apart; a stored time of zero is falsy and
      throttles nothing, nor does a session that has not yet commented. */
  lemma ThrottleSpacing(first: real, second: real)
    ensures first != 0.0 ==> (Throttled(Some(first), second) <==> second < first + 60.0)
    ensures !Throttled(Some(0.0), second)
    ensures !Throttled(None, second)
  {
  }

  /** The per-client session state the throttle keeps. */
  class Session {
    var lastCommentTime: Option<real>

    constructor ()
      ensures lastCommentTime == None
    {
      lastCommentTime := None;
    }
  }

  // ---------------------------------------------------------------- the tables

  class Blog {
    var posts: map<int, Post>
    var comments: map<int, Comment>

    /** Rows are stored under their own ids, and every truthy reply reference names
        an existing comment. */
    ghost predicate Valid()
      reads this
    {
      (forall i :: i in posts ==> posts[i].id == i) &&
      (forall i :: i in comments ==> comments[i].id == i) &&
      (forall i :: i in comments && Truthy(comments[i].replayId) ==> comments[i].replayId.value in comments)
    }

    constructor ()
      ensures posts == map[] && comments == map[]
      ensures Valid()
    {
      posts := map[];
      comments := map[];
    }

    /** `create_post`: an anonymous visitor is sent to log in; a user without WRITE
        gets 403; a valid form stores a new post authored by the user under the id the
        database hands out. Comments are never touched. */
    method CreatePost(s: Subject, draft: Option<PostDraft>, newId: int, today: Date)
      returns (r: Response)
      requires Valid() && newId !in posts
      modifies this
      ensures Valid() && comments == old(comments)
      ensures s.Anonymous? ==> r == LoginRequired
      ensures s.Member? && !s.user.Can(WRITE) ==> r == Forbidden
      ensures r == Done <==> s.Member? && s.user.Can(WRITE) && draft.Some?
      ensures r == Done ==>
                posts == old(posts)[newId := Post(newId, Some(s.user.id), draft.value.title,
                                                  draft.value.categoryId, draft.value.summary,
                                                  draft.value.body, today)]
      ensures r != Done ==> posts == old(posts)
    {
      if s.Anonymous? {
        return LoginRequired;
      }
      if !s.user.Can(WRITE) {
        return Forbidden;
      }
      if draft.None? {
        return FormShown;
      }
      var d := draft.value;
      posts := posts[newId := Post(newId, Some(s.user.id), d.title, d.categoryId, d.summary, d.body, today)];
      return Done;
    }

    /** `edit`: login first, then a missing post is 404, then the author-or-ADMIN
        gate is 403; a valid form replaces the title, category, summary and body and
        keeps the id, author and timestamp. */
    method EditPost(s: Subject, id: int, draft: Option<PostDraft>) returns (r: Response)
      requires Valid()
      modifies this
      ensures Valid() && comments == old(comments)
      ensures s.Anonymous? ==> r == LoginRequired
      ensures s.Member? && id !in old(posts) ==> r == NotFound
      ensures s.Member? && id in old(posts) && !MayModify(s.user, old(posts)[id]) ==> r == Forbidden
      ensures r == Done <==> s.Member? && id in old(posts) && MayModify(s.user, old(posts)[id]) && draft.Some?
      ensures r == Done ==>
                posts == old(posts)[id := old(posts)[id].(title := draft.value.title,
                                                          categoryId := draft.value.categoryId,
                                                          summary := draft.value.summary,
                                                          body := draft.value.body)]
      ensures r != Done ==> posts == old(posts)
    {
      if s.Anonymous? {
        return LoginRequired;
      }
      if id !in posts {
        return NotFound;
      }
      var post := posts[id];
      if !MayModify(s.user, post) {
        return Forbidden;
      }
      if draft.None? {
        return FormShown;
      }
      var d := draft.value;
      posts := posts[id := post.(title := d.title, categoryId := d.categoryId, summary := d.summary, body := d.body)];
      return Done;
    }

    /** `delete_post`: login first, then 404 for a missing post, then the
        author-or-ADMIN gate; an allowed request removes exactly that post. The
        `Post.comments` relationship has no delete cascade, so the ORM keeps the
        post's comments and clears their `post_id`. */
    method DeletePost(s: Subject, id: int) returns (r: Response)
      requires Valid()
      modifies this
      ensures Valid()
      ensures s.Anonymous? ==> r == LoginRequired
      ensures s.Member? && id !in old(posts) ==> r == NotFound
      ensures s.Member? && id in old(posts) && !MayModify(s.user, old(posts)[id]) ==> r == Forbidden
      ensures r == Done <==> s.Member? && id in old(posts) && MayModify(s.user, old(posts)[id])
      ensures r == Done ==> posts == old(posts) - {id}
      ensures r == Done ==> comments.Keys == old(comments).Keys
      ensures r == Done ==> forall c :: c in comments ==> comments[c].postId != Some(id)
      ensures r == Done ==>
                comments == map c | c in old(comments) ::
                  if old(comments)[c].postId == Some(id) then old(comments)[c].(postId := None)
                  else old(comments)[c]
      ensures r != Done ==> posts == old(posts) && comments == old(comments)
    {
      if s.Anonymous? {
        return LoginRequired;
      }
      if id !in posts {
        return NotFound;
      }
      if !MayModify(s.user, posts[id]) {
        return Forbidden;
      }
      posts := posts - {id};
      comments := map c | c in comments ::
        if comments[c].postId == Some(id) then comments[c].(postId := None) else comments[c];
      return Done;
    }

    /** `add_comment`: the COMMENT gate comes first and leaves the session alone; the
        throttle then rejects without touching the stored time; an accepted request
        stores `now` before the post and the replied-to comment are looked up, and
        stores the new comment only when both exist. Posts are never touched. */
    method AddComment(cfg: Config, s: Subject, session: Session, now: real, postId: int,
                      form: CommentDraft, newId: int) returns (r: Response)
      requires Valid() && newId !in comments
      modifies this, session
      ensures Valid() && posts == old(posts)
      ensures !SubjectCan(cfg, s, COMMENT) ==>
                r == Forbidden && session.lastCommentTime == old(session.lastCommentTime)
      ensures SubjectCan(cfg, s, COMMENT) && Throttled(old(session.lastCommentTime), now) ==>
                r == TooFrequent && session.lastCommentTime == old(session.lastCommentTime)
      ensures SubjectCan(cfg, s, COMMENT) && !Throttled(old(session.lastCommentTime), now) ==>
                session.lastCommentTime == Some(now)
      ensures SubjectCan(cfg, s, COMMENT) && !Throttled(old(session.lastCommentTime), now) &&
              (postId !in old(posts) || (Truthy(form.replayId) && form.replayId.value !in old(comments))) ==>
                r == NotFound
      ensures r == Done <==>
                SubjectCan(cfg, s, COMMENT) && !Throttled(old(session.lastCommentTime), now) &&
                postId in old(posts) && !(Truthy(form.replayId) && form.replayId.value !in old(comments))
      ensures r == Done ==>
                comments == old(comments)[newId := Comment(newId, Some(postId), form.body, form.userName,
                                                           form.email, form.url, form.replayId)]
      ensures r != Done ==> comments == old(comments)
    {
      if !SubjectCan(cfg, s, COMMENT) {
        return Forbidden;
      }
      if Throttled(session.lastCommentTime, now) {
        return TooFrequent;
      }
      session.lastCommentTime := Some(now);
      if postId !in posts {
        return NotFound;
      }
      if Truthy(form.replayId) && form.replayId.value !in comments {
        return NotFound;
      }
      comments := comments[newId := Comment(newId, Some(postId), form.body, form.userName,
                                            form.email, form.url, form.replayId)];
      return Done;
    }
  }

  // ---------------------------------------------------------------- the archive

  function Digit(d: nat): (c: char)
    requires d < 10
    ensures '0' <= c <= '9'
  {
    ('0' as int + d) as char
  }

  /** Python's `"%s" % n` for a non-negative integer: its decimal digits. */
  function NatToString(n: nat): (s: string)
    ensures |s| >= 1 && (n < 10 <==> |s| == 1)
    ensures forall i :: 0 <= i < |s| ==> '0' <= s[i] <= '9'
  {
    if n < 10 then [Digit(n)] else NatToString(n / 10) + [Digit(n % 10)]
  }

  /** Distinct numbers print differently. */
  lemma {:induction false} NatToStringInjective(a: nat, b: nat)
    requires NatToString(a) == NatToString(b)
    ensures a == b
  {
    if a < 10 || b < 10 {
      assert a < 10 && b < 10;
      assert Digit(a) == NatToString(a)[0] == NatToString(b)[0] == Digit(b);
    } else {
      var s := NatToString(a);
      var qa, ra, qb, rb := a / 10, a % 10, b / 10, b % 10;
      assert s == NatToString(qa) + [Digit(ra)] == NatToString(qb) + [Digit(rb)];
      assert NatToString(qa) == s[..|s| - 1] == NatToString(qb);
      NatToStringInjective(qa, qb);
      assert Digit(ra) == s[|s| - 1] == Digit(rb);
      assert a == 10 * qa + ra && b == 10 * qb + rb;
    }
  }

  /** The archive's day key, `"%s-%s" % (month, day)`. */
  function DateKey(d: Date): string {
    NatToString(d.month) + "-" + NatToString(d.day)
  }

  /** In a day key the first '-' sits right after the month's digits. */
  lemma DashFollowsMonth(m: string, d: string)
    requires forall i :: 0 <= i < |m| ==> '0' <= m[i] <= '9'
    ensures (m + "-" + d)[|m|] == '-'
    ensures forall i :: 0 <= i < |m| ==> (m + "-" + d)[i] != '-'
  {
  }

  /** Day keys identify the month and day: posts of different days never share a
      bucket, and the month key agrees with the month inside the day key. */
  lemma {:induction false} DateKeyInjective(d1: Date, d2: Date)
    requires DateKey(d1) == DateKey(d2)
    ensures d1.month == d2.month && d1.day == d2.day
  {
    var m1, m2 := NatToString(d1.month), NatToString(d2.month);
    var k := DateKey(d1);
    DashFollowsMonth(m1, NatToString(d1.day));
    DashFollowsMonth(m2, NatToString(d2.day));
    assert |m1| == |m2|;
    assert m1 == k[..|m1|] == m2;
    assert NatToString(d1.day) == k[|m1| + 1..] == NatToString(d2.day);
    NatToStringInjective(d1.month, d2.month);
    NatToStringInjective(d1.day, d2.day);
  }

  /** The grouping the archive builds: year -> month -> day key -> posts. */
  type Archive = map<int, map<int, map<string, seq<Post>>>>

  predicate InBucket(p: Post, y: int, m: int, k: string) {
    p.timestamp.year == y && p.timestamp.month == m && DateKey(p.timestamp) == k
  }

  /** The posts filed under `years[y][m][k]`, in query order. */
  function Bucket(posts: seq<Post>, y: int, m: int, k: string): (b: seq<Post>)
    ensures |b| <= |posts|
    ensures forall i :: 0 <= i < |b| ==> InBucket(b[i], y, m, k)
  {
    if posts == [] then []
    else
      var last := posts[|posts| - 1];
      Bucket(posts[..|posts| - 1], y, m, k) + (if InBucket(last, y, m, k) then [last] else [])
  }

  /** The list at `years[y][m][k]`, or nothing when a key on the path is missing. */
  function Find(years: Archive, y: int, m: int, k: string): Option<seq<Post>> {
    if y in years && m in years[y] && k in years[y][m] then Some(years[y][m][k]) else None
  }

  /** A bucket as the archive holds it: only non-empty lists are present. */
  function Present(b: seq<Post>): Option<seq<Post>> {
    if b == [] then None else Some(b)
  }

  /** No year maps to an empty month table and no month to an empty day table. */
  predicate NoEmptyLevels(years: Archive) {
    (forall y :: y in years ==> years[y] != map[]) &&
    (forall y, m :: y in years && m in years[y] ==> years[y][m] != map[])
  }

  /** `archive`: the nested table holds, under every year, month and day key, exactly
      the posts of that day in query order, and nothing else — no empty list, day table
      or month table. */
  method BuildArchive(posts: seq<Post>) returns (years: Archive)
    ensures forall y, m, k :: Find(years, y, m, k) == Present(Bucket(posts, y, m, k))
    ensures NoEmptyLevels(years)
  {
    years := map[];
    var i := 0;
    while i < |posts|
      invariant 0 <= i <= |posts|
      invariant forall y, m, k :: Find(years, y, m, k) == Present(Bucket(posts[..i], y, m, k))
      invariant NoEmptyLevels(years)
    {
      var post := posts[i];
      var y, m, k := post.timestamp.year, post.timestamp.month, DateKey(post.timestamp);
      var months := if y in years then years[y] else map[];
      var days := if m in months then months[m] else map[];
      var list := if k in days then days[k] else [];
      ghost var before := years;
      years := years[y := months[m := days[k := list + [post]]]];
      assert posts[..i + 1][..i] == posts[..i];
      forall y', m', k' ensures Find(years, y', m', k') == Present(Bucket(posts[..i + 1], y', m', k')) {
        assert Find(before, y', m', k') == Present(Bucket(posts[..i], y', m', k'));
        assert Bucket(posts[..i + 1], y', m', k') ==
               Bucket(posts[..i], y', m', k') + (if InBucket(post, y', m', k') then [post] else []);
        if y' == y && m' == m && k' == k {
          assert InBucket(post, y', m', k');
          assert Find(before, y, m, k) == if k in days then Some(list) else None;
          assert list == Bucket(posts[..i], y, m, k);
          assert Find(years, y, m, k) == Some(list + [post]);
          assert Bucket(posts[..i + 1], y', m', k') == list + [post];
          assert Find(years, y', m', k') == Present(Bucket(posts[..i + 1], y', m', k'));
        } else {
          assert !InBucket(post, y', m', k');
          assert Find(years, y', m', k') == Find(before, y', m', k');
          assert Bucket(posts[..i + 1], y', m', k') == Bucket(posts[..i], y', m', k');
          assert Find(years, y', m', k') == Present(Bucket(posts[..i + 1], y', m', k'));
        }
      }
      i := i + 1;
    }
    assert posts[..|posts|] == posts;
  }

  /** Filing distributes over concatenation, so each bucket keeps the relative order
      of the query. */
  lemma {:induction false} BucketAppend(a: seq<Post>, b: seq<Post>, y: int, m: int, k: string)
    ensures Bucket(a + b, y, m, k) == Bucket(a, y, m, k) + Bucket(b, y, m, k)
  {
    if b == [] {
      assert a + b == a;
    } else {
      var b' := b[..|b| - 1];
      assert (a + b)[..|a + b| - 1] == a + b';
      BucketAppend(a, b', y, m, k);
    }
  }

  /** Every post is filed exactly once: as often as the query returns it under the
      bucket of its own date, and never under any other bucket. */
  lemma {:induction false} BucketCount(posts: seq<Post>, p: Post, y: int, m: int, k: string)
    ensures multiset(Bucket(posts, y, m, k))[p] == if InBucket(p, y, m, k) then multiset(posts)[p] else 0
  {
    if posts != [] {
      var init := posts[..|posts| - 1];
      assert posts == init + [posts[|posts| - 1]];
      BucketCount(init, p, y, m, k);
    }
  }

  /** The archive lists every post under its own year, month and day key. */
  lemma {:induction false} ArchiveCoversEveryPost(posts: seq<Post>, years: Archive, i: int)
    requires forall y, m, k :: Find(years, y, m, k) == Present(Bucket(posts, y, m, k))
    requires 0 <= i < |posts|
    ensures var d := posts[i].timestamp;
            Find(years, d.year, d.month, DateKey(d)).Some? &&
            posts[i] in Find(years, d.year, d.month, DateKey(d)).value
  {
    var d := posts[i].timestamp;
    BucketCount(posts, posts[i], d.year, d.month, DateKey(d));
    assert posts[i] in multiset(posts);
    assert Find(years, d.year, d.month, DateKey(d)) == Present(Bucket(posts, d.year, d.month, DateKey(d)));
  }
}
