/** The meme feed (src/components/MemeFeed.tsx): every meme is paired with its
    upvote count and the current user's upvote, and the pairs are sorted by the
    selected order.  The backend query is a parameter: the lists of memes and
    upvotes it returned. */
module Feed {
  import opened Wrappers
  import opened Records

  /** The feed's one piece of state, the order selector ("newest" by default). */
  datatype SortOption = Newest | Popular

  const DEFAULT_SORT: SortOption := Newest

  datatype MemeEntry = MemeEntry(meme: Meme, upvoteCount: nat, hasUpvoted: bool, userUpvoteId: Option<string>)

  /** `memeUpvotes.find((u) => u.oderId === currentUserId)`. */
  function FindByVoter(ups: seq<Upvote>, userId: string): (r: Option<Upvote>)
    ensures r.Some? ==> r.value in ups && r.value.oderId == userId
    ensures r.None? <==> forall u :: u in ups ==> u.oderId != userId
  {
    if ups == [] then None
    else if ups[0].oderId == userId then Some(ups[0])
    else FindByVoter(ups[1..], userId)
  }

  /** The aggregate of one meme. */
  function Entry(meme: Meme, ups: seq<Upvote>, userId: string): (r: MemeEntry)
    ensures r.meme == meme && r.upvoteCount <= |ups|
    ensures r.userUpvoteId.Some? <==> r.hasUpvoted
    ensures r.hasUpvoted <==> exists u :: u in ups && VoteBy(u, meme.id, userId)
    ensures r.hasUpvoted ==>
      r.upvoteCount >= 1 && exists u :: u in ups && VoteBy(u, meme.id, userId) && r.userUpvoteId == Some(u.id)
  {
    var memeUpvotes := UpvotesFor(ups, meme.id);
    var userUpvote := FindByVoter(memeUpvotes, userId);
    MemeEntry(meme, |memeUpvotes|, userUpvote.Some?, if userUpvote.Some? then Some(userUpvote.value.id) else None)
  }

  /** `memeData`: one entry per meme, in the order of the query's memes. */
  function Aggregate(memes: seq<Meme>, ups: seq<Upvote>, userId: string): (r: seq<MemeEntry>)
    ensures |r| == |memes|
    ensures forall i :: 0 <= i < |memes| ==> r[i].meme == memes[i]
    ensures forall i :: 0 <= i < |memes| ==> r[i] == Entry(memes[i], ups, userId)
  {
    if memes == [] then [] else [Entry(memes[0], ups, userId)] + Aggregate(memes[1..], ups, userId)
  }

  /** `u` is an upvote of meme `memeId` by user `userId`. */
  predicate VoteBy(u: Upvote, memeId: string, userId: string) {
    u.memeId == memeId && u.oderId == userId
  }

  /** Index `k` holds the first upvote of `memeId` by `userId`. */
  predicate IsFirstVote(ups: seq<Upvote>, memeId: string, userId: string, k: int) {
    0 <= k < |ups| && VoteBy(ups[k], memeId, userId) && forall i :: 0 <= i < k ==> !VoteBy(ups[i], memeId, userId)
  }

  /** Filtering by meme and then finding by voter finds the first upvote, in the
      query's order, that is by that voter for that meme. */
  lemma {:induction false} FindAfterFilter(ups: seq<Upvote>, memeId: string, userId: string)
    ensures var r := FindByVoter(UpvotesFor(ups, memeId), userId);
      (r.None? <==> forall i :: 0 <= i < |ups| ==> !VoteBy(ups[i], memeId, userId)) &&
      (forall k :: IsFirstVote(ups, memeId, userId, k) ==> r == Some(ups[k]))
    decreases |ups|
  {
    if ups != [] {
      var tail := ups[1..];
      FindAfterFilter(tail, memeId, userId);
      forall k | IsFirstVote(ups, memeId, userId, k) && k > 0
        ensures IsFirstVote(tail, memeId, userId, k - 1)
      {
        assert forall i :: 0 <= i < k - 1 ==> tail[i] == ups[i + 1];
      }
      assert forall i :: 0 < i < |ups| ==> ups[i] == tail[i - 1];
    }
  }

  /** What an entry says about a meme: the number of upvotes for it, whether the
      user has one of them, and the id of the user's first one. */
  lemma EntryMeaning(meme: Meme, ups: seq<Upvote>, userId: string)
    ensures Entry(meme, ups, userId).upvoteCount == multiset(MemeIds(ups))[meme.id]
    ensures Entry(meme, ups, userId).hasUpvoted <==> exists i :: 0 <= i < |ups| && VoteBy(ups[i], meme.id, userId)
    ensures Entry(meme, ups, userId).userUpvoteId.None? <==> !Entry(meme, ups, userId).hasUpvoted
    ensures forall k :: IsFirstVote(ups, meme.id, userId, k) ==> Entry(meme, ups, userId).userUpvoteId == Some(ups[k].id)
  {
    UpvotesForCount(ups, meme.id);
    FindAfterFilter(ups, meme.id, userId);
  }

  /** The first upvote by a user exists whenever the user has upvoted at all. */
  lemma {:induction false} FirstVoteExists(ups: seq<Upvote>, memeId: string, userId: string, j: int)
    requires 0 <= j < |ups| && VoteBy(ups[j], memeId, userId)
    ensures exists k :: IsFirstVote(ups, memeId, userId, k)
    decreases j
  {
    if !IsFirstVote(ups, memeId, userId, j) {
      var i :| 0 <= i < j && VoteBy(ups[i], memeId, userId);
      FirstVoteExists(ups, memeId, userId, i);
    }
  }

  // ---------------------------------------------------------------------------
  // Ordering

  /** The comparator handed to `sort`: negative when `a` goes first.  "newest"
      compares creation times, latest first; "popular" compares upvote counts, most
      first, and falls back to creation times. */
  function Cmp(a: MemeEntry, b: MemeEntry, order: SortOption): (r: int)
    ensures order == Newest ==>
      (r < 0 <==> a.meme.createdAt > b.meme.createdAt) && (r == 0 <==> a.meme.createdAt == b.meme.createdAt)
    ensures order == Popular ==>
      (r < 0 <==> a.upvoteCount > b.upvoteCount ||
                  (a.upvoteCount == b.upvoteCount && a.meme.createdAt > b.meme.createdAt)) &&
      (r == 0 <==> a.upvoteCount == b.upvoteCount && a.meme.createdAt == b.meme.createdAt)
  {
    match order
    case Newest => b.meme.createdAt - a.meme.createdAt
    case Popular =>
      if b.upvoteCount != a.upvoteCount then b.upvoteCount - a.upvoteCount
      else b.meme.createdAt - a.meme.createdAt
  }

  /** `a` may precede `b`. */
  predicate InOrder(a: MemeEntry, b: MemeEntry, order: SortOption) {
    Cmp(a, b, order) <= 0
  }

  predicate Sorted(s: seq<MemeEntry>, order: SortOption) {
    forall i, j :: 0 <= i < j < |s| ==> InOrder(s[i], s[j], order)
  }

  /** The comparator is a total preorder. */
  lemma CmpTotalPreorder(a: MemeEntry, b: MemeEntry, c: MemeEntry, order: SortOption)
    ensures InOrder(a, b, order) || InOrder(b, a, order)
    ensures InOrder(a, b, order) && InOrder(b, c, order) ==> InOrder(a, c, order)
    ensures Cmp(a, b, order) == -Cmp(b, a, order)
  {
  }

  lemma SortedCons(x: MemeEntry, s: seq<MemeEntry>, order: SortOption)
    requires Sorted(s, order)
    requires forall j :: 0 <= j < |s| ==> InOrder(x, s[j], order)
    ensures Sorted([x] + s, order)
  {
    var r := [x] + s;
    forall i, j | 0 <= i < j < |r| ensures InOrder(r[i], r[j], order) {
      if i > 0 {
        assert r[i] == s[i - 1] && r[j] == s[j - 1];
      }
    }
  }

  /** Inserting `x` into a sorted list before the first element it may precede.
      Equal elements already in the list stay behind `x`, which came before them. */
  function Insert(x: MemeEntry, s: seq<MemeEntry>, order: SortOption): (r: seq<MemeEntry>)
    requires Sorted(s, order)
    ensures Sorted(r, order)
    ensures multiset(r) == multiset(s) + multiset{x}
    ensures |r| == |s| + 1
    decreases |s|
  {
    if s == [] then [x]
    else if InOrder(x, s[0], order) then
      assert forall j :: 0 <= j < |s| ==> InOrder(x, s[j], order) by {
        forall j | 0 <= j < |s| ensures InOrder(x, s[j], order) {
          CmpTotalPreorder(x, s[0], s[j], order);
        }
      }
      SortedCons(x, s, order);
      [x] + s
    else
      var rest := Insert(x, s[1..], order);
      assert forall j :: 0 <= j < |rest| ==> InOrder(s[0], rest[j], order) by {
        forall j | 0 <= j < |rest| ensures InOrder(s[0], rest[j], order) {
          assert rest[j] in multiset(rest);
          if rest[j] != x {
            assert rest[j] in multiset(s[1..]);
            var k :| 0 <= k < |s[1..]| && s[1..][k] == rest[j];
            assert s[k + 1] == rest[j];
          } else {
            CmpTotalPreorder(x, s[0], x, order);
          }
        }
      }
      SortedCons(s[0], rest, order);
      assert s == [s[0]] + s[1..];
      [s[0]] + rest
  }

  /** `[...memeData].sort(cmp)`: a sorted permutation of the entries.  As a value, the
      input is left as it was. */
  function SortFeed(s: seq<MemeEntry>, order: SortOption): (r: seq<MemeEntry>)
    ensures Sorted(r, order)
    ensures multiset(r) == multiset(s)
    ensures |r| == |s|
    decreases |s|
  {
    if s == [] then []
    else
      assert s == [s[0]] + s[1..];
      Insert(s[0], SortFeed(s[1..], order), order)
  }

  /** The entries of `s` the comparator ties with `e`, in the order of `s`. */
  function Ties(s: seq<MemeEntry>, e: MemeEntry, order: SortOption): (r: seq<MemeEntry>)
    ensures forall x :: x in r <==> x in s && Cmp(x, e, order) == 0
    decreases |s|
  {
    if s == [] then []
    else if Cmp(s[0], e, order) == 0 then [s[0]] + Ties(s[1..], e, order)
    else Ties(s[1..], e, order)
  }

  /** The inserted entry goes in front of every entry it ties with. */
  lemma {:induction false} TiesInsert(x: MemeEntry, s: seq<MemeEntry>, e: MemeEntry, order: SortOption)
    requires Sorted(s, order)
    ensures Ties(Insert(x, s, order), e, order)
         == if Cmp(x, e, order) == 0 then [x] + Ties(s, e, order) else Ties(s, e, order)
    decreases |s|
  {
    if s != [] && !InOrder(x, s[0], order) {
      TiesInsert(x, s[1..], e, order);
      assert Insert(x, s, order) == [s[0]] + Insert(x, s[1..], order);
    }
  }

  /** The sort is stable: entries the comparator ties keep their relative order, as
      JavaScript's `Array.prototype.sort` guarantees. */
  lemma {:induction false} SortFeedStable(s: seq<MemeEntry>, e: MemeEntry, order: SortOption)
    ensures Ties(SortFeed(s, order), e, order) == Ties(s, e, order)
    decreases |s|
  {
    if s != [] {
      SortFeedStable(s[1..], e, order);
      TiesInsert(s[0], SortFeed(s[1..], order), e, order);
    }
  }

  /** The feed as shown: aggregated, then sorted. */
  function ShownFeed(memes: seq<Meme>, ups: seq<Upvote>, userId: string, order: SortOption): (r: seq<MemeEntry>)
    ensures multiset(r) == multiset(Aggregate(memes, ups, userId))
  {
    SortFeed(Aggregate(memes, ups, userId), order)
  }

  /** Under "newest" the creation times never increase along the feed. */
  lemma NewestOrder(s: seq<MemeEntry>)
    ensures var r := SortFeed(s, Newest);
      forall i, j :: 0 <= i < j < |r| ==> r[i].meme.createdAt >= r[j].meme.createdAt
  {
    var r := SortFeed(s, Newest);
    forall i, j | 0 <= i < j < |r| ensures r[i].meme.createdAt >= r[j].meme.createdAt {
      assert InOrder(r[i], r[j], Newest);
    }
  }

  /** Under "popular" the counts never increase along the feed, and among equal
      counts the creation times never increase. */
  lemma PopularOrder(s: seq<MemeEntry>)
    ensures var r := SortFeed(s, Popular);
      forall i, j :: 0 <= i < j < |r| ==> r[i].upvoteCount >= r[j].upvoteCount
    ensures var r := SortFeed(s, Popular);
      forall i, j :: 0 <= i < j < |r| && r[i].upvoteCount == r[j].upvoteCount ==>
        r[i].meme.createdAt >= r[j].meme.createdAt
  {
    var r := SortFeed(s, Popular);
    forall i, j | 0 <= i < j < |r| ensures r[i].upvoteCount >= r[j].upvoteCount {
      assert InOrder(r[i], r[j], Popular);
    }
  }

  /** The feed opens on the default order, so the newest memes come first. */
  lemma OpeningFeedNewestFirst(memes: seq<Meme>, ups: seq<Upvote>, userId: string)
    ensures var r := ShownFeed(memes, ups, userId, DEFAULT_SORT);
      forall i, j :: 0 <= i < j < |r| ==> r[i].meme.createdAt >= r[j].meme.createdAt
  {
    NewestOrder(Aggregate(memes, ups, userId));
  }

  /** Every meme of the query appears in the shown feed, with its own aggregate. */
  lemma ShownFeedHasEveryMeme(memes: seq<Meme>, ups: seq<Upvote>, userId: string, order: SortOption, i: int)
    requires 0 <= i < |memes|
    ensures Entry(memes[i], ups, userId) in ShownFeed(memes, ups, userId, order)
  {
    var agg := Aggregate(memes, ups, userId);
    assert agg[i] in multiset(agg);
  }
}
