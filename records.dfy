/** The records the app keeps in its hosted backend (`memes`, `upvotes`) and the
    write operations it sends there.  The backend itself is a foreign service; it is
    modelled as an in-memory `Store` of two record lists, and a transaction as a list
    of `Tx` values applied in order. */
module Records {
  import opened Wrappers

  /** A published meme, as read back by the feed (src/lib/instant.ts:7-15). */
  datatype Meme = Meme(
    id: string,
    imageUrl: string,
    topText: string,
    bottomText: string,
    authorId: string,
    authorEmail: string,
    createdAt: int)

  /** An upvote; the voter field really is spelled `oderId` in the app. */
  datatype Upvote = Upvote(id: string, memeId: string, oderId: string)

  /** One backend write.  `CreateUpvote` gets its fresh id from the client-side
      id generator, which is a parameter of `Apply`. */
  datatype Tx =
    | DeleteUpvote(upvoteId: string)
    | CreateUpvote(memeId: string, oderId: string)
    | DeleteMeme(memeId: string)

  /** The record `handlePost` writes for a new meme.  Note that it stores the image
      under `imageBase64`, while a `Meme` as read back carries `imageUrl`. */
  datatype MemeDraft = MemeDraft(
    imageBase64: string,
    topText: string,
    bottomText: string,
    authorId: string,
    authorEmail: string,
    createdAt: int)

  datatype Store = Store(memes: seq<Meme>, upvotes: seq<Upvote>)

  /** `upvotes.filter((u) => u.memeId === memeId)`: the upvotes of one meme. */
  function UpvotesFor(ups: seq<Upvote>, memeId: string): (r: seq<Upvote>)
    ensures |r| <= |ups|
    ensures forall u :: u in r <==> u in ups && u.memeId == memeId
    ensures multiset(r) <= multiset(ups)
  {
    if ups == [] then []
    else
      assert ups == [ups[0]] + ups[1..];
      if ups[0].memeId == memeId then [ups[0]] + UpvotesFor(ups[1..], memeId)
      else UpvotesFor(ups[1..], memeId)
  }

  /** The meme ids of a list of upvotes, one per upvote, in order. */
  function MemeIds(ups: seq<Upvote>): (r: seq<string>)
    ensures |r| == |ups|
    ensures forall i :: 0 <= i < |ups| ==> r[i] == ups[i].memeId
  {
    if ups == [] then [] else [ups[0].memeId] + MemeIds(ups[1..])
  }

  /** The filter keeps exactly as many upvotes as there are occurrences of the meme id
      among all upvotes' meme ids. */
  lemma {:induction false} UpvotesForCount(ups: seq<Upvote>, memeId: string)
    ensures |UpvotesFor(ups, memeId)| == multiset(MemeIds(ups))[memeId]
  {
    if ups != [] {
      UpvotesForCount(ups[1..], memeId);
      assert MemeIds(ups) == [ups[0].memeId] + MemeIds(ups[1..]);
    }
  }

  /** Every id in the list occurs once. */
  predicate UniqueIds(ups: seq<Upvote>) {
    forall i, j :: 0 <= i < j < |ups| ==> ups[i].id != ups[j].id
  }

  /** Two different records of a list with unique ids carry different ids. */
  lemma DistinctUpvotesDistinctIds(ups: seq<Upvote>, u: Upvote, v: Upvote)
    requires UniqueIds(ups) && u in ups && v in ups
    ensures u != v ==> u.id != v.id
  {
    var a :| 0 <= a < |ups| && ups[a] == u;
    var b :| 0 <= b < |ups| && ups[b] == v;
    assert a < b || a == b || b < a;
  }

  /** The backend's delete of one upvote record by id. */
  function RemoveUpvote(ups: seq<Upvote>, upvoteId: string): (r: seq<Upvote>)
    ensures forall u :: u in r <==> u in ups && u.id != upvoteId
    ensures |r| <= |ups|
    ensures (forall u :: u in ups ==> u.id != upvoteId) ==> r == ups
  {
    if ups == [] then []
    else if ups[0].id == upvoteId then RemoveUpvote(ups[1..], upvoteId)
    else [ups[0]] + RemoveUpvote(ups[1..], upvoteId)
  }

  /** The backend's delete of one meme record by id. */
  function RemoveMeme(memes: seq<Meme>, memeId: string): (r: seq<Meme>)
    ensures forall m :: m in r <==> m in memes && m.id != memeId
    ensures |r| <= |memes|
  {
    if memes == [] then []
    else if memes[0].id == memeId then RemoveMeme(memes[1..], memeId)
    else [memes[0]] + RemoveMeme(memes[1..], memeId)
  }

  /** The effect of one write on the store; `freshId` is the id a create receives. */
  function Apply(s: Store, tx: Tx, freshId: string): (r: Store)
  {
    match tx
    case DeleteUpvote(uid) => s.(upvotes := RemoveUpvote(s.upvotes, uid))
    case CreateUpvote(mid, voter) => s.(upvotes := s.upvotes + [Upvote(freshId, mid, voter)])
    case DeleteMeme(mid) => s.(memes := RemoveMeme(s.memes, mid))
  }

  /** A transaction of deletes, applied in order (deletes need no fresh id). */
  function ApplyDeletes(s: Store, txs: seq<Tx>): (r: Store)
    requires forall tx :: tx in txs ==> !tx.CreateUpvote?
    decreases txs
  {
    if txs == [] then s else ApplyDeletes(Apply(s, txs[0], ""), txs[1..])
  }
}
