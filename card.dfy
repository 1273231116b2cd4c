/** One meme card of the feed (src/components/MemeCard.tsx): the relative date
    label, the ownership check, the upvote toggle and the delete transaction, plus
    the card's delete dialog state.  The clock, the backend query and the
    backend's answer are parameters. */
module Card {
  import opened Wrappers
  import opened Records
  import Feed

  const MS_PER_MINUTE: int := 60000
  const MS_PER_HOUR: int := 3600000
  const MS_PER_DAY: int := 86400000

  /** The outcome of `formatDate`; `LocaleDate` is the browser's locale rendering of
      the timestamp, which is not modelled. */
  datatype DateLabel =
    | JustNow
    | MinutesAgo(minutes: int)
    | HoursAgo(hours: int)
    | DaysAgo(days: int)
    | LocaleDate(timestamp: int)

  /** `formatDate(timestamp)` at clock time `now`.  The floor divisions of the source
      are Dafny's `/` by a positive divisor.  A timestamp in the future counts as
      "just now". */
  function FormatDate(timestamp: int, now: int): (r: DateLabel)
    ensures r.JustNow? <==> now - timestamp < MS_PER_MINUTE
    ensures r.MinutesAgo? <==> MS_PER_MINUTE <= now - timestamp < MS_PER_HOUR
    ensures r.HoursAgo? <==> MS_PER_HOUR <= now - timestamp < MS_PER_DAY
    ensures r.DaysAgo? <==> MS_PER_DAY <= now - timestamp < 7 * MS_PER_DAY
    ensures r.LocaleDate? <==> 7 * MS_PER_DAY <= now - timestamp
    ensures r.MinutesAgo? ==> (1 <= r.minutes < 60 &&
      r.minutes * MS_PER_MINUTE <= now - timestamp < (r.minutes + 1) * MS_PER_MINUTE)
    ensures r.HoursAgo? ==> (1 <= r.hours < 24 &&
      r.hours * MS_PER_HOUR <= now - timestamp < (r.hours + 1) * MS_PER_HOUR)
    ensures r.DaysAgo? ==> (1 <= r.days < 7 &&
      r.days * MS_PER_DAY <= now - timestamp < (r.days + 1) * MS_PER_DAY)
    ensures r.LocaleDate? ==> r.timestamp == timestamp
  {
    var diffMs := now - timestamp;
    var diffMins := diffMs / MS_PER_MINUTE;
    var diffHours := diffMs / MS_PER_HOUR;
    var diffDays := diffMs / MS_PER_DAY;
    if diffMins < 1 then JustNow
    else if diffMins < 60 then MinutesAgo(diffMins)
    else if diffHours < 24 then HoursAgo(diffHours)
    else if diffDays < 7 then DaysAgo(diffDays)
    else LocaleDate(timestamp)
  }

  /** The decimal digits of `n`, as a template literal prints a non-negative integer. */
  function Decimal(n: nat): (s: string)
    ensures |s| >= 1 && IsDigits(s)
    ensures s[0] == '0' ==> n == 0
  {
    if n < 10 then [(48 + n) as char] else Decimal(n / 10) + [(48 + n % 10) as char]
  }

  /** Every character of `s` is a decimal digit. */
  predicate IsDigits(s: string)
  {
    forall i :: 0 <= i < |s| ==> '0' <= s[i] <= '9'
  }

  /** The number a string of decimal digits denotes. */
  function DigitsValue(s: string): nat
    requires IsDigits(s)
    decreases |s|
  {
    if s == [] then 0 else 10 * DigitsValue(s[..|s| - 1]) + (s[|s| - 1] as int - 48)
  }

  /** Reading the printed digits back gives the number that was printed. */
  lemma {:induction false} DecimalRoundTrip(n: nat)
    ensures DigitsValue(Decimal(n)) == n
  {
    if n >= 10 {
      DecimalRoundTrip(n / 10);
      var s := Decimal(n);
      assert s[..|s| - 1] == Decimal(n / 10);
    }
  }

  /**
    * `t` is the count `n`, written without leading zeros, followed by
    * `suffix`.
    */
  predicate ShowsCount(t: string, n: nat, suffix: string)
  {
    |t| > |suffix| && t[|t| - |suffix|..] == suffix
    && IsDigits(t[..|t| - |suffix|])
    && DigitsValue(t[..|t| - |suffix|]) == n
    && (t[0] == '0' ==> n == 0)
  }

  /** Printing a count and appending a suffix shows that count. */
  lemma CountText(n: nat, suffix: string)
    ensures ShowsCount(Decimal(n) + suffix, n, suffix)
  {
    var t := Decimal(n) + suffix;
    assert t[..|t| - |suffix|] == Decimal(n);
    assert t[|t| - |suffix|..] == suffix;
    DecimalRoundTrip(n);
  }

  /** The text shown for a label; the locale date is left to the browser. */
  function Caption(dateLabel: DateLabel): (r: Option<string>)
    ensures r.None? <==> dateLabel.LocaleDate?
    ensures dateLabel.JustNow? ==> r == Some("just now")
    ensures dateLabel.MinutesAgo? && dateLabel.minutes >= 0 ==> ShowsCount(r.value, dateLabel.minutes, "m ago")
    ensures dateLabel.HoursAgo? && dateLabel.hours >= 0 ==> ShowsCount(r.value, dateLabel.hours, "h ago")
    ensures dateLabel.DaysAgo? && dateLabel.days >= 0 ==> ShowsCount(r.value, dateLabel.days, "d ago")
  {
    match dateLabel
    case JustNow => Some("just now")
    case MinutesAgo(m) =>
      var n := if m < 0 then 0 else m;
      CountText(n, "m ago");
      Some(Decimal(n) + "m ago")
    case HoursAgo(h) =>
      var n := if h < 0 then 0 else h;
      CountText(n, "h ago");
      Some(Decimal(n) + "h ago")
    case DaysAgo(d) =>
      var n := if d < 0 then 0 else d;
      CountText(n, "d ago");
      Some(Decimal(n) + "d ago")
    case LocaleDate(_) => None
  }

  /** A label only ever moves to a coarser bucket as time passes. */
  lemma FormatDateMonotone(timestamp: int, now: int, later: int)
    requires now <= later
    ensures Rank(FormatDate(timestamp, now)) <= Rank(FormatDate(timestamp, later))
  {
  }

  function Rank(dateLabel: DateLabel): nat {
    match dateLabel
    case JustNow => 0
    case MinutesAgo(_) => 1
    case HoursAgo(_) => 2
    case DaysAgo(_) => 3
    case LocaleDate(_) => 4
  }

  /** `isOwner`: the signed-in user wrote the meme. */
  function IsOwner(meme: Meme, currentUserId: string): (r: bool)
    ensures r <==> meme.authorId == currentUserId
  {
    meme.authorId == currentUserId
  }

  /** The write `handleUpvote` sends: a delete of the user's upvote when the card
      says there is one and its id is a non-empty string, a new upvote otherwise. */
  function UpvoteTx(meme: Meme, hasUpvoted: bool, userUpvoteId: Option<string>, currentUserId: string): (tx: Tx)
    ensures tx.DeleteUpvote? <==> hasUpvoted && userUpvoteId.Some? && userUpvoteId.value != ""
    ensures tx.DeleteUpvote? ==> tx.upvoteId == userUpvoteId.value
    ensures tx.CreateUpvote? <==> !tx.DeleteUpvote?
    ensures tx.CreateUpvote? ==> tx.memeId == meme.id && tx.oderId == currentUserId
  {
    if hasUpvoted && userUpvoteId.Some? && userUpvoteId.value != "" then DeleteUpvote(userUpvoteId.value)
    else CreateUpvote(meme.id, currentUserId)
  }

  lemma {:induction false} MemeIdsAppend(ups: seq<Upvote>, u: Upvote)
    ensures MemeIds(ups + [u]) == MemeIds(ups) + [u.memeId]
    decreases |ups|
  {
    if ups != [] {
      assert (ups + [u])[1..] == ups[1..] + [u];
      MemeIdsAppend(ups[1..], u);
    }
  }

  lemma {:induction false} RemoveAbsentUpvote(ups: seq<Upvote>, upvoteId: string)
    requires forall i :: 0 <= i < |ups| ==> ups[i].id != upvoteId
    ensures RemoveUpvote(ups, upvoteId) == ups
    decreases |ups|
  {
    if ups != [] {
      RemoveAbsentUpvote(ups[1..], upvoteId);
      assert ups == [ups[0]] + ups[1..];
    }
  }

  /** Deleting by an id the first upvote does not carry keeps that upvote's meme id. */
  lemma RemoveKeepsHead(ups: seq<Upvote>, upvoteId: string)
    requires ups != [] && ups[0].id != upvoteId
    ensures multiset(MemeIds(RemoveUpvote(ups, upvoteId)))
         == multiset{ups[0].memeId} + multiset(MemeIds(RemoveUpvote(ups[1..], upvoteId)))
  {
    var rest := RemoveUpvote(ups[1..], upvoteId);
    assert MemeIds([ups[0]] + rest) == [ups[0].memeId] + MemeIds(rest);
  }

  lemma AddAfterRemove<T>(a: T, b: multiset<T>, m: T)
    requires m in b
    ensures multiset{a} + (b - multiset{m}) == (multiset{a} + b) - multiset{m}
  {
  }

  /** When no other upvote shares the id of the one at index `k`, deleting by that
      id removes exactly one occurrence of its meme id. */
  lemma {:induction false} RemoveUniqueUpvote(ups: seq<Upvote>, k: int)
    requires 0 <= k < |ups|
    requires forall i :: 0 <= i < |ups| && i != k ==> ups[i].id != ups[k].id
    ensures multiset(MemeIds(RemoveUpvote(ups, ups[k].id))) == multiset(MemeIds(ups)) - multiset{ups[k].memeId}
    decreases |ups|
  {
    var tail := ups[1..];
    var id := ups[k].id;
    assert MemeIds(ups) == [ups[0].memeId] + MemeIds(tail);
    if k == 0 {
      RemoveAbsentUpvote(tail, id);
    } else {
      assert ups[k] == tail[k - 1];
      RemoveUniqueUpvote(tail, k - 1);
      RemoveKeepsHead(ups, id);
      assert MemeIds(tail)[k - 1] == ups[k].memeId;
      AddAfterRemove(ups[0].memeId, multiset(MemeIds(tail)), ups[k].memeId);
    }
  }

  /** Removing one occurrence of `m` lowers the count of `m` (when present) and of nothing else. */
  lemma RemoveOneCount<T>(b: multiset<T>, m: T, o: T)
    ensures (b - multiset{m})[o] == if o == m && m in b then b[o] - 1 else b[o]
  {
  }

  /** Adding one occurrence of `m` raises the count of `m` and of nothing else. */
  lemma AddOneCount<T>(b: multiset<T>, m: T, o: T)
    ensures (b + multiset{m})[o] == if o == m then b[o] + 1 else b[o]
  {
  }

  /** A delete sent by the upvote button removes one occurrence of the meme's id
      from the upvotes' meme ids (ids being unique). */
  lemma ToggleRemovesOne(ups: seq<Upvote>, meme: Meme, currentUserId: string)
    requires UniqueIds(ups)
    requires Feed.Entry(meme, ups, currentUserId).hasUpvoted
    ensures var id := Feed.Entry(meme, ups, currentUserId).userUpvoteId.value;
      multiset(MemeIds(RemoveUpvote(ups, id))) == multiset(MemeIds(ups)) - multiset{meme.id}
  {
    Feed.EntryMeaning(meme, ups, currentUserId);
    var j :| 0 <= j < |ups| && Feed.VoteBy(ups[j], meme.id, currentUserId);
    Feed.FirstVoteExists(ups, meme.id, currentUserId, j);
    var k :| Feed.IsFirstVote(ups, meme.id, currentUserId, k);
    assert forall i :: 0 <= i < |ups| && i != k ==> ups[i].id != ups[k].id by {
      forall i | 0 <= i < |ups| && i != k ensures ups[i].id != ups[k].id {
        assert i < k || k < i;
      }
    }
    RemoveUniqueUpvote(ups, k);
  }

  /** A create sent by the upvote button adds one occurrence of the meme's id and
      leaves the user with an upvote of the meme. */
  lemma ToggleAddsOne(ups: seq<Upvote>, meme: Meme, currentUserId: string, freshId: string)
    ensures var after := ups + [Upvote(freshId, meme.id, currentUserId)];
      multiset(MemeIds(after)) == multiset(MemeIds(ups)) + multiset{meme.id} &&
      Feed.Entry(meme, after, currentUserId).hasUpvoted
  {
    var after := ups + [Upvote(freshId, meme.id, currentUserId)];
    MemeIdsAppend(ups, Upvote(freshId, meme.id, currentUserId));
    Feed.EntryMeaning(meme, after, currentUserId);
    assert Feed.VoteBy(after[|ups|], meme.id, currentUserId);
  }

  /** Pressing the upvote button on a card fed by the feed's aggregate toggles the
      user's vote: a create adds one upvote to this meme and marks it upvoted, a
      delete (ids being unique) removes one.  No other meme's count changes. */
  lemma ToggleUpvote(memes: seq<Meme>, ups: seq<Upvote>, meme: Meme, currentUserId: string, freshId: string)
    requires UniqueIds(ups)
    ensures var e := Feed.Entry(meme, ups, currentUserId);
      var after := Apply(Store(memes, ups), UpvoteTx(meme, e.hasUpvoted, e.userUpvoteId, currentUserId), freshId).upvotes;
      var e' := Feed.Entry(meme, after, currentUserId);
      (e.hasUpvoted && e.userUpvoteId.value != "" ==> e'.upvoteCount == e.upvoteCount - 1) &&
      (!(e.hasUpvoted && e.userUpvoteId.value != "") ==> e'.upvoteCount == e.upvoteCount + 1 && e'.hasUpvoted) &&
      (forall other: Meme :: other.id != meme.id ==>
        Feed.Entry(other, after, currentUserId).upvoteCount == Feed.Entry(other, ups, currentUserId).upvoteCount)
  {
    var e := Feed.Entry(meme, ups, currentUserId);
    var tx := UpvoteTx(meme, e.hasUpvoted, e.userUpvoteId, currentUserId);
    var after := Apply(Store(memes, ups), tx, freshId).upvotes;
    var before := multiset(MemeIds(ups));
    Feed.EntryMeaning(meme, ups, currentUserId);
    Feed.EntryMeaning(meme, after, currentUserId);
    if tx.DeleteUpvote? {
      ToggleRemovesOne(ups, meme, currentUserId);
      assert meme.id in before;
      RemoveOneCount(before, meme.id, meme.id);
    } else {
      ToggleAddsOne(ups, meme, currentUserId, freshId);
      AddOneCount(before, meme.id, meme.id);
    }
    forall other: Meme | other.id != meme.id
      ensures Feed.Entry(other, after, currentUserId).upvoteCount == Feed.Entry(other, ups, currentUserId).upvoteCount
    {
      Feed.EntryMeaning(other, ups, currentUserId);
      Feed.EntryMeaning(other, after, currentUserId);
      if tx.DeleteUpvote? {
        RemoveOneCount(before, meme.id, other.id);
      } else {
        AddOneCount(before, meme.id, other.id);
      }
    }
  }

  /** The transaction `handleDelete` sends: a delete of every upvote of the meme, in
      the query's order, then the delete of the meme itself. */
  function DeleteTransaction(ups: seq<Upvote>, memeId: string): (txs: seq<Tx>)
    ensures |txs| == |UpvotesFor(ups, memeId)| + 1
    ensures txs[|txs| - 1] == DeleteMeme(memeId)
    ensures forall i :: 0 <= i < |txs| - 1 ==> txs[i] == DeleteUpvote(UpvotesFor(ups, memeId)[i].id)
    ensures forall tx :: tx in txs ==> !tx.CreateUpvote?
  {
    var memeUpvotes := UpvotesFor(ups, memeId);
    seq(|memeUpvotes|, i requires 0 <= i < |memeUpvotes| => DeleteUpvote(memeUpvotes[i].id)) + [DeleteMeme(memeId)]
  }

  /** The transaction names every upvote of the meme, and every upvote it names
      belongs to the meme. */
  lemma DeleteTransactionCovers(ups: seq<Upvote>, memeId: string)
    ensures forall u :: u in ups && u.memeId == memeId ==> DeleteUpvote(u.id) in DeleteTransaction(ups, memeId)
    ensures forall tx :: tx in DeleteTransaction(ups, memeId) && tx.DeleteUpvote? ==>
      exists u :: u in ups && u.memeId == memeId && tx.upvoteId == u.id
  {
    var txs := DeleteTransaction(ups, memeId);
    var memeUpvotes := UpvotesFor(ups, memeId);
    forall u | u in ups && u.memeId == memeId ensures DeleteUpvote(u.id) in txs {
      var i :| 0 <= i < |memeUpvotes| && memeUpvotes[i] == u;
      assert txs[i] == DeleteUpvote(u.id);
    }
    forall tx | tx in txs && tx.DeleteUpvote?
      ensures exists u :: u in ups && u.memeId == memeId && tx.upvoteId == u.id
    {
      var i :| 0 <= i < |txs| && txs[i] == tx;
      assert memeUpvotes[i] in memeUpvotes;
    }
  }

  /** With unique ids, no upvote of another meme is deleted. */
  lemma DeleteTransactionSparesOthers(ups: seq<Upvote>, memeId: string, v: Upvote)
    requires UniqueIds(ups) && v in ups && v.memeId != memeId
    ensures DeleteUpvote(v.id) !in DeleteTransaction(ups, memeId)
  {
    var txs := DeleteTransaction(ups, memeId);
    DeleteTransactionCovers(ups, memeId);
    forall tx | tx in txs && tx.DeleteUpvote? ensures tx.upvoteId != v.id {
      var u :| u in ups && u.memeId == memeId && tx.upvoteId == u.id;
      DistinctUpvotesDistinctIds(ups, u, v);
    }
  }

  /** A transaction of deletes removes exactly the records it names. */
  lemma {:induction false} ApplyDeletesMembership(s: Store, txs: seq<Tx>)
    requires forall tx :: tx in txs ==> !tx.CreateUpvote?
    ensures forall u :: u in ApplyDeletes(s, txs).upvotes <==> u in s.upvotes && DeleteUpvote(u.id) !in txs
    ensures forall m :: m in ApplyDeletes(s, txs).memes <==> m in s.memes && DeleteMeme(m.id) !in txs
    decreases |txs|
  {
    if txs != [] {
      ApplyDeletesMembership(Apply(s, txs[0], ""), txs[1..]);
      assert txs == [txs[0]] + txs[1..];
    }
  }

  /** After the delete transaction the meme and all of its upvotes are gone, and
      (ids being unique) every other meme and upvote is still there. */
  lemma DeleteTransactionEffect(s: Store, memeId: string)
    requires UniqueIds(s.upvotes)
    ensures var after := ApplyDeletes(s, DeleteTransaction(s.upvotes, memeId));
      (forall u :: u in after.upvotes <==> u in s.upvotes && u.memeId != memeId) &&
      (forall m :: m in after.memes <==> m in s.memes && m.id != memeId)
  {
    var txs := DeleteTransaction(s.upvotes, memeId);
    DeleteTransactionCovers(s.upvotes, memeId);
    ApplyDeletesMembership(s, txs);
    forall u | u in s.upvotes && u.memeId != memeId ensures DeleteUpvote(u.id) !in txs {
      DeleteTransactionSparesOthers(s.upvotes, memeId, u);
    }
    forall m | m in s.memes && m.id == memeId ensures DeleteMeme(m.id) in txs {
      assert txs[|txs| - 1] == DeleteMeme(memeId);
    }
    forall m | m in s.memes && m.id != memeId ensures DeleteMeme(m.id) !in txs {
      forall i | 0 <= i < |txs| ensures txs[i] != DeleteMeme(m.id) {
        if i < |txs| - 1 {
          assert txs[i].DeleteUpvote?;
        }
      }
    }
  }

  /** The per-card state of the delete dialog. */
  class MemeCardState {
    const meme: Meme
    const currentUserId: string
    var showDeleteConfirm: bool
    var isDeleting: bool

    constructor (meme: Meme, currentUserId: string)
      ensures this.meme == meme && this.currentUserId == currentUserId
      ensures !showDeleteConfirm && !isDeleting
    {
      this.meme := meme;
      this.currentUserId := currentUserId;
      showDeleteConfirm := false;
      isDeleting := false;
    }

    /** The delete button: only the owner's card shows it. */
    method RequestDelete()
      modifies this`showDeleteConfirm
      ensures showDeleteConfirm == (old(showDeleteConfirm) || IsOwner(meme, currentUserId))
    {
      if IsOwner(meme, currentUserId) {
        showDeleteConfirm := true;
      }
    }

    /** The dialog's cancel button, disabled while a delete runs. */
    method CancelDelete()
      modifies this`showDeleteConfirm
      ensures showDeleteConfirm == (old(showDeleteConfirm) && isDeleting)
    {
      if !isDeleting {
        showDeleteConfirm := false;
      }
    }

    /** A click on the dialog's backdrop, which is never disabled: the dialog closes
        even while a delete runs. */
    method DismissDialog()
      modifies this`showDeleteConfirm
      ensures !showDeleteConfirm
    {
      showDeleteConfirm := false;
    }

    /** The dialog's delete button up to the query's `await`: disabled while a delete
        runs, otherwise it marks the delete as running. */
    method BeginDelete() returns (started: bool)
      modifies this`isDeleting
      ensures started == !old(isDeleting)
      ensures isDeleting
    {
      started := !isDeleting;
      if started {
        isDeleting := true;
      }
    }

    /** The rest of `handleDelete`.  `queried` is the upvote list the query returned
        (`None` when it failed), `committed` whether the transaction succeeded.  The
        transaction sent is returned; the dialog closes only on success, and the
        delete is over whatever happened. */
    method FinishDelete(queried: Option<seq<Upvote>>, committed: bool) returns (sent: Option<seq<Tx>>)
      modifies this`isDeleting, this`showDeleteConfirm
      ensures !isDeleting
      ensures queried.None? ==> sent.None?
      ensures queried.Some? ==> sent == Some(DeleteTransaction(queried.value, meme.id))
      ensures showDeleteConfirm == if queried.Some? && committed then false else old(showDeleteConfirm)
    {
      sent := None;
      if queried.Some? {
        sent := Some(DeleteTransaction(queried.value, meme.id));
        if committed {
          showDeleteConfirm := false;
        }
      }
      isDeleting := false;
    }
  }
}
