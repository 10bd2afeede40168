/**
 * The read side of the xp collection: prefix counts, a user's monthly
 * position, the figures of the profile command, and what the database's
 * sorted listing of a chat's records is allowed to be.
 */
module Standings {
  import opened Results
  import opened Keys
  import opened Leveling
  import opened Paging
  import opened Ledger

  /** `count_documents({"_id": {"$regex": "^" + prefix}})` counts these; the prefixes used contain no regex metacharacters. */
  function PrefixKeys(xp: map<string, Record>, prefix: string): set<string>
  {
    set k | k in xp && prefix <= k
  }

  /** The records under `prefix` whose monthly XP is strictly above `x`. */
  function Above(xp: map<string, Record>, prefix: string, x: int): set<string>
  {
    set k | k in xp && prefix <= k && xp[k].xpMonth > x
  }

  /** `mayores + 1`: one more than the number of records strictly ahead. */
  function Position(xp: map<string, Record>, prefix: string, x: int): nat
  {
    1 + |Above(xp, prefix, x)|
  }

  lemma SubsetCard<T>(a: set<T>, b: set<T>)
    requires a <= b
    ensures |a| <= |b|
  {
    assert b == a + (b - a);
  }

  /** A position is at least first and at most one past the number of records under the prefix. */
  lemma PositionBounds(xp: map<string, Record>, prefix: string, x: int)
    ensures 1 <= Position(xp, prefix, x) <= |PrefixKeys(xp, prefix)| + 1
  {
    SubsetCard(Above(xp, prefix, x), PrefixKeys(xp, prefix));
  }

  /** More monthly XP never means a worse position. */
  lemma PositionMonotone(xp: map<string, Record>, prefix: string, x1: int, x2: int)
    requires x1 <= x2
    ensures Position(xp, prefix, x2) <= Position(xp, prefix, x1)
  {
    SubsetCard(Above(xp, prefix, x2), Above(xp, prefix, x1));
  }

  /** The figures the profile command shows. */
  datatype ProfileView = ProfileView(
    xpMonth: nat, needed: int, lvlMonth: nat, pos: nat, tot: nat,
    xpTotal: nat, lvlTotal: nat, remaining: int)

  /** The profile of `rec` in `chat`, ranked among the records under the chat's month prefix. */
  function ViewOf(xp: map<string, Record>, chat: int, rec: Record): ProfileView
  {
    ProfileView(
      rec.xpMonth, Threshold(rec.lvlMonth), rec.lvlMonth,
      Position(xp, MonthPrefix(chat), rec.xpMonth), |PrefixKeys(xp, MonthPrefix(chat))|,
      rec.xpTotal, rec.lvlTotal,
      if rec.lvlMonth < MaxLevel then Threshold(rec.lvlMonth) - rec.xpMonth else 0)
  }

  /**
   * For a record at rest the XP still needed is positive below the top level
   * and completes the current level's threshold, and zero at the top level;
   * the position lies between 1 and one past the total.
   */
  lemma ProfileFigures(xp: map<string, Record>, chat: int, rec: Record)
    requires AtRest(rec)
    ensures var v := ViewOf(xp, chat, rec);
      && (rec.lvlMonth < MaxLevel ==> 1 <= v.remaining && v.xpMonth + v.remaining == v.needed)
      && (rec.lvlMonth == MaxLevel ==> v.remaining == 0)
      && 1 <= v.pos <= v.tot + 1
  {
    PositionBounds(xp, MonthPrefix(chat), rec.xpMonth);
  }

  datatype ProfileError = MissingRecord

  /**
   * The reset the profile command performs before reading: a stale record
   * gets an empty monthly track and the new tag; a missing record raises,
   * because the update document reads the lifetime totals off the missing record.
   */
  function ProfileReset(stored: Option<Record>, month: string): Result<Record, ProfileError>
  {
    match stored
    case None => Failure(MissingRecord)
    case Some(_) => Success(Current(stored, month))
  }

  /** The profile command fails for every user who has no record yet. */
  lemma ProfileResetFailsWithoutRecord(stored: Option<Record>, month: string)
    ensures ProfileReset(stored, month).Failure? <==> stored.None?
    ensures stored.Some? ==> ProfileReset(stored, month).value.month == month
  {
  }

  /** Every key of the collection has the form `MakeKey(chat, user)`, the only form the bot writes. */
  ghost predicate KeysWellFormed(xp: map<string, Record>)
  {
    forall k :: k in xp ==> exists c: int, u: int :: k == MakeKey(c, u)
  }

  /**
   * What the sorted, skipped and limited listing of the records under
   * `prefix` is: every such record exactly once, in non-increasing order of
   * monthly XP; the order among equal XP is left open.
   */
  ghost predicate IsRanking(xp: map<string, Record>, prefix: string, ranked: seq<string>)
  {
    && (forall i :: 0 <= i < |ranked| ==> ranked[i] in xp && prefix <= ranked[i])
    && (forall k :: k in xp && prefix <= k ==> k in ranked)
    && (forall i, j :: 0 <= i < j < |ranked| ==> ranked[i] != ranked[j])
    && (forall i, j :: 0 <= i < j < |ranked| ==> xp[ranked[i]].xpMonth >= xp[ranked[j]].xpMonth)
  }

  /** A page of a ranking lists records under the prefix, in non-increasing order of monthly XP. */
  lemma RankedPage(xp: map<string, Record>, prefix: string, ranked: seq<string>, page: nat)
    requires IsRanking(xp, prefix, ranked)
    requires page >= 1
    ensures var docs := PageSlice(ranked, page);
      && (forall j :: 0 <= j < |docs| ==> docs[j] in xp && prefix <= docs[j])
      && (forall i, j :: 0 <= i < j < |docs| ==> xp[docs[i]].xpMonth >= xp[docs[j]].xpMonth)
  {
    var docs := PageSlice(ranked, page);
    forall i, j | 0 <= i < j < |docs|
      ensures xp[docs[i]].xpMonth >= xp[docs[j]].xpMonth
    {
      assert docs[i] == ranked[Skip(page) + i] && docs[j] == ranked[Skip(page) + j];
    }
  }

  lemma NoKeyUnderMonthPrefix(xp: map<string, Record>, chat: int)
    requires KeysWellFormed(xp)
    ensures PrefixKeys(xp, MonthPrefix(chat)) == {}
  {
    forall k | k in xp
      ensures !(MonthPrefix(chat) <= k)
    {
      var c: int, u: int :| k == MakeKey(c, u);
      MonthPrefixNeverMatches(chat, c, u);
    }
  }

  /**
   * As written, the leaderboard lists nothing: no record the bot writes lies
   * under the month prefix, so every page is empty, while the page count,
   * taken over the chat prefix, can be above one.
   */
  lemma LeaderboardListsNothing(xp: map<string, Record>, chat: int, ranked: seq<string>, page: nat)
    requires KeysWellFormed(xp)
    requires IsRanking(xp, MonthPrefix(chat), ranked)
    requires page >= 1
    ensures ranked == [] && PageSlice(ranked, page) == []
  {
    NoKeyUnderMonthPrefix(xp, chat);
    DistinctCard(ranked);
    var listed := set x | x in ranked;
    SubsetCard(listed, PrefixKeys(xp, MonthPrefix(chat)));
    assert |PageSlice(ranked, page)| > 0 ==> Skip(page) < |ranked|;
  }

  /** As written, the profile always reports position 1 out of 0. */
  lemma ProfilePositionFirstOfNone(xp: map<string, Record>, chat: int, rec: Record)
    requires KeysWellFormed(xp)
    ensures ViewOf(xp, chat, rec).pos == 1 && ViewOf(xp, chat, rec).tot == 0
  {
    NoKeyUnderMonthPrefix(xp, chat);
    assert Above(xp, MonthPrefix(chat), rec.xpMonth) == {} by {
      forall k | k in Above(xp, MonthPrefix(chat), rec.xpMonth)
        ensures k in PrefixKeys(xp, MonthPrefix(chat))
      {
      }
    }
  }

  lemma {:induction false} DistinctCard(s: seq<string>)
    requires forall i, j :: 0 <= i < j < |s| ==> s[i] != s[j]
    ensures |set x | x in s| == |s|
    decreases |s|
  {
    if |s| > 0 {
      var init := s[..|s| - 1];
      DistinctCard(init);
      assert (set x | x in s) == (set x | x in init) + {s[|s| - 1]};
      assert s[|s| - 1] !in init;
    }
  }

  /**
   * With the chat prefix in the fetch, the listing holds exactly as many
   * records as the page count is taken over, so every listed record falls on
   * page `k / 10 + 1` of the pages offered, and every record of the chat is listed.
   */
  lemma ChatRankingFillsPages(xp: map<string, Record>, chat: int, ranked: seq<string>)
    requires IsRanking(xp, ChatPrefix(chat), ranked)
    ensures |ranked| == |PrefixKeys(xp, ChatPrefix(chat))|
    ensures forall user :: MakeKey(chat, user) in xp ==> MakeKey(chat, user) in ranked
    ensures forall k :: 0 <= k < |ranked| ==>
      k / PageSize + 1 <= PageCount(|PrefixKeys(xp, ChatPrefix(chat))|)
  {
    DistinctCard(ranked);
    assert (set x | x in ranked) == PrefixKeys(xp, ChatPrefix(chat));
    forall user | MakeKey(chat, user) in xp
      ensures MakeKey(chat, user) in ranked
    {
      ChatPrefixSelectsChat(chat, chat, user);
    }
    forall k | 0 <= k < |ranked|
      ensures k / PageSize + 1 <= PageCount(|ranked|)
    {
      PageOfIndex(|ranked|, k);
    }
  }

  /**
   * With the chat prefix in the listing, every document on a page is a key of
   * that chat, and splitting it once after the chat gives its user.
   */
  lemma ChatPageUsers(xp: map<string, Record>, chat: int, ranked: seq<string>, page: nat)
    requires KeysWellFormed(xp)
    requires IsRanking(xp, ChatPrefix(chat), ranked)
    requires page >= 1
    ensures var docs := PageSlice(ranked, page);
      forall j :: 0 <= j < |docs| ==>
        ChatKeyUser(docs[j]).Some? && docs[j] == MakeKey(chat, ChatKeyUser(docs[j]).value)
  {
    var docs := PageSlice(ranked, page);
    forall j | 0 <= j < |docs|
      ensures ChatKeyUser(docs[j]).Some? && docs[j] == MakeKey(chat, ChatKeyUser(docs[j]).value)
    {
      assert docs[j] in xp && ChatPrefix(chat) <= docs[j];
      var c: int, u: int :| docs[j] == MakeKey(c, u);
      ChatPrefixSelectsChat(chat, c, u);
      ChatKeyRoundTrip(c, u);
    }
  }

  /**
   * With the chat prefix in the position query, a user with a record is
   * placed between first and last among the chat's records, which are the
   * records of that chat and of no other.
   */
  lemma ChatPositionWithinTotal(xp: map<string, Record>, chat: int, user: int)
    requires MakeKey(chat, user) in xp
    ensures var x := xp[MakeKey(chat, user)].xpMonth;
      1 <= Position(xp, ChatPrefix(chat), x) <= |PrefixKeys(xp, ChatPrefix(chat))|
    ensures forall c, u :: MakeKey(c, u) in PrefixKeys(xp, ChatPrefix(chat)) ==> c == chat
  {
    var key := MakeKey(chat, user);
    var all := PrefixKeys(xp, ChatPrefix(chat));
    var ahead := Above(xp, ChatPrefix(chat), xp[key].xpMonth);
    ChatPrefixSelectsChat(chat, chat, user);
    assert key in all && key !in ahead;
    SubsetCard(ahead, all - {key});
    forall c, u | MakeKey(c, u) in all
      ensures c == chat
    {
      ChatPrefixSelectsChat(chat, c, u);
    }
  }
}
