/**
 * The bot's three collections and the handlers that read and write them:
 * the message handler (gain, monthly reset, chained level-up, announcements,
 * save), the profile command, the leaderboard page, and the two
 * configuration commands that fill the alert thread and reward tables.
 */
module Bot {
  import opened Results
  import opened Keys
  import opened Leveling
  import opened Paging
  import opened Ledger
  import opened Standings

  /** One line of the leaderboard: rank, user id, monthly level and monthly XP. */
  datatype Row = Row(rank: nat, user: int, level: nat, xp: nat)

  /** A leaderboard page: its number after clamping, the page count, its lines and its buttons. */
  datatype Page = Page(page: nat, pages: nat, rows: seq<Row>, buttons: seq<Button>)

  /** A listed document whose id does not end in a user id raises while the page is built. */
  datatype PageError = UnparsableUserId(id: string)

  /** What holds of the xp collection between handlers: every record was written by the bot and is at rest. */
  ghost predicate Sound(xp: map<string, Record>)
  {
    && KeysWellFormed(xp)
    && forall k :: k in xp ==> AtRest(xp[k])
  }

  /** Saving the record a message produces, under a key the bot builds, keeps the collection sound. */
  lemma SaveKeepsSound(xp: map<string, Record>, chat: int, user: int, month: string, gain: nat)
    requires Sound(xp)
    ensures var key := MakeKey(chat, user);
      Sound(xp[key := Step(Lookup(xp, key), month, gain)])
  {
    var key := MakeKey(chat, user);
    StepAtRest(Lookup(xp, key), month, gain);
    var updated := xp[key := Step(Lookup(xp, key), month, gain)];
    forall k | k in updated
      ensures exists c: int, u: int :: k == MakeKey(c, u)
    {
      if k == key {
        assert k == MakeKey(chat, user);
      }
    }
  }

  /**
   * The level-up loop of the message handler: while below the top level and
   * the monthly XP covers the threshold, pay it, go up one level, and queue a
   * congratulation and the level's reward, if the chat has one.
   */
  method Climb(chat: int, user: int, thread: int, rewards: map<string, string>, xp0: nat, level0: nat)
    returns (xp: nat, level: nat, out: seq<Notice>)
    ensures Progress(xp, level) == LevelUp(Progress(xp0, level0))
    ensures out == Notices(chat, user, thread, rewards, level0, level)
  {
    xp, level := xp0, level0;
    out := [];
    while level < MaxLevel && xp >= Threshold(level)
      invariant level0 <= level
      invariant LevelUp(Progress(xp, level)) == LevelUp(Progress(xp0, level0))
      invariant out == Notices(chat, user, thread, rewards, level0, level)
      decreases (MaxLevel as int) - (level as int)
    {
      ghost var before := out;
      LevelUpUnfold(Progress(xp, level));
      xp := xp - Threshold(level);
      level := level + 1;
      out := out + [Congrats(chat, thread, user, level)];
      var alertKey := RewardKey(chat, level);
      if alertKey in rewards {
        out := out + [Reward(chat, thread, rewards[alertKey])];
      }
      assert out == before + NoticesAt(chat, user, thread, rewards, level);
    }
    LevelUpUnfold(Progress(xp, level));
  }

  /**
   * The loop that builds the leaderboard's lines: the listed documents are
   * numbered from `first`, each line carrying the user id read off the
   * document's id and the record's monthly level and XP; the first id without
   * a user id makes the page fail.
   */
  method NumberRows(xp: map<string, Record>, docs: seq<string>, first: nat, parse: string -> Option<int>) returns (r: Result<seq<Row>, PageError>)
    requires forall j :: 0 <= j < |docs| ==> docs[j] in xp
    ensures r.Success? <==> forall j :: 0 <= j < |docs| ==> parse(docs[j]).Some?
    ensures r.Failure? ==> exists j :: 0 <= j < |docs| && parse(docs[j]).None?
                             && r.error == UnparsableUserId(docs[j])
                             && forall i :: 0 <= i < j ==> parse(docs[i]).Some?
    ensures r.Success? ==> |r.value| == |docs| && forall j :: 0 <= j < |docs| ==>
      r.value[j] == Row(first + j, parse(docs[j]).value, xp[docs[j]].lvlMonth, xp[docs[j]].xpMonth)
  {
    var rows: seq<Row> := [];
    var i := 0;
    while i < |docs|
      invariant 0 <= i <= |docs| && |rows| == i
      invariant forall j :: 0 <= j < i ==> parse(docs[j]).Some?
      invariant forall j :: 0 <= j < i ==>
        rows[j] == Row(first + j, parse(docs[j]).value, xp[docs[j]].lvlMonth, xp[docs[j]].xpMonth)
    {
      var uid := parse(docs[i]);
      if uid.None? {
        return Failure(UnparsableUserId(docs[i]));
      }
      var doc := xp[docs[i]];
      rows := rows + [Row(first + i, uid.value, doc.lvlMonth, doc.xpMonth)];
      i := i + 1;
    }
    r := Success(rows);
  }

  class Store {
    /** The xp collection, by `MakeKey(chat, user)`. */
    var xp: map<string, Record>
    /** The configuration collection: each configured chat's alert thread. */
    var threads: map<int, int>
    /** The level alerts collection: reward text by `RewardKey(chat, level)`. */
    var rewards: map<string, string>

    /** Every record was written by the bot and is at rest. */
    ghost predicate Valid()
      reads this
    {
      Sound(xp)
    }

    constructor ()
      ensures Valid()
      ensures xp == map[] && threads == map[] && rewards == map[]
    {
      xp := map[];
      threads := map[];
      rewards := map[];
    }

    /** `/levsettema <thread_id>`: upsert the chat's alert thread. */
    method SetThread(chat: int, thread: nat)
      modifies this
      ensures threads == old(threads)[chat := thread]
      ensures xp == old(xp) && rewards == old(rewards)
    {
      threads := threads[chat := thread];
    }

    /** `/levalerta <level> <text>`: upsert the reward announced at `level`. */
    method SetReward(chat: int, level: nat, text: string)
      modifies this
      ensures rewards == old(rewards)[RewardKey(chat, level) := text]
      ensures xp == old(xp) && threads == old(threads)
    {
      rewards := rewards[RewardKey(chat, level) := text];
    }

    /**
     * An incoming message. Messages from bots and chats without configuration
     * change nothing; otherwise the sender's record is reset if stale, gains
     * `gain` on both tracks, levels up as far as its monthly XP reaches, and
     * is saved, and one congratulation (followed by the level's reward, if
     * set) is returned per level reached.
     */
    method HandleMessage(msg: Option<Message>, month: string, gain: nat) returns (out: seq<Notice>)
      requires msg.Some? ==> GainInRange(msg.value.hasPhoto, gain)
      modifies this
      ensures threads == old(threads) && rewards == old(rewards)
      ensures msg.None? || msg.value.isBot || msg.value.chat !in old(threads) ==>
        xp == old(xp) && out == []
      ensures msg.Some? && !msg.value.isBot && msg.value.chat in old(threads) ==>
        var key := MakeKey(msg.value.chat, msg.value.user);
        var start := Current(Lookup(old(xp), key), month);
        var saved := Step(Lookup(old(xp), key), month, gain);
        && xp == old(xp)[key := saved]
        && out == Notices(msg.value.chat, msg.value.user, threads[msg.value.chat], rewards, start.lvlMonth, saved.lvlMonth)
      ensures old(Valid()) ==> Valid()
    {
      if msg.None? || msg.value.isBot {
        return [];
      }
      var m := msg.value;
      if m.chat !in threads {
        return [];
      }
      var key := MakeKey(m.chat, m.user);
      var stored := Lookup(xp, key);
      var rec := Current(stored, month);
      var thread := threads[m.chat];
      var xpM, lvlM;
      xpM, lvlM, out := Climb(m.chat, m.user, thread, rewards, rec.xpMonth + gain, rec.lvlMonth);
      var xpT := rec.xpTotal + gain;
      var lvlT := rec.lvlTotal + (lvlM - rec.lvlMonth);
      var saved := Record(xpM, lvlM, xpT, lvlT, month);
      assert saved == Step(stored, month, gain);
      if Valid() {
        SaveKeepsSound(xp, m.chat, m.user, month, gain);
      }
      xp := xp[key := saved];
    }

    /**
     * `/levperfil`: reset the caller's record if it is from another month,
     * then report it with its position among the records under the chat's
     * month prefix; a caller without a record makes the command raise.
     */
    method Profile(chat: int, user: int, month: string) returns (r: Result<ProfileView, ProfileError>)
      modifies this
      ensures threads == old(threads) && rewards == old(rewards)
      ensures var key := MakeKey(chat, user);
        match ProfileReset(Lookup(old(xp), key), month)
        case Failure(e) => r == Failure(e) && xp == old(xp)
        case Success(rec) => xp == old(xp)[key := rec] && r == Success(ViewOf(xp, chat, rec))
      ensures old(Valid()) ==> Valid()
      ensures old(Valid()) && r.Success? ==> r.value.pos == 1 && r.value.tot == 0
    {
      var key := MakeKey(chat, user);
      if key !in xp {
        return Failure(MissingRecord);
      }
      var rec := xp[key];
      if rec.month != month {
        rec := Record(0, 0, rec.xpTotal, rec.lvlTotal, month);
        xp := xp[key := rec];
      }
      r := Success(ViewOf(xp, chat, rec));
      if Valid() {
        ProfilePositionFirstOfNone(xp, chat, rec);
      }
    }

    /**
     * `send_top_page`: count the chat's records for the page count, clamp the
     * requested page, and number the lines of its slice of the database's
     * listing of the records under the month prefix, ranked by monthly XP.
     */
    method TopPage(chat: int, requested: int, ranked: seq<string>) returns (r: Result<Page, PageError>)
      requires IsRanking(xp, MonthPrefix(chat), ranked)
      ensures var pages := PageCount(|PrefixKeys(xp, ChatPrefix(chat))|);
        var page := ClampPage(requested, pages);
        var docs := PageSlice(ranked, page);
        && (r.Success? <==> forall j :: 0 <= j < |docs| ==> KeyUser(docs[j]).Some?)
        && (r.Failure? ==> exists j :: 0 <= j < |docs| && KeyUser(docs[j]).None?
                                && r.error == UnparsableUserId(docs[j])
                                && forall i :: 0 <= i < j ==> KeyUser(docs[i]).Some?)
        && (r.Success? ==>
              && r.value.page == page && r.value.pages == pages
              && r.value.buttons == NavButtons(page, pages)
              && |r.value.rows| == |docs|
              && (forall j :: 0 <= j < |docs| ==>
                    && r.value.rows[j] == Row(Skip(page) + 1 + j, KeyUser(docs[j]).value, xp[docs[j]].lvlMonth, xp[docs[j]].xpMonth))
              && (forall i, j :: 0 <= i < j < |docs| ==> r.value.rows[i].xp >= r.value.rows[j].xp))
      ensures Valid() && r.Success? ==> r.value.rows == []
    {
      var total := |PrefixKeys(xp, ChatPrefix(chat))|;
      var pages := PageCount(total);
      var page := ClampPage(requested, pages);
      var docs := PageSlice(ranked, page);
      RankedPage(xp, MonthPrefix(chat), ranked, page);
      if Valid() {
        LeaderboardListsNothing(xp, chat, ranked, page);
        assert docs == [];
      }
      var first := Skip(page) + 1;
      var rows := NumberRows(xp, docs, first, KeyUser);
      if rows.Failure? {
        return Failure(rows.error);
      }
      r := Success(Page(page, pages, rows.value, NavButtons(page, pages)));
    }

    /**
     * The leaderboard page with the listing and the user-id parse corrected:
     * the records are listed under the same `"<chat>_"` prefix they are
     * counted under, and each id is split once after the chat. Every line
     * then names the user whose record it shows, and the page never fails.
     */
    method ChatTopPage(chat: int, requested: int, ranked: seq<string>) returns (r: Result<Page, PageError>)
      requires Valid()
      requires IsRanking(xp, ChatPrefix(chat), ranked)
      ensures r.Success?
      ensures var pages := PageCount(|PrefixKeys(xp, ChatPrefix(chat))|);
        var page := ClampPage(requested, pages);
        var docs := PageSlice(ranked, page);
        && r.value.page == page && r.value.pages == pages
        && r.value.buttons == NavButtons(page, pages)
        && |r.value.rows| == |docs|
        && (forall j :: 0 <= j < |docs| ==>
              && docs[j] == MakeKey(chat, r.value.rows[j].user)
              && r.value.rows[j] == Row(Skip(page) + 1 + j, r.value.rows[j].user, xp[docs[j]].lvlMonth, xp[docs[j]].xpMonth))
        && (forall i, j :: 0 <= i < j < |docs| ==> r.value.rows[i].xp >= r.value.rows[j].xp)
      ensures |ranked| == |PrefixKeys(xp, ChatPrefix(chat))|
    {
      var total := |PrefixKeys(xp, ChatPrefix(chat))|;
      var pages := PageCount(total);
      var page := ClampPage(requested, pages);
      var docs := PageSlice(ranked, page);
      RankedPage(xp, ChatPrefix(chat), ranked, page);
      ChatPageUsers(xp, chat, ranked, page);
      ChatRankingFillsPages(xp, chat, ranked);
      var rows := NumberRows(xp, docs, Skip(page) + 1, ChatKeyUser);
      assert rows.Success?;
      r := Success(Page(page, pages, rows.value, NavButtons(page, pages)));
    }
  }
}
