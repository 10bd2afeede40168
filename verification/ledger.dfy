/**
 * The per-user xp record and what one message does to it: the lazy monthly
 * reset, the gain on both tracks, the chained level-up of the monthly track
 * (with the lifetime level moving in lockstep), and the congratulations and
 * reward announcements sent for every level reached.
 */
module Ledger {
  import opened Results
  import opened Keys
  import opened Leveling

  /** A document of the xp collection: the monthly and lifetime tracks and the `"%Y-%m"` tag of the month. */
  datatype Record = Record(xpMonth: nat, lvlMonth: nat, xpTotal: nat, lvlTotal: nat, month: string)

  /** An incoming group message, as far as the handler looks at it. */
  datatype Message = Message(chat: int, user: int, isBot: bool, hasPhoto: bool)

  /** An outgoing message, sent to the alert thread configured for the chat. */
  datatype Notice =
    | Congrats(chat: int, thread: int, user: int, level: nat)
    | Reward(chat: int, thread: int, text: string)

  /** `random.randint(30, 50)` for a photo, `random.randint(7, 10)` for anything else. */
  predicate GainInRange(hasPhoto: bool, gain: int)
  {
    if hasPhoto then 30 <= gain <= 50 else 7 <= gain <= 10
  }

  /** `find_one({"_id": key})`. */
  function Lookup(xp: map<string, Record>, key: string): Option<Record>
  {
    if key in xp then Some(xp[key]) else None
  }

  /**
   * The record a message starts from: the stored one if it carries the
   * current month's tag; otherwise an empty monthly track, the lifetime
   * totals carried over (zero when there is no record), and the new tag.
   */
  function Current(stored: Option<Record>, month: string): Record
  {
    match stored
    case Some(rec) =>
      if rec.month == month then rec else Record(0, 0, rec.xpTotal, rec.lvlTotal, month)
    case None => Record(0, 0, 0, 0, month)
  }

  /** The record saved after a message worth `gain` XP. */
  function Step(stored: Option<Record>, month: string, gain: nat): Record
  {
    var base := Current(stored, month);
    var p := LevelUp(Progress(base.xpMonth + gain, base.lvlMonth));
    Record(p.xp, p.level, base.xpTotal + gain, base.lvlTotal + (p.level - base.lvlMonth), month)
  }

  /** What a record looks like between messages: the level-up loop has nothing left to do. */
  predicate AtRest(rec: Record)
  {
    && rec.lvlMonth <= MaxLevel
    && (rec.lvlMonth == MaxLevel || rec.xpMonth < Threshold(rec.lvlMonth))
    && rec.xpMonth <= rec.xpTotal
    && rec.lvlMonth <= rec.lvlTotal
  }

  /**
   * The bookkeeping of one message: the lifetime XP grows by exactly the gain
   * and is never reduced; the monthly level never drops; the lifetime level
   * climbs exactly as many levels as the monthly one; and the monthly XP left
   * plus the thresholds paid equals the monthly XP before plus the gain.
   */
  lemma StepAccounting(stored: Option<Record>, month: string, gain: nat)
    ensures var base := Current(stored, month);
      var r := Step(stored, month, gain);
      && r.month == month
      && r.xpTotal == base.xpTotal + gain
      && base.lvlMonth <= r.lvlMonth
      && r.lvlTotal - base.lvlTotal == r.lvlMonth - base.lvlMonth
      && r.xpMonth + SumThresholds(base.lvlMonth, r.lvlMonth) == base.xpMonth + gain
    ensures stored.Some? ==>
      && Step(stored, month, gain).xpTotal == stored.value.xpTotal + gain
      && Step(stored, month, gain).lvlTotal >= stored.value.lvlTotal
    ensures stored.None? ==> Step(stored, month, gain).xpTotal == gain
  {
    var base := Current(stored, month);
    LevelUpConserves(Progress(base.xpMonth + gain, base.lvlMonth));
  }

  /**
   * A message in a new month (or from a new user) starts the monthly track
   * from zero: one gain is below the 93 XP that leave level 0, so the monthly
   * track holds exactly the gain at level 0 and the lifetime level is unchanged.
   */
  lemma StepInNewMonth(stored: Option<Record>, month: string, hasPhoto: bool, gain: nat)
    requires stored.None? || stored.value.month != month
    requires GainInRange(hasPhoto, gain)
    ensures var r := Step(stored, month, gain);
      && r.xpMonth == gain && r.lvlMonth == 0
      && r.xpTotal == (if stored.Some? then stored.value.xpTotal else 0) + gain
      && r.lvlTotal == (if stored.Some? then stored.value.lvlTotal else 0)
      && r.month == month
  {
    assert !CanAdvance(Progress(gain, 0));
  }

  /** A record at rest stays at rest: the loop always ends with nothing left to level. */
  lemma StepAtRest(stored: Option<Record>, month: string, gain: nat)
    requires stored.Some? ==> AtRest(stored.value)
    ensures AtRest(Step(stored, month, gain))
  {
    var base := Current(stored, month);
    StepAccounting(stored, month, gain);
    SumThresholdsAtLeast(base.lvlMonth, Step(stored, month, gain).lvlMonth);
  }

  /** The announcements for reaching `level`: a congratulation, then the chat's reward for that level if one is set. */
  function NoticesAt(chat: int, user: int, thread: int, rewards: map<string, string>, level: nat): seq<Notice>
  {
    [Congrats(chat, thread, user, level)]
    + (if RewardKey(chat, level) in rewards then [Reward(chat, thread, rewards[RewardKey(chat, level)])] else [])
  }

  /** The announcements for climbing from level `from` to level `to`, in order. */
  function Notices(chat: int, user: int, thread: int, rewards: map<string, string>, from: nat, to: nat): seq<Notice>
    decreases (to as int) - (from as int)
  {
    if to <= from then [] else Notices(chat, user, thread, rewards, from, to - 1) + NoticesAt(chat, user, thread, rewards, to)
  }

  /** Every announcement goes to the chat's alert thread. */
  lemma {:induction false} NoticesToThread(chat: int, user: int, thread: int, rewards: map<string, string>, from: nat, to: nat)
    ensures forall i :: 0 <= i < |Notices(chat, user, thread, rewards, from, to)| ==>
      Notices(chat, user, thread, rewards, from, to)[i].chat == chat && Notices(chat, user, thread, rewards, from, to)[i].thread == thread
    decreases (to as int) - (from as int)
  {
    if from < to {
      NoticesToThread(chat, user, thread, rewards, from, to - 1);
    }
  }

  /** The levels named by the congratulations among `out`, in order. */
  function CongratLevels(out: seq<Notice>): seq<nat>
  {
    if |out| == 0 then []
    else CongratLevels(out[..|out| - 1]) + (if out[|out| - 1].Congrats? then [out[|out| - 1].level] else [])
  }

  lemma {:induction false} CongratLevelsAppend(a: seq<Notice>, b: seq<Notice>)
    ensures CongratLevels(a + b) == CongratLevels(a) + CongratLevels(b)
    decreases |b|
  {
    if |b| > 0 {
      var c := a + b;
      assert c[..|c| - 1] == a + b[..|b| - 1];
      assert c[|c| - 1] == b[|b| - 1];
      CongratLevelsAppend(a, b[..|b| - 1]);
      var tail := if b[|b| - 1].Congrats? then [b[|b| - 1].level] else [];
      assert CongratLevels(c) == CongratLevels(a + b[..|b| - 1]) + tail;
      assert CongratLevels(b) == CongratLevels(b[..|b| - 1]) + tail;
      assert CongratLevels(a) + CongratLevels(b[..|b| - 1]) + tail == CongratLevels(a) + (CongratLevels(b[..|b| - 1]) + tail);
    } else {
      assert a + b == a;
    }
  }

  lemma CongratLevelsAt(chat: int, user: int, thread: int, rewards: map<string, string>, level: nat)
    ensures CongratLevels(NoticesAt(chat, user, thread, rewards, level)) == [level]
  {
    var seg := NoticesAt(chat, user, thread, rewards, level);
    assert CongratLevels([Congrats(chat, thread, user, level)]) == [level] by {
      assert [Congrats(chat, thread, user, level)][..0] == [];
    }
    if |seg| == 2 {
      assert seg[..1] == [Congrats(chat, thread, user, level)];
    }
  }

  /** One congratulation per level climbed, naming each new level in turn: levels gained equals congratulations sent. */
  lemma {:induction false} NoticesCongratulateEachLevel(chat: int, user: int, thread: int, rewards: map<string, string>, from: nat, to: nat)
    requires from <= to
    ensures |CongratLevels(Notices(chat, user, thread, rewards, from, to))| == to - from
    ensures forall i :: 0 <= i < to - from ==> CongratLevels(Notices(chat, user, thread, rewards, from, to))[i] == from + 1 + i
    decreases (to as int) - (from as int)
  {
    if from < to {
      var prev := Notices(chat, user, thread, rewards, from, to - 1);
      var seg := NoticesAt(chat, user, thread, rewards, to);
      NoticesCongratulateEachLevel(chat, user, thread, rewards, from, to - 1);
      CongratLevelsAppend(prev, seg);
      CongratLevelsAt(chat, user, thread, rewards, to);
      var levels := CongratLevels(prev);
      assert CongratLevels(Notices(chat, user, thread, rewards, from, to)) == levels + [to];
      forall i | 0 <= i < to - from
        ensures (levels + [to])[i] == from + 1 + i
      {
        if i < |levels| {
          assert (levels + [to])[i] == levels[i];
        }
      }
    }
  }

  /**
   * Rewards are sent right after the congratulation for their level and only
   * then: a reward follows a congratulation exactly when the chat has a
   * reward for the level congratulated, and it carries that reward's text.
   */
  ghost predicate RewardsFollow(out: seq<Notice>, chat: int, rewards: map<string, string>)
  {
    && (forall i :: 0 <= i < |out| && out[i].Reward? ==>
          && i > 0 && out[i - 1].Congrats?
          && RewardKey(chat, out[i - 1].level) in rewards
          && out[i].text == rewards[RewardKey(chat, out[i - 1].level)])
    && (forall i :: 0 <= i < |out| && out[i].Congrats? && RewardKey(chat, out[i].level) in rewards ==>
          i + 1 < |out| && out[i + 1].Reward?)
  }

  lemma {:induction false} NoticesRewardsFollow(chat: int, user: int, thread: int, rewards: map<string, string>, from: nat, to: nat)
    ensures RewardsFollow(Notices(chat, user, thread, rewards, from, to), chat, rewards)
    decreases (to as int) - (from as int)
  {
    if from < to {
      var prev := Notices(chat, user, thread, rewards, from, to - 1);
      var seg := NoticesAt(chat, user, thread, rewards, to);
      var out := prev + seg;
      NoticesRewardsFollow(chat, user, thread, rewards, from, to - 1);
      assert out == Notices(chat, user, thread, rewards, from, to);
      assert forall i :: 0 <= i < |prev| ==> out[i] == prev[i];
      assert forall i :: 0 <= i < |seg| ==> out[|prev| + i] == seg[i];
      assert out[|prev|] == Congrats(chat, thread, user, to);
      forall i | 0 <= i < |out| && out[i].Reward?
        ensures i > 0 && out[i - 1].Congrats?
        ensures RewardKey(chat, out[i - 1].level) in rewards
        ensures out[i].text == rewards[RewardKey(chat, out[i - 1].level)]
      {
        if i >= |prev| {
          assert i == |prev| + 1;
        }
      }
      forall i | 0 <= i < |out| && out[i].Congrats? && RewardKey(chat, out[i].level) in rewards
        ensures i + 1 < |out| && out[i + 1].Reward?
      {
        if i < |prev| {
          assert prev[i].Congrats? && RewardKey(chat, prev[i].level) in rewards;
        } else {
          assert i == |prev|;
        }
      }
    }
  }

  /** The guarded reset of a record: at rest, tagged with the month, and all zero for a user without a record. */
  lemma CurrentIsAtRest(stored: Option<Record>, month: string)
    requires stored.Some? ==> AtRest(stored.value)
    ensures AtRest(Current(stored, month))
    ensures Current(stored, month).month == month
    ensures stored.None? ==> Current(stored, month) == Record(0, 0, 0, 0, month)
    ensures stored.Some? ==>
      Current(stored, month).xpTotal == stored.value.xpTotal && Current(stored, month).lvlTotal == stored.value.lvlTotal
  {
  }
}
