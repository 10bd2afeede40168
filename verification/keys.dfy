/**
 * The text encodings the bot relies on: Python's `str` on integers, `int` on
 * strings, `str.split` with and without a limit, and the composite document
 * keys `"<chat>_<user>"` (xp records) and `"<chat>_<level>"` (level rewards)
 * built from them.
 */
module Keys {
  import opened Results

  predicate IsDigit(c: char) { '0' <= c <= '9' }

  function DigitChar(d: nat): (c: char)
    requires d < 10
    ensures IsDigit(c)
  {
    ('0' as int + d) as char
  }

  function DigitValue(c: char): (d: nat)
    requires IsDigit(c)
    ensures d < 10
  {
    c as int - '0' as int
  }

  /** Decimal digits of `n`, most significant first, without leading zeros. */
  function NatToString(n: nat): (s: string)
    ensures |s| > 0
    ensures forall i :: 0 <= i < |s| ==> IsDigit(s[i])
    decreases n
  {
    if n < 10 then [DigitChar(n)] else NatToString(n / 10) + [DigitChar(n % 10)]
  }

  /** Python's `str(n)`: a minus sign before the digits of a negative number. */
  function IntToString(n: int): (s: string)
    ensures |s| > 0 && (s[0] == '-' || IsDigit(s[0]))
    ensures forall i :: 0 < i < |s| ==> IsDigit(s[i])
    ensures s[0] == '-' <==> n < 0
  {
    if n < 0 then "-" + NatToString(-n) else NatToString(n)
  }

  predicate DigitsOrUnderscores(s: string)
  {
    forall i :: 0 <= i < |s| ==> IsDigit(s[i]) || s[i] == '_'
  }

  /** Digits in which single underscores may stand between two digits, as `int()` accepts them. */
  predicate IsDigitGroups(s: string)
  {
    && |s| > 0
    && DigitsOrUnderscores(s)
    && forall i :: 0 <= i < |s| && s[i] == '_' ==> 0 < i < |s| - 1 && IsDigit(s[i - 1]) && IsDigit(s[i + 1])
  }

  /** The number the digits of `s` spell, underscores skipped. */
  function DigitsValue(s: string): nat
    requires DigitsOrUnderscores(s)
  {
    if |s| == 0 then 0
    else if s[|s| - 1] == '_' then DigitsValue(s[..|s| - 1])
    else DigitsValue(s[..|s| - 1]) * 10 + DigitValue(s[|s| - 1])
  }

  function ParseNat(s: string): Option<nat>
  {
    if IsDigitGroups(s) then Some(DigitsValue(s)) else None
  }

  /** Python's `int(s)` on ASCII text: an optional sign, then digit groups; `None` where it raises. */
  function ParseInt(s: string): Option<int>
  {
    if |s| > 0 && (s[0] == '-' || s[0] == '+') then
      match ParseNat(s[1..])
      case Some(v) => Some(if s[0] == '-' then -(v as int) else v)
      case None => None
    else
      match ParseNat(s)
      case Some(v) => Some(v)
      case None => None
  }

  lemma {:induction false} NatToStringParses(n: nat)
    ensures IsDigitGroups(NatToString(n))
    ensures DigitsValue(NatToString(n)) == n
    decreases n
  {
    var s := NatToString(n);
    if n < 10 {
      assert s[..0] == [];
    } else {
      NatToStringParses(n / 10);
      assert s[..|s| - 1] == NatToString(n / 10);
    }
  }

  lemma NatToStringRoundTrip(n: nat)
    ensures ParseNat(NatToString(n)) == Some(n)
  {
    NatToStringParses(n);
  }

  /** `int(str(n)) == n` for every integer. */
  lemma IntToStringRoundTrip(n: int)
    ensures ParseInt(IntToString(n)) == Some(n)
  {
    var s := IntToString(n);
    if n < 0 {
      var digits := NatToString(-n);
      assert s == "-" + digits;
      assert s[1..] == digits;
      NatToStringRoundTrip(-n);
    } else {
      assert IsDigit(s[0]);
      NatToStringRoundTrip(n);
    }
  }

  lemma IntToStringInjective(a: int, b: int)
    requires IntToString(a) == IntToString(b)
    ensures a == b
  {
    IntToStringRoundTrip(a);
    IntToStringRoundTrip(b);
  }

  /** Python's `s.split(sep, limit)`: at most `limit` splits, the rest left in the last field. */
  function SplitN(s: string, sep: char, limit: nat): (parts: seq<string>)
    ensures 1 <= |parts| <= limit + 1
    decreases |s|
  {
    if |s| == 0 || limit == 0 then [s]
    else if s[0] == sep then [""] + SplitN(s[1..], sep, limit - 1)
    else
      var rest := SplitN(s[1..], sep, limit);
      [[s[0]] + rest[0]] + rest[1..]
  }

  /** Python's `s.split(sep)`: a string has fewer separators than characters, so `|s|` splits suffice. */
  function Split(s: string, sep: char): seq<string>
  {
    SplitN(s, sep, |s|)
  }

  /** Python's `sep.join(parts)`. */
  function Join(parts: seq<string>, sep: char): string
    requires |parts| > 0
  {
    if |parts| == 1 then parts[0] else parts[0] + [sep] + Join(parts[1..], sep)
  }

  /** Putting a character in front of the first field puts it in front of the joined string. */
  lemma JoinPrepend(c: char, parts: seq<string>, sep: char)
    requires |parts| > 0
    ensures Join([[c] + parts[0]] + parts[1..], sep) == [c] + Join(parts, sep)
  {
    var q := [[c] + parts[0]] + parts[1..];
    assert q[0] == [c] + parts[0];
    assert q[1..] == parts[1..];
    if |parts| > 1 {
      assert [c] + parts[0] + [sep] + Join(parts[1..], sep) == [c] + (parts[0] + [sep] + Join(parts[1..], sep));
    }
  }

  /** Splitting loses nothing: joining the fields back gives the original string. */
  lemma {:induction false} JoinSplitN(s: string, sep: char, limit: nat)
    ensures Join(SplitN(s, sep, limit), sep) == s
    decreases |s|
  {
    if |s| == 0 || limit == 0 {
    } else if s[0] == sep {
      JoinSplitN(s[1..], sep, limit - 1);
      assert s == [sep] + s[1..];
    } else {
      var rest := SplitN(s[1..], sep, limit);
      JoinSplitN(s[1..], sep, limit);
      JoinPrepend(s[0], rest, sep);
      assert s == [s[0]] + s[1..];
    }
  }

  lemma {:induction false} SplitNWithoutSep(s: string, sep: char, limit: nat)
    requires sep !in s
    ensures SplitN(s, sep, limit) == [s]
    decreases |s|
  {
    if |s| == 0 || limit == 0 {
    } else {
      assert s[0] in s;
      assert forall c :: c in s[1..] ==> c in s;
      SplitNWithoutSep(s[1..], sep, limit);
      assert s == [s[0]] + s[1..];
    }
  }

  /** A field free of the separator, then the separator, is split off as the first field. */
  lemma {:induction false} SplitNAfterField(a: string, b: string, sep: char, limit: nat)
    requires sep !in a
    ensures SplitN(a + [sep] + b, sep, limit + 1) == [a] + SplitN(b, sep, limit)
    decreases |a|
  {
    var s := a + [sep] + b;
    if |a| == 0 {
      assert s[1..] == b;
    } else {
      assert a[0] in a;
      assert forall c :: c in a[1..] ==> c in a;
      assert s[1..] == a[1..] + [sep] + b;
      SplitNAfterField(a[1..], b, sep, limit);
      assert [a[0]] + a[1..] == a;
    }
  }

  lemma IntToStringHasNoUnderscore(n: int)
    ensures '_' !in IntToString(n)
  {
    var s := IntToString(n);
    assert forall i :: 0 <= i < |s| ==> s[i] != '_';
  }

  /** `f"{chat_id}_{user_id}"`: the key of a user's xp record in a chat. */
  function MakeKey(chat: int, user: int): string
  {
    IntToString(chat) + "_" + IntToString(user)
  }

  /** `f"{chat.id}_{lvl}"`: the key of the reward announced when a chat member reaches `level`. */
  function RewardKey(chat: int, level: int): string
  {
    MakeKey(chat, level)
  }

  /** The prefix the leaderboard counts records by. */
  function ChatPrefix(chat: int): string
  {
    IntToString(chat) + "_"
  }

  /** The prefix the leaderboard fetches and the profile ranks records by. */
  function MonthPrefix(chat: int): string
  {
    "MONTH_" + ChatPrefix(chat)
  }

  /** `_, uid_str = id.split("_", 2)[1:]; int(uid_str)`; `None` where Python raises. */
  function KeyUser(id: string): Option<int>
  {
    var parts := SplitN(id, '_', 2);
    if |parts| == 3 then ParseInt(parts[2]) else None
  }

  /** `id.split("_", 1)[1]` read as an integer: the user of a `"<chat>_<user>"` key; `None` where Python raises. */
  function ChatKeyUser(id: string): Option<int>
  {
    var parts := SplitN(id, '_', 1);
    if |parts| == 2 then ParseInt(parts[1]) else None
  }

  lemma MakeKeyParts(chat: int, user: int)
    ensures Split(MakeKey(chat, user), '_') == [IntToString(chat), IntToString(user)]
  {
    var c, u := IntToString(chat), IntToString(user);
    IntToStringHasNoUnderscore(chat);
    IntToStringHasNoUnderscore(user);
    assert MakeKey(chat, user) == c + ['_'] + u;
    SplitNAfterField(c, u, '_', |MakeKey(chat, user)| - 1);
    SplitNWithoutSep(u, '_', |MakeKey(chat, user)| - 1);
  }

  /** Different (chat, user) pairs never share a record. */
  lemma MakeKeyInjective(c1: int, u1: int, c2: int, u2: int)
    requires MakeKey(c1, u1) == MakeKey(c2, u2)
    ensures c1 == c2 && u1 == u2
  {
    MakeKeyParts(c1, u1);
    MakeKeyParts(c2, u2);
    IntToStringInjective(c1, c2);
    IntToStringInjective(u1, u2);
  }

  lemma FieldPrefix(a: string, b: string, rest: string, sep: char)
    requires sep !in a && sep !in b
    requires a + [sep] <= b + [sep] + rest
    ensures a == b
  {
    var s := b + [sep] + rest;
    var p := a + [sep];
    assert p == s[..|p|];
    assert s[|a|] == p[|a|] == sep;
    assert s[|b|] == sep;
    assert forall j :: 0 <= j < |b| ==> s[j] == b[j] && b[j] in b;
    assert forall j :: 0 <= j < |a| && j < |p| ==> s[j] == p[j] == a[j] && a[j] in a;
    assert a == (a + [sep])[..|a|] == s[..|b|] == b;
  }

  /** A record key carries the chat prefix of exactly one chat: its own. */
  lemma ChatPrefixSelectsChat(prefixChat: int, chat: int, user: int)
    ensures ChatPrefix(prefixChat) <= MakeKey(chat, user) <==> prefixChat == chat
  {
    IntToStringHasNoUnderscore(prefixChat);
    IntToStringHasNoUnderscore(chat);
    if ChatPrefix(prefixChat) <= MakeKey(chat, user) {
      FieldPrefix(IntToString(prefixChat), IntToString(chat), IntToString(user), '_');
      IntToStringInjective(prefixChat, chat);
    }
  }

  /** No key built by `MakeKey` starts with `"MONTH_"`: it starts with a digit or a minus sign. */
  lemma MonthPrefixNeverMatches(prefixChat: int, chat: int, user: int)
    ensures !(MonthPrefix(prefixChat) <= MakeKey(chat, user))
  {
    var k := MakeKey(chat, user);
    assert k[0] == IntToString(chat)[0];
    assert MonthPrefix(prefixChat)[0] == 'M';
  }

  /** The user id parsed back from a key under a chat's month prefix is whatever follows that prefix. */
  lemma MonthKeyUser(chat: int, id: string)
    requires MonthPrefix(chat) <= id
    ensures SplitN(id, '_', 2) == ["MONTH", IntToString(chat), id[|MonthPrefix(chat)|..]]
    ensures KeyUser(id) == ParseInt(id[|MonthPrefix(chat)|..])
  {
    var c := IntToString(chat);
    var rest := id[|MonthPrefix(chat)|..];
    assert id == MonthPrefix(chat) + rest;
    assert id == "MONTH" + ['_'] + (c + ['_'] + rest);
    IntToStringHasNoUnderscore(chat);
    SplitNAfterField("MONTH", c + ['_'] + rest, '_', 1);
    SplitNAfterField(c, rest, '_', 0);
  }

  /** The round trip of line 74: the user id comes back out of a month-prefixed record key. */
  lemma MonthKeyRoundTrip(chat: int, user: int)
    ensures KeyUser("MONTH_" + MakeKey(chat, user)) == Some(user)
  {
    var id := "MONTH_" + MakeKey(chat, user);
    assert id == MonthPrefix(chat) + IntToString(user);
    MonthKeyUser(chat, id);
    assert id[|MonthPrefix(chat)|..] == IntToString(user);
    IntToStringRoundTrip(user);
  }

  /** The parse of line 74 fails on a key as the bot writes it: it splits into two fields, not three. */
  lemma RecordKeyFailsMonthParse(chat: int, user: int)
    ensures KeyUser(MakeKey(chat, user)) == None
  {
    var c, u := IntToString(chat), IntToString(user);
    IntToStringHasNoUnderscore(chat);
    IntToStringHasNoUnderscore(user);
    assert MakeKey(chat, user) == c + ['_'] + u;
    SplitNAfterField(c, u, '_', 1);
    SplitNWithoutSep(u, '_', 1);
  }

  /** Splitting a key once after the chat gives the user back. */
  lemma ChatKeyRoundTrip(chat: int, user: int)
    ensures ChatKeyUser(MakeKey(chat, user)) == Some(user)
  {
    var c, u := IntToString(chat), IntToString(user);
    IntToStringHasNoUnderscore(chat);
    assert MakeKey(chat, user) == c + ['_'] + u;
    SplitNAfterField(c, u, '_', 0);
    IntToStringRoundTrip(user);
  }
}
