/**
 * Links to platform events, their parser, and the attendee block that the
 * reaction handlers write into an event's description.
 *
 * Text is `seq<char>`. The parser recognises only the link grammar
 * `https://discord.com/events/<digits>/<digits>` with ASCII digits, taking
 * the leftmost match and greedy digit runs as a backtracking matcher does for
 * this pattern. The attendee block ends its lines in the platform's line
 * end (`Environment.NewLine`), a parameter `nl` here.
 */
module GuildEventUtility {
  import opened Common

  const LinkPrefix: string := "https://discord.com/events/"

  /** The separator between the free text of a description and its attendee block. */
  const Delimiter: string := "----------------------"

  // ---------------------------------------------------------------------
  // Decimal numerals

  predicate IsDigit(c: char)
  {
    '0' <= c <= '9'
  }

  predicate AllDigits(s: string)
  {
    forall i :: 0 <= i < |s| ==> IsDigit(s[i])
  }

  function DigitChar(d: nat): (c: char)
    requires d < 10
    ensures IsDigit(c)
  {
    ('0' as int + d) as char
  }

  /** Decimal text of a number, without leading zeros. */
  function DecimalString(n: nat): (s: string)
    ensures |s| > 0 && AllDigits(s)
  {
    if n < 10 then [DigitChar(n)] else DecimalString(n / 10) + [DigitChar(n % 10)]
  }

  /** The number a digit string denotes. */
  function DecimalValue(s: string): nat
    requires AllDigits(s)
  {
    if s == [] then 0 else DecimalValue(s[..|s| - 1]) * 10 + (s[|s| - 1] as int - '0' as int)
  }

  lemma {:induction false} DecimalRoundTrip(n: nat)
    ensures DecimalValue(DecimalString(n)) == n
  {
    if n >= 10 {
      DecimalRoundTrip(n / 10);
      var s := DecimalString(n);
      assert s[..|s| - 1] == DecimalString(n / 10);
    }
  }

  /** `ulong.TryParse` on a string of ASCII digits: fails when the value does not fit. */
  function TryParseU64(s: string): (r: Option<u64>)
    requires AllDigits(s)
    ensures r.Some? <==> DecimalValue(s) < U64Limit
    ensures r.Some? ==> r.value == DecimalValue(s)
  {
    var v := DecimalValue(s);
    if v < U64Limit then Some(v) else None
  }

  // ---------------------------------------------------------------------
  // Links

  /**
   * `CreateEventLink`: the prefix, then two digit runs split by the single
   * `/` after the guild id. That it parses back is `LinkRoundTrip`.
   */
  function CreateEventLink(guildId: u64, discordEventId: u64): (r: string)
    ensures |LinkPrefix| + 3 <= |r| && r[..|LinkPrefix|] == LinkPrefix
    ensures IsDigit(r[|LinkPrefix|]) && IsDigit(r[|r| - 1])
    ensures forall k :: |LinkPrefix| <= k < |r| ==> IsDigit(r[k]) || r[k] == '/'
    ensures forall k, j :: |LinkPrefix| <= k < j < |r| && r[k] == '/' ==> r[j] != '/'
  {
    LinkPrefix + DecimalString(guildId) + "/" + DecimalString(discordEventId)
  }

  /** Length of the run of digits that starts at position `i`. */
  function DigitRun(s: string, i: nat): (n: nat)
    requires i <= |s|
    ensures i + n <= |s|
    ensures forall k :: i <= k < i + n ==> IsDigit(s[k])
    ensures i + n < |s| ==> !IsDigit(s[i + n])
    decreases |s| - i
  {
    if i < |s| && IsDigit(s[i]) then 1 + DigitRun(s, i + 1) else 0
  }

  /** The two captured digit groups of a match. */
  datatype Groups = Groups(first: string, second: string)

  /**
   * The pattern matched at position `i`: the prefix, a digit run that must
   * be followed by '/', and a second non-empty digit run. Greedy runs cannot
   * give back digits here, since a shorter first run is followed by a digit,
   * not '/'.
   */
  function MatchAt(s: string, i: nat): (r: Option<Groups>)
    ensures r.Some? ==> AllDigits(r.value.first) && AllDigits(r.value.second)
    ensures r.Some? ==> i + |LinkPrefix| <= |s|
  {
    var p := i + |LinkPrefix|;
    if p <= |s| && s[i..p] == LinkPrefix then
      var n1 := DigitRun(s, p);
      var q := p + n1;
      if n1 > 0 && q < |s| && s[q] == '/' then
        var n2 := DigitRun(s, q + 1);
        if n2 > 0 then Some(Groups(s[p..q], s[q + 1..q + 1 + n2])) else None
      else None
    else None
  }

  /** The scan for the leftmost match position at or after `i`; the length of `s` or more if none. */
  function MatchPosition(s: string, i: nat): (p: nat)
    ensures i <= p
    ensures p < |s| ==> MatchAt(s, p).Some?
    ensures forall k :: i <= k < p ==> MatchAt(s, k).None?
    ensures p >= |s| ==> forall k :: i <= k ==> MatchAt(s, k).None?
    decreases |s| - i
  {
    if i >= |s| || MatchAt(s, i).Some? then i else MatchPosition(s, i + 1)
  }

  /** The leftmost match at or after position `i`. */
  function FirstMatch(s: string, i: nat): (r: Option<Groups>)
    ensures r.None? ==> forall j :: i <= j ==> MatchAt(s, j).None?
    ensures r.Some? ==> exists j :: i <= j < |s| && MatchAt(s, j) == r &&
                                    forall k :: i <= k < j ==> MatchAt(s, k).None?
  {
    var p := MatchPosition(s, i);
    if p < |s| then MatchAt(s, p) else None
  }

  /** The result of `TryParseEventDetails`: success and the two out parameters. */
  datatype EventDetails = EventDetails(ok: bool, guildId: u64, discordEventId: u64)

  /**
   * `TryParseEventDetails`: both outputs start at 0; a failed `TryParse`
   * leaves its output at 0, and the second group is parsed only when the
   * first succeeded.
   */
  function TryParseEventDetails(text: string): (r: EventDetails)
    ensures FirstMatch(text, 0).None? ==> r == EventDetails(false, 0, 0)
    ensures r.ok <==> FirstMatch(text, 0).Some? &&
                      DecimalValue(FirstMatch(text, 0).value.first) < U64Limit &&
                      DecimalValue(FirstMatch(text, 0).value.second) < U64Limit
    ensures r.ok ==> r.guildId == DecimalValue(FirstMatch(text, 0).value.first) &&
                     r.discordEventId == DecimalValue(FirstMatch(text, 0).value.second)
    ensures !r.ok ==> r.discordEventId == 0
    ensures !r.ok && FirstMatch(text, 0).Some? ==>
              r.guildId == (if DecimalValue(FirstMatch(text, 0).value.first) < U64Limit
                            then DecimalValue(FirstMatch(text, 0).value.first) else 0)
  {
    match FirstMatch(text, 0)
    case None => EventDetails(false, 0, 0)
    case Some(g) =>
      match TryParseU64(g.first)
      case None => EventDetails(false, 0, 0)
      case Some(guildId) =>
        match TryParseU64(g.second)
        case None => EventDetails(false, guildId, 0)
        case Some(eventId) => EventDetails(true, guildId, eventId)
  }

  /**
   * A link parses back to the ids it was made from, also when text follows
   * it that does not continue the second number.
   */
  lemma LinkRoundTrip(guildId: u64, discordEventId: u64, rest: string)
    requires rest == [] || !IsDigit(rest[0])
    ensures TryParseEventDetails(CreateEventLink(guildId, discordEventId) + rest) ==
            EventDetails(true, guildId, discordEventId)
  {
    var g := DecimalString(guildId);
    var e := DecimalString(discordEventId);
    LinkMatches(g, e, rest);
    DecimalRoundTrip(guildId);
    DecimalRoundTrip(discordEventId);
  }

  /** The prefix, two digit strings split by `/`, and a non-digit match as those two groups. */
  lemma LinkMatches(g: string, e: string, rest: string)
    requires |g| > 0 && AllDigits(g) && |e| > 0 && AllDigits(e)
    requires rest == [] || !IsDigit(rest[0])
    ensures MatchAt(LinkPrefix + g + "/" + e + rest, 0) == Some(Groups(g, e))
  {
    var s := LinkPrefix + g + "/" + e + rest;
    var p := |LinkPrefix|;
    assert s[0..p] == LinkPrefix;
    DigitRunExact(s, p, g);
    assert s[p + |g|] == '/';
    DigitRunExact(s, p + |g| + 1, e);
    assert s[p..p + |g|] == g;
    assert s[p + |g| + 1..p + |g| + 1 + |e|] == e;
  }

  /** A digit string followed by a non-digit (or the end) is one whole run. */
  lemma DigitRunExact(s: string, i: nat, d: string)
    requires i + |d| <= |s| && s[i..i + |d|] == d && AllDigits(d)
    requires i + |d| < |s| ==> !IsDigit(s[i + |d|])
    ensures DigitRun(s, i) == |d|
    decreases |d|
  {
    if |d| > 0 {
      assert s[i] == d[0];
      assert s[i + 1..i + 1 + |d[1..]|] == d[1..];
      DigitRunExact(s, i + 1, d[1..]);
    }
  }

  // ---------------------------------------------------------------------
  // Event descriptions

  predicate OccursAt(s: string, d: string, j: nat)
  {
    j + |d| <= |s| && s[j..j + |d|] == d
  }

  /** The first occurrence of `d` at or after position `i`. */
  function FindFrom(s: string, d: string, i: nat): (r: Option<nat>)
    requires |d| > 0
    ensures r.Some? ==> i <= r.value && OccursAt(s, d, r.value)
    ensures r.Some? ==> forall j :: i <= j < r.value ==> !OccursAt(s, d, j)
    ensures r.None? ==> forall j :: i <= j ==> !OccursAt(s, d, j)
    decreases |s| - i
  {
    if i + |d| > |s| then None
    else if s[i..i + |d|] == d then Some(i)
    else FindFrom(s, d, i + 1)
  }

  /** `string.Split(d)`: the pieces between non-overlapping occurrences, left to right. */
  function SplitOn(s: string, d: string): (parts: seq<string>)
    requires |d| > 0
    ensures |parts| > 0
    decreases |s|
  {
    match FindFrom(s, d, 0)
    case None => [s]
    case Some(i) => [s[..i]] + SplitOn(s[i + |d|..], d)
  }

  function Concat(ss: seq<string>): string
  {
    if ss == [] then [] else Concat(ss[..|ss| - 1]) + ss[|ss| - 1]
  }

  /** The attendee lines: one `{user} N/A` line per user, in order, each ended by `nl`. */
  function AttendeeLines(users: seq<string>, nl: string): string
  {
    if users == [] then [] else AttendeeLines(users[..|users| - 1], nl) + users[|users| - 1] + " N/A" + nl
  }

  /** A line end: short, non-empty and without dashes, as both "\n" and "\r\n" are. */
  predicate LineEnd(nl: string)
  {
    0 < |nl| < |Delimiter| && forall i :: 0 <= i < |nl| ==> nl[i] != '-'
  }

  /** The free text `CreateEventDescription` keeps of a previous description. */
  function KeptText(previous: string): string
  {
    var parts := SplitOn(previous, Delimiter);
    if FindFrom(previous, Delimiter, 0).None? then previous else Concat(parts[..|parts| - 1])
  }

  /**
   * `CreateEventDescription`: the kept free text, a delimiter line, and the
   * attendee lines, every line ended by `nl` (`AppendLine`).
   */
  method CreateEventDescription(reactionUsers: seq<string>, previousDescription: string, nl: string)
    returns (r: string)
    ensures r == KeptText(previousDescription) + Delimiter + nl + AttendeeLines(reactionUsers, nl)
  {
    var sb := "";
    if FindFrom(previousDescription, Delimiter, 0).None? {
      sb := sb + previousDescription;
    } else {
      var parts := SplitOn(previousDescription, Delimiter);
      for k := 0 to |parts| - 1
        invariant sb == Concat(parts[..k])
      {
        assert parts[..k + 1][..k] == parts[..k];
        sb := sb + parts[k];
      }
    }
    sb := sb + Delimiter + nl;
    ghost var head := sb;
    for k := 0 to |reactionUsers|
      invariant sb == head + AttendeeLines(reactionUsers[..k], nl)
    {
      assert reactionUsers[..k + 1][..k] == reactionUsers[..k];
      sb := sb + reactionUsers[k] + " N/A" + nl;
    }
    assert reactionUsers[..|reactionUsers|] == reactionUsers;
    return sb;
  }

  predicate NoDelimiter(s: string)
  {
    forall j :: 0 <= j < |s| ==> !OccursAt(s, Delimiter, j)
  }

  predicate EndsInDash(s: string)
  {
    |s| > 0 && s[|s| - 1] == '-'
  }

  /** An occurrence of the delimiter is a run of dashes. */
  lemma OccurrenceIsDashes(s: string, j: nat, k: int)
    requires OccursAt(s, Delimiter, j) && j <= k < j + |Delimiter|
    ensures s[k] == '-'
  {
    assert s[j..j + |Delimiter|][k - j] == Delimiter[k - j];
  }

  /** Joining two delimiter-free texts with a non-dash at the seam gives a delimiter-free text. */
  lemma JoinNoDelimiter(a: string, b: string)
    requires NoDelimiter(a) && NoDelimiter(b)
    requires (a != [] && a[|a| - 1] != '-') || (b != [] && b[0] != '-')
    ensures NoDelimiter(a + b)
  {
    var s := a + b;
    forall j: nat | OccursAt(s, Delimiter, j)
      ensures false
    {
      if j + |Delimiter| <= |a| {
        assert s[j..j + |Delimiter|] == a[j..j + |Delimiter|];
        assert OccursAt(a, Delimiter, j);
      } else if j >= |a| {
        assert s[j..j + |Delimiter|] == b[j - |a|..j - |a| + |Delimiter|];
        assert OccursAt(b, Delimiter, j - |a|);
      } else if a != [] && a[|a| - 1] != '-' {
        OccurrenceIsDashes(s, j, |a| - 1);
      } else {
        OccurrenceIsDashes(s, j, |a|);
      }
    }
  }

  lemma ShortNoDelimiter(s: string)
    requires |s| < |Delimiter|
    ensures NoDelimiter(s)
  {
  }

  /** A line end, and `" N/A"` followed by one, hold no delimiter and contain no dash at their ends. */
  lemma LineEndNoDelimiter(nl: string)
    requires LineEnd(nl)
    ensures NoDelimiter(nl) && NoDelimiter(" N/A" + nl)
    ensures var t := " N/A" + nl; t[0] != '-' && t[|t| - 1] != '-'
  {
    ShortNoDelimiter(nl);
    ShortNoDelimiter(" N/A");
    JoinNoDelimiter(" N/A", nl);
    var t := " N/A" + nl;
    assert t[|t| - 1] == nl[|nl| - 1];
  }

  lemma {:induction false} AttendeeLinesNoDelimiter(users: seq<string>, nl: string)
    requires LineEnd(nl)
    requires forall u :: u in users ==> NoDelimiter(u)
    ensures NoDelimiter(AttendeeLines(users, nl))
    ensures users != [] ==> AttendeeLines(users, nl)[|AttendeeLines(users, nl)| - 1] != '-'
  {
    if users != [] {
      var init := users[..|users| - 1];
      var u := users[|users| - 1];
      var line := " N/A" + nl;
      assert forall x :: x in init ==> x in users;
      AttendeeLinesNoDelimiter(init, nl);
      LineEndNoDelimiter(nl);
      JoinNoDelimiter(u, line);
      assert (u + line)[|u + line| - 1] == line[|line| - 1];
      if init == [] {
        assert AttendeeLines(users, nl) == u + line;
      } else {
        JoinNoDelimiter(AttendeeLines(init, nl), u + line);
        assert AttendeeLines(users, nl) == AttendeeLines(init, nl) + (u + line);
      }
    }
  }

  /** The first delimiter of `previous + Delimiter + tail` is the one after `previous`. */
  lemma FirstDelimiterAfter(previous: string, tail: string)
    requires NoDelimiter(previous) && !EndsInDash(previous)
    ensures FindFrom(previous + Delimiter + tail, Delimiter, 0) == Some(|previous|)
  {
    var written := previous + Delimiter + tail;
    var at := |previous|;
    assert written[at..at + |Delimiter|] == Delimiter;
    assert OccursAt(written, Delimiter, at);
    var f := FindFrom(written, Delimiter, 0);
    assert f.Some? && f.value <= at;
    if f.value < at {
      if f.value + |Delimiter| <= at {
        assert written[f.value..f.value + |Delimiter|] == previous[f.value..f.value + |Delimiter|];
        assert OccursAt(previous, Delimiter, f.value);
      } else {
        OccurrenceIsDashes(written, f.value, at - 1);
      }
    }
  }

  lemma SplitTwo(written: string, previous: string, tail: string)
    requires FindFrom(written, Delimiter, 0) == Some(|previous|)
    requires written == previous + Delimiter + tail
    requires FindFrom(tail, Delimiter, 0).None?
    ensures SplitOn(written, Delimiter) == [previous, tail]
  {
    assert written[|previous| + |Delimiter|..] == tail;
    assert written[..|previous|] == previous;
  }

  lemma BlockNoDelimiter(users: seq<string>, nl: string)
    requires LineEnd(nl)
    requires forall u :: u in users ==> NoDelimiter(u)
    ensures FindFrom(nl + AttendeeLines(users, nl), Delimiter, 0).None?
  {
    AttendeeLinesNoDelimiter(users, nl);
    LineEndNoDelimiter(nl);
    if users != [] {
      JoinNoDelimiter(nl, AttendeeLines(users, nl));
    } else {
      assert nl + AttendeeLines(users, nl) == nl;
    }
  }

  /**
   * A description written for free text without the delimiter (and not
   * ending in a dash) splits back into that text and the attendee block, so
   * writing it again with the same or other users replaces the block instead
   * of adding a second one.
   */
  lemma DescriptionRewrite(users: seq<string>, next: seq<string>, previous: string, nl: string)
    requires LineEnd(nl)
    requires NoDelimiter(previous) && !EndsInDash(previous)
    requires forall u :: u in users ==> NoDelimiter(u)
    ensures var written := previous + Delimiter + nl + AttendeeLines(users, nl);
            SplitOn(written, Delimiter) == [previous, nl + AttendeeLines(users, nl)] &&
            KeptText(written) == previous &&
            KeptText(written) + Delimiter + nl + AttendeeLines(next, nl) ==
              KeptText(previous) + Delimiter + nl + AttendeeLines(next, nl)
  {
    var tail := nl + AttendeeLines(users, nl);
    var written := previous + Delimiter + nl + AttendeeLines(users, nl);
    assert written == previous + Delimiter + tail;
    FirstDelimiterAfter(previous, tail);
    assert written[|previous| + |Delimiter|..] == tail;
    BlockNoDelimiter(users, nl);
    SplitTwo(written, previous, tail);
    var parts := SplitOn(written, Delimiter);
    assert parts[..|parts| - 1] == [previous];
    assert Concat([previous]) == Concat([]) + previous;
    assert KeptText(written) == previous;
    assert FindFrom(previous, Delimiter, 0).None?;
    assert KeptText(previous) == previous;
  }
}
