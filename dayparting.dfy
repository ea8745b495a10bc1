/**
 * Dayparting: the time-of-day windows during which a brand's campaign may
 * spend. The wire form is a JSON list whose well-formed entries are pairs of
 * "HH:MM" strings; the parsed form is a list of intervals of times of day.
 *
 * The parser is lenient: an entry that is not a two-element list, or any side
 * of which is not a time, is dropped without an error. The serializer renders
 * every time zero-padded. The evaluator asks whether a time of day lies
 * strictly inside some interval; an empty list allows every time.
 */
module Dayparting {

  import opened Wrappers
  import opened Clock

  /**
   * One element of a raw dayparting list as decoded from JSON: anything that
   * is not a list (a number, a string, an object, null), or a list of strings.
   */
  datatype RawEntry = NotList | List(items: seq<string>)

  /** A parsed `[from_time, to_time]` pair. */
  datatype Interval = Interval(fromTime: Time, toTime: Time)

  // ---------------------------------------------------------------------------
  // Times of day as text: `strptime(s, '%H:%M')` and `strftime('%H:%M')`
  // ---------------------------------------------------------------------------

  predicate IsDigit(c: char) {
    '0' <= c <= '9'
  }

  function DigitValue(c: char): (r: nat)
    requires IsDigit(c)
    ensures r < 10
  {
    c as int - '0' as int
  }

  function DigitChar(d: nat): (c: char)
    requires d < 10
    ensures IsDigit(c) && DigitValue(c) == d
  {
    ('0' as int + d) as char
  }

  predicate AllDigits(p: string) {
    forall i :: 0 <= i < |p| ==> IsDigit(p[i])
  }

  /** The number a string of decimal digits spells, most significant digit first. */
  function DigitsValue(p: string): nat
    requires AllDigits(p)
    decreases |p|
  {
    if p == [] then 0 else 10 * DigitsValue(p[..|p| - 1]) + DigitValue(p[|p| - 1])
  }

  /**
   * A numeric field as the `%H` and `%M` directives read it: one or two
   * ASCII digits whose value is below `bound` (24 for hours, 60 for
   * minutes). A single digit is accepted, so "8" reads as 8.
   */
  function FieldValue(p: string, bound: nat): (r: Option<nat>)
    ensures r.Some? ==> r.value < bound
    ensures r.Some? ==> 1 <= |p| <= 2 && AllDigits(p)
  {
    if |p| == 1 && IsDigit(p[0]) && DigitValue(p[0]) < bound then
      Some(DigitValue(p[0]))
    else if |p| == 2 && IsDigit(p[0]) && IsDigit(p[1]) && 10 * DigitValue(p[0]) + DigitValue(p[1]) < bound then
      Some(10 * DigitValue(p[0]) + DigitValue(p[1]))
    else
      None
  }

  /** A field reads as the number its digits spell, and every one- or two-digit field below the bound is accepted. */
  lemma FieldValueIsDigitsValue(p: string, bound: nat)
    ensures FieldValue(p, bound).Some? ==> FieldValue(p, bound).value == DigitsValue(p)
    ensures 1 <= |p| <= 2 && AllDigits(p) && DigitsValue(p) < bound ==> FieldValue(p, bound) == Some(DigitsValue(p))
  {
    if 1 <= |p| <= 2 && AllDigits(p) {
      DigitsValueOfShort(p);
    }
  }

  lemma DigitsValueOfShort(p: string)
    requires 1 <= |p| <= 2 && AllDigits(p)
    ensures DigitsValue(p) == if |p| == 1 then DigitValue(p[0]) else 10 * DigitValue(p[0]) + DigitValue(p[1])
  {
    assert p[..|p| - 1][..0] == [];
    if |p| == 2 {
      assert p[..1] == [p[0]];
    }
  }

  function ClockOf(hh: string, mm: string): (r: Option<Time>)
    ensures r.Some? ==> WholeMinute(r.value)
  {
    var h := FieldValue(hh, 24);
    var m := FieldValue(mm, 60);
    if h.Some? && m.Some? then Some(Time(h.value, m.value, 0, 0)) else None
  }

  /**
   * `datetime.strptime(s, '%H:%M').time()`, with `None` for the `ValueError`
   * case: an hour of one or two digits below 24, a colon, and a minute of one
   * or two digits below 60, with nothing before or after.
   */
  function ParseTime(s: string): (r: Option<Time>)
    ensures r.Some? ==> WholeMinute(r.value)
    ensures r.Some? ==> 3 <= |s| <= 5 && ':' in s
  {
    if |s| >= 2 && s[1] == ':' then ClockOf(s[..1], s[2..])
    else if |s| >= 3 && s[2] == ':' then ClockOf(s[..2], s[3..])
    else None
  }

  /**
   * One way of writing the number `n` (below 100) as a `%H` or `%M` field:
   * two digits when `padded` or when `n` needs them, otherwise one.
   */
  function FieldSpelling(n: nat, padded: bool): (p: string)
    requires n < 100
    ensures 1 <= |p| <= 2 && AllDigits(p) && DigitsValue(p) == n
    ensures |p| == 2 <==> padded || n >= 10
  {
    if padded || n >= 10 then
      var p := [DigitChar(n / 10), DigitChar(n % 10)];
      DigitsValueOfShort(p);
      p
    else
      var p := [DigitChar(n)];
      DigitsValueOfShort(p);
      p
  }

  /** Every spelling `H:M`, `H:MM`, `HH:M` or `HH:MM` of an in-range hour and minute parses to that time. */
  lemma ParseSpelling(h: nat, m: nat, padHour: bool, padMinute: bool)
    requires h < 24 && m < 60
    ensures ParseTime(FieldSpelling(h, padHour) + ":" + FieldSpelling(m, padMinute)) == Some(Time(h, m, 0, 0))
  {
    var hh, mm := FieldSpelling(h, padHour), FieldSpelling(m, padMinute);
    var s := hh + ":" + mm;
    assert s[..|hh|] == hh && s[|hh| + 1..] == mm;
    FieldValueIsDigitsValue(hh, 24);
    FieldValueIsDigitsValue(mm, 60);
  }

  /**
   * A string that parses is one of those spellings of the time it gives:
   * the hour is padded iff the colon is not the second character, and the
   * minute is padded iff the colon is not the second-to-last character.
   */
  lemma ParsedIsSpelling(s: string)
    requires ParseTime(s).Some?
    ensures var t := ParseTime(s).value;
      s == FieldSpelling(t.hour, s[1] != ':') + ":" + FieldSpelling(t.minute, s[|s| - 2] != ':')
  {
    var t := ParseTime(s).value;
    var k := if s[1] == ':' then 1 else 2;
    var hh, mm := s[..k], s[k + 1..];
    assert s == hh + ":" + mm;
    FieldValueIsDigitsValue(hh, 24);
    FieldValueIsDigitsValue(mm, 60);
    SpellingOfField(hh, t.hour, s[1] != ':');
    SpellingOfField(mm, t.minute, s[|s| - 2] != ':');
  }

  /** A one- or two-digit field is the spelling of the number it spells. */
  lemma SpellingOfField(p: string, n: nat, padded: bool)
    requires 1 <= |p| <= 2 && AllDigits(p) && DigitsValue(p) == n && n < 100
    requires |p| == 2 <==> padded || n >= 10
    ensures p == FieldSpelling(n, padded)
  {
    DigitsValueOfShort(p);
    var q := FieldSpelling(n, padded);
    if |p| == 2 {
      assert p[..1] == [p[0]] && q[..1] == [q[0]];
      assert DigitValue(p[0]) == n / 10 && DigitValue(p[1]) == n % 10;
    }
  }

  /** The zero-padded 24-hour form "HH:MM". */
  predicate IsZeroPadded(s: string) {
    |s| == 5 && IsDigit(s[0]) && IsDigit(s[1]) && s[2] == ':' && IsDigit(s[3]) && IsDigit(s[4])
  }

  /** `t.strftime('%H:%M')`: seconds and microseconds are not rendered. */
  function FormatTime(t: Time): (r: string)
    ensures IsZeroPadded(r)
    ensures 10 * DigitValue(r[0]) + DigitValue(r[1]) == t.hour
    ensures 10 * DigitValue(r[3]) + DigitValue(r[4]) == t.minute
  {
    [DigitChar(t.hour / 10), DigitChar(t.hour % 10), ':', DigitChar(t.minute / 10), DigitChar(t.minute % 10)]
  }

  /** Formatting then parsing gives back the time, up to the seconds it drops. */
  lemma ParseFormatTime(t: Time)
    ensures ParseTime(FormatTime(t)) == Some(t.(second := 0, micro := 0))
  {
    var s := FormatTime(t);
    assert s[1] != ':';
    assert s[..2] == [s[0], s[1]] && s[3..] == [s[3], s[4]];
  }

  /** What a zero-padded string parses to: its two-digit hour and minute, when both are in range. */
  lemma ParseZeroPadded(s: string)
    requires IsZeroPadded(s)
    ensures ParseTime(s) ==
      var h, m := 10 * DigitValue(s[0]) + DigitValue(s[1]), 10 * DigitValue(s[3]) + DigitValue(s[4]);
      if h < 24 && m < 60 then Some(Time(h, m, 0, 0)) else None
  {
    assert s[1] != ':';
    assert s[..2] == [s[0], s[1]] && s[3..] == [s[3], s[4]];
  }

  /** A zero-padded string that parses is rendered back to itself. */
  lemma FormatParseTime(s: string)
    requires IsZeroPadded(s) && ParseTime(s).Some?
    ensures FormatTime(ParseTime(s).value) == s
  {
    assert s[1] != ':';
    assert s[..2] == [s[0], s[1]] && s[3..] == [s[3], s[4]];
    var r := FormatTime(ParseTime(s).value);
    assert DigitValue(r[0]) == DigitValue(s[0]) && DigitValue(r[1]) == DigitValue(s[1]);
    assert DigitValue(r[3]) == DigitValue(s[3]) && DigitValue(r[4]) == DigitValue(s[4]);
    assert r == s;
  }

  // ---------------------------------------------------------------------------
  // dayparting_from_json / dayparting_to_json
  // ---------------------------------------------------------------------------

  /** The interval an entry contributes, if any: both sides of a two-element list must parse. */
  function EntryInterval(e: RawEntry): (r: Option<Interval>)
    ensures r.Some? ==> e.List? && |e.items| == 2
    ensures r.Some? ==> ParseTime(e.items[0]) == Some(r.value.fromTime)
    ensures r.Some? ==> ParseTime(e.items[1]) == Some(r.value.toTime)
    ensures e.List? && |e.items| == 2 && ParseTime(e.items[0]).Some? && ParseTime(e.items[1]).Some? ==> r.Some?
  {
    match e
    case NotList => None
    case List(items) =>
      if |items| != 2 then None
      else
        var f := ParseTime(items[0]);
        var t := ParseTime(items[1]);
        if f.Some? && t.Some? then Some(Interval(f.value, t.value)) else None
  }

  predicate WholeMinuteInterval(iv: Interval) {
    WholeMinute(iv.fromTime) && WholeMinute(iv.toTime)
  }

  /** The specification of the parser: the valid entries' intervals, in input order. */
  function ParseEntries(raw: seq<RawEntry>): (r: seq<Interval>)
    ensures |r| <= |raw|
    ensures forall k :: 0 <= k < |r| ==> WholeMinuteInterval(r[k])
    decreases |raw|
  {
    if raw == [] then []
    else
      var rest := ParseEntries(raw[..|raw| - 1]);
      match EntryInterval(raw[|raw| - 1])
      case None => rest
      case Some(iv) => rest + [iv]
  }

  /** `dayparting_from_json`: a loop that appends each valid pair and `continue`s past a bad side. */
  method DaypartingFromJson(raw: seq<RawEntry>) returns (dayparting: seq<Interval>)
    ensures dayparting == ParseEntries(raw)
  {
    dayparting := [];
    for i := 0 to |raw|
      invariant dayparting == ParseEntries(raw[..i])
    {
      assert raw[..i + 1][..i] == raw[..i];
      var pair := raw[i];
      if pair.List? && |pair.items| == 2 {
        var fromTimeStr, toTimeStr := pair.items[0], pair.items[1];
        var fromTime := ParseTime(fromTimeStr);
        if fromTime.None? {
          continue;
        }
        var toTime := ParseTime(toTimeStr);
        if toTime.None? {
          continue;
        }
        dayparting := dayparting + [Interval(fromTime.value, toTime.value)];
      }
    }
    assert raw[..|raw|] == raw;
  }

  /** The JSON pair an interval is rendered as. */
  function RenderInterval(iv: Interval): (r: RawEntry)
    ensures r.List? && |r.items| == 2
    ensures IsZeroPadded(r.items[0]) && IsZeroPadded(r.items[1])
  {
    List([FormatTime(iv.fromTime), FormatTime(iv.toTime)])
  }

  /** The specification of the serializer. */
  function SerializeEntries(dayparting: seq<Interval>): (r: seq<RawEntry>)
    ensures |r| == |dayparting|
    ensures forall k :: 0 <= k < |r| ==> r[k] == RenderInterval(dayparting[k])
    decreases |dayparting|
  {
    if dayparting == [] then []
    else SerializeEntries(dayparting[..|dayparting| - 1]) + [RenderInterval(dayparting[|dayparting| - 1])]
  }

  /** `dayparting_to_json`: a loop that appends the rendered pair of each interval. */
  method DaypartingToJson(dayparting: seq<Interval>) returns (jsonList: seq<RawEntry>)
    ensures jsonList == SerializeEntries(dayparting)
  {
    jsonList := [];
    for i := 0 to |dayparting|
      invariant jsonList == SerializeEntries(dayparting[..i])
    {
      assert dayparting[..i + 1][..i] == dayparting[..i];
      var pair := dayparting[i];
      var fromTimeStr := FormatTime(pair.fromTime);
      var toTimeStr := FormatTime(pair.toTime);
      jsonList := jsonList + [List([fromTimeStr, toTimeStr])];
    }
    assert dayparting[..|dayparting|] == dayparting;
  }

  /** What the store keeps for a submitted dayparting list: `dayparting_to_json(dayparting_from_json(x))`. */
  function Normalize(raw: seq<RawEntry>): (r: seq<RawEntry>)
    ensures |r| <= |raw|
    ensures forall k :: 0 <= k < |r| ==> r[k].List? && |r[k].items| == 2
    ensures forall k :: 0 <= k < |r| ==> IsZeroPadded(r[k].items[0]) && IsZeroPadded(r[k].items[1])
  {
    SerializeEntries(ParseEntries(raw))
  }

  // ---------------------------------------------------------------------------
  // Properties of the parser and the serializer
  // ---------------------------------------------------------------------------

  /** Parsing distributes over concatenation: each entry is judged on its own, in order. */
  lemma {:induction false} ParseEntriesAppend(a: seq<RawEntry>, b: seq<RawEntry>)
    ensures ParseEntries(a + b) == ParseEntries(a) + ParseEntries(b)
    decreases |b|
  {
    if b == [] {
      assert a + b == a;
    } else {
      var b' := b[..|b| - 1];
      assert (a + b)[..|a + b| - 1] == a + b';
      assert (a + b)[|a + b| - 1] == b[|b| - 1];
      ParseEntriesAppend(a, b');
    }
  }

  lemma ParseEntriesSingle(e: RawEntry)
    ensures ParseEntries([e]) == if EntryInterval(e).Some? then [EntryInterval(e).value] else []
  {
    assert [e][..0] == [];
  }

  /** An entry that is not a list, or a list not of length 2, is dropped. */
  lemma DropsNonPair(a: seq<RawEntry>, e: RawEntry, b: seq<RawEntry>)
    requires !e.List? || |e.items| != 2
    ensures ParseEntries(a + [e] + b) == ParseEntries(a + b)
  {
    ParseEntriesAppend(a + [e], b);
    ParseEntriesAppend(a, [e]);
    ParseEntriesAppend(a, b);
    ParseEntriesSingle(e);
  }

  /** A pair with one side that does not parse is dropped whole, the good side with it. */
  lemma DropsWholePair(a: seq<RawEntry>, x: string, y: string, b: seq<RawEntry>)
    requires ParseTime(x).None? || ParseTime(y).None?
    ensures ParseEntries(a + [List([x, y])] + b) == ParseEntries(a + b)
  {
    var e := List([x, y]);
    ParseEntriesAppend(a + [e], b);
    ParseEntriesAppend(a, [e]);
    ParseEntriesAppend(a, b);
    ParseEntriesSingle(e);
  }

  /** A pair whose sides both parse is kept, in its place. */
  lemma KeepsValidPair(a: seq<RawEntry>, x: string, y: string, b: seq<RawEntry>)
    requires ParseTime(x).Some? && ParseTime(y).Some?
    ensures ParseEntries(a + [List([x, y])] + b)
         == ParseEntries(a) + [Interval(ParseTime(x).value, ParseTime(y).value)] + ParseEntries(b)
  {
    var e := List([x, y]);
    ParseEntriesAppend(a + [e], b);
    ParseEntriesAppend(a, [e]);
    ParseEntriesSingle(e);
  }

  /**
   * The parser's output is the in-order subsequence of the valid entries'
   * intervals: `idx` lists, increasing, the positions of exactly the entries
   * that contribute an interval.
   */
  lemma {:induction false} ParsedIsSubsequence(raw: seq<RawEntry>) returns (idx: seq<nat>)
    ensures |idx| == |ParseEntries(raw)|
    ensures forall k :: 0 <= k < |idx| ==> idx[k] < |raw| && EntryInterval(raw[idx[k]]) == Some(ParseEntries(raw)[k])
    ensures forall k, l :: 0 <= k < l < |idx| ==> idx[k] < idx[l]
    ensures forall i :: 0 <= i < |raw| && EntryInterval(raw[i]).Some? ==> i in idx
    decreases |raw|
  {
    if raw == [] {
      idx := [];
    } else {
      var n := |raw| - 1;
      var init := raw[..n];
      var prev := ParsedIsSubsequence(init);
      assert forall i :: 0 <= i < n ==> raw[i] == init[i];
      if EntryInterval(raw[n]).Some? {
        idx := prev + [n];
      } else {
        idx := prev;
      }
    }
  }

  /** A non-empty sequence is its prefix followed by its last element. */
  lemma SplitLast<T>(s: seq<T>)
    requires s != []
    ensures s[..|s| - 1] + [s[|s| - 1]] == s
  {
  }

  lemma ParseEntriesSnoc(raw: seq<RawEntry>, e: RawEntry)
    ensures ParseEntries(raw + [e])
         == ParseEntries(raw) + (if EntryInterval(e).Some? then [EntryInterval(e).value] else [])
  {
    assert (raw + [e])[..|raw|] == raw;
  }

  lemma EntryOfRender(iv: Interval)
    requires WholeMinuteInterval(iv)
    ensures EntryInterval(RenderInterval(iv)) == Some(iv)
  {
    ParseFormatTime(iv.fromTime);
    ParseFormatTime(iv.toTime);
  }

  /** Serializing whole-minute intervals and parsing the result gives them back. */
  lemma {:induction false} RoundTrip(dayparting: seq<Interval>)
    requires forall k :: 0 <= k < |dayparting| ==> WholeMinuteInterval(dayparting[k])
    ensures ParseEntries(SerializeEntries(dayparting)) == dayparting
    decreases |dayparting|
  {
    if dayparting != [] {
      var n := |dayparting| - 1;
      var init := dayparting[..n];
      var iv := dayparting[n];
      var prefix := SerializeEntries(init);
      var e := RenderInterval(iv);
      assert SerializeEntries(dayparting) == prefix + [e];
      RoundTrip(init);
      EntryOfRender(iv);
      ParseEntriesSnoc(prefix, e);
      SplitLast(dayparting);
      assert ParseEntries(SerializeEntries(dayparting)) == ParseEntries(prefix + [e]) == init + [iv];
    }
  }

  /** `parse(serialize(parse(x))) == parse(x)`, and normalizing twice is normalizing once. */
  lemma NormalizeIsStable(raw: seq<RawEntry>)
    ensures ParseEntries(Normalize(raw)) == ParseEntries(raw)
    ensures Normalize(Normalize(raw)) == Normalize(raw)
  {
    RoundTrip(ParseEntries(raw));
  }

  /** A pair of zero-padded strings that both parse: the form the serializer writes. */
  predicate CanonicalEntry(e: RawEntry) {
    e.List? && |e.items| == 2 &&
    IsZeroPadded(e.items[0]) && IsZeroPadded(e.items[1]) &&
    ParseTime(e.items[0]).Some? && ParseTime(e.items[1]).Some?
  }

  /** A zero-padded valid pair renders back to itself. */
  lemma RenderOfEntry(e: RawEntry)
    requires CanonicalEntry(e)
    ensures EntryInterval(e).Some? && RenderInterval(EntryInterval(e).value) == e
  {
    FormatParseTime(e.items[0]);
    FormatParseTime(e.items[1]);
    assert e == List([e.items[0], e.items[1]]);
  }

  /** When every entry is valid, the parser keeps them all, each as its own interval. */
  lemma {:induction false} ParseAllValid(raw: seq<RawEntry>)
    requires forall k :: 0 <= k < |raw| ==> EntryInterval(raw[k]).Some?
    ensures |ParseEntries(raw)| == |raw|
    ensures forall k :: 0 <= k < |raw| ==> ParseEntries(raw)[k] == EntryInterval(raw[k]).value
    decreases |raw|
  {
    if raw != [] {
      var n := |raw| - 1;
      var init := raw[..n];
      ParseAllValid(init);
      ParseEntriesSnoc(init, raw[n]);
      SplitLast(raw);
    }
  }

  /** A list of zero-padded valid pairs survives normalization unchanged. */
  lemma NormalizeKeepsCanonical(raw: seq<RawEntry>)
    requires forall k :: 0 <= k < |raw| ==> CanonicalEntry(raw[k])
    ensures Normalize(raw) == raw
  {
    forall k | 0 <= k < |raw|
      ensures EntryInterval(raw[k]).Some? && RenderInterval(EntryInterval(raw[k]).value) == raw[k]
    {
      RenderOfEntry(raw[k]);
    }
    ParseAllValid(raw);
    var r := Normalize(raw);
    assert |r| == |raw|;
    forall k | 0 <= k < |raw|
      ensures r[k] == raw[k]
    {
    }
  }

  // ---------------------------------------------------------------------------
  // is_time_in_dayparting
  // ---------------------------------------------------------------------------

  /** `from_time < time < to_time`: both ends excluded. */
  predicate Inside(t: Time, iv: Interval) {
    Before(iv.fromTime, t) && Before(t, iv.toTime)
  }

  /** `any([...])` over the intervals. */
  function AnyInside(t: Time, dayparting: seq<Interval>): (r: bool)
    ensures r <==> exists k :: 0 <= k < |dayparting| && Inside(t, dayparting[k])
  {
    if dayparting == [] then false
    else Inside(t, dayparting[0]) || AnyInside(t, dayparting[1..])
  }

  /** `is_time_in_dayparting`: an empty list allows every time; otherwise some interval must hold `t` strictly inside. */
  function IsTimeInDayparting(t: Time, dayparting: seq<Interval>): (r: bool)
    ensures dayparting == [] ==> r
    ensures dayparting != [] ==> (r <==> exists k :: 0 <= k < |dayparting| && Inside(t, dayparting[k]))
  {
    if dayparting == [] then true
    else AnyInside(t, dayparting)
  }

  /** The ends of an interval are not inside it. */
  lemma BoundariesExcluded(iv: Interval)
    ensures !Inside(iv.fromTime, iv)
    ensures !Inside(iv.toTime, iv)
  {
    BeforeIsStrictTotalOrder(iv.fromTime, iv.toTime, iv.toTime);
  }

  /** An interval whose start is not before its end admits no time: there is no wrap past midnight. */
  lemma InvertedIntervalIsEmpty(iv: Interval, t: Time)
    requires !Before(iv.fromTime, iv.toTime)
    ensures !Inside(t, iv)
  {
    BeforeIsStrictTotalOrder(iv.fromTime, t, iv.toTime);
  }

  /** A non-empty list of inverted intervals admits nothing, so e.g. 22:00-02:00 never allows spending. */
  lemma OnlyInvertedIntervalsBlockAll(dayparting: seq<Interval>, t: Time)
    requires dayparting != []
    requires forall k :: 0 <= k < |dayparting| ==> !Before(dayparting[k].fromTime, dayparting[k].toTime)
    ensures !IsTimeInDayparting(t, dayparting)
  {
    forall k | 0 <= k < |dayparting|
      ensures !Inside(t, dayparting[k])
    {
      InvertedIntervalIsEmpty(dayparting[k], t);
    }
  }

  /** If every interval of `d1` is also listed in `d2`, whatever `d1` admits `d2` admits. */
  lemma ListedIntervalsAdmit(t: Time, d1: seq<Interval>, d2: seq<Interval>)
    requires forall k :: 0 <= k < |d1| ==> d1[k] in d2
    ensures AnyInside(t, d1) ==> AnyInside(t, d2)
  {
    if AnyInside(t, d1) {
      var k :| 0 <= k < |d1| && Inside(t, d1[k]);
      var j :| 0 <= j < |d2| && d2[j] == d1[k];
    }
  }

  /** The verdict depends only on which intervals are listed, not on their order or repetition count. */
  lemma OrderIrrelevant(t: Time, d1: seq<Interval>, d2: seq<Interval>)
    requires multiset(d1) == multiset(d2)
    ensures IsTimeInDayparting(t, d1) == IsTimeInDayparting(t, d2)
  {
    assert |d1| == |multiset(d1)| == |multiset(d2)| == |d2|;
    forall k | 0 <= k < |d1|
      ensures d1[k] in d2
    {
      assert d1[k] in multiset(d2);
    }
    forall j | 0 <= j < |d2|
      ensures d2[j] in d1
    {
      assert d2[j] in multiset(d1);
    }
    ListedIntervalsAdmit(t, d1, d2);
    ListedIntervalsAdmit(t, d2, d1);
  }

  /** Adding windows to a non-empty list never takes away an allowed time. */
  lemma MoreWindowsAllowMore(t: Time, d: seq<Interval>, extra: seq<Interval>)
    requires d != [] && IsTimeInDayparting(t, d)
    ensures IsTimeInDayparting(t, d + extra)
  {
    var k :| 0 <= k < |d| && Inside(t, d[k]);
    assert (d + extra)[k] == d[k];
  }

  // ---------------------------------------------------------------------------
  // Concrete cases
  // ---------------------------------------------------------------------------

  /** `[['08:00','10:00'], ['13:30','14:00']]` is stored unchanged. */
  lemma SerializationExample()
    ensures Normalize([List(["08:00", "10:00"]), List(["13:30", "14:00"])])
         == [List(["08:00", "10:00"]), List(["13:30", "14:00"])]
  {
    var raw := [List(["08:00", "10:00"]), List(["13:30", "14:00"])];
    ParseZeroPadded("08:00");
    ParseZeroPadded("10:00");
    ParseZeroPadded("13:30");
    ParseZeroPadded("14:00");
    assert CanonicalEntry(raw[0]) && CanonicalEntry(raw[1]);
    NormalizeKeepsCanonical(raw);
  }

  /** A pair with an out-of-range side is dropped, and the valid pair after it kept. */
  lemma LenientParseExample()
    ensures ParseEntries([List(["25:99", "10:00"]), List(["08:00", "10:00"])])
         == [Interval(Time(8, 0, 0, 0), Time(10, 0, 0, 0))]
  {
    var bad, good := List(["25:99", "10:00"]), List(["08:00", "10:00"]);
    ParseZeroPadded("25:99");
    ParseZeroPadded("08:00");
    ParseZeroPadded("10:00");
    assert [bad, good] == [bad] + [good];
    ParseEntriesAppend([bad], [good]);
    ParseEntriesSingle(bad);
    ParseEntriesSingle(good);
  }

  /** A single-digit hour is accepted on input and written back zero-padded. */
  lemma SingleDigitHourExample()
    ensures Normalize([List(["8:00", "10:00"])]) == [List(["08:00", "10:00"])]
  {
    var e := List(["8:00", "10:00"]);
    var s := "8:00";
    assert s[1] == ':' && s[..1] == "8" && s[2..] == "00";
    assert ParseTime(s) == Some(Time(8, 0, 0, 0));
    ParseZeroPadded("10:00");
    ParseEntriesSingle(e);
    var iv := Interval(Time(8, 0, 0, 0), Time(10, 0, 0, 0));
    assert ParseEntries([e]) == [iv];
    assert SerializeEntries([iv]) == [RenderInterval(iv)];
    assert FormatTime(Time(8, 0, 0, 0)) == "08:00";
    assert FormatTime(Time(10, 0, 0, 0)) == "10:00";
  }

  /** 03:30 is inside 03:00-04:00; 03:00 and 04:00 themselves are not. */
  lemma BoundaryExample()
    ensures IsTimeInDayparting(Time(3, 30, 0, 0), [Interval(Time(3, 0, 0, 0), Time(4, 0, 0, 0))])
    ensures !IsTimeInDayparting(Time(3, 0, 0, 0), [Interval(Time(3, 0, 0, 0), Time(4, 0, 0, 0))])
    ensures !IsTimeInDayparting(Time(4, 0, 0, 0), [Interval(Time(3, 0, 0, 0), Time(4, 0, 0, 0))])
  {
    var iv := Interval(Time(3, 0, 0, 0), Time(4, 0, 0, 0));
    assert Inside(Time(3, 30, 0, 0), [iv][0]);
    BoundariesExcluded(iv);
  }
}
