/** Markdown export of a session (export/mod.rs). */
module Export {
  import opened Wrappers
  import opened Db
  import opened Chat

  // ---------------------------------------------------------------------------
  // Decimal rendering

  predicate IsDigit(c: char)
  {
    '0' <= c <= '9'
  }

  predicate AllDigits(s: string)
  {
    s == [] || (IsDigit(s[0]) && AllDigits(s[1..]))
  }

  lemma {:induction false} AllDigitsAppend(a: string, b: string)
    ensures AllDigits(a + b) <==> AllDigits(a) && AllDigits(b)
  {
    if a != [] {
      assert (a + b)[1..] == a[1..] + b;
      AllDigitsAppend(a[1..], b);
    } else {
      assert a + b == b;
    }
  }

  function DigitChar(d: nat): (c: char)
    requires d < 10
    ensures IsDigit(c) && c as int - '0' as int == d
  {
    ('0' as int + d) as char
  }

  /** `format!("{}", n)` for an unsigned integer. */
  function NatToString(n: nat): (s: string)
    ensures |s| >= 1
  {
    if n < 10 then [DigitChar(n)] else NatToString(n / 10) + [DigitChar(n % 10)]
  }

  /** The value of a string of decimal digits: the partner of NatToString. */
  function DigitsValue(s: string): int
  {
    if s == [] then 0 else 10 * DigitsValue(s[..|s| - 1]) + (s[|s| - 1] as int - '0' as int)
  }

  lemma {:induction false} NatToStringRoundTrip(n: nat)
    ensures AllDigits(NatToString(n))
    ensures DigitsValue(NatToString(n)) == n
    ensures |NatToString(n)| == 1 <==> n < 10
    ensures |NatToString(n)| == 2 <==> 10 <= n < 100
  {
    var s := NatToString(n);
    if n >= 10 {
      NatToStringRoundTrip(n / 10);
      assert s[..|s| - 1] == NatToString(n / 10);
      AllDigitsAppend(NatToString(n / 10), [DigitChar(n % 10)]);
    }
  }

  /** `format!("{:02}", n)`: at least two digits, left-padded with '0'. */
  function Pad2(n: nat): (s: string)
    ensures |s| >= 2
  {
    if n < 10 then "0" + NatToString(n) else NatToString(n)
  }

  lemma Pad2RoundTrip(n: nat)
    ensures AllDigits(Pad2(n))
    ensures DigitsValue(Pad2(n)) == n
    ensures n < 100 ==> |Pad2(n)| == 2
    ensures n >= 10 ==> Pad2(n) == NatToString(n)
  {
    NatToStringRoundTrip(n);
    if n < 10 {
      AllDigitsAppend("0", NatToString(n));
      var d := NatToString(n);
      var s := Pad2(n);
      assert s[..|s| - 1] == "0";
      assert DigitsValue("0") == 0 by {
        assert "0"[..0] == "";
      }
    }
  }

  // ---------------------------------------------------------------------------
  // Timestamps and durations

  /** `seconds as u64` on a non-negative or negative time: saturating at 0,
      truncating toward zero otherwise. */
  function TruncSecs(t: real): nat
  {
    if t <= 0.0 then 0 else t.Floor
  }

  /** The hours/minutes/seconds split used by both formatters. */
  function Hours(total: nat): nat { total / 3600 }
  function Minutes(total: nat): nat { (total % 3600) / 60 }
  function Secs(total: nat): nat { total % 60 }

  lemma Decomposition(total: nat)
    ensures Hours(total) * 3600 + Minutes(total) * 60 + Secs(total) == total
    ensures Minutes(total) < 60 && Secs(total) < 60
  {
  }

  /** `format_timestamp` on the truncated second count. */
  function FormatTimestamp(total: nat): string
  {
    var h, m, s := Hours(total), Minutes(total), Secs(total);
    if h > 0 then "[" + Pad2(h) + ":" + Pad2(m) + ":" + Pad2(s) + "]"
    else "[" + Pad2(m) + ":" + Pad2(s) + "]"
  }

  /** Reads back a `[MM:SS]` or `[H..H:MM:SS]` timestamp: the independent
      partner that FormatTimestamp is proved against. */
  function DecodeTimestamp(s: string): Option<int>
  {
    if |s| >= 2 && s[0] == '[' && s[|s| - 1] == ']' then DecodeClock(s[1..|s| - 1]) else None
  }

  /** Reads back `MM:SS` or `H..H:MM:SS`. */
  function DecodeClock(b: string): Option<int>
  {
    if |b| == 5 then DecodeMinutes(b)
    else if |b| >= 8 then DecodeHours(b)
    else None
  }

  function DecodeMinutes(b: string): Option<int>
    requires |b| == 5
  {
    if b[2] == ':' && AllDigits(b[..2]) && AllDigits(b[3..]) then
      Some(60 * DigitsValue(b[..2]) + DigitsValue(b[3..]))
    else
      None
  }

  function DecodeHours(b: string): Option<int>
    requires |b| >= 8
  {
    if b[|b| - 6] == ':' && b[|b| - 3] == ':' && AllDigits(b[..|b| - 6])
       && AllDigits(b[|b| - 5..|b| - 3]) && AllDigits(b[|b| - 2..]) then
      Some(3600 * DigitsValue(b[..|b| - 6]) + 60 * DigitsValue(b[|b| - 5..|b| - 3]) + DigitsValue(b[|b| - 2..]))
    else
      None
  }

  lemma DecodeBracketed(b: string)
    ensures DecodeTimestamp("[" + b + "]") == DecodeClock(b)
  {
    var r := "[" + b + "]";
    assert r[1..|r| - 1] == b;
  }

  lemma ClockShort(mm: string, ss: string)
    requires AllDigits(mm) && AllDigits(ss) && |mm| == 2 && |ss| == 2
    ensures DecodeClock(mm + ":" + ss) == Some(60 * DigitsValue(mm) + DigitsValue(ss))
  {
    ShortLayout(mm, ':', ss);
  }

  /** The positions of the fields of a `mm:ss` clock. */
  lemma ShortLayout<T>(q: seq<T>, c: T, r: seq<T>)
    requires |q| == 2 && |r| == 2
    ensures var b := q + [c] + r;
            |b| == 5 && b[2] == c && b[..2] == q && b[3..] == r
  {
    var b := q + [c] + r;
    assert b[..2] == q;
    assert b[3..] == r;
  }

  lemma ClockFields(b: string, hh: string, mm: string, ss: string)
    requires |b| >= 8 && b[|b| - 6] == ':' && b[|b| - 3] == ':'
    requires b[..|b| - 6] == hh && b[|b| - 5..|b| - 3] == mm && b[|b| - 2..] == ss
    requires AllDigits(hh) && AllDigits(mm) && AllDigits(ss)
    ensures DecodeClock(b) == Some(3600 * DigitsValue(hh) + 60 * DigitsValue(mm) + DigitsValue(ss))
  {
  }

  /** The positions of the fields of a `hh:mm:ss` clock. */
  lemma ClockLayout<T>(p: seq<T>, c: T, q: seq<T>, r: seq<T>)
    requires |q| == 2 && |r| == 2
    ensures var b := p + [c] + q + [c] + r;
            |b| == |p| + 6 && b[|b| - 6] == c && b[|b| - 3] == c
            && b[..|b| - 6] == p && b[|b| - 5..|b| - 3] == q && b[|b| - 2..] == r
  {
    var b := p + [c] + q + [c] + r;
    assert b[..|b| - 6] == p;
    assert b[|b| - 5..|b| - 3] == q;
    assert b[|b| - 2..] == r;
  }

  lemma ClockLong(hh: string, mm: string, ss: string)
    requires AllDigits(hh) && AllDigits(mm) && AllDigits(ss)
    requires |hh| >= 2 && |mm| == 2 && |ss| == 2
    ensures DecodeClock(hh + ":" + mm + ":" + ss)
         == Some(3600 * DigitsValue(hh) + 60 * DigitsValue(mm) + DigitsValue(ss))
  {
    ClockLayout(hh, ':', mm, ss);
    ClockFields(hh + [':'] + mm + [':'] + ss, hh, mm, ss);
  }

  lemma DecodeShort(mm: string, ss: string)
    requires AllDigits(mm) && AllDigits(ss) && |mm| == 2 && |ss| == 2
    ensures DecodeTimestamp("[" + mm + ":" + ss + "]") == Some(60 * DigitsValue(mm) + DigitsValue(ss))
  {
    ClockShort(mm, ss);
    DecodeBracketed(mm + ":" + ss);
    assert "[" + mm + ":" + ss + "]" == "[" + (mm + ":" + ss) + "]";
  }

  lemma DecodeLong(hh: string, mm: string, ss: string)
    requires AllDigits(hh) && AllDigits(mm) && AllDigits(ss)
    requires |hh| >= 2 && |mm| == 2 && |ss| == 2
    ensures DecodeTimestamp("[" + hh + ":" + mm + ":" + ss + "]")
         == Some(3600 * DigitsValue(hh) + 60 * DigitsValue(mm) + DigitsValue(ss))
  {
    ClockLong(hh, mm, ss);
    DecodeBracketed(hh + ":" + mm + ":" + ss);
    assert "[" + hh + ":" + mm + ":" + ss + "]" == "[" + (hh + ":" + mm + ":" + ss) + "]";
  }

  /** The timestamp has the short `[MM:SS]` shape exactly when there are no
      whole hours, and it always reads back as the second count it renders. */
  lemma TimestampRoundTrip(total: nat)
    ensures DecodeTimestamp(FormatTimestamp(total)) == Some(total)
    ensures |FormatTimestamp(total)| == 7 <==> Hours(total) == 0
  {
    var h, m, s := Hours(total), Minutes(total), Secs(total);
    Decomposition(total);
    Pad2RoundTrip(m);
    Pad2RoundTrip(s);
    if h > 0 {
      Pad2RoundTrip(h);
      var r := "[" + Pad2(h) + ":" + Pad2(m) + ":" + Pad2(s) + "]";
      assert FormatTimestamp(total) == r;
      DecodeLong(Pad2(h), Pad2(m), Pad2(s));
      assert DecodeTimestamp(r) == Some(3600 * h + 60 * m + s);
    } else {
      var r := "[" + Pad2(m) + ":" + Pad2(s) + "]";
      assert FormatTimestamp(total) == r;
      DecodeShort(Pad2(m), Pad2(s));
      assert DecodeTimestamp(r) == Some(60 * m + s);
    }
  }

  /** `format_duration` on the truncated second count. */
  function FormatDuration(total: nat): string
  {
    var h, m, s := Hours(total), Minutes(total), Secs(total);
    if h > 0 then NatToString(h) + "h " + Pad2(m) + "min " + Pad2(s) + "s"
    else if m > 0 then NatToString(m) + "min " + Pad2(s) + "s"
    else NatToString(s) + "s"
  }

  /** The three shapes of a duration: an hour field exactly when there are
      whole hours, a minute field exactly when there is at least a minute. */
  lemma DurationShape(total: nat)
    ensures 'h' in FormatDuration(total) <==> total >= 3600
    ensures 'm' in FormatDuration(total) <==> total >= 60
    ensures FormatDuration(total)[|FormatDuration(total)| - 1] == 's'
  {
    var h, m, s := Hours(total), Minutes(total), Secs(total);
    var r := FormatDuration(total);
    if h > 0 {
      assert r[|NatToString(h)|] == 'h';
      assert r[|NatToString(h)| + 2 + |Pad2(m)|] == 'm';
    } else if m > 0 {
      assert r[|NatToString(m)|] == 'm';
      assert 'h' !in r by {
        forall i | 0 <= i < |r| ensures r[i] != 'h' {
          if i < |NatToString(m)| { assert IsDigit(NatToString(m)[i]); }
          else if i >= |NatToString(m)| + 4 && i < |r| - 1 {
            Pad2RoundTrip(s);
            assert IsDigit(Pad2(s)[i - |NatToString(m)| - 4]);
          }
        }
      }
    } else {
      assert forall i :: 0 <= i < |r| - 1 ==> IsDigit(r[i]);
    }
    assert h == 0 && m == 0 ==> 'm' !in r by {
      if h == 0 && m == 0 { assert forall i :: 0 <= i < |r| - 1 ==> IsDigit(r[i]); }
    }
    assert h > 0 ==> 'h' in r;
  }

  /** Reads back `H..Hh MMmin SSs`, `M..Mmin SSs` or `S..Ss`: the independent
      partner that FormatDuration is proved against. */
  function DecodeDuration(s: string): Option<int>
  {
    match DecodeHoursShape(s)
    case Some(v) => Some(v)
    case None =>
      match DecodeMinutesShape(s)
      case Some(v) => Some(v)
      case None => DecodeSecondsShape(s)
  }

  /** `H..Hh MMmin SSs`. */
  function DecodeHoursShape(s: string): Option<int>
  {
    var n := |s|;
    if n >= 12 && s[n - 11] == 'h' && s[n - 10] == ' ' && MinUnitAt(s, n - 7) && s[n - 1] == 's'
       && AllDigits(s[..n - 11]) && AllDigits(s[n - 9..n - 7]) && AllDigits(s[n - 3..n - 1]) then
      Some(ClockValue(DigitsValue(s[..n - 11]), DigitsValue(s[n - 9..n - 7]), DigitsValue(s[n - 3..n - 1])))
    else
      None
  }

  /** The seconds of an hours, minutes and seconds reading. */
  function ClockValue(h: int, m: int, sec: int): int
  {
    3600 * h + 60 * m + sec
  }

  /** `M..Mmin SSs`. */
  function DecodeMinutesShape(s: string): Option<int>
  {
    var n := |s|;
    if n >= 8 && MinUnitAt(s, n - 7) && s[n - 1] == 's' && AllDigits(s[..n - 7]) && AllDigits(s[n - 3..n - 1]) then
      Some(60 * DigitsValue(s[..n - 7]) + DigitsValue(s[n - 3..n - 1]))
    else
      None
  }

  /** `S..Ss`. */
  function DecodeSecondsShape(s: string): Option<int>
  {
    var n := |s|;
    if n >= 2 && s[n - 1] == 's' && AllDigits(s[..n - 1]) then Some(DigitsValue(s[..n - 1])) else None
  }

  /** The unit `min ` starts at position `i`. */
  predicate MinUnitAt(s: string, i: int)
  {
    0 <= i && i + 4 <= |s| && s[i] == 'm' && s[i + 1] == 'i' && s[i + 2] == 'n' && s[i + 3] == ' '
  }

  /** The positions of the fields of `Hh MMmin SSs`, counted from the end. */
  lemma HoursLayout(hh: string, mm: string, ss: string)
    requires |hh| >= 1 && |mm| == 2 && |ss| == 2
    ensures var x := hh + "h " + mm + "min " + ss + "s";
            |x| == |hh| + 11 && x[..|x| - 11] == hh && x[|x| - 11] == 'h' && x[|x| - 10] == ' '
            && x[|x| - 9..|x| - 7] == mm && MinUnitAt(x, |x| - 7) && x[|x| - 3..|x| - 1] == ss && x[|x| - 1] == 's'
  {
    var x := hh + "h " + mm + "min " + ss + "s";
    var k := |hh|;
    assert x[..k] == hh;
    assert x[k + 2..k + 4] == mm;
    assert x[k + 8..k + 10] == ss;
  }

  /** The positions of the fields of `Mmin SSs`, counted from the end. */
  lemma MinutesLayout(m: string, ss: string)
    requires |m| >= 1 && |ss| == 2
    ensures var x := m + "min " + ss + "s";
            var n := |x|;
            n == |m| + 7 && x[..n - 7] == m && MinUnitAt(x, n - 7) && x[n - 3..n - 1] == ss && x[n - 1] == 's'
  {
    var x := m + "min " + ss + "s";
    var k := |m|;
    assert x[..k] == m;
    assert x[k + 4..k + 6] == ss;
  }

  /** Any text laid out as `Hh MMmin SSs` with digit fields reads back as its clock value. */
  lemma DecodeHoursFields(x: string, h: string, m: string, sec: string)
    requires |x| >= 12 && x[..|x| - 11] == h && x[|x| - 9..|x| - 7] == m && x[|x| - 3..|x| - 1] == sec
    requires x[|x| - 11] == 'h' && x[|x| - 10] == ' ' && MinUnitAt(x, |x| - 7) && x[|x| - 1] == 's'
    requires AllDigits(h) && AllDigits(m) && AllDigits(sec)
    ensures DecodeDuration(x) == Some(3600 * DigitsValue(h) + 60 * DigitsValue(m) + DigitsValue(sec))
  {
    assert DecodeHoursShape(x) == Some(ClockValue(DigitsValue(h), DigitsValue(m), DigitsValue(sec)));
  }

  /** The three shapes read back field by field. */
  lemma DecodeHoursForm(hh: string, mm: string, ss: string)
    requires AllDigits(hh) && AllDigits(mm) && AllDigits(ss)
    requires |hh| >= 1 && |mm| == 2 && |ss| == 2
    ensures DecodeDuration(hh + "h " + mm + "min " + ss + "s")
         == Some(3600 * DigitsValue(hh) + 60 * DigitsValue(mm) + DigitsValue(ss))
  {
    var x := hh + "h " + mm + "min " + ss + "s";
    HoursLayout(hh, mm, ss);
    DecodeHoursFields(x, hh, mm, ss);
  }

  lemma DecodeMinutesForm(m: string, ss: string)
    requires AllDigits(m) && AllDigits(ss)
    requires 1 <= |m| <= 2 && |ss| == 2
    ensures DecodeDuration(m + "min " + ss + "s") == Some(60 * DigitsValue(m) + DigitsValue(ss))
  {
    var x := m + "min " + ss + "s";
    MinutesLayout(m, ss);
    assert DecodeHoursShape(x) == None by { assert |x| < 12; }
  }

  lemma DecodeSecondsForm(d: string)
    requires AllDigits(d) && 1 <= |d| <= 2
    ensures DecodeDuration(d + "s") == Some(DigitsValue(d))
  {
    var x := d + "s";
    assert x[..|d|] == d;
    assert DecodeHoursShape(x) == None && DecodeMinutesShape(x) == None by { assert |x| < 8; }
  }

  /** A duration reads back as the second count it renders, so no two counts
      share a rendering, whichever of the three shapes is chosen. */
  lemma DurationRoundTrip(total: nat)
    ensures DecodeDuration(FormatDuration(total)) == Some(total)
  {
    var h, m, s := Hours(total), Minutes(total), Secs(total);
    Decomposition(total);
    Pad2RoundTrip(m);
    Pad2RoundTrip(s);
    if h > 0 {
      NatToStringRoundTrip(h);
      assert FormatDuration(total) == NatToString(h) + "h " + Pad2(m) + "min " + Pad2(s) + "s";
      DecodeHoursForm(NatToString(h), Pad2(m), Pad2(s));
    } else if m > 0 {
      NatToStringRoundTrip(m);
      assert FormatDuration(total) == NatToString(m) + "min " + Pad2(s) + "s";
      DecodeMinutesForm(NatToString(m), Pad2(s));
    } else {
      NatToStringRoundTrip(s);
      assert FormatDuration(total) == NatToString(s) + "s";
      DecodeSecondsForm(NatToString(s));
    }
  }

  /** The worked values of the export tests. */
  lemma MinuteTimestampExamples()
    ensures FormatTimestamp(0) == "[00:00]"
    ensures FormatTimestamp(3599) == "[59:59]"
  {
  }

  lemma HourTimestampExamples()
    ensures FormatTimestamp(3661) == "[01:01:01]"
    ensures FormatTimestamp(7384) == "[02:03:04]"
  {
  }

  lemma DurationExamples()
    ensures FormatDuration(900) == "15min 00s"
    ensures FormatDuration(7400) == "2h 03min 20s"
  {
  }

  // ---------------------------------------------------------------------------
  // The Markdown document

  /** The number of occurrences of `c` in `s`. */
  function Occurrences(c: char, s: string): nat
  {
    if s == [] then 0 else Occurrences(c, s[..|s| - 1]) + (if s[|s| - 1] == c then 1 else 0)
  }

  lemma {:induction false} OccurrencesAppend(c: char, a: string, b: string)
    ensures Occurrences(c, a + b) == Occurrences(c, a) + Occurrences(c, b)
  {
    if b != [] {
      assert (a + b)[..|a + b| - 1] == a + b[..|b| - 1];
      OccurrencesAppend(c, a, b[..|b| - 1]);
    } else {
      assert a + b == a;
    }
  }

  lemma {:induction false} DigitsHaveNo(c: char, s: string)
    requires AllDigits(s) && !IsDigit(c)
    ensures Occurrences(c, s) == 0
  {
    if s != [] {
      AllDigitsAppend(s[..|s| - 1], [s[|s| - 1]]);
      assert s[..|s| - 1] + [s[|s| - 1]] == s;
      DigitsHaveNo(c, s[..|s| - 1]);
    }
  }

  /** The header: title, date and, when one is recorded, the duration. */
  function HeaderBlock(title: string, date: string, durationSecs: Option<real>): string
  {
    "# " + title + "\n\n" + ("**Date:** " + date + "\n")
    + (match durationSecs
       case Some(d) => "**Duree:** " + FormatDuration(TruncSecs(d)) + "\n"
       case None => "")
  }

  const TRANSCRIPTION_HEADING: string := "\n## Transcription\n\n"

  /** The line of one segment, with the speaker in bold when there is one. */
  function SegmentLine(seg: Segment): string
  {
    var ts := FormatTimestamp(TruncSecs(seg.startTime));
    match seg.speaker
    case Some(sp) => ts + " **" + sp + ":** " + seg.text + "\n"
    case None => ts + " " + seg.text + "\n"
  }

  /** The lines of all segments, in input order. */
  function SegmentLines(segs: seq<Segment>): string
  {
    if segs == [] then "" else SegmentLines(segs[..|segs| - 1]) + SegmentLine(segs[|segs| - 1])
  }

  /** A bulleted list, one `- item` line per item. */
  function BulletLines(items: seq<string>): string
  {
    if items == [] then "" else BulletLines(items[..|items| - 1]) + ("- " + items[|items| - 1] + "\n")
  }

  /** A task line, naming the assignee only when there is one. */
  function ActionLine(item: ActionItem): string
  {
    match item.assignee
    case Some(a) => "- [ ] " + item.description + " (Assignee: " + a + ")\n"
    case None => "- [ ] " + item.description + "\n"
  }

  function ActionLines(items: seq<ActionItem>): string
  {
    if items == [] then "" else ActionLines(items[..|items| - 1]) + ActionLine(items[|items| - 1])
  }

  const RESUME_HEADING: string := "\n## Resume\n"
  const KEY_POINTS_HEADING: string := "\n### Points cles\n"
  const DECISIONS_HEADING: string := "\n### Decisions\n"
  const ACTIONS_HEADING: string := "\n### Actions a suivre\n"

  function KeyPointsSection(s: Summary): string
  {
    if s.keyPoints == [] then "" else KEY_POINTS_HEADING + BulletLines(s.keyPoints)
  }

  function DecisionsSection(s: Summary): string
  {
    if s.decisions == [] then "" else DECISIONS_HEADING + BulletLines(s.decisions)
  }

  function ActionsSection(s: Summary): string
  {
    if s.actionItems == [] then "" else ACTIONS_HEADING + ActionLines(s.actionItems)
  }

  /** The summary part: nothing without a summary, otherwise the `Resume`
      heading followed by each non-empty list under its own heading. */
  function SummaryBlock(summary: Option<Summary>): string
  {
    match summary
    case None => ""
    case Some(s) => RESUME_HEADING + KeyPointsSection(s) + DecisionsSection(s) + ActionsSection(s)
  }

  /** The whole document `export_markdown` returns. */
  function MarkdownDocument(title: string, date: string, durationSecs: Option<real>,
                            segments: seq<Segment>, summary: Option<Summary>): string
  {
    HeaderBlock(title, date, durationSecs) + TRANSCRIPTION_HEADING + SegmentLines(segments) + SummaryBlock(summary)
  }

  /** A timestamp holds no character outside digits, brackets and colons. */
  lemma {:induction false} TimestampHasNo(c: char, total: nat)
    requires !IsDigit(c) && c != '[' && c != ']' && c != ':'
    ensures Occurrences(c, FormatTimestamp(total)) == 0
  {
    var h, m, s := Hours(total), Minutes(total), Secs(total);
    Pad2RoundTrip(h);
    Pad2RoundTrip(m);
    Pad2RoundTrip(s);
    DigitsHaveNo(c, Pad2(h));
    DigitsHaveNo(c, Pad2(m));
    DigitsHaveNo(c, Pad2(s));
    assert Occurrences(c, "[") == 0 by { assert "["[..0] == ""; }
    assert Occurrences(c, ":") == 0 by { assert ":"[..0] == ""; }
    assert Occurrences(c, "]") == 0 by { assert "]"[..0] == ""; }
    if h > 0 {
      OccurrencesAppend(c, "[", Pad2(h));
      OccurrencesAppend(c, "[" + Pad2(h), ":");
      OccurrencesAppend(c, "[" + Pad2(h) + ":", Pad2(m));
      OccurrencesAppend(c, "[" + Pad2(h) + ":" + Pad2(m), ":");
      OccurrencesAppend(c, "[" + Pad2(h) + ":" + Pad2(m) + ":", Pad2(s));
      OccurrencesAppend(c, "[" + Pad2(h) + ":" + Pad2(m) + ":" + Pad2(s), "]");
    } else {
      OccurrencesAppend(c, "[", Pad2(m));
      OccurrencesAppend(c, "[" + Pad2(m), ":");
      OccurrencesAppend(c, "[" + Pad2(m) + ":", Pad2(s));
      OccurrencesAppend(c, "[" + Pad2(m) + ":" + Pad2(s), "]");
    }
  }

  /** Neither the text nor the speaker of a segment spans several lines. */
  predicate SingleLine(seg: Segment)
  {
    Occurrences('\n', seg.text) == 0 && (seg.speaker.Some? ==> Occurrences('\n', seg.speaker.value) == 0)
  }

  lemma {:induction false} SegmentLineIsOneLine(seg: Segment)
    requires SingleLine(seg)
    ensures Occurrences('\n', SegmentLine(seg)) == 1
    ensures SegmentLine(seg)[|SegmentLine(seg)| - 1] == '\n'
  {
    var ts := FormatTimestamp(TruncSecs(seg.startTime));
    TimestampHasNo('\n', TruncSecs(seg.startTime));
    assert Occurrences('\n', " ") == 0 by { assert " "[..0] == ""; }
    assert Occurrences('\n', "\n") == 1 by { assert "\n"[..0] == ""; }
    if seg.speaker.Some? {
      var sp := seg.speaker.value;
      assert Occurrences('\n', " **") == 0 by {
        assert " **"[..2] == " *";
        assert " *"[..1] == " ";
        assert " "[..0] == "";
      }
      assert Occurrences('\n', ":** ") == 0 by {
        assert ":** "[..3] == ":**";
        assert ":**"[..2] == ":*";
        assert ":*"[..1] == ":";
        assert ":"[..0] == "";
      }
      OccurrencesAppend('\n', ts, " **");
      OccurrencesAppend('\n', ts + " **", sp);
      OccurrencesAppend('\n', ts + " **" + sp, ":** ");
      OccurrencesAppend('\n', ts + " **" + sp + ":** ", seg.text);
      OccurrencesAppend('\n', ts + " **" + sp + ":** " + seg.text, "\n");
    } else {
      OccurrencesAppend('\n', ts, " ");
      OccurrencesAppend('\n', ts + " ", seg.text);
      OccurrencesAppend('\n', ts + " " + seg.text, "\n");
    }
  }

  /** The transcript part of the export is a homomorphism over segment lists. */
  lemma {:induction false} SegmentLinesAppend(a: seq<Segment>, b: seq<Segment>)
    ensures SegmentLines(a + b) == SegmentLines(a) + SegmentLines(b)
  {
    if b == [] {
      assert a + b == a;
    } else {
      var b' := b[..|b| - 1];
      var last := b[|b| - 1];
      assert a + b == (a + b') + [last];
      assert b == b' + [last];
      SegmentLinesSnocOne(a + b', last);
      SegmentLinesSnocOne(b', last);
      SegmentLinesAppend(a, b');
      SnocAppend(SegmentLines(a), SegmentLines(b'), SegmentLine(last));
    }
  }

  /** One line per segment: the transcript has exactly as many line breaks as
      there are segments, when no text or speaker spans several lines. */
  lemma {:induction false} SegmentLinesCount(segs: seq<Segment>)
    requires forall i :: 0 <= i < |segs| ==> SingleLine(segs[i])
    ensures Occurrences('\n', SegmentLines(segs)) == |segs|
  {
    if segs != [] {
      SegmentLinesCount(segs[..|segs| - 1]);
      SegmentLineIsOneLine(segs[|segs| - 1]);
      OccurrencesAppend('\n', SegmentLines(segs[..|segs| - 1]), SegmentLine(segs[|segs| - 1]));
    }
  }

  /** Without segments and without a summary the document ends right after the
      transcription heading. */
  lemma EmptyExport(title: string, date: string, durationSecs: Option<real>)
    ensures var md := MarkdownDocument(title, date, durationSecs, [], None);
            |md| >= |TRANSCRIPTION_HEADING|
            && md[|md| - |TRANSCRIPTION_HEADING|..] == TRANSCRIPTION_HEADING
            && md[..|md| - |TRANSCRIPTION_HEADING|] == HeaderBlock(title, date, durationSecs)
  {
    var md := MarkdownDocument(title, date, durationSecs, [], None);
    assert md == HeaderBlock(title, date, durationSecs) + TRANSCRIPTION_HEADING;
  }

  /** The summary part is present exactly when there is a summary, and it
      opens with the `Resume` heading. */
  lemma SummaryPresence(summary: Option<Summary>)
    ensures SummaryBlock(summary) == "" <==> summary.None?
    ensures summary.Some? ==> |SummaryBlock(summary)| >= |RESUME_HEADING|
                              && SummaryBlock(summary)[..|RESUME_HEADING|] == RESUME_HEADING
  {
    if summary.Some? {
      var s := summary.value;
      var k, d, a := KeyPointsSection(s), DecisionsSection(s), ActionsSection(s);
      PrefixKept(RESUME_HEADING, k, |RESUME_HEADING|);
      PrefixKept(RESUME_HEADING + k, d, |RESUME_HEADING|);
      PrefixKept(RESUME_HEADING + k + d, a, |RESUME_HEADING|);
    }
  }

  lemma PrefixKept<T>(x: seq<T>, y: seq<T>, n: nat)
    requires n <= |x|
    ensures (x + y)[..n] == x[..n]
  {
  }

  /** A list heading appears exactly when its list is non-empty. */
  lemma SectionPresence(s: Summary)
    ensures KeyPointsSection(s) == "" <==> s.keyPoints == []
    ensures DecisionsSection(s) == "" <==> s.decisions == []
    ensures ActionsSection(s) == "" <==> s.actionItems == []
  {
  }

  /** The header is the title and date lines, followed by a `**Duree:**`
      line exactly when a duration is recorded; that line reads back as the
      truncated second count. */
  lemma DurationLinePresence(title: string, date: string, durationSecs: Option<real>)
    ensures var base := "# " + title + "\n\n" + ("**Date:** " + date + "\n");
            var h := HeaderBlock(title, date, durationSecs);
            |h| >= |base| && h[..|base|] == base
            && (durationSecs.None? <==> h == base)
            && (durationSecs.Some? ==>
                  var line := h[|base|..];
                  |line| > 12 && line[..11] == "**Duree:** " && line[|line| - 1] == '\n'
                  && DecodeDuration(line[11..|line| - 1]) == Some(TruncSecs(durationSecs.value)))
  {
    var base := "# " + title + "\n\n" + ("**Date:** " + date + "\n");
    var h := HeaderBlock(title, date, durationSecs);
    if durationSecs.Some? {
      var d := FormatDuration(TruncSecs(durationSecs.value));
      var line := "**Duree:** " + d + "\n";
      assert h == base + line;
      assert h[..|base|] == base;
      assert h[|base|..] == line;
      assert line[11..|line| - 1] == d;
      DurationRoundTrip(TruncSecs(durationSecs.value));
    }
  }

  /** A task line names an assignee exactly when the item has one: with an
      assignee it is the line without one, with ` (Assignee: X)` put before
      the newline. */
  lemma ActionLineAssignee(description: string, assignee: string)
    ensures var bare := ActionLine(ActionItem(description, None));
            |bare| >= 1 && bare[|bare| - 1] == '\n'
            && ActionLine(ActionItem(description, Some(assignee)))
               == bare[..|bare| - 1] + " (Assignee: " + assignee + ")\n"
  {
    var bare := ActionLine(ActionItem(description, None));
    assert bare[..|bare| - 1] == "- [ ] " + description;
  }

  lemma SnocAppend(a: string, b: string, c: string)
    ensures (a + b) + c == a + (b + c)
  {
  }

  lemma SegmentLinesSnocOne(segs: seq<Segment>, seg: Segment)
    ensures SegmentLines(segs + [seg]) == SegmentLines(segs) + SegmentLine(seg)
  {
    assert (segs + [seg])[..|segs|] == segs;
  }

  lemma SegmentLinesSnoc(segs: seq<Segment>, i: nat)
    requires i < |segs|
    ensures SegmentLines(segs[..i + 1]) == SegmentLines(segs[..i]) + SegmentLine(segs[i])
  {
    assert segs[..i + 1][..i] == segs[..i];
  }

  lemma SegmentLineStep(md0: string, segs: seq<Segment>, i: nat, md: string, line: string)
    requires i < |segs| && md == md0 + SegmentLines(segs[..i])
    requires line == SegmentLine(segs[i])
    ensures md + line == md0 + SegmentLines(segs[..i + 1])
  {
    SnocAppend(md0, SegmentLines(segs[..i]), line);
    SegmentLinesSnoc(segs, i);
  }

  /** `export_markdown`: builds the document by appending to a buffer. */
  method ExportMarkdown(title: string, date: string, durationSecs: Option<real>,
                        segments: seq<Segment>, summary: Option<Summary>) returns (md: string)
    ensures md == MarkdownDocument(title, date, durationSecs, segments, summary)
  {
    md := "# " + title + "\n\n";
    md := md + ("**Date:** " + date + "\n");
    if durationSecs.Some? {
      md := md + ("**Duree:** " + FormatDuration(TruncSecs(durationSecs.value)) + "\n");
    }
    assert md == HeaderBlock(title, date, durationSecs);
    md := md + TRANSCRIPTION_HEADING;
    md := AppendSegmentLines(md, segments);
    md := AppendSummary(md, summary);
  }

  /** The `for segment in segments` loop. */
  method AppendSegmentLines(md0: string, segments: seq<Segment>) returns (md: string)
    ensures md == md0 + SegmentLines(segments)
  {
    md := md0;
    var i := 0;
    while i < |segments|
      invariant 0 <= i <= |segments|
      invariant md == md0 + SegmentLines(segments[..i])
    {
      var seg := segments[i];
      var ts := FormatTimestamp(TruncSecs(seg.startTime));
      var line;
      if seg.speaker.Some? {
        line := ts + " **" + seg.speaker.value + ":** " + seg.text + "\n";
      } else {
        line := ts + " " + seg.text + "\n";
      }
      SegmentLineStep(md0, segments, i, md, line);
      md := md + line;
      i := i + 1;
    }
    assert segments[..i] == segments;
  }

  /** The `if let Some(ref summary) = summary` part. */
  method AppendSummary(md0: string, summary: Option<Summary>) returns (md: string)
    ensures md == md0 + SummaryBlock(summary)
  {
    md := md0;
    if summary.Some? {
      var s := summary.value;
      md := md + RESUME_HEADING;
      var m1 := md;
      md := AppendKeyPoints(md, s);
      var m2 := md;
      md := AppendDecisions(md, s);
      var m3 := md;
      md := AppendActions(md, s);
      SummaryParts(md0, s, m1, m2, m3, md);
    }
  }

  lemma SummaryParts(md0: string, s: Summary, m1: string, m2: string, m3: string, md: string)
    requires m1 == md0 + RESUME_HEADING
    requires m2 == m1 + KeyPointsSection(s)
    requires m3 == m2 + DecisionsSection(s)
    requires md == m3 + ActionsSection(s)
    ensures md == md0 + SummaryBlock(Some(s))
  {
    var k, d, a := KeyPointsSection(s), DecisionsSection(s), ActionsSection(s);
    assert SummaryBlock(Some(s)) == RESUME_HEADING + k + d + a;
    Assoc4(md0, RESUME_HEADING, k, d, a);
  }

  lemma Assoc4(w: string, x: string, y: string, z: string, v: string)
    ensures (((w + x) + y) + z) + v == w + (((x + y) + z) + v)
  {
  }

  method AppendKeyPoints(md0: string, s: Summary) returns (md: string)
    ensures md == md0 + KeyPointsSection(s)
  {
    md := md0;
    if s.keyPoints != [] {
      md := md + KEY_POINTS_HEADING;
      md := AppendBullets(md, s.keyPoints);
    }
  }

  method AppendDecisions(md0: string, s: Summary) returns (md: string)
    ensures md == md0 + DecisionsSection(s)
  {
    md := md0;
    if s.decisions != [] {
      md := md + DECISIONS_HEADING;
      md := AppendBullets(md, s.decisions);
    }
  }

  method AppendActions(md0: string, s: Summary) returns (md: string)
    ensures md == md0 + ActionsSection(s)
  {
    md := md0;
    if s.actionItems != [] {
      md := md + ACTIONS_HEADING;
      md := AppendActionLines(md, s.actionItems);
    }
  }

  /** The `for point in ...` and `for decision in ...` loops. */
  method AppendBullets(md0: string, items: seq<string>) returns (md: string)
    ensures md == md0 + BulletLines(items)
  {
    md := md0;
    var j := 0;
    while j < |items|
      invariant 0 <= j <= |items|
      invariant md == md0 + BulletLines(items[..j])
    {
      var line := "- " + items[j] + "\n";
      md := md + line;
      assert items[..j + 1][..j] == items[..j];
      j := j + 1;
    }
    assert items[..j] == items;
  }

  /** The `for item in &summary.action_items` loop. */
  method AppendActionLines(md0: string, items: seq<ActionItem>) returns (md: string)
    ensures md == md0 + ActionLines(items)
  {
    md := md0;
    var k := 0;
    while k < |items|
      invariant 0 <= k <= |items|
      invariant md == md0 + ActionLines(items[..k])
    {
      var item := items[k];
      var line;
      if item.assignee.Some? {
        line := "- [ ] " + item.description + " (Assignee: " + item.assignee.value + ")\n";
      } else {
        line := "- [ ] " + item.description + "\n";
      }
      ActionLineStep(md0, items, k, md, line);
      md := md + line;
      k := k + 1;
    }
    assert items[..k] == items;
  }

  lemma ActionLineStep(md0: string, items: seq<ActionItem>, k: nat, md: string, line: string)
    requires k < |items| && md == md0 + ActionLines(items[..k])
    requires line == ActionLine(items[k])
    ensures md + line == md0 + ActionLines(items[..k + 1])
  {
    SnocAppend(md0, ActionLines(items[..k]), line);
    assert items[..k + 1][..k] == items[..k];
  }
}
