/** The input schemas of src/lib/validations.ts: length and enumeration bounds on
    strings, defaults for absent fields, and the cron-schedule pattern.

    An input object is modelled with one `Option` per field (None = the key is absent
    or undefined); fields are assumed to arrive with the right JSON type. A parse
    either yields the output object with defaults filled in, or the list of issues,
    one per failing field in declaration order. */
module Validations {
  import opened Common

  // ---------------------------------------------------------------------------
  // String length as zod measures it
  // ---------------------------------------------------------------------------

  /** JavaScript's `s.length`: a character outside the Basic Multilingual Plane
      takes two UTF-16 code units. */
  function Utf16Length(s: string): (n: nat)
    ensures (forall i :: 0 <= i < |s| ==> s[i] as int < 0x1_0000) ==> n == |s|
  {
    if s == [] then 0
    else (if s[0] as int >= 0x1_0000 then 2 else 1) + Utf16Length(s[1..])
  }

  lemma {:induction false} Utf16LengthBounds(s: string)
    ensures |s| <= Utf16Length(s) <= 2 * |s|
    ensures Utf16Length(s) == 0 <==> s == []
  {
    if s != [] {
      Utf16LengthBounds(s[1..]);
    }
  }

  datatype IssueCode = Required | TooSmall(minimum: nat) | TooBig(maximum: nat) | InvalidEnum | InvalidPattern
  datatype Issue = Issue(path: string, code: IssueCode)

  datatype Parsed<T> = Valid(value: T) | Invalid(issues: seq<Issue>)

  /** `z.string().min(lo)` optionally followed by `.max(hi)`, on a present string. */
  function LengthIssues(path: string, s: string, lo: nat, hi: Option<nat>): (r: seq<Issue>)
    ensures r == [] <==> lo <= Utf16Length(s) && (hi.Some? ==> Utf16Length(s) <= hi.value)
    ensures forall i :: 0 <= i < |r| ==> r[i].path == path
  {
    (if Utf16Length(s) < lo then [Issue(path, TooSmall(lo))] else [])
    + (if hi.Some? && Utf16Length(s) > hi.value then [Issue(path, TooBig(hi.value))] else [])
  }

  /** A required string field with length bounds. */
  function RequiredString(path: string, v: Option<string>, lo: nat, hi: Option<nat>): (r: seq<Issue>)
    ensures r == [] <==> v.Some? && lo <= Utf16Length(v.value) && (hi.Some? ==> Utf16Length(v.value) <= hi.value)
  {
    if v.None? then [Issue(path, Required)] else LengthIssues(path, v.value, lo, hi)
  }

  /** `.min(1)` on a required string accepts exactly the non-empty strings. */
  lemma NonEmptyIsMinOne(path: string, v: Option<string>)
    ensures RequiredString(path, v, 1, None) == [] <==> v.Some? && v.value != ""
  {
    if v.Some? {
      Utf16LengthBounds(v.value);
    }
  }

  // ---------------------------------------------------------------------------
  // Tweets (src/lib/validations.ts:10-18)
  // ---------------------------------------------------------------------------

  datatype TweetStatus = Draft | Posted | Failed

  function TweetStatusName(t: TweetStatus): string {
    match t
    case Draft => "draft"
    case Posted => "posted"
    case Failed => "failed"
  }

  /** `z.enum(['draft', 'posted', 'failed'])` */
  function ParseTweetStatus(s: string): (r: Option<TweetStatus>)
    ensures r.Some? ==> TweetStatusName(r.value) == s
    ensures forall t :: TweetStatusName(t) == s ==> r == Some(t)
  {
    if s == "draft" then Some(Draft)
    else if s == "posted" then Some(Posted)
    else if s == "failed" then Some(Failed)
    else None
  }

  datatype TweetInput = TweetInput(content: Option<string>, status: Option<string>, tweetId: Option<string>)
  datatype Tweet = Tweet(content: string, status: TweetStatus, tweetId: Option<string>)

  const MaxTweetLength: nat := 280

  function ParseTweet(i: TweetInput): (r: Parsed<Tweet>)
    ensures r.Valid? <==>
      && i.content.Some? && 1 <= Utf16Length(i.content.value) <= MaxTweetLength
      && (i.status.Some? ==> ParseTweetStatus(i.status.value).Some?)
    ensures r.Valid? ==> r.value.content == i.content.value && r.value.tweetId == i.tweetId
    ensures r.Valid? && i.status.None? ==> r.value.status == Draft
    ensures r.Valid? && i.status.Some? ==> TweetStatusName(r.value.status) == i.status.value
    ensures r.Invalid? ==> r.issues != []
  {
    var issues := RequiredString("content", i.content, 1, Some(MaxTweetLength))
      + (if i.status.Some? && ParseTweetStatus(i.status.value).None? then [Issue("status", InvalidEnum)] else []);
    if issues != [] then Invalid(issues)
    else Valid(Tweet(i.content.value, if i.status.Some? then ParseTweetStatus(i.status.value).value else Draft, i.tweetId))
  }

  /** A stored tweet always has between 1 and 280 characters. */
  lemma TweetContentBounds(i: TweetInput)
    requires ParseTweet(i).Valid?
    ensures 1 <= |ParseTweet(i).value.content| <= MaxTweetLength
  {
    Utf16LengthBounds(i.content.value);
  }

  datatype CreateTweetInput = CreateTweetInput(content: Option<string>)

  function ParseCreateTweet(i: CreateTweetInput): (r: Parsed<string>)
    ensures r.Valid? <==> i.content.Some? && 1 <= Utf16Length(i.content.value) <= MaxTweetLength
    ensures r.Valid? ==> r.value == i.content.value
  {
    var issues := RequiredString("content", i.content, 1, Some(MaxTweetLength));
    if issues != [] then Invalid(issues) else Valid(i.content.value)
  }

  /** The two tweet schemas agree on the content they accept. */
  lemma CreateTweetAgrees(content: Option<string>)
    ensures ParseCreateTweet(CreateTweetInput(content)).Valid? == ParseTweet(TweetInput(content, None, None)).Valid?
  {
  }

  // ---------------------------------------------------------------------------
  // YouTube records and job triggers (src/lib/validations.ts:21-37)
  // ---------------------------------------------------------------------------

  datatype YouTubeVideoInput = YouTubeVideoInput(videoId: Option<string>, title: Option<string>, channelId: Option<string>)

  function ParseYouTubeVideo(i: YouTubeVideoInput): (r: Parsed<YouTubeVideoInput>)
    ensures r.Valid? <==> i.videoId.Some? && i.videoId.value != ""
    ensures r.Valid? ==> r.value == i
  {
    NonEmptyIsMinOne("videoId", i.videoId);
    var issues := RequiredString("videoId", i.videoId, 1, None);
    if issues != [] then Invalid(issues) else Valid(i)
  }

  datatype YouTubeCommentInput = YouTubeCommentInput(
    commentId: Option<string>, videoId: Option<string>, text: Option<string>, authorDisplayName: Option<string>)

  function ParseYouTubeComment(i: YouTubeCommentInput): (r: Parsed<YouTubeCommentInput>)
    ensures r.Valid? <==>
      && i.commentId.Some? && i.commentId.value != ""
      && i.videoId.Some? && i.videoId.value != ""
      && i.text.Some? && i.text.value != ""
    ensures r.Valid? ==> r.value == i
    ensures r.Invalid? ==> 1 <= |r.issues| <= 3
  {
    NonEmptyIsMinOne("commentId", i.commentId);
    NonEmptyIsMinOne("videoId", i.videoId);
    NonEmptyIsMinOne("text", i.text);
    var issues := RequiredString("commentId", i.commentId, 1, None)
      + RequiredString("videoId", i.videoId, 1, None)
      + RequiredString("text", i.text, 1, None);
    if issues != [] then Invalid(issues) else Valid(i)
  }

  function ParseTriggerJob(job: Option<string>): (r: Parsed<string>)
    ensures r.Valid? <==> job.Some? && job.value != ""
    ensures r.Valid? ==> r.value == job.value
  {
    NonEmptyIsMinOne("job", job);
    var issues := RequiredString("job", job, 1, None);
    if issues != [] then Invalid(issues) else Valid(job.value)
  }

  // ---------------------------------------------------------------------------
  // The cron-schedule pattern (src/lib/validations.ts:40-46)
  // ---------------------------------------------------------------------------

  /** One of the pattern's numeric alternatives: a single digit, or two digits not
      starting with 0, whose value lies in [lo, hi] (every range of the pattern lies
      below 100). */
  predicate NumberIn(s: string, lo: nat, hi: nat)
    ensures NumberIn(s, lo, hi) ==> 1 <= |s| <= 2 && forall i :: 0 <= i < |s| ==> IsDigit(s[i])
  {
    || (|s| == 1 && IsDigit(s[0]) && lo <= DigitValue(s[0]) <= hi)
    || (&& |s| == 2 && IsDigit(s[0]) && IsDigit(s[1]) && s[0] != '0'
        && lo <= 10 * DigitValue(s[0]) + DigitValue(s[1]) <= hi)
  }

  /** One field of the pattern: a star, a number in range, or a star and a slash
      followed by a number in the same range. */
  predicate CronField(s: string, lo: nat, hi: nat)
    ensures CronField(s, lo, hi) ==> 1 <= |s| <= 4 && ' ' !in s
  {
    || s == "*"
    || NumberIn(s, lo, hi)
    || (|s| >= 2 && s[0] == '*' && s[1] == '/' && NumberIn(s[2..], lo, hi))
  }

  /** The inclusive ranges of minute, hour, day of month, month and day of week. */
  const CronRanges: seq<(nat, nat)> := [(0, 59), (0, 23), (1, 31), (1, 12), (0, 6)]

  /** The position of the first space in `s`, or `|s|` when there is none. */
  function FirstSpace(s: string): (i: nat)
    ensures i <= |s| && ' ' !in s[..i]
    ensures i < |s| ==> s[i] == ' '
  {
    if s == [] then 0
    else if s[0] == ' ' then 0
    else
      var k := FirstSpace(s[1..]);
      assert s[..k + 1] == [s[0]] + s[1..][..k];
      k + 1
  }

  /** `s` is one field per range, each matching its range, separated by single
      spaces and with nothing before the first or after the last. */
  predicate FieldsMatch(s: string, ranges: seq<(nat, nat)>)
    ensures FieldsMatch(s, ranges) ==> 2 * |ranges| - 1 <= |s| <= 5 * |ranges| - 1
    decreases |ranges|
  {
    && ranges != []
    && var i := FirstSpace(s);
    && CronField(s[..i], ranges[0].0, ranges[0].1)
    && if |ranges| == 1 then i == |s| else i < |s| && FieldsMatch(s[i + 1..], ranges[1..])
  }

  /** The regex at src/lib/validations.ts:42. */
  predicate CronSchedule(s: string)
    ensures CronSchedule(s) ==> 9 <= |s| <= 24
  {
    FieldsMatch(s, CronRanges)
  }

  /** Pieces joined by single spaces. */
  function Join(fields: seq<string>): string
    requires |fields| >= 1
  {
    if |fields| == 1 then fields[0] else fields[0] + " " + Join(fields[1..])
  }

  predicate NoSpaces(fields: seq<string>) {
    forall k :: 0 <= k < |fields| ==> ' ' !in fields[k]
  }

  /** Every piece matches its range. */
  predicate EachField(fields: seq<string>, ranges: seq<(nat, nat)>)
    requires |fields| == |ranges|
  {
    forall k :: 0 <= k < |fields| ==> CronField(fields[k], ranges[k].0, ranges[k].1)
  }

  lemma {:induction false} FirstSpaceOfJoin(a: string, rest: string)
    requires ' ' !in a
    ensures FirstSpace(a + " " + rest) == |a|
    ensures (a + " " + rest)[..|a|] == a && (a + " " + rest)[|a| + 1..] == rest
    decreases |a|
  {
    var s := a + " " + rest;
    if a != [] {
      assert s[1..] == a[1..] + " " + rest;
      FirstSpaceOfJoin(a[1..], rest);
    }
  }

  lemma {:induction false} FirstSpaceNone(a: string)
    requires ' ' !in a
    ensures FirstSpace(a) == |a|
    decreases |a|
  {
    if a != [] {
      FirstSpaceNone(a[1..]);
    }
  }

  /** The recogniser reads back the pieces that were joined: a string of pieces
      without spaces matches exactly when there is one piece per range and each
      piece matches its range. */
  lemma {:induction false} FieldsMatchJoin(fields: seq<string>, ranges: seq<(nat, nat)>)
    requires |fields| >= 1 && NoSpaces(fields)
    ensures FieldsMatch(Join(fields), ranges) <==> |fields| == |ranges| && EachField(fields, ranges)
    decreases |ranges|
  {
    var s := Join(fields);
    if ranges == [] {
    } else if |fields| == 1 {
      FirstSpaceNone(fields[0]);
      assert s[..|s|] == s;
    } else {
      FirstSpaceOfJoin(fields[0], Join(fields[1..]));
      assert NoSpaces(fields[1..]);
      FieldsMatchJoin(fields[1..], ranges[1..]);
      if |fields| == |ranges| {
        if EachField(fields, ranges) {
          assert EachField(fields[1..], ranges[1..]) by {
            forall k | 0 <= k < |fields| - 1
              ensures CronField(fields[1..][k], ranges[1..][k].0, ranges[1..][k].1)
            {
              assert fields[1..][k] == fields[k + 1];
            }
          }
        }
        if CronField(fields[0], ranges[0].0, ranges[0].1) && EachField(fields[1..], ranges[1..]) {
          forall k | 0 <= k < |fields| ensures CronField(fields[k], ranges[k].0, ranges[k].1) {
            if k > 0 {
              assert fields[k] == fields[1..][k - 1];
            }
          }
        }
      }
    }
  }

  /** The five ranges, field by field. */
  lemma FiveRanges(fields: seq<string>)
    requires |fields| == 5
    ensures EachField(fields, CronRanges) <==>
      (&& CronField(fields[0], 0, 59) && CronField(fields[1], 0, 23) && CronField(fields[2], 1, 31)
       && CronField(fields[3], 1, 12) && CronField(fields[4], 0, 6))
  {
  }

  /** A schedule is accepted exactly when it is five pieces joined by single spaces,
      each matching its field; any other number of pieces is refused. */
  lemma CronScheduleFields(fields: seq<string>)
    requires |fields| >= 1 && NoSpaces(fields)
    ensures CronSchedule(Join(fields)) <==>
      (&& |fields| == 5
       && CronField(fields[0], 0, 59) && CronField(fields[1], 0, 23) && CronField(fields[2], 1, 31)
       && CronField(fields[3], 1, 12) && CronField(fields[4], 0, 6))
  {
    FieldsMatchJoin(fields, CronRanges);
    if |fields| == 5 {
      FiveRanges(fields);
    }
  }

  /** The numeric alternatives of a field are exactly the decimal spellings of the
      numbers in its range. */
  lemma NumberInIsPrinted(s: string, lo: nat, hi: nat)
    requires hi < 100
    ensures NumberIn(s, lo, hi) <==> exists n: nat :: lo <= n <= hi && s == NatToString(n)
  {
    if NumberIn(s, lo, hi) {
      var n := PrintedNumber(s, lo, hi);
      assert lo <= n <= hi && s == NatToString(n);
    }
    if exists n: nat :: lo <= n <= hi && s == NatToString(n) {
      var n: nat :| lo <= n <= hi && s == NatToString(n);
      PrintedIsNumber(n, lo, hi);
    }
  }

  lemma PrintedNumber(s: string, lo: nat, hi: nat) returns (n: nat)
    requires NumberIn(s, lo, hi)
    ensures lo <= n <= hi && s == NatToString(n)
  {
    if |s| == 1 {
      n := DigitValue(s[0]);
    } else {
      var d0, d1 := DigitValue(s[0]), DigitValue(s[1]);
      n := 10 * d0 + d1;
      assert n / 10 == d0 && n % 10 == d1;
      assert NatToString(n) == [DigitChar(d0)] + [DigitChar(d1)];
    }
  }

  lemma PrintedIsNumber(n: nat, lo: nat, hi: nat)
    requires lo <= n <= hi < 100
    ensures NumberIn(NatToString(n), lo, hi)
  {
    if n >= 10 {
      var s := NatToString(n);
      assert s == [DigitChar(n / 10)] + [DigitChar(n % 10)];
      assert DigitValue(s[0]) == n / 10 && DigitValue(s[1]) == n % 10;
    }
  }

  datatype CronScheduleInput = CronScheduleInput(schedule: Option<string>, enabled: Option<bool>)
  datatype CronSettings = CronSettings(schedule: string, enabled: bool)

  function ParseCronSchedule(i: CronScheduleInput): (r: Parsed<CronSettings>)
    ensures r.Valid? <==> i.schedule.Some? && CronSchedule(i.schedule.value)
    ensures r.Valid? ==> r.value.schedule == i.schedule.value
    ensures r.Valid? ==> r.value.enabled == i.enabled.GetOr(false)
    ensures r.Valid? && i.enabled.None? ==> !r.value.enabled
  {
    if i.schedule.None? then Invalid([Issue("schedule", Required)])
    else if !CronSchedule(i.schedule.value) then Invalid([Issue("schedule", InvalidPattern)])
    else Valid(CronSettings(i.schedule.value, i.enabled.GetOr(false)))
  }

  // ---------------------------------------------------------------------------
  // Prompts and automation configurations (src/lib/validations.ts:49-60)
  // ---------------------------------------------------------------------------

  const DefaultModel := "gpt-4o-mini"
  const MinPromptLength: nat := 10
  const MaxPromptLength: nat := 2000

  datatype PromptInput = PromptInput(prompt: Option<string>, model: Option<string>)
  datatype Prompt = Prompt(prompt: string, model: string)

  function ParsePrompt(i: PromptInput): (r: Parsed<Prompt>)
    ensures r.Valid? <==> i.prompt.Some? && MinPromptLength <= Utf16Length(i.prompt.value) <= MaxPromptLength
    ensures r.Valid? ==> r.value.prompt == i.prompt.value
    ensures r.Valid? ==> r.value.model == i.model.GetOr(DefaultModel)
  {
    var issues := RequiredString("prompt", i.prompt, MinPromptLength, Some(MaxPromptLength));
    if issues != [] then Invalid(issues) else Valid(Prompt(i.prompt.value, i.model.GetOr(DefaultModel)))
  }

  /** A prompt of fewer than 5 characters is too short whatever they are; one of 10
      to 1000 characters always fits. */
  lemma PromptLengthInCharacters(p: string)
    ensures |p| < 5 ==> ParsePrompt(PromptInput(Some(p), None)).Invalid?
    ensures 10 <= |p| <= 1000 ==> ParsePrompt(PromptInput(Some(p), None)).Valid?
  {
    Utf16LengthBounds(p);
  }

  datatype AutomationConfigInput = AutomationConfigInput(
    jobName: Option<string>, schedule: Option<string>, prompt: Option<string>, enabled: Option<bool>)
  datatype AutomationConfig = AutomationConfig(jobName: string, schedule: string, prompt: string, enabled: bool)

  function ParseAutomationConfig(i: AutomationConfigInput): (r: Parsed<AutomationConfig>)
    ensures r.Valid? <==>
      && i.jobName.Some? && i.jobName.value != ""
      && i.schedule.Some? && i.schedule.value != ""
      && i.prompt.Some? && i.prompt.value != ""
      && i.enabled.Some?
    ensures r.Valid? ==> r.value == AutomationConfig(i.jobName.value, i.schedule.value, i.prompt.value, i.enabled.value)
  {
    NonEmptyIsMinOne("jobName", i.jobName);
    NonEmptyIsMinOne("schedule", i.schedule);
    NonEmptyIsMinOne("prompt", i.prompt);
    var issues := RequiredString("jobName", i.jobName, 1, None)
      + RequiredString("schedule", i.schedule, 1, None)
      + RequiredString("prompt", i.prompt, 1, None)
      + (if i.enabled.None? then [Issue("enabled", Required)] else []);
    if issues != [] then Invalid(issues)
    else Valid(AutomationConfig(i.jobName.value, i.schedule.value, i.prompt.value, i.enabled.value))
  }

  // ---------------------------------------------------------------------------
  // Accept and reject examples for the cron pattern
  // ---------------------------------------------------------------------------

  // Each example is written as the pieces the schedule is joined from, so that the
  // recogniser is reasoned about through CronScheduleFields rather than unfolded
  // character by character.

  // The "every few minutes" presets of the schedule picker: `*/5 * * * *`,
  // `*/15 * * * *` and `*/30 * * * *`.
  lemma EveryFewMinutesAccepted(n: string)
    requires n == "5" || n == "15" || n == "30"
    ensures CronSchedule(Join(["*/" + n, "*", "*", "*", "*"]))
  {
    CronScheduleFields(["*/" + n, "*", "*", "*", "*"]);
  }

  // The hourly and every-four-hours presets of the schedule picker: `0 * * * *`
  // and `0 */4 * * *`.
  lemma HourlyPresetsAccepted(h: string)
    requires h == "*" || h == "*/4"
    ensures CronSchedule(Join(["0", h, "*", "*", "*"]))
  {
    CronScheduleFields(["0", h, "*", "*", "*"]);
  }

  /** The daily presets of the schedule picker and the defaults of the Twitter page:
      `0 9 * * *`, `0 18 * * *`, `0 10 * * *` and `0 8 * * *`. */
  lemma DailyPresetsAccepted(h: string)
    requires h == "9" || h == "18" || h == "10" || h == "8"
    ensures CronSchedule(Join(["0", h, "*", "*", "*"]))
  {
    CronScheduleFields(["0", h, "*", "*", "*"]);
  }

  /** The weekly preset, Mondays at 9: `0 9 * * 1`. */
  lemma WeeklyAccepted(w: string)
    requires w == "1"
    ensures CronSchedule(Join(["0", "9", "*", "*", w]))
  {
    CronScheduleFields(["0", "9", "*", "*", w]);
  }

  /** Ranges and lists are refused: `1-5 * * * *` and `1,2 * * * *`. */
  lemma RangesAndListsRefused(m: string)
    requires m == "1-5" || m == "1,2"
    ensures !CronSchedule(Join([m, "*", "*", "*", "*"]))
  {
    CronScheduleFields([m, "*", "*", "*", "*"]);
  }

  /** A leading zero and the minute 60 are refused. */
  lemma MinuteOutOfPatternRefused(m: string)
    requires m == "05" || m == "60"
    ensures !CronSchedule(Join([m, "*", "*", "*", "*"]))
  {
    CronScheduleFields([m, "*", "*", "*", "*"]);
  }

  /** Sunday written as 7 is refused: `0 9 * * 7`. */
  lemma SundayAsSevenRefused(w: string)
    requires w == "7"
    ensures !CronSchedule(Join(["0", "9", "*", "*", w]))
  {
    CronScheduleFields(["0", "9", "*", "*", w]);
  }

  /** The hour 24 and the month 13 are refused. */
  lemma HourAndMonthOutOfRange(f: seq<string>)
    requires f == ["*", "24", "*", "*", "*"] || f == ["*", "*", "*", "13", "*"]
    ensures !CronSchedule(Join(f))
  {
    CronScheduleFields(f);
  }

  /** The days 0 and 32 of a month are refused. */
  lemma DayOfMonthOutOfRange(d: string)
    requires d == "0" || d == "32"
    ensures !CronSchedule(Join(["*", "*", d, "*", "*"]))
  {
    CronScheduleFields(["*", "*", d, "*", "*"]);
  }

  /** A zero step passes on the minute, hour and day-of-week fields ... */
  lemma ZeroStepAccepted(f: seq<string>)
    requires f == ["*/0", "*/0", "*", "*", "*/0"]
    ensures CronSchedule(Join(f))
  {
    CronScheduleFields(f);
  }

  /** ... but not on the day-of-month and month fields. */
  lemma ZeroStepRefused(f: seq<string>)
    requires f == ["*", "*", "*/0", "*", "*"] || f == ["*", "*", "*", "*/0", "*"]
    ensures !CronSchedule(Join(f))
  {
    assert !NumberIn("*/0"[2..], 1, 31) by { assert "*/0"[2..] == "0"; }
    CronScheduleFields(f);
  }

  /** Exactly five fields and single spaces: a doubled, leading or trailing space
      leaves an empty piece, and four or six pieces are refused. */
  lemma FiveFieldsSingleSpaces(f: seq<string>)
    requires || f == ["*", "", "*", "*", "*", "*"] || f == ["*", "*", "*", "*"]
             || f == ["*", "*", "*", "*", "*", "*"] || f == ["", "*", "*", "*", "*", "*"]
             || f == ["*", "*", "*", "*", "*", ""]
    ensures !CronSchedule(Join(f))
  {
    CronScheduleFields(f);
  }

  /** Three of the presets spelled out as the strings the schedule picker holds. */
  lemma PresetsAsWritten(s: string)
    requires s == "*/5 * * * *" || s == "0 */4 * * *" || s == "0 9 * * 1"
    ensures CronSchedule(s)
  {
    if s == "*/5 * * * *" {
      assert "*/" + "5" == "*/5";
      assert Join(["*/5", "*", "*", "*", "*"]) == s;
      EveryFewMinutesAccepted("5");
    } else if s == "0 */4 * * *" {
      assert Join(["0", "*/4", "*", "*", "*"]) == s;
      HourlyPresetsAccepted("*/4");
    } else {
      assert Join(["0", "9", "*", "*", "1"]) == s;
      WeeklyAccepted("1");
    }
  }

  /** An automation configuration takes any non-empty schedule, including ones the
      cron pattern refuses. */
  lemma ConfigScheduleIsLooser(f: seq<string>)
    requires f == ["every", "day"]
    ensures ParseAutomationConfig(AutomationConfigInput(Some("tweets"), Some(Join(f)), Some("p"), Some(true))).Valid?
    ensures !CronSchedule(Join(f))
  {
    CronScheduleFields(f);
  }
}
