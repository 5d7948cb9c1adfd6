/** The analytics store: the memory statistics with window counts, sentiment
    histogram, frequency tables and averages; the ordered insight rules; the
    per-day and per-week trend buckets; and insight dismissal. The fetched
    rows are parameters, `now` is the current instant in milliseconds and
    calendar days are day numbers counted from 1970-01-01. */
module Analytics {
  import opened Js
  import opened Seqs
  import opened Records
  import opened Tallies

  /** `memoryStats`. */
  datatype AnalyticsStats = AnalyticsStats(
    total: nat,
    thisWeek: nat,
    thisMonth: nat,
    thisYear: nat,
    averagePerDay: real,
    averagePerWeek: real,
    sentimentBreakdown: Breakdown,
    topTags: Table,
    topPeople: Table,
    topPlaces: Table,
    topEvents: Table)

  /** The statistics before the first load, and the start of every load with
      `total` set. */
  function Blank(total: nat): AnalyticsStats
  {
    AnalyticsStats(total, 0, 0, 0, 0.0, 0.0, Breakdown(0, 0, 0, []), [], [], [], [])
  }

  /** The statistics after one more row: the three windows compare the
      creation instant strictly against their cutoffs, a truthy sentiment is
      counted under its own key, and every tag, person, place and event is
      counted. */
  function Step(s: AnalyticsStats, m: Memory, now: int): AnalyticsStats
  {
    s.(thisWeek := s.thisWeek + (if CreatedMs(m) > now - 7 * DayMs then 1 else 0),
       thisMonth := s.thisMonth + (if CreatedMs(m) > now - 30 * DayMs then 1 else 0),
       thisYear := s.thisYear + (if CreatedMs(m) > now - 365 * DayMs then 1 else 0),
       sentimentBreakdown := if HasSentiment(m) then CountSentiment(s.sentimentBreakdown, m.sentiment.value)
                             else s.sentimentBreakdown,
       topTags := BumpAll(s.topTags, m.tags),
       topPeople := BumpAll(s.topPeople, m.people),
       topPlaces := BumpAll(s.topPlaces, m.places),
       topEvents := BumpAll(s.topEvents, m.events))
  }

  function Accumulate(init: AnalyticsStats, ms: seq<Memory>, now: int): AnalyticsStats
    decreases |ms|
  {
    if ms == [] then init else Step(Accumulate(init, ms[..|ms| - 1], now), ms[|ms| - 1], now)
  }

  /** `Math.ceil(a / b)`. */
  function CeilDiv(a: int, b: int): (r: int)
    requires b > 0
    ensures (r - 1) * b < a <= r * b
  {
    -((-a) / b)
  }

  /** The instant the average counts from: the last row's creation instant,
      or `now` when there is no row or its column is null. */
  function LastCreated(ms: seq<Memory>, now: int): int
  {
    if ms == [] then now else ms[|ms| - 1].createdAt.GetOr(now)
  }

  /** `Math.max(1, Math.ceil((now - last) / day))`. */
  function SpanDays(ms: seq<Memory>, now: int): (d: int)
    ensures d >= 1
  {
    var c := CeilDiv(now - LastCreated(ms, now), DayMs);
    if c > 1 then c else 1
  }

  /** The statistics `loadMemoryAnalytics` computes. */
  function AnalyticsOf(ms: seq<Memory>, now: int): AnalyticsStats
  {
    var s := Accumulate(Blank(|ms|), ms, now);
    var perDay := (|ms| as real) / (SpanDays(ms, now) as real);
    s.(averagePerDay := perDay, averagePerWeek := perDay * 7.0)
  }

  /** The truthy sentiments of the rows, in order. */
  function PresentSentiments(ms: seq<Memory>): (r: seq<string>)
    ensures |r| <= |ms|
    decreases |ms|
  {
    if ms == [] then []
    else PresentSentiments(ms[..|ms| - 1])
         + (if HasSentiment(ms[|ms| - 1]) then [ms[|ms| - 1].sentiment.value] else [])
  }

  lemma {:induction false} AccumulateParts(init: AnalyticsStats, ms: seq<Memory>, now: int)
    ensures var s := Accumulate(init, ms, now);
      s.total == init.total
      && s.averagePerDay == init.averagePerDay && s.averagePerWeek == init.averagePerWeek
      && s.thisWeek == init.thisWeek + CountSince(ms, now - 7 * DayMs)
      && s.thisMonth == init.thisMonth + CountSince(ms, now - 30 * DayMs)
      && s.thisYear == init.thisYear + CountSince(ms, now - 365 * DayMs)
      && s.topTags == BumpAll(init.topTags, AllTags(ms))
      && s.topPeople == BumpAll(init.topPeople, AllPeople(ms))
      && s.topPlaces == BumpAll(init.topPlaces, AllPlaces(ms))
      && s.topEvents == BumpAll(init.topEvents, AllEvents(ms))
    decreases |ms|
  {
    if ms != [] {
      var front, m := ms[..|ms| - 1], ms[|ms| - 1];
      AccumulateParts(init, front, now);
      BumpAllAppend(init.topTags, AllTags(front), m.tags);
      BumpAllAppend(init.topPeople, AllPeople(front), m.people);
      BumpAllAppend(init.topPlaces, AllPlaces(front), m.places);
      BumpAllAppend(init.topEvents, AllEvents(front), m.events);
    }
  }

  lemma {:induction false} AccumulateBreakdown(total: nat, ms: seq<Memory>, now: int)
    ensures Accumulate(Blank(total), ms, now).sentimentBreakdown == BreakdownOf(PresentSentiments(ms))
    decreases |ms|
  {
    if ms != [] {
      var front, m := ms[..|ms| - 1], ms[|ms| - 1];
      AccumulateBreakdown(total, front, now);
      var keys := PresentSentiments(ms);
      if HasSentiment(m) {
        assert keys == PresentSentiments(front) + [m.sentiment.value];
        assert keys[..|keys| - 1] == PresentSentiments(front);
      } else {
        assert keys == PresentSentiments(front);
      }
    }
  }

  /** The windows are nested, so `thisWeek <= thisMonth <= thisYear <=
      total`; each frequency table counts every occurrence of its value; the
      sentiment histogram counts only rows with a sentiment, so its known
      counters add up to at most `total`. */
  lemma AnalyticsCounts(ms: seq<Memory>, now: int, tag: string, person: string, place: string, event: string)
    ensures var s := AnalyticsOf(ms, now);
      && s.total == |ms|
      && s.thisWeek == CountSince(ms, now - 7 * DayMs)
      && s.thisMonth == CountSince(ms, now - 30 * DayMs)
      && s.thisYear == CountSince(ms, now - 365 * DayMs)
      && s.thisWeek <= s.thisMonth <= s.thisYear <= s.total
      && Lookup(s.topTags, tag) == Count(AllTags(ms), tag)
      && Lookup(s.topPeople, person) == Count(AllPeople(ms), person)
      && Lookup(s.topPlaces, place) == Count(AllPlaces(ms), place)
      && Lookup(s.topEvents, event) == Count(AllEvents(ms), event)
      && SumCounts(s.topTags) == |AllTags(ms)| && SumCounts(s.topPeople) == |AllPeople(ms)|
      && SumCounts(s.topPlaces) == |AllPlaces(ms)| && SumCounts(s.topEvents) == |AllEvents(ms)|
      && s.sentimentBreakdown == BreakdownOf(PresentSentiments(ms))
      && s.sentimentBreakdown.positive + s.sentimentBreakdown.neutral + s.sentimentBreakdown.negative <= s.total
  {
    AccumulateParts(Blank(|ms|), ms, now);
    AccumulateBreakdown(|ms|, ms, now);
    CountSinceMono(ms, now - 7 * DayMs, now - 30 * DayMs);
    CountSinceMono(ms, now - 30 * DayMs, now - 365 * DayMs);
    FrequenciesCount(AllTags(ms), tag);
    FrequenciesCount(AllPeople(ms), person);
    FrequenciesCount(AllPlaces(ms), place);
    FrequenciesCount(AllEvents(ms), event);
    FrequenciesSum(AllTags(ms));
    FrequenciesSum(AllPeople(ms));
    FrequenciesSum(AllPlaces(ms));
    FrequenciesSum(AllEvents(ms));
    BreakdownCounts(PresentSentiments(ms));
  }

  /** The average per day divides the row count by at least one day, so it
      is between 0 and the row count, 0 for an empty log; the weekly average
      is seven times it. */
  lemma AnalyticsAverages(ms: seq<Memory>, now: int)
    ensures var s := AnalyticsOf(ms, now);
      && 0.0 <= s.averagePerDay <= |ms| as real
      && (ms == [] ==> s.averagePerDay == 0.0)
      && s.averagePerDay == (|ms| as real) / (SpanDays(ms, now) as real)
      && s.averagePerWeek == 7.0 * s.averagePerDay
  {
    AccumulateParts(Blank(|ms|), ms, now);
    DivideByDays(|ms| as real, SpanDays(ms, now) as real);
  }

  lemma DivideByDays(n: real, d: real)
    requires n >= 0.0 && d >= 1.0
    ensures 0.0 <= n / d <= n
  {
    assert n / d * d == n;
    assert n / d * 1.0 <= n / d * d;
  }

  /** The insight rules, in the order `generateInsights` applies them. */
  datatype Rule = HighActivity | NoActivity | PositiveSentiment | LowSentiment | TopPerson | BackupReminder

  /** The figures a card's description quotes. */
  datatype Detail = Plain | Activity(thisWeek: nat, averageWeek: int) | Percent(percent: int)
                  | Mention(name: string, count: nat)

  /** An insight card: its rule fixes the id, type, title and action, and
      its detail the figures its description quotes. */
  datatype Insight = Insight(rule: Rule, detail: Detail)

  function RuleId(r: Rule): string
  {
    match r
    case HighActivity => "high_activity"
    case NoActivity => "no_activity"
    case PositiveSentiment => "positive_sentiment"
    case LowSentiment => "low_sentiment"
    case TopPerson => "top_person"
    case BackupReminder => "backup_reminder"
  }

  /** The card's `type`. */
  function RuleKind(r: Rule): string
  {
    match r
    case HighActivity => "positive"
    case NoActivity => "warning"
    case PositiveSentiment => "positive"
    case LowSentiment => "warning"
    case TopPerson => "info"
    case BackupReminder => "info"
  }

  function RuleTitle(r: Rule): string
  {
    match r
    case HighActivity => "High Memory Activity"
    case NoActivity => "No Memories This Week"
    case PositiveSentiment => "Positive Vibes"
    case LowSentiment => "Tough Times"
    case TopPerson => "Most Mentioned Person"
    case BackupReminder => "Backup Your Memories"
  }

  function RuleAction(r: Rule): Option<string>
  {
    match r
    case HighActivity => Some("Keep up the great work!")
    case NoActivity => Some("Add a memory now")
    case PositiveSentiment => None
    case LowSentiment => Some("Consider reaching out to friends or family")
    case TopPerson => None
    case BackupReminder => Some("Set up backup")
  }

  /** The card's `description`. */
  function Description(i: Insight): string
  {
    match i.detail
    case Activity(week, average) =>
      "You've been more active this week, creating " + NatToString(week)
      + " memories compared to your average of " + IntToString(average) + "."
    case Percent(percent) =>
      IntToString(percent) + "% of your memories have positive sentiment. You're living a happy life!"
    case Mention(name, count) =>
      "You've mentioned " + name + " in " + NatToString(count) + " memories. They seem important to you!"
    case Plain =>
      if i.rule == NoActivity then
        "You haven't created any memories this week. Try sharing something that happened recently!"
      else if i.rule == LowSentiment then
        "Your recent memories seem to have lower sentiment. Remember that difficult times pass."
      else "Consider backing up your memories to Google Drive to keep them safe."
  }

  /** The position of a rule in the rule order. */
  function Rank(r: Rule): nat
  {
    match r
    case HighActivity => 0
    case NoActivity => 1
    case PositiveSentiment => 2
    case LowSentiment => 3
    case TopPerson => 4
    case BackupReminder => 5
  }

  /** Distinct rules have distinct ids. */
  lemma RuleIdInjective(a: Rule, b: Rule)
    ensures RuleId(a) == RuleId(b) <==> a == b
  {
    if a != b {
      assert RuleId(a)[1] != RuleId(b)[1] || RuleId(a)[0] != RuleId(b)[0];
    }
  }

  /** `Math.round(averagePerWeek)` is quoted. */
  function HighActivityCard(s: AnalyticsStats): Insight
  {
    Insight(HighActivity, Activity(s.thisWeek, Round(s.averagePerWeek)))
  }

  const NoActivityCard := Insight(NoActivity, Plain)

  /** `Math.round(positiveRatio * 100)` is quoted. */
  function PositiveSentimentCard(ratio: real): Insight
  {
    Insight(PositiveSentiment, Percent(Round(ratio * 100.0)))
  }

  const LowSentimentCard := Insight(LowSentiment, Plain)

  function TopPersonCard(entry: (string, nat)): Insight
  {
    Insight(TopPerson, Mention(entry.0, entry.1))
  }

  const BackupReminderCard := Insight(BackupReminder, Plain)

  /** The sum of the breakdown's values: `NaN` (`None`) as soon as an unknown
      key was counted. */
  function SentimentTotal(b: Breakdown): Option<nat>
  {
    if b.nanKeys == [] then Some(b.positive + b.neutral + b.negative) else None
  }

  /** The first entry `sort((a, b) => b[1] - a[1])[0]` yields: the sort is
      stable, so it is the earliest entry with the largest count. */
  function Leader(t: Table): (r: (string, nat))
    requires t != []
    ensures r in t
    ensures forall i :: 0 <= i < |t| ==> t[i].1 <= r.1
    ensures exists i :: 0 <= i < |t| && t[i] == r && forall j :: 0 <= j < i ==> t[j].1 < r.1
  {
    if |t| == 1 then t[0]
    else
      var rest := Leader(t[1..]);
      if t[0].1 >= rest.1 then t[0]
      else
        assert exists i :: 1 <= i < |t| && t[i] == rest && forall j :: 1 <= j < i ==> t[j].1 < rest.1;
        rest
  }

  /** More memories this week than one and a half weekly averages. */
  predicate HighFires(s: AnalyticsStats)
  {
    s.thisWeek as real > s.averagePerWeek * 1.5
  }

  function HighPart(s: AnalyticsStats): seq<Insight>
  {
    if HighFires(s) then [HighActivityCard(s)] else []
  }

  function NoPart(s: AnalyticsStats): seq<Insight>
  {
    if s.thisWeek == 0 then [NoActivityCard] else []
  }

  /** The positive share of the counted sentiments, when their total is a
      positive number. */
  function PositiveRatio(b: Breakdown): Option<real>
  {
    var total := SentimentTotal(b);
    if total.Some? && total.value > 0 then Some((b.positive as real) / (total.value as real)) else None
  }

  /** The sentiment rule: only for a positive, non-`NaN` total, and then on
      the share of positive rows. */
  function SentimentPart(s: AnalyticsStats): seq<Insight>
  {
    var ratio := PositiveRatio(s.sentimentBreakdown);
    if ratio.Some? && ratio.value > 0.7 then [PositiveSentimentCard(ratio.value)]
    else if ratio.Some? && ratio.value < 0.3 then [LowSentimentCard]
    else []
  }

  function PersonPart(s: AnalyticsStats): seq<Insight>
  {
    if s.topPeople != [] then [TopPersonCard(Leader(s.topPeople))] else []
  }

  /** The insights for some statistics, in rule order. */
  function InsightsFor(s: AnalyticsStats): seq<Insight>
  {
    HighPart(s) + NoPart(s) + SentimentPart(s) + PersonPart(s) + [BackupReminderCard]
  }

  function Rules(xs: seq<Insight>): (r: seq<Rule>)
    ensures |r| == |xs|
    ensures forall i :: 0 <= i < |xs| ==> r[i] == xs[i].rule
  {
    if xs == [] then [] else [xs[0].rule] + Rules(xs[1..])
  }

  /** The ranks strictly increase along the list. */
  predicate InRuleOrder(rs: seq<Rule>)
  {
    forall i, j :: 0 <= i < j < |rs| ==> Rank(rs[i]) < Rank(rs[j])
  }

  lemma RulesOf(s: AnalyticsStats)
    ensures Rules(InsightsFor(s)) == Rules(HighPart(s)) + Rules(NoPart(s))
      + Rules(SentimentPart(s)) + Rules(PersonPart(s)) + [BackupReminder]
  {
    var a, b, c, d := HighPart(s), NoPart(s), SentimentPart(s), PersonPart(s);
    var e := [BackupReminderCard];
    assert InsightsFor(s) == a + b + c + d + e;
    RulesAppend(a + b + c + d, e);
    RulesAppend(a + b + c, d);
    RulesAppend(a + b, c);
    RulesAppend(a, b);
    assert Rules(e) == [BackupReminder];
  }

  lemma RulesAppend(x: seq<Insight>, y: seq<Insight>)
    ensures Rules(x + y) == Rules(x) + Rules(y)
  {
    var l, r := Rules(x + y), Rules(x) + Rules(y);
    forall i | 0 <= i < |l|
      ensures l[i] == r[i]
    {
      if i < |x| {
        assert (x + y)[i] == x[i];
      } else {
        assert (x + y)[i] == y[i - |x|];
      }
    }
  }

  /** The insights come in rule order, each rule at most once, so there are
      at most five and the backup reminder is always present and last. */
  lemma InsightsOrder(s: AnalyticsStats)
    ensures var r := InsightsFor(s);
      && 1 <= |r| <= 5
      && r[|r| - 1] == BackupReminderCard
      && InRuleOrder(Rules(r))
  {
    RulesOf(s);
    var a, b, c, d := Rules(HighPart(s)), Rules(NoPart(s)), Rules(SentimentPart(s)), Rules(PersonPart(s));
    assert a == [] || a == [HighActivity];
    assert b == [] || b == [NoActivity];
    assert c == [] || c == [PositiveSentiment] || c == [LowSentiment];
    assert d == [] || d == [TopPerson];
    OrderedChoice(a, b, c, d);
  }

  /** At most one rule from each stage, in stage order, then the reminder. */
  lemma OrderedChoice(a: seq<Rule>, b: seq<Rule>, c: seq<Rule>, d: seq<Rule>)
    requires a == [] || a == [HighActivity]
    requires b == [] || b == [NoActivity]
    requires c == [] || c == [PositiveSentiment] || c == [LowSentiment]
    requires d == [] || d == [TopPerson]
    ensures InRuleOrder(a + b + c + d + [BackupReminder])
  {
    var rs := a + b + c + d + [BackupReminder];
    forall i, j | 0 <= i < j < |rs|
      ensures Rank(rs[i]) < Rank(rs[j])
    {
      StageOf(a, b, c, d, i);
      StageOf(a, b, c, d, j);
    }
  }

  /** Where an element of the combined list comes from, by rank band. */
  lemma StageOf(a: seq<Rule>, b: seq<Rule>, c: seq<Rule>, d: seq<Rule>, i: nat)
    requires a == [] || a == [HighActivity]
    requires b == [] || b == [NoActivity]
    requires c == [] || c == [PositiveSentiment] || c == [LowSentiment]
    requires d == [] || d == [TopPerson]
    requires i < |a + b + c + d + [BackupReminder]|
    ensures var rs := a + b + c + d + [BackupReminder];
      (i < |a| ==> Rank(rs[i]) == 0)
      && (|a| <= i < |a| + |b| ==> Rank(rs[i]) == 1)
      && (|a| + |b| <= i < |a| + |b| + |c| ==> 2 <= Rank(rs[i]) <= 3)
      && (|a| + |b| + |c| <= i < |a| + |b| + |c| + |d| ==> Rank(rs[i]) == 4)
      && (i == |a| + |b| + |c| + |d| ==> Rank(rs[i]) == 5)
  {
  }

  /** The two sentiment rules exclude each other and fire only for a
      positive, non-`NaN` sentiment total: the positive one exactly when more
      than 70% of the counted sentiments are positive, the low one exactly
      when fewer than 30% are. */
  lemma SentimentRule(s: AnalyticsStats)
    ensures var rs := Rules(InsightsFor(s));
      var b := s.sentimentBreakdown;
      var total := b.positive + b.neutral + b.negative;
      && !(PositiveSentiment in rs && LowSentiment in rs)
      && (PositiveSentiment in rs <==> b.nanKeys == [] && total > 0 && 10 * b.positive > 7 * total)
      && (LowSentiment in rs <==> b.nanKeys == [] && total > 0 && 10 * b.positive < 3 * total)
  {
    RulesOf(s);
    var b := s.sentimentBreakdown;
    var total := b.positive + b.neutral + b.negative;
    var c := Rules(SentimentPart(s));
    StageMembers(s, PositiveSentiment);
    StageMembers(s, LowSentiment);
    if b.nanKeys == [] && total > 0 {
      RatioThreshold(b.positive, total);
      assert PositiveRatio(b) == Some((b.positive as real) / (total as real));
    } else {
      assert PositiveRatio(b) == None;
      assert c == [];
    }
  }

  /** Membership in four lists followed by one element. */
  lemma InConcat(a: seq<Rule>, b: seq<Rule>, c: seq<Rule>, d: seq<Rule>, e: Rule, x: Rule)
    ensures x in a + b + c + d + [e] <==> x in a || x in b || x in c || x in d || x == e
  {
  }

  /** Each stage contributes at most its own rules. */
  lemma PartRules(s: AnalyticsStats)
    ensures Rules(HighPart(s)) == [] || Rules(HighPart(s)) == [HighActivity]
    ensures Rules(NoPart(s)) == [] || Rules(NoPart(s)) == [NoActivity]
    ensures var c := Rules(SentimentPart(s)); c == [] || c == [PositiveSentiment] || c == [LowSentiment]
    ensures Rules(PersonPart(s)) == [] || Rules(PersonPart(s)) == [TopPerson]
  {
  }

  /** Which stage of the rule list a rule can come from. */
  lemma StageMembers(s: AnalyticsStats, x: Rule)
    ensures x in Rules(InsightsFor(s)) <==>
      match x
      case HighActivity => x in Rules(HighPart(s))
      case NoActivity => x in Rules(NoPart(s))
      case PositiveSentiment => x in Rules(SentimentPart(s))
      case LowSentiment => x in Rules(SentimentPart(s))
      case TopPerson => x in Rules(PersonPart(s))
      case BackupReminder => true
  {
    RulesOf(s);
    PartRules(s);
    var a, b, c, d := Rules(HighPart(s)), Rules(NoPart(s)), Rules(SentimentPart(s)), Rules(PersonPart(s));
    InConcat(a, b, c, d, BackupReminder, x);
    match x
    case HighActivity => assert x !in b && x !in c && x !in d;
    case NoActivity => assert x !in a && x !in c && x !in d;
    case PositiveSentiment => assert x !in a && x !in b && x !in d;
    case LowSentiment => assert x !in a && x !in b && x !in d;
    case TopPerson => assert x !in a && x !in b && x !in c;
    case BackupReminder =>
  }

  lemma RatioThreshold(p: nat, t: nat)
    requires t > 0
    ensures (p as real) / (t as real) > 0.7 <==> 10 * p > 7 * t
    ensures (p as real) / (t as real) < 0.3 <==> 10 * p < 3 * t
  {
    var pr, tr := p as real, t as real;
    DivCompare(pr, tr, 0.7);
    DivCompare(pr, tr, 0.3);
    assert pr > 0.7 * tr <==> 10.0 * pr > 7.0 * tr;
    assert 10.0 * pr > 7.0 * tr <==> (10 * p) as real > (7 * t) as real;
    assert pr < 0.3 * tr <==> 10.0 * pr < 3.0 * tr;
    assert 10.0 * pr < 3.0 * tr <==> (10 * p) as real < (3 * t) as real;
  }

  /** The activity rules exclude each other whenever the weekly average is
      not negative (as every loaded average is), the no-activity rule fires
      exactly for an empty week, and the top-person insight is present
      exactly when some person was counted, naming a person counted at least
      as often as any other. */
  lemma ActivityAndPersonRules(s: AnalyticsStats)
    ensures var r := InsightsFor(s);
      var rs := Rules(r);
      && (s.averagePerWeek >= 0.0 ==> !(HighActivity in rs && NoActivity in rs))
      && (NoActivity in rs <==> s.thisWeek == 0)
      && (TopPerson in rs <==> s.topPeople != [])
      && (s.topPeople != [] ==> TopPersonCard(Leader(s.topPeople)) in r)
  {
    StageMembers(s, HighActivity);
    StageMembers(s, NoActivity);
    StageMembers(s, TopPerson);
    assert HighActivity in Rules(HighPart(s)) <==> HighFires(s);
    if s.topPeople != [] {
      assert InsightsFor(s)[|HighPart(s) + NoPart(s) + SentimentPart(s)|] == TopPersonCard(Leader(s.topPeople));
    }
  }

  /** The insights left after dismissing an id: all others, in order. */
  function WithoutInsight(xs: seq<Insight>, id: string): (r: seq<Insight>)
    ensures IsSubseq(r, xs)
    ensures forall x :: x in r <==> x in xs && RuleId(x.rule) != id
    ensures forall x :: Count(r, x) == if RuleId(x.rule) != id then Count(xs, x) else 0
  {
    var keep := (x: Insight) => RuleId(x.rule) != id;
    assert forall x :: Count(Filter(xs, keep), x) == if RuleId(x.rule) != id then Count(xs, x) else 0 by {
      forall x { FilterCount(xs, keep, x); }
    }
    Filter(xs, keep)
  }

  /** `period === '7d' ? 7 : period === '30d' ? 30 : 90`. */
  function PeriodDays(period: string): (d: nat)
    ensures d == 7 || d == 30 || d == 90
    ensures d == 7 <==> period == "7d"
    ensures d == 30 <==> period == "30d"
  {
    if period == "7d" then 7 else if period == "30d" then 30 else 90
  }

  /** `{ date, count }`. */
  datatype DayCount = DayCount(date: int, count: nat)

  function Reverse<T>(s: seq<T>): (r: seq<T>)
    ensures |r| == |s|
    ensures forall i :: 0 <= i < |s| ==> r[i] == s[|s| - 1 - i]
  {
    if s == [] then [] else Reverse(s[1..]) + [s[0]]
  }

  /** `{ week, positive, neutral, negative }`, the three as percentages. */
  datatype WeekShare = WeekShare(week: int, positive: real, neutral: real, negative: real)

  /** The counters of one week. */
  datatype WeekCounts = WeekCounts(positive: nat, neutral: nat, negative: nat, total: nat)

  /** A row of the sentiment trend query: its creation day and sentiment. */
  datatype DayRow = DayRow(day: int, sentiment: Option<string>)

  /** `date.getDay()`: 1970-01-01 was a Thursday (4), Sunday is 0. */
  function Weekday(day: int): (w: int)
    ensures 0 <= w < 7
  {
    (day + 4) % 7
  }

  /** The Sunday that starts the week of a day. */
  function WeekStart(day: int): (w: int)
    ensures w <= day < w + 7
    ensures Weekday(w) == 0
  {
    day - Weekday(day)
  }

  /** `memory.sentiment || 'neutral'`: the counter a row raises. */
  function RowKey(row: DayRow): string
  {
    if row.sentiment.Some? && row.sentiment.value != "" then row.sentiment.value else "neutral"
  }

  /** `week[sentiment || 'neutral']++` followed by `week.total++`. Another
      key only raises the total (the property it creates is never read),
      except `total` itself, which the first increment raises as well. */
  function AddRow(c: WeekCounts, row: DayRow): WeekCounts
  {
    var key := RowKey(row);
    WeekCounts(c.positive + (if key == "positive" then 1 else 0),
               c.neutral + (if key == "neutral" then 1 else 0),
               c.negative + (if key == "negative" then 1 else 0),
               c.total + 1 + (if key == "total" then 1 else 0))
  }

  /** The number of rows of week `w` whose sentiment is the text `total`. */
  function TotalKeyed(rows: seq<DayRow>, w: int): nat
    decreases |rows|
  {
    if rows == [] then 0
    else
      var last := rows[|rows| - 1];
      TotalKeyed(rows[..|rows| - 1], w) + (if WeekStart(last.day) == w && RowKey(last) == "total" then 1 else 0)
  }

  /** The counters of week `w` over the rows. */
  function WeekTally(rows: seq<DayRow>, w: int): WeekCounts
    decreases |rows|
  {
    if rows == [] then WeekCounts(0, 0, 0, 0)
    else
      var c := WeekTally(rows[..|rows| - 1], w);
      if WeekStart(rows[|rows| - 1].day) == w then AddRow(c, rows[|rows| - 1]) else c
  }

  /** The week of every row, in order. */
  function Weeks(rows: seq<DayRow>): (r: seq<int>)
    ensures |r| == |rows|
    ensures forall i :: 0 <= i < |rows| ==> r[i] == WeekStart(rows[i].day)
    decreases |rows|
  {
    if rows == [] then [] else Weeks(rows[..|rows| - 1]) + [WeekStart(rows[|rows| - 1].day)]
  }

  function Share(w: int, c: WeekCounts): WeekShare
  {
    if c.total > 0 then
      WeekShare(w, (c.positive as real) / (c.total as real) * 100.0,
                (c.neutral as real) / (c.total as real) * 100.0,
                (c.negative as real) / (c.total as real) * 100.0)
    else WeekShare(w, 0.0, 0.0, 0.0)
  }

  /** A week's total counts its rows, and once more each row whose
      sentiment is the text `total`; when every sentiment is known or
      missing the three counters add up to it. */
  lemma {:induction false} WeekTallyFacts(rows: seq<DayRow>, w: int)
    ensures WeekTally(rows, w).total == Count(Weeks(rows), w) + TotalKeyed(rows, w)
    ensures (forall i :: 0 <= i < |rows| ==> rows[i].sentiment.None? || rows[i].sentiment.value == "" || Known(rows[i].sentiment.value))
      ==> WeekTally(rows, w).positive + WeekTally(rows, w).neutral + WeekTally(rows, w).negative == WeekTally(rows, w).total
    decreases |rows|
  {
    if rows != [] {
      var front := rows[..|rows| - 1];
      WeekTallyFacts(front, w);
      assert Weeks(rows) == Weeks(front) + [WeekStart(rows[|rows| - 1].day)];
      CountAppend(Weeks(front), [WeekStart(rows[|rows| - 1].day)], w);
    }
  }

  /** A week with one `positive` row and one `total` row counts three:
      its positive share is a third, not a half. */
  lemma TotalSentimentTwice(d: int)
    ensures var rows := [DayRow(d, Some("positive")), DayRow(d, Some("total"))];
      WeekTally(rows, WeekStart(d)) == WeekCounts(1, 0, 0, 3)
  {
    var rows := [DayRow(d, Some("positive")), DayRow(d, Some("total"))];
    var w := WeekStart(d);
    assert rows[..1] == [rows[0]] && rows[..1][..0] == [];
    assert RowKey(rows[0]) == "positive" && RowKey(rows[1]) == "total";
    assert WeekTally(rows[..1], w) == WeekCounts(1, 0, 0, 1) by {
      assert WeekTally(rows[..1][..0], w) == WeekCounts(0, 0, 0, 0);
    }
  }

  /** In a week with rows whose sentiments are all known or missing, the
      three percentages add up to 100. */
  lemma ShareSums(w: int, c: WeekCounts)
    requires c.total > 0 && c.positive + c.neutral + c.negative == c.total
    ensures var s := Share(w, c); s.positive + s.neutral + s.negative == 100.0
  {
    var t := c.total as real;
    var p, n, g := c.positive as real, c.neutral as real, c.negative as real;
    DivAdd(p, n, t);
    DivAdd(p + n, g, t);
    assert (p + n + g) / t == 1.0;
  }

  lemma DivAdd(x: real, y: real, t: real)
    requires t > 0.0
    ensures x / t + y / t == (x + y) / t
  {
  }

  /** The shares of the given weeks, in order. */
  function Shares(weeks: seq<int>, rows: seq<DayRow>): (r: seq<WeekShare>)
    ensures |r| == |weeks|
    ensures forall i :: 0 <= i < |weeks| ==> r[i] == Share(weeks[i], WeekTally(rows, weeks[i]))
  {
    if weeks == [] then [] else [Share(weeks[0], WeekTally(rows, weeks[0]))] + Shares(weeks[1..], rows)
  }

  lemma {:induction false} WeekTallyAbsent(rows: seq<DayRow>, w: int)
    requires w !in Weeks(rows)
    ensures WeekTally(rows, w) == WeekCounts(0, 0, 0, 0)
    decreases |rows|
  {
    if rows != [] {
      var front := rows[..|rows| - 1];
      assert Weeks(rows) == Weeks(front) + [WeekStart(rows[|rows| - 1].day)];
      WeekTallyAbsent(front, w);
    }
  }

  /** `rows.forEach(...)`: each row whose day has a counter bumps it; days
      outside the window are ignored. */
  method CountDays(counts: map<int, nat>, rowDays: seq<int>) returns (r: map<int, nat>)
    requires forall d :: d in counts ==> counts[d] == 0
    ensures forall d :: d in r <==> d in counts
    ensures forall d :: d in r ==> r[d] == Count(rowDays, d)
  {
    r := counts;
    for j := 0 to |rowDays|
      invariant forall d :: d in r <==> d in counts
      invariant forall d :: d in r ==> r[d] == Count(rowDays[..j], d)
    {
      var x := rowDays[j];
      if x in r {
        r := r[x := r[x] + 1];
      }
      forall d | d in r
        ensures r[d] == Count(rowDays[..j + 1], d)
      {
        CountStep(rowDays, j, d);
      }
    }
    assert rowDays[..|rowDays|] == rowDays;
  }

  lemma CountStep(xs: seq<int>, j: nat, d: int)
    requires j < |xs|
    ensures Count(xs[..j + 1], d) == Count(xs[..j], d) + (if xs[j] == d then 1 else 0)
  {
    assert xs[..j + 1] == xs[..j] + [xs[j]];
    CountAppend(xs[..j], [xs[j]], d);
  }

  /** Counts the memories that fall in the window and returns the day
      entries oldest first: the window's days are initialised newest first
      and the entries reversed at the end. */
  method DayBuckets(days: nat, today: int, rowDays: seq<int>) returns (trend: seq<DayCount>)
    ensures |trend| == days
    ensures forall i :: 0 <= i < days ==>
      trend[i] == DayCount(today - days + 1 + i, Count(rowDays, today - days + 1 + i))
  {
    var counts: map<int, nat> := map[];
    var keys: seq<int> := [];
    for i := 0 to days
      invariant |keys| == i
      invariant forall k :: 0 <= k < i ==> keys[k] == today - k
      invariant forall d :: d in counts <==> today - i < d <= today
      invariant forall d :: d in counts ==> counts[d] == 0
    {
      counts := counts[today - i := 0];
      keys := keys + [today - i];
    }
    counts := CountDays(counts, rowDays);
    var entries: seq<DayCount> := [];
    for k := 0 to days
      invariant |entries| == k
      invariant forall i :: 0 <= i < k ==> entries[i] == DayCount(keys[i], Count(rowDays, keys[i]))
    {
      entries := entries + [DayCount(keys[k], counts[keys[k]])];
    }
    trend := Reverse(entries);
  }

  /** Buckets the rows by week: the weeks in first-occurrence order, and
      each week's counters. */
  method TallyWeeks(rows: seq<DayRow>) returns (table: map<int, WeekCounts>, keys: seq<int>)
    ensures keys == Unique(Weeks(rows))
    ensures forall w :: w in table <==> w in keys
    ensures forall w :: w in table ==> table[w] == WeekTally(rows, w)
  {
    table, keys := map[], [];
    for j := 0 to |rows|
      invariant keys == Unique(Weeks(rows[..j]))
      invariant forall w :: w in table <==> w in Weeks(rows[..j])
      invariant forall w :: w in table ==> table[w] == WeekTally(rows[..j], w)
    {
      var w := WeekStart(rows[j].day);
      WeekStep(rows[..j], rows[j], table, keys);
      assert rows[..j + 1] == rows[..j] + [rows[j]];
      var counts := if w in table then table[w] else WeekCounts(0, 0, 0, 0);
      keys := if w in table then keys else keys + [w];
      table := table[w := AddRow(counts, rows[j])];
    }
    assert rows[..|rows|] == rows;
    UniqueFacts(Weeks(rows));
  }

  /** Counting one more row: its week joins the key list if new, and its
      counters take the row. */
  lemma WeekStep(front: seq<DayRow>, row: DayRow, table: map<int, WeekCounts>, keys: seq<int>)
    requires keys == Unique(Weeks(front))
    requires forall w :: w in table <==> w in Weeks(front)
    requires forall w :: w in table ==> table[w] == WeekTally(front, w)
    ensures var w := WeekStart(row.day);
      var rows := front + [row];
      var next := table[w := AddRow(if w in table then table[w] else WeekCounts(0, 0, 0, 0), row)];
      && Unique(Weeks(rows)) == (if w in table then keys else keys + [w])
      && (forall v :: v in next <==> v in Weeks(rows))
      && (forall v :: v in next ==> next[v] == WeekTally(rows, v))
  {
    var w := WeekStart(row.day);
    var rows := front + [row];
    assert rows[..|rows| - 1] == front;
    assert Weeks(rows) == Weeks(front) + [w];
    assert Weeks(rows)[..|Weeks(rows)| - 1] == Weeks(front);
    UniqueFacts(Weeks(front));
    if w !in table {
      WeekTallyAbsent(front, w);
    }
  }

  /** Buckets the rows by week, weeks in first-occurrence order, and returns
      each week's percentages. */
  method WeekBuckets(rows: seq<DayRow>) returns (trend: seq<WeekShare>)
    ensures trend == Shares(Unique(Weeks(rows)), rows)
  {
    var table, keys := TallyWeeks(rows);
    trend := [];
    for k := 0 to |keys|
      invariant trend == Shares(keys[..k], rows)
    {
      assert keys[..k + 1] == keys[..k] + [keys[k]];
      SharesAppend(keys[..k], [keys[k]], rows);
      trend := trend + [Share(keys[k], table[keys[k]])];
    }
    assert keys[..|keys|] == keys;
  }

  lemma SharesAppend(a: seq<int>, b: seq<int>, rows: seq<DayRow>)
    ensures Shares(a + b, rows) == Shares(a, rows) + Shares(b, rows)
  {
  }

  lemma AccumulateStep(init: AnalyticsStats, ms: seq<Memory>, i: nat, now: int)
    requires i < |ms|
    ensures Accumulate(init, ms[..i + 1], now) == Step(Accumulate(init, ms[..i], now), ms[i], now)
  {
    assert ms[..i + 1][..i] == ms[..i];
  }

  /** The loop of `loadMemoryAnalytics` over the fetched rows, then the
      averages. */
  method Compute(data: seq<Memory>, now: int) returns (stats: AnalyticsStats)
    ensures stats == AnalyticsOf(data, now)
  {
    var s := Blank(|data|);
    for i := 0 to |data|
      invariant s == Accumulate(Blank(|data|), data[..i], now)
    {
      var m := data[i];
      var week, month, year := s.thisWeek, s.thisMonth, s.thisYear;
      if CreatedMs(m) > now - 7 * DayMs {
        week := week + 1;
      }
      if CreatedMs(m) > now - 30 * DayMs {
        month := month + 1;
      }
      if CreatedMs(m) > now - 365 * DayMs {
        year := year + 1;
      }
      var breakdown := s.sentimentBreakdown;
      if HasSentiment(m) {
        breakdown := CountSentiment(breakdown, m.sentiment.value);
      }
      var tags := BumpEach(s.topTags, m.tags);
      var people := BumpEach(s.topPeople, m.people);
      var places := BumpEach(s.topPlaces, m.places);
      var events := BumpEach(s.topEvents, m.events);
      AccumulateStep(Blank(|data|), data, i, now);
      s := s.(thisWeek := week, thisMonth := month, thisYear := year, sentimentBreakdown := breakdown,
              topTags := tags, topPeople := people, topPlaces := places, topEvents := events);
    }
    assert data[..|data|] == data;
    var perDay := (|data| as real) / (SpanDays(data, now) as real);
    stats := s.(averagePerDay := perDay, averagePerWeek := perDay * 7.0);
  }

  class Store {
    var memoryStats: AnalyticsStats
    var insights: seq<Insight>

    constructor ()
      ensures memoryStats == Blank(0) && insights == []
    {
      memoryStats := Blank(0);
      insights := [];
    }

    /** `loadMemoryAnalytics`: replaces the statistics with those of the
        fetched rows; with no user or a failed fetch nothing changes. */
    method LoadMemoryAnalytics(signedIn: bool, reply: Result<seq<Memory>>, now: int)
      modifies this
      ensures memoryStats == if signedIn && reply.Ok? then AnalyticsOf(reply.value, now) else old(memoryStats)
      ensures insights == old(insights)
    {
      if !signedIn || reply.Err? {
        return;
      }
      memoryStats := Compute(reply.value, now);
    }

    /** `generateInsights`: pushes the insights rule by rule. */
    method GenerateInsights()
      modifies this
      ensures insights == InsightsFor(old(memoryStats))
      ensures memoryStats == old(memoryStats)
    {
      var s := memoryStats;
      var out: seq<Insight> := [];
      if s.thisWeek as real > s.averagePerWeek * 1.5 {
        out := out + [HighActivityCard(s)];
      }
      assert out == HighPart(s);
      if s.thisWeek == 0 {
        out := out + [NoActivityCard];
      }
      assert out == HighPart(s) + NoPart(s);
      var total := SentimentTotal(s.sentimentBreakdown);
      if total.Some? && total.value > 0 {
        var ratio := (s.sentimentBreakdown.positive as real) / (total.value as real);
        if ratio > 0.7 {
          out := out + [PositiveSentimentCard(ratio)];
        } else if ratio < 0.3 {
          out := out + [LowSentimentCard];
        }
      }
      assert out == HighPart(s) + NoPart(s) + SentimentPart(s);
      if s.topPeople != [] {
        out := out + [TopPersonCard(Leader(s.topPeople))];
      }
      out := out + [BackupReminderCard];
      insights := out;
    }

    /** `dismissInsight`: removes the insights with the id. */
    method DismissInsight(id: string)
      modifies this
      ensures insights == WithoutInsight(old(insights), id)
      ensures memoryStats == old(memoryStats)
    {
      insights := WithoutInsight(insights, id);
    }

    /** `getMemoryTrends(period)`: one entry per day of the window, oldest
        first and ending today, counting the fetched rows created that day
        (`rowDays` holds each row's creation day). */
    method GetMemoryTrends(signedIn: bool, period: string, today: int, reply: Result<seq<int>>)
      returns (trend: seq<DayCount>)
      ensures !signedIn || reply.Err? ==> trend == []
      ensures signedIn && reply.Ok? ==>
        var days := PeriodDays(period);
        |trend| == days
        && (forall i :: 0 <= i < days ==>
              trend[i] == DayCount(today - days + 1 + i, Count(reply.value, today - days + 1 + i)))
    {
      if !signedIn || reply.Err? {
        return [];
      }
      trend := DayBuckets(PeriodDays(period), today, reply.value);
    }

    /** `getSentimentTrends`: one entry per week that has rows, in
        first-occurrence order, with the share of each sentiment. */
    method GetSentimentTrends(signedIn: bool, reply: Result<seq<DayRow>>) returns (trend: seq<WeekShare>)
      ensures trend == if signedIn && reply.Ok? then Shares(Unique(Weeks(reply.value)), reply.value) else []
    {
      if !signedIn || reply.Err? {
        return [];
      }
      trend := WeekBuckets(reply.value);
    }
  }
}
