/**
 * The weekly insight-refresh job of lib/inngest/function.ts: the industries are
 * read from the store, and for each in turn the generated answer is cleaned and
 * parsed, the industry's salary ranges are deleted, and its insight row is
 * overwritten together with freshly inserted salary ranges.
 *
 * The database is in-memory state: the IndustryInsight table as a map from the
 * industry name (its unique key) to the row, and the SalaryRange table as a
 * sequence of rows, each linked to its industry.
 */
module InsightRefresh {
  import opened Wrappers
  import ResponseCleaning

  /** `7 * 24 * 60 * 60 * 1000`: one week in milliseconds (line 93). */
  const WeekMillis: int := 604800000

  /** A JavaScript number, kept as its IEEE-754 bit pattern; the job does no arithmetic on it. */
  datatype JsNumber = JsNumber(bits: bv64)

  /** The `SalaryRange` record of lines 6-12. */
  datatype SalaryRange = SalaryRange(role: string, min: JsNumber, max: JsNumber, median: JsNumber, location: string)

  /** The object `JSON.parse` yields (line 63), restricted to the fields the job reads. */
  datatype Insights = Insights(
    salaryRanges: seq<SalaryRange>,
    growthRate: JsNumber,
    demandLevel: string,
    topSkills: seq<string>,
    marketOutlook: string,
    keyTrends: seq<string>,
    recommendedSkills: seq<string>)

  /** A row of the IndustryInsight table, without its key; timestamps are epoch milliseconds. */
  datatype IndustryInsight = IndustryInsight(
    growthRate: JsNumber,
    demandLevel: string,
    topSkills: seq<string>,
    marketOutlook: string,
    keyTrends: seq<string>,
    recommendedSkills: seq<string>,
    lastUpdated: int,
    nextUpdate: int)

  /** A row of the SalaryRange table, linked to the insight of `industry`. */
  datatype SalaryRow = SalaryRow(industry: string, range: SalaryRange)

  /**
   * The two clock readings taken while one industry is updated: `date` for
   * `new Date()` (line 92) and `now` for `Date.now()` (line 93).
   */
  datatype ClockReadings = ClockReadings(date: int, now: int)

  /** The two tables. */
  datatype Store = Store(insights: map<string, IndustryInsight>, rows: seq<SalaryRow>)

  /** Every salary row belongs to an existing insight (the foreign key). */
  predicate Consistent(st: Store)
  {
    forall k :: 0 <= k < |st.rows| ==> st.rows[k].industry in st.insights
  }

  // ---------------------------------------------------------------------------
  // The SalaryRange table
  // ---------------------------------------------------------------------------

  /** The salary ranges linked to `industry`, in table order. */
  function RangesOf(rows: seq<SalaryRow>, industry: string): (r: seq<SalaryRange>)
    ensures |r| <= |rows|
    ensures (forall k :: 0 <= k < |rows| ==> rows[k].industry != industry) ==> r == []
    decreases |rows|
  {
    if rows == [] then []
    else RangesOf(rows[..|rows| - 1], industry)
         + (if rows[|rows| - 1].industry == industry then [rows[|rows| - 1].range] else [])
  }

  /** `salaryRange.deleteMany({ where: { industryInsight: { industry } } })` (lines 68-70). */
  function Unlinked(rows: seq<SalaryRow>, industry: string): (r: seq<SalaryRow>)
    ensures forall k :: 0 <= k < |r| ==> r[k].industry != industry
    decreases |rows|
  {
    if rows == [] then []
    else Unlinked(rows[..|rows| - 1], industry)
         + (if rows[|rows| - 1].industry == industry then [] else [rows[|rows| - 1]])
  }

  /** The rows `createMany` inserts for `industry` (lines 81-90): each range copied field by field. */
  function Linked(industry: string, ranges: seq<SalaryRange>): (r: seq<SalaryRow>)
    ensures |r| == |ranges|
    ensures forall k :: 0 <= k < |r| ==> r[k].industry == industry
    ensures forall k :: 0 <= k < |r| ==>
              && r[k].range.role == ranges[k].role
              && r[k].range.min == ranges[k].min
              && r[k].range.max == ranges[k].max
              && r[k].range.median == ranges[k].median
              && r[k].range.location == ranges[k].location
  {
    seq(|ranges|, k requires 0 <= k < |ranges| =>
      SalaryRow(industry, SalaryRange(ranges[k].role, ranges[k].min, ranges[k].max,
                                      ranges[k].median, ranges[k].location)))
  }

  lemma {:induction false} RangesOfAppend(a: seq<SalaryRow>, b: seq<SalaryRow>, industry: string)
    ensures RangesOf(a + b, industry) == RangesOf(a, industry) + RangesOf(b, industry)
    decreases |b|
  {
    if b == [] {
      assert a + b == a;
    } else {
      var b' := b[..|b| - 1];
      assert (a + b)[..|a + b| - 1] == a + b';
      RangesOfAppend(a, b', industry);
    }
  }

  lemma {:induction false} UnlinkedAppend(a: seq<SalaryRow>, b: seq<SalaryRow>, industry: string)
    ensures Unlinked(a + b, industry) == Unlinked(a, industry) + Unlinked(b, industry)
    decreases |b|
  {
    if b == [] {
      assert a + b == a;
    } else {
      var b' := b[..|b| - 1];
      assert (a + b)[..|a + b| - 1] == a + b';
      UnlinkedAppend(a, b', industry);
    }
  }

  /** After the delete, `industry` has no salary range and every other industry keeps its own. */
  lemma {:induction false} RangesOfUnlinked(rows: seq<SalaryRow>, industry: string, other: string)
    ensures RangesOf(Unlinked(rows, industry), industry) == []
    ensures other != industry ==> RangesOf(Unlinked(rows, industry), other) == RangesOf(rows, other)
    decreases |rows|
  {
    if rows != [] {
      var init := rows[..|rows| - 1];
      var last := rows[|rows| - 1];
      RangesOfUnlinked(init, industry, other);
      var tail := if last.industry == industry then [] else [last];
      RangesOfAppend(Unlinked(init, industry), tail, industry);
      RangesOfAppend(Unlinked(init, industry), tail, other);
      assert RangesOf([], industry) == [] && RangesOf([], other) == [];
      if tail != [] {
        assert [last][..0] == [];
      }
    }
  }

  /** The inserted rows hold exactly the given ranges, all for `industry`. */
  lemma {:induction false} RangesOfLinked(industry: string, ranges: seq<SalaryRange>, other: string)
    ensures RangesOf(Linked(industry, ranges), industry) == ranges
    ensures other != industry ==> RangesOf(Linked(industry, ranges), other) == []
    decreases |ranges|
  {
    if ranges != [] {
      var init := ranges[..|ranges| - 1];
      assert Linked(industry, ranges)[..|ranges| - 1] == Linked(industry, init);
      RangesOfLinked(industry, init, other);
    }
  }

  /** Rows that do not mention `industry` are untouched by its delete. */
  lemma {:induction false} UnlinkedNone(rows: seq<SalaryRow>, industry: string)
    requires forall k :: 0 <= k < |rows| ==> rows[k].industry != industry
    ensures Unlinked(rows, industry) == rows
    decreases |rows|
  {
    if rows != [] {
      UnlinkedNone(rows[..|rows| - 1], industry);
      assert rows[..|rows| - 1] + [rows[|rows| - 1]] == rows;
    }
  }

  /** Every row the delete keeps was already in the table. */
  lemma {:induction false} UnlinkedFromRows(rows: seq<SalaryRow>, industry: string)
    ensures forall k :: 0 <= k < |Unlinked(rows, industry)| ==> Unlinked(rows, industry)[k] in rows
    decreases |rows|
  {
    if rows != [] {
      var init := rows[..|rows| - 1];
      UnlinkedFromRows(init, industry);
      forall k | 0 <= k < |Unlinked(rows, industry)| ensures Unlinked(rows, industry)[k] in rows {
        if k < |Unlinked(init, industry)| {
          assert Unlinked(init, industry)[k] in init;
        } else {
          assert Unlinked(rows, industry)[k] == rows[|rows| - 1];
        }
      }
    }
  }

  // ---------------------------------------------------------------------------
  // Refreshing one industry (the step of lines 67-96)
  // ---------------------------------------------------------------------------

  /** The data of the `industryInsight.update` call (lines 74-94). */
  function UpdatedInsight(ins: Insights, clock: ClockReadings): (r: IndustryInsight)
    ensures r.growthRate == ins.growthRate && r.demandLevel == ins.demandLevel
    ensures r.topSkills == ins.topSkills && r.marketOutlook == ins.marketOutlook
    ensures r.keyTrends == ins.keyTrends && r.recommendedSkills == ins.recommendedSkills
    ensures r.lastUpdated == clock.date
    ensures r.nextUpdate == clock.now + WeekMillis
  {
    IndustryInsight(ins.growthRate, ins.demandLevel, ins.topSkills, ins.marketOutlook,
                    ins.keyTrends, ins.recommendedSkills, clock.date, clock.now + WeekMillis)
  }

  /**
   * The store after refreshing `industry`: its salary rows are deleted; then, if
   * the insight row exists, it is overwritten and the new ranges are inserted.
   * If it does not exist the update fails, and the delete has already happened.
   */
  function Refresh(st: Store, industry: string, ins: Insights, clock: ClockReadings): (r: Store)
  {
    var kept := Unlinked(st.rows, industry);
    if industry in st.insights then
      Store(st.insights[industry := UpdatedInsight(ins, clock)], kept + Linked(industry, ins.salaryRanges))
    else
      Store(st.insights, kept)
  }

  /** What the store holds about one industry: its insight row (if any) and its salary ranges. */
  datatype IndustryView = IndustryView(insight: Option<IndustryInsight>, ranges: seq<SalaryRange>)

  function ViewOf(st: Store, industry: string): IndustryView
  {
    IndustryView(if industry in st.insights then Some(st.insights[industry]) else None,
                 RangesOf(st.rows, industry))
  }

  /** A refresh neither adds nor removes insight rows. */
  lemma RefreshKeepsIndustries(st: Store, industry: string, ins: Insights, clock: ClockReadings)
    ensures Refresh(st, industry, ins, clock).insights.Keys == st.insights.Keys
  {
  }

  /** The refreshed industry holds exactly the parsed values and the two new timestamps. */
  lemma RefreshSetsIndustry(st: Store, industry: string, ins: Insights, clock: ClockReadings)
    requires industry in st.insights
    ensures var after := Refresh(st, industry, ins, clock);
      && industry in after.insights
      && after.insights[industry].growthRate == ins.growthRate
      && after.insights[industry].demandLevel == ins.demandLevel
      && after.insights[industry].topSkills == ins.topSkills
      && after.insights[industry].marketOutlook == ins.marketOutlook
      && after.insights[industry].keyTrends == ins.keyTrends
      && after.insights[industry].recommendedSkills == ins.recommendedSkills
      && after.insights[industry].lastUpdated == clock.date
      && after.insights[industry].nextUpdate == clock.now + WeekMillis
      && RangesOf(after.rows, industry) == ins.salaryRanges
  {
    var kept := Unlinked(st.rows, industry);
    RangesOfAppend(kept, Linked(industry, ins.salaryRanges), industry);
    RangesOfUnlinked(st.rows, industry, industry);
    RangesOfLinked(industry, ins.salaryRanges, industry);
  }

  /** Refreshing one industry leaves every other industry's insight and salary ranges unchanged. */
  lemma RefreshFrame(st: Store, industry: string, ins: Insights, clock: ClockReadings, other: string)
    requires other != industry
    ensures ViewOf(Refresh(st, industry, ins, clock), other) == ViewOf(st, other)
  {
    var kept := Unlinked(st.rows, industry);
    RangesOfUnlinked(st.rows, industry, other);
    var r := Refresh(st, industry, ins, clock);
    if industry in st.insights {
      var added := Linked(industry, ins.salaryRanges);
      assert r.rows == kept + added;
      RangesOfAppend(kept, added, other);
      RangesOfLinked(industry, ins.salaryRanges, other);
      assert RangesOf(r.rows, other) == RangesOf(st.rows, other);
      assert (other in r.insights) == (other in st.insights);
    } else {
      assert r == Store(st.insights, kept);
    }
  }

  /** Refreshing an industry the table does not hold changes nothing in a consistent store. */
  lemma RefreshMissing(st: Store, industry: string, ins: Insights, clock: ClockReadings)
    requires Consistent(st) && industry !in st.insights
    ensures Refresh(st, industry, ins, clock) == st
  {
    UnlinkedNone(st.rows, industry);
  }

  /** The refresh keeps the foreign key. */
  lemma RefreshConsistent(st: Store, industry: string, ins: Insights, clock: ClockReadings)
    requires Consistent(st)
    ensures Consistent(Refresh(st, industry, ins, clock))
  {
    UnlinkedFromRows(st.rows, industry);
  }

  /**
   * A second refresh of the same industry undoes every trace of the first: the
   * store is as if only the second had run. A retried step reads both clocks
   * again, and the retry leaves the store as one run with the new readings would.
   */
  lemma RefreshRetried(st: Store, industry: string, ins1: Insights, clock1: ClockReadings,
                       ins2: Insights, clock2: ClockReadings)
    ensures Refresh(Refresh(st, industry, ins1, clock1), industry, ins2, clock2)
         == Refresh(st, industry, ins2, clock2)
  {
    var kept := Unlinked(st.rows, industry);
    var r := Refresh(st, industry, ins1, clock1);
    var second := Refresh(r, industry, ins2, clock2);
    var once := Refresh(st, industry, ins2, clock2);
    if industry in st.insights {
      var added := Linked(industry, ins1.salaryRanges);
      var u2 := UpdatedInsight(ins2, clock2);
      assert r == Store(st.insights[industry := UpdatedInsight(ins1, clock1)], kept + added);
      assert industry in r.insights;
      assert second == Store(r.insights[industry := u2], Unlinked(kept + added, industry) + Linked(industry, ins2.salaryRanges));
      assert once == Store(st.insights[industry := u2], kept + Linked(industry, ins2.salaryRanges));
      DeleteAfterRefresh(st.rows, industry, added);
      assert r.insights[industry := u2] == st.insights[industry := u2];
    } else {
      assert r == Store(st.insights, kept);
      assert second == Store(st.insights, Unlinked(kept, industry));
      UnlinkedNone(kept, industry);
    }
  }

  /** Deleting an industry's rows again removes exactly the rows inserted since the last delete. */
  lemma DeleteAfterRefresh(rows: seq<SalaryRow>, industry: string, added: seq<SalaryRow>)
    requires forall k :: 0 <= k < |added| ==> added[k].industry == industry
    ensures Unlinked(Unlinked(rows, industry) + added, industry) == Unlinked(rows, industry)
  {
    var kept := Unlinked(rows, industry);
    UnlinkedNone(kept, industry);
    UnlinkedAppend(kept, added, industry);
    UnlinkedAll(added, industry);
    assert kept + [] == kept;
  }

  /** Rows all linked to `industry` are removed entirely by its delete. */
  lemma {:induction false} UnlinkedAll(rows: seq<SalaryRow>, industry: string)
    requires forall k :: 0 <= k < |rows| ==> rows[k].industry == industry
    ensures Unlinked(rows, industry) == []
    decreases |rows|
  {
    if rows != [] {
      UnlinkedAll(rows[..|rows| - 1], industry);
    }
  }

  // ---------------------------------------------------------------------------
  // The job: the loop of line 30 over the fetched industries
  // ---------------------------------------------------------------------------

  /**
   * What the loop body obtains for `industry` before touching the store: None when
   * the generation call throws or `JSON.parse` throws on the cleaned text (line 63).
   */
  function ParsedFor(generate: string -> Option<ResponseCleaning.Response>,
                     parse: string -> Option<Insights>, industry: string): (r: Option<Insights>)
    ensures generate(industry).None? ==> r.None?
    ensures generate(industry).Some? ==> r == parse(ResponseCleaning.CleanedResponse(generate(industry).value))
  {
    match generate(industry)
    case None => None
    case Some(res) => parse(ResponseCleaning.CleanedResponse(res))
  }

  /** The outcome of the loop body's calls for every industry: what a run is driven by. */
  function Outcomes(generate: string -> Option<ResponseCleaning.Response>,
                    parse: string -> Option<Insights>): string -> Option<Insights>
  {
    industry => ParsedFor(generate, parse, industry)
  }

  /** The store a run leaves behind and how many industries it refreshed. */
  datatype JobRun = JobRun(store: Store, processed: nat)

  /**
   * A run over `names` in order: each industry is refreshed with its parsed
   * insights, `outcome(industry)`. The first failure throws and ends the run:
   * a failed generation or parse before the store is touched, a missing insight
   * row in the update, after the delete has already run.
   */
  function Run(st: Store, names: seq<string>, outcome: string -> Option<Insights>,
               clock: string -> ClockReadings): (r: JobRun)
    ensures r.processed <= |names|
    decreases |names|
  {
    if names == [] then JobRun(st, 0)
    else match outcome(names[0])
      case None => JobRun(st, 0)
      case Some(ins) =>
        var next := Refresh(st, names[0], ins, clock(names[0]));
        if names[0] !in st.insights then JobRun(next, 0)
        else
          var rest := Run(next, names[1..], outcome, clock);
          JobRun(rest.store, rest.processed + 1)
  }

  /** A run whose first industry fails ends there, in the store that first step leaves. */
  lemma RunEnds(st: Store, names: seq<string>, outcome: string -> Option<Insights>,
                clock: string -> ClockReadings, after: Store)
    requires names != []
    requires !(outcome(names[0]).Some? && names[0] in st.insights)
    requires after == if outcome(names[0]).None? then st
                      else Refresh(st, names[0], outcome(names[0]).value, clock(names[0]))
    ensures Run(st, names, outcome, clock) == JobRun(after, 0)
  {
  }

  /** A run whose first industry succeeds counts it and goes on from the refreshed store. */
  lemma RunAdvances(st: Store, names: seq<string>, outcome: string -> Option<Insights>,
                    clock: string -> ClockReadings, after: Store)
    requires names != []
    requires outcome(names[0]).Some? && names[0] in st.insights
    requires after == Refresh(st, names[0], outcome(names[0]).value, clock(names[0]))
    ensures Run(st, names, outcome, clock).store == Run(after, names[1..], outcome, clock).store
    ensures Run(st, names, outcome, clock).processed == Run(after, names[1..], outcome, clock).processed + 1
  {
  }

  predicate Distinct(names: seq<string>)
  {
    forall i, j :: 0 <= i < j < |names| ==> names[i] != names[j]
  }

  /**
   * Every industry before the stopping point parsed and had an insight row; the
   * run stops only at one whose generation or parse failed or whose row is missing.
   */
  lemma {:induction false} RunStopsAtFirstFailure(st: Store, names: seq<string>,
      outcome: string -> Option<Insights>, clock: string -> ClockReadings)
    ensures var r := Run(st, names, outcome, clock);
      && (forall j :: 0 <= j < r.processed ==> outcome(names[j]).Some? && names[j] in st.insights)
      && (r.processed < |names| ==> outcome(names[r.processed]).None? || names[r.processed] !in st.insights)
    decreases |names|
  {
    if names != [] && outcome(names[0]).Some? && names[0] in st.insights {
      var ins := outcome(names[0]).value;
      var next := Refresh(st, names[0], ins, clock(names[0]));
      var rest := Run(next, names[1..], outcome, clock);
      RunStopsAtFirstFailure(next, names[1..], outcome, clock);
      assert Run(st, names, outcome, clock).processed == rest.processed + 1;
      assert next.insights.Keys == st.insights.Keys;
      forall j | 0 <= j < rest.processed + 1 ensures outcome(names[j]).Some? && names[j] in st.insights {
        if j > 0 { assert names[j] == names[1..][j - 1]; }
      }
      if rest.processed + 1 < |names| {
        assert names[rest.processed + 1] == names[1..][rest.processed];
      }
    }
  }

  /** Conversely, the run refreshes exactly the industries before the first failing one. */
  lemma {:induction false} RunStopsExactlyAt(st: Store, names: seq<string>,
      outcome: string -> Option<Insights>, clock: string -> ClockReadings, k: nat)
    requires k <= |names|
    requires forall j :: 0 <= j < k ==> outcome(names[j]).Some? && names[j] in st.insights
    requires k < |names| ==> outcome(names[k]).None? || names[k] !in st.insights
    ensures Run(st, names, outcome, clock).processed == k
    decreases |names|
  {
    if names != [] && k > 0 {
      var ins := outcome(names[0]).value;
      var next := Refresh(st, names[0], ins, clock(names[0]));
      assert next.insights.Keys == st.insights.Keys;
      forall j | 0 <= j < k - 1 ensures outcome(names[1..][j]).Some? && names[1..][j] in next.insights {
        assert names[1..][j] == names[j + 1];
      }
      if k < |names| {
        assert names[1..][k - 1] == names[k];
      }
      RunStopsExactlyAt(next, names[1..], outcome, clock, k - 1);
    }
  }

  /**
   * An industry the run did not refresh keeps its insight and ranges, provided it
   * has an insight row or no salary rows (which the foreign key guarantees, see
   * `MissingHasNoRanges`): the run may end with the delete of a name whose row is
   * missing.
   */
  lemma {:induction false} RunLeavesOthers(st: Store, names: seq<string>,
      outcome: string -> Option<Insights>, clock: string -> ClockReadings, other: string)
    requires forall k :: 0 <= k < Run(st, names, outcome, clock).processed ==> names[k] != other
    requires other in st.insights || RangesOf(st.rows, other) == []
    ensures ViewOf(Run(st, names, outcome, clock).store, other) == ViewOf(st, other)
    decreases |names|
  {
    if names != [] && outcome(names[0]).Some? {
      var ins := outcome(names[0]).value;
      var next := Refresh(st, names[0], ins, clock(names[0]));
      if names[0] !in st.insights {
        assert Run(st, names, outcome, clock) == JobRun(next, 0);
        if other == names[0] {
          RangesOfUnlinked(st.rows, other, other);
        } else {
          RefreshFrame(st, names[0], ins, clock(names[0]), other);
        }
      } else {
        var rest := Run(next, names[1..], outcome, clock);
        assert Run(st, names, outcome, clock) == JobRun(rest.store, rest.processed + 1);
        assert names[0] != other;
        forall k | 0 <= k < rest.processed ensures names[1..][k] != other {
          assert names[1..][k] == names[k + 1];
        }
        RefreshFrame(st, names[0], ins, clock(names[0]), other);
        assert ViewOf(next, other) == ViewOf(st, other);
        RunLeavesOthers(next, names[1..], outcome, clock, other);
      }
    }
  }

  /** In a consistent store an industry without an insight row has no salary ranges. */
  lemma MissingHasNoRanges(st: Store, industry: string)
    requires Consistent(st) && industry !in st.insights
    ensures RangesOf(st.rows, industry) == []
  {
    UnlinkedNone(st.rows, industry);
    RangesOfUnlinked(st.rows, industry, industry);
  }

  /** A run neither adds nor removes insight rows. */
  lemma {:induction false} RunKeepsIndustries(st: Store, names: seq<string>,
      outcome: string -> Option<Insights>, clock: string -> ClockReadings)
    ensures Run(st, names, outcome, clock).store.insights.Keys == st.insights.Keys
    decreases |names|
  {
    if names != [] && outcome(names[0]).Some? && names[0] in st.insights {
      var ins := outcome(names[0]).value;
      RunKeepsIndustries(Refresh(st, names[0], ins, clock(names[0])), names[1..], outcome, clock);
    }
  }

  /**
   * Each industry the run reached holds exactly its parsed insights, its own clock
   * readings and its parsed salary ranges once the run is over.
   */
  lemma {:induction false} RunRefreshesProcessed(st: Store, names: seq<string>,
      outcome: string -> Option<Insights>, clock: string -> ClockReadings, j: nat)
    requires Distinct(names)
    requires j < Run(st, names, outcome, clock).processed
    ensures outcome(names[j]).Some?
    ensures var ins := outcome(names[j]).value;
      ViewOf(Run(st, names, outcome, clock).store, names[j])
        == IndustryView(Some(UpdatedInsight(ins, clock(names[j]))), ins.salaryRanges)
    decreases |names|
  {
    assert outcome(names[0]).Some? && names[0] in st.insights;
    var ins := outcome(names[0]).value;
    var next := Refresh(st, names[0], ins, clock(names[0]));
    var rest := names[1..];
    var r := Run(next, rest, outcome, clock);
    assert Run(st, names, outcome, clock) == JobRun(r.store, r.processed + 1);
    if j == 0 {
      RefreshSetsIndustry(st, names[0], ins, clock(names[0]));
      assert names[0] in next.insights;
      forall k | 0 <= k < r.processed ensures rest[k] != names[0] {
        assert rest[k] == names[k + 1];
      }
      RunLeavesOthers(next, rest, outcome, clock, names[0]);
    } else {
      assert Distinct(rest) by {
        forall a, b | 0 <= a < b < |rest| ensures rest[a] != rest[b] {
          assert rest[a] == names[a + 1] && rest[b] == names[b + 1];
        }
      }
      assert names[j] == rest[j - 1];
      assert next.insights.Keys == st.insights.Keys;
      RunRefreshesProcessed(next, rest, outcome, clock, j - 1);
    }
  }

  /** A run keeps the foreign key. */
  lemma {:induction false} RunConsistent(st: Store, names: seq<string>,
      outcome: string -> Option<Insights>, clock: string -> ClockReadings)
    requires Consistent(st)
    ensures Consistent(Run(st, names, outcome, clock).store)
    decreases |names|
  {
    if names != [] && outcome(names[0]).Some? {
      var ins := outcome(names[0]).value;
      RefreshConsistent(st, names[0], ins, clock(names[0]));
      if names[0] in st.insights {
        RunConsistent(Refresh(st, names[0], ins, clock(names[0])), names[1..], outcome, clock);
      }
    }
  }

  // ---------------------------------------------------------------------------
  // The database the job mutates
  // ---------------------------------------------------------------------------

  class Database {
    var insights: map<string, IndustryInsight>
    var salaryRanges: seq<SalaryRow>

    function State(): Store
      reads this
    {
      Store(insights, salaryRanges)
    }

    ghost predicate Valid()
      reads this
    {
      Consistent(State())
    }

    constructor (insights0: map<string, IndustryInsight>, rows0: seq<SalaryRow>)
      requires Consistent(Store(insights0, rows0))
      ensures Valid() && State() == Store(insights0, rows0)
    {
      insights := insights0;
      salaryRanges := rows0;
    }

    /**
     * `industryInsight.findMany({ select: { industry: true } })` (lines 24-28):
     * every industry key once, in an order the database chooses.
     */
    method FindIndustries() returns (names: seq<string>)
      ensures Distinct(names)
      ensures forall n :: n in names <==> n in insights
    {
      names := [];
      var left := insights.Keys;
      while left != {}
        invariant left <= insights.Keys
        invariant Distinct(names)
        invariant forall n :: n in names <==> n in insights && n !in left
        decreases left
      {
        var n :| n in left;
        names := names + [n];
        left := left - {n};
      }
    }

    /** `salaryRange.deleteMany` for `industry` (lines 68-70). */
    method DeleteSalaryRanges(industry: string)
      requires Valid()
      modifies this
      ensures Valid()
      ensures insights == old(insights)
      ensures salaryRanges == Unlinked(old(salaryRanges), industry)
    {
      UnlinkedFromRows(salaryRanges, industry);
      salaryRanges := Unlinked(salaryRanges, industry);
    }

    /**
     * `industryInsight.update` with its nested `createMany` (lines 72-95); it
     * throws, changing nothing, when no insight row has the key `industry`.
     */
    method UpdateInsight(industry: string, ins: Insights, clock: ClockReadings) returns (ok: bool)
      requires Valid()
      modifies this
      ensures Valid()
      ensures ok == (industry in old(insights))
      ensures ok ==> insights == old(insights)[industry := UpdatedInsight(ins, clock)]
      ensures ok ==> salaryRanges == old(salaryRanges) + Linked(industry, ins.salaryRanges)
      ensures !ok ==> insights == old(insights) && salaryRanges == old(salaryRanges)
    {
      ok := industry in insights;
      if ok {
        insights := insights[industry := UpdatedInsight(ins, clock)];
        salaryRanges := salaryRanges + Linked(industry, ins.salaryRanges);
      }
    }

    /** The step body of lines 67-96: delete, then update-and-insert, as two separate calls. */
    method RefreshIndustry(industry: string, ins: Insights, clock: ClockReadings) returns (ok: bool)
      requires Valid()
      modifies this
      ensures Valid()
      ensures ok == (industry in old(insights))
      ensures State() == Refresh(old(State()), industry, ins, clock)
    {
      ghost var before := State();
      DeleteSalaryRanges(industry);
      ok := UpdateInsight(industry, ins, clock);
      RefreshConsistent(before, industry, ins, clock);
    }
  }

  /**
   * The body of the loop for one industry (lines 31-96): call the generation
   * service, clean and parse its answer, then refresh the industry. `ok` is false
   * when one of these throws: the call, `JSON.parse`, or the update of a missing row.
   */
  method ProcessIndustry(db: Database, industry: string, generate: string -> Option<ResponseCleaning.Response>,
                         parse: string -> Option<Insights>, clock: ClockReadings) returns (ok: bool)
    requires db.Valid()
    modifies db
    ensures db.Valid()
    ensures ok == (ParsedFor(generate, parse, industry).Some? && industry in old(db.insights))
    ensures ParsedFor(generate, parse, industry).None? ==> db.State() == old(db.State())
    ensures ParsedFor(generate, parse, industry).Some? ==>
              db.State() == Refresh(old(db.State()), industry, ParsedFor(generate, parse, industry).value, clock)
  {
    var res := generate(industry);
    if res.None? {
      return false;
    }
    var cleaned := ResponseCleaning.CleanedResponse(res.value);
    var parsed := parse(cleaned);
    if parsed.None? {
      return false;
    }
    ok := db.RefreshIndustry(industry, parsed.value, clock);
  }

  /**
   * The loop of line 30: process the fetched industries in order; the first one
   * whose processing throws ends the run. `processed` counts the refreshed ones.
   */
  method RefreshInOrder(db: Database, industries: seq<string>, generate: string -> Option<ResponseCleaning.Response>,
                        parse: string -> Option<Insights>, clock: string -> ClockReadings)
    returns (processed: nat)
    requires db.Valid()
    modifies db
    ensures db.Valid()
    ensures processed == Run(old(db.State()), industries, Outcomes(generate, parse), clock).processed
    ensures db.State() == Run(old(db.State()), industries, Outcomes(generate, parse), clock).store
  {
    ghost var start := db.State();
    ghost var outcome := Outcomes(generate, parse);
    var i := 0;
    while i < |industries|
      invariant 0 <= i <= |industries|
      invariant db.Valid()
      invariant Run(db.State(), industries[i..], outcome, clock).store == Run(start, industries, outcome, clock).store
      invariant Run(db.State(), industries[i..], outcome, clock).processed + i
                == Run(start, industries, outcome, clock).processed
    {
      var industry := industries[i];
      ghost var here := db.State();
      assert industries[i..][0] == industry && industries[i..][1..] == industries[i + 1..];
      assert outcome(industry) == ParsedFor(generate, parse, industry);
      var ok := ProcessIndustry(db, industry, generate, parse, clock(industry));
      if !ok {
        RunEnds(here, industries[i..], outcome, clock, db.State());
        processed := i;
        return;
      }
      RunAdvances(here, industries[i..], outcome, clock, db.State());
      i := i + 1;
    }
    processed := i;
  }

  /**
   * The job handler (lines 23-98): fetch the industries (lines 24-28), then run
   * the loop over them.
   */
  method GenerateIndustryInsights(db: Database, generate: string -> Option<ResponseCleaning.Response>,
                                  parse: string -> Option<Insights>, clock: string -> ClockReadings)
    returns (industries: seq<string>, processed: nat)
    requires db.Valid()
    modifies db
    ensures db.Valid()
    ensures Distinct(industries)
    ensures forall n :: n in industries <==> n in old(db.insights)
    ensures processed == Run(old(db.State()), industries, Outcomes(generate, parse), clock).processed
    ensures db.State() == Run(old(db.State()), industries, Outcomes(generate, parse), clock).store
  {
    industries := db.FindIndustries();
    processed := RefreshInOrder(db, industries, generate, parse, clock);
  }
}
