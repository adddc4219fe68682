/** The tenant's key figures over a sliding window. */
module Analytics {
  import opened Clock
  import opened Common
  import opened Counting
  import opened Gathering

  /** Clock values are microseconds; a UTC day is their quotient by a day's length. */
  const DAY := 86400000000

  function DayOf(at: int): int {
    at / DAY
  }

  /** The window reaches back whole days from now, not from midnight. */
  function WindowFrom(now: int, days: nat): int {
    now - days * DAY
  }

  datatype Turn = Turn(at: int, role: string, metadata: map<string, string>)

  datatype Thread = Thread(buyerId: string, turns: seq<Turn>)

  datatype Bucket = Bucket(day: int, buyer: int, agent: int)

  datatype Report = Report(
    messagesTotal: nat,
    messagesBuyer: nat,
    messagesAgent: nat,
    uniqueBuyers: nat,
    handoffCount: nat,
    handoffRate: real,
    takeoverCount: nat,
    median: Option<real>,
    daily: seq<Bucket>,
    topKeywords: seq<(string, int)>)

  predicate IsBuyer(t: Turn) {
    t.role == "buyer"
  }

  predicate IsAgent(t: Turn) {
    t.role != "buyer"
  }

  predicate Flagged(t: Turn, key: string) {
    key in t.metadata && t.metadata[key] == "true"
  }

  predicate IsHandoff(t: Turn) {
    IsAgent(t) && Flagged(t, "handoff")
  }

  predicate IsTakeover(t: Turn) {
    IsAgent(t) && Flagged(t, "human")
  }

  predicate HasKeyword(t: Turn) {
    IsHandoff(t) && "handoff_keyword" in t.metadata && t.metadata["handoff_keyword"] != ""
  }

  function Since(from: int): Turn -> bool {
    (t: Turn) => t.at >= from
  }

  /** The turns of one thread that fall into the window. */
  function InWindow(thread: Thread, since: int): seq<Turn> {
    Filter(thread.turns, Since(since))
  }

  function WindowOf(since: int): Thread -> seq<Turn> {
    (thread: Thread) => InWindow(thread, since)
  }

  /** The turns of all threads that fall into the window. */
  function WindowTurns(threads: seq<Thread>, since: int): seq<Turn> {
    FlatMap(threads, WindowOf(since))
  }

  function Count(turns: seq<Turn>, p: Turn -> bool): nat {
    |Filter(turns, p)|
  }

  function Days(turns: seq<Turn>): seq<int> {
    seq(|turns|, i requires 0 <= i < |turns| => DayOf(turns[i].at))
  }

  function Keywords(turns: seq<Turn>): seq<string> {
    if turns == [] then []
    else
      var n := |turns| - 1;
      var before := Keywords(turns[..n]);
      if HasKeyword(turns[n]) then before + [turns[n].metadata["handoff_keyword"]] else before
  }

  /** One duration for each agent turn that directly follows a buyer turn. */
  function ReplyTimes(turns: seq<Turn>): seq<real> {
    if turns == [] then []
    else
      var n := |turns| - 1;
      var before := ReplyTimes(turns[..n]);
      if n > 0 && IsAgent(turns[n]) && IsBuyer(turns[n - 1])
      then before + [Seconds(turns[n].at - turns[n - 1].at)] else before
  }

  function TimesOf(since: int): Thread -> seq<real> {
    (thread: Thread) => ReplyTimes(InWindow(thread, since))
  }

  function AllReplyTimes(threads: seq<Thread>, since: int): seq<real> {
    FlatMap(threads, TimesOf(since))
  }

  function BuyersSeen(threads: seq<Thread>, since: int): set<string> {
    set i | 0 <= i < |threads| && InWindow(threads[i], since) != [] :: threads[i].buyerId
  }

  // ---------- median ----------

  function InsertReal(sorted: seq<real>, x: real): (s: seq<real>)
    ensures multiset(s) == multiset(sorted) + multiset{x} && |s| == |sorted| + 1
  {
    if sorted == [] then [x]
    else
      var n := |sorted| - 1;
      assert sorted == sorted[..n] + [sorted[n]];
      if x < sorted[n] then InsertReal(sorted[..n], x) + [sorted[n]] else sorted + [x]
  }

  function SortReals(values: seq<real>): (s: seq<real>)
    ensures multiset(s) == multiset(values) && |s| == |values|
  {
    if values == [] then []
    else
      var n := |values| - 1;
      assert values == values[..n] + [values[n]];
      InsertReal(SortReals(values[..n]), values[n])
  }

  function Median(values: seq<real>): Option<real> {
    if values == [] then None
    else
      var sorted := SortReals(values);
      var mid := |sorted| / 2;
      if |sorted| % 2 == 1 then Some(sorted[mid]) else Some((sorted[mid - 1] + sorted[mid]) / 2.0)
  }

  // ---------- the report ----------

  function BucketAt(day: int, buyerDays: Counter<int>, agentDays: Counter<int>): Bucket {
    Bucket(day, CountOf(buyerDays, day), CountOf(agentDays, day))
  }

  function DailySeries(first: int, days: nat, buyerDays: Counter<int>, agentDays: Counter<int>): seq<Bucket> {
    seq(days, i requires 0 <= i < days => BucketAt(first + i, buyerDays, agentDays))
  }

  function KeywordCount(): ((string, int)) -> int {
    (row: (string, int)) => row.1
  }

  function TopKeywords(c: Counter<string>): seq<(string, int)> {
    First(SortDescending(c, KeywordCount()), 5)
  }

  function MedianReply(threads: seq<Thread>, now: int, days: nat): Option<real> {
    Median(AllReplyTimes(threads, WindowFrom(now, days)))
  }

  function Rate(part: nat, whole: nat): real {
    if whole == 0 then 0.0 else part as real / whole as real
  }

  /** The running totals of the loop. */
  datatype Totals = Totals(
    buyer: nat, agent: nat, handoffs: nat, takeovers: nat,
    buyerDays: Counter<int>, agentDays: Counter<int>, keywords: Counter<string>)

  function TotalsOf(turns: seq<Turn>): Totals {
    Totals(Count(turns, IsBuyer), Count(turns, IsAgent), Count(turns, IsHandoff), Count(turns, IsTakeover),
           Tally(Days(Filter(turns, IsBuyer))), Tally(Days(Filter(turns, IsAgent))), Tally(Keywords(turns)))
  }

  /** The figures assembled from what the loops gathered. */
  function ReportOf(t: Totals, buyers: nat, median: Option<real>, first: int, days: nat): Report {
    Report(t.buyer + t.agent, t.buyer, t.agent, buyers, t.handoffs, Rate(t.handoffs, t.agent), t.takeovers, median,
           DailySeries(first, days, t.buyerDays, t.agentDays), TopKeywords(t.keywords))
  }

  function AnalyticsOf(threads: seq<Thread>, now: int, days: nat): Report {
    var since := WindowFrom(now, days);
    ReportOf(TotalsOf(WindowTurns(threads, since)), |BuyersSeen(threads, since)|, MedianReply(threads, now, days),
             DayOf(since), days)
  }

  function AddTurn(t: Totals, turn: Turn): Totals {
    if IsBuyer(turn) then
      t.(buyer := t.buyer + 1, buyerDays := Bump(t.buyerDays, DayOf(turn.at)))
    else
      var counted := t.(agent := t.agent + 1, agentDays := Bump(t.agentDays, DayOf(turn.at)));
      var handed := if !Flagged(turn, "handoff") then counted
        else if "handoff_keyword" in turn.metadata && turn.metadata["handoff_keyword"] != "" then
          counted.(handoffs := t.handoffs + 1, keywords := Bump(t.keywords, turn.metadata["handoff_keyword"]))
        else counted.(handoffs := t.handoffs + 1);
      if Flagged(turn, "human") then handed.(takeovers := t.takeovers + 1) else handed
  }

  lemma DaysNext(turns: seq<Turn>, turn: Turn)
    ensures Tally(Days(turns + [turn])) == Bump(Tally(Days(turns)), DayOf(turn.at))
  {
    var all := Days(turns + [turn]);
    assert all[..|all| - 1] == Days(turns);
  }

  lemma KeywordsNext(turns: seq<Turn>, turn: Turn)
    ensures Tally(Keywords(turns + [turn])) ==
      if HasKeyword(turn) then Bump(Tally(Keywords(turns)), turn.metadata["handoff_keyword"])
      else Tally(Keywords(turns))
  {
    assert (turns + [turn])[..|turns|] == turns;
    var all := Keywords(turns + [turn]);
    if HasKeyword(turn) {
      assert all[..|all| - 1] == Keywords(turns);
    }
  }

  lemma CountOneMore(turns: seq<Turn>, turn: Turn, p: Turn -> bool)
    ensures Count(turns + [turn], p) == Count(turns, p) + (if p(turn) then 1 else 0)
  {
    FilterNext(turns, turn, p);
  }

  lemma DayOneMore(turns: seq<Turn>, turn: Turn, p: Turn -> bool)
    ensures Tally(Days(Filter(turns + [turn], p))) ==
      if p(turn) then Bump(Tally(Days(Filter(turns, p))), DayOf(turn.at)) else Tally(Days(Filter(turns, p)))
  {
    FilterNext(turns, turn, p);
    DaysNext(Filter(turns, p), turn);
  }

  lemma TotalsNext(turns: seq<Turn>, turn: Turn)
    ensures TotalsOf(turns + [turn]) == AddTurn(TotalsOf(turns), turn)
  {
    CountOneMore(turns, turn, IsBuyer);
    CountOneMore(turns, turn, IsAgent);
    CountOneMore(turns, turn, IsHandoff);
    CountOneMore(turns, turn, IsTakeover);
    DayOneMore(turns, turn, IsBuyer);
    DayOneMore(turns, turn, IsAgent);
    KeywordsNext(turns, turn);
  }

  /** The time of the last in-window turn, if a buyer wrote it: what the loop remembers. */
  function Pending(turns: seq<Turn>): Option<int> {
    if turns != [] && IsBuyer(turns[|turns| - 1]) then Some(turns[|turns| - 1].at) else None
  }

  lemma ReplyTimesNext(turns: seq<Turn>, turn: Turn)
    ensures ReplyTimes(turns + [turn]) ==
      if IsAgent(turn) && Pending(turns).Some? then ReplyTimes(turns) + [Seconds(turn.at - Pending(turns).value)]
      else ReplyTimes(turns)
  {
    assert (turns + [turn])[..|turns|] == turns;
  }

  method CountTurn(totals0: Totals, turn: Turn) returns (totals: Totals)
    ensures totals == AddTurn(totals0, turn)
  {
    totals := totals0;
    var day := DayOf(turn.at);
    if turn.role == "buyer" {
      totals := totals.(buyer := totals.buyer + 1, buyerDays := Bump(totals.buyerDays, day));
    } else {
      totals := totals.(agent := totals.agent + 1, agentDays := Bump(totals.agentDays, day));
      if "handoff" in turn.metadata && turn.metadata["handoff"] == "true" {
        totals := totals.(handoffs := totals.handoffs + 1);
        if "handoff_keyword" in turn.metadata && turn.metadata["handoff_keyword"] != "" {
          totals := totals.(keywords := Bump(totals.keywords, turn.metadata["handoff_keyword"]));
        }
      }
      if "human" in turn.metadata && turn.metadata["human"] == "true" {
        totals := totals.(takeovers := totals.takeovers + 1);
      }
    }
  }

  /** What the loop over one thread knows after the first in-window turns. */
  ghost predicate Scanned(before: seq<Turn>, window: seq<Turn>, times0: seq<real>, totals: Totals, times: seq<real>,
                          lastBuyerAt: Option<int>) {
    totals == TotalsOf(before + window) && times == times0 + ReplyTimes(window) && lastBuyerAt == Pending(window)
  }

  lemma TotalsGoOn(before: seq<Turn>, window: seq<Turn>, turn: Turn)
    ensures TotalsOf(before + (window + [turn])) == AddTurn(TotalsOf(before + window), turn)
  {
    assert (before + window) + [turn] == before + (window + [turn]);
    TotalsNext(before + window, turn);
  }

  lemma TimesGoOn(times0: seq<real>, window: seq<Turn>, turn: Turn)
    ensures times0 + ReplyTimes(window + [turn]) ==
      if IsAgent(turn) && Pending(window).Some?
      then times0 + ReplyTimes(window) + [Seconds(turn.at - Pending(window).value)]
      else times0 + ReplyTimes(window)
  {
    ReplyTimesNext(window, turn);
    if IsAgent(turn) && Pending(window).Some? {
      var time := [Seconds(turn.at - Pending(window).value)];
      assert (times0 + ReplyTimes(window)) + time == times0 + (ReplyTimes(window) + time);
    }
  }

  lemma ScannedNext(before: seq<Turn>, window: seq<Turn>, times0: seq<real>, totals: Totals, times: seq<real>,
                    lastBuyerAt: Option<int>, turn: Turn)
    requires Scanned(before, window, times0, totals, times, lastBuyerAt)
    ensures Scanned(before, window + [turn], times0, AddTurn(totals, turn),
                    if IsAgent(turn) && lastBuyerAt.Some? then times + [Seconds(turn.at - lastBuyerAt.value)]
                    else times,
                    if IsBuyer(turn) then Some(turn.at) else None)
  {
    TotalsGoOn(before, window, turn);
    TimesGoOn(times0, window, turn);
  }

  method ScanThread(thread: Thread, since: int, ghost before: seq<Turn>, totals0: Totals, times0: seq<real>)
    returns (totals: Totals, times: seq<real>, seen: bool)
    requires totals0 == TotalsOf(before)
    ensures totals == TotalsOf(before + InWindow(thread, since))
    ensures times == times0 + ReplyTimes(InWindow(thread, since))
    ensures seen == (InWindow(thread, since) != [])
  {
    totals, times, seen := totals0, times0, false;
    var lastBuyerAt: Option<int> := None;
    assert before + [] == before && times0 + [] == times0;
    for i := 0 to |thread.turns|
      invariant Scanned(before, Filter(thread.turns[..i], Since(since)), times0, totals, times, lastBuyerAt)
      invariant seen == (Filter(thread.turns[..i], Since(since)) != [])
    {
      var turn := thread.turns[i];
      assert thread.turns[..i + 1] == thread.turns[..i] + [turn];
      FilterNext(thread.turns[..i], turn, Since(since));
      if turn.at < since {
        continue;
      }
      ScannedNext(before, Filter(thread.turns[..i], Since(since)), times0, totals, times, lastBuyerAt, turn);
      seen := true;
      totals := CountTurn(totals, turn);
      if turn.role == "buyer" {
        lastBuyerAt := Some(turn.at);
      } else if lastBuyerAt.Some? {
        times := times + [Seconds(turn.at - lastBuyerAt.value)];
        lastBuyerAt := None;
      }
    }
    assert thread.turns[..|thread.turns|] == thread.turns;
  }

  method BuildDaily(since: int, days: nat, buyerDays: Counter<int>, agentDays: Counter<int>)
    returns (daily: seq<Bucket>)
    ensures daily == DailySeries(DayOf(since), days, buyerDays, agentDays)
  {
    daily := [];
    for i := 0 to days
      invariant daily == DailySeries(DayOf(since), i, buyerDays, agentDays)
    {
      ShiftedDay(since, i);
      daily := daily + [BucketAt(DayOf(since + i * DAY), buyerDays, agentDays)];
    }
  }

  method ScanThreads(threads: seq<Thread>, since: int)
    returns (totals: Totals, times: seq<real>, buyers: set<string>)
    ensures totals == TotalsOf(WindowTurns(threads, since))
    ensures times == AllReplyTimes(threads, since)
    ensures buyers == BuyersSeen(threads, since)
  {
    totals := Totals(0, 0, 0, 0, [], [], []);
    times := [];
    buyers := {};
    for i := 0 to |threads|
      invariant totals == TotalsOf(WindowTurns(threads[..i], since))
      invariant times == AllReplyTimes(threads[..i], since)
      invariant buyers == BuyersSeen(threads[..i], since)
    {
      FlatPrefix(threads, i, WindowOf(since));
      FlatPrefix(threads, i, TimesOf(since));
      BuyersNext(threads, i, since);
      var seen;
      totals, times, seen := ScanThread(threads[i], since, WindowTurns(threads[..i], since), totals, times);
      if seen {
        buyers := buyers + {threads[i].buyerId};
      }
    }
    assert threads[..|threads|] == threads;
  }

  lemma {:induction false} EveryTurnCounts(turns: seq<Turn>)
    ensures Count(turns, IsBuyer) + Count(turns, IsAgent) == |turns|
    decreases |turns|
  {
    if turns != [] {
      var front, last := turns[..|turns| - 1], turns[|turns| - 1];
      assert turns == front + [last];
      EveryTurnCounts(front);
      CountOneMore(front, last, IsBuyer);
      CountOneMore(front, last, IsAgent);
    }
  }

  /** The part of the handler after its loops. */
  method Assemble(totals: Totals, buyers: nat, median: Option<real>, since: int, days: nat) returns (report: Report)
    ensures report == ReportOf(totals, buyers, median, DayOf(since), days)
  {
    var handoffRate := if totals.agent > 0 then totals.handoffs as real / totals.agent as real else 0.0;
    var daily := BuildDaily(since, days, totals.buyerDays, totals.agentDays);
    report := Report(totals.buyer + totals.agent, totals.buyer, totals.agent, buyers, totals.handoffs, handoffRate,
                     totals.takeovers, median, daily, TopKeywords(totals.keywords));
  }

  method GetAnalytics(threads: seq<Thread>, now: int, days: nat) returns (report: Report)
    ensures report == AnalyticsOf(threads, now, days)
  {
    var since := WindowFrom(now, days);
    var totals, times, buyers := ScanThreads(threads, since);
    report := Assemble(totals, |buyers|, Median(times), since, days);
  }

  lemma BuyersNext(threads: seq<Thread>, i: nat, since: int)
    requires i < |threads|
    ensures BuyersSeen(threads[..i + 1], since) ==
      BuyersSeen(threads[..i], since) + (if InWindow(threads[i], since) != [] then {threads[i].buyerId} else {})
  {
    var a, b := threads[..i], threads[..i + 1];
    forall j | 0 <= j < i ensures a[j] == b[j] { }
    forall id ensures id in BuyersSeen(b, since) <==>
      id in BuyersSeen(a, since) || (InWindow(threads[i], since) != [] && id == threads[i].buyerId)
    {
      if id in BuyersSeen(a, since) {
        var j :| 0 <= j < i && InWindow(a[j], since) != [] && a[j].buyerId == id;
        assert b[j] == a[j];
      }
      if InWindow(threads[i], since) != [] && id == threads[i].buyerId {
        assert b[i] == threads[i];
      }
      if id in BuyersSeen(b, since) {
        var j :| 0 <= j <= i && InWindow(b[j], since) != [] && b[j].buyerId == id;
        assert j < i ==> a[j] == b[j];
      }
    }
  }

  /** Moving a time by whole days moves its day by as many. */
  lemma ShiftedDay(at: int, i: int)
    ensures DayOf(at + i * DAY) == DayOf(at) + i
  {
  }
}

/** What the figures mean. */
module AnalyticsFacts {
  import opened Common
  import opened Counting
  import opened Gathering
  import opened Analytics

  // ---------- response times ----------

  ghost predicate Chronological(turns: seq<Turn>) {
    forall i, j :: 0 <= i < j < |turns| ==> turns[i].at <= turns[j].at
  }

  lemma CountNext(turns: seq<Turn>, p: Turn -> bool)
    requires turns != []
    ensures Count(turns, p) == Count(turns[..|turns| - 1], p) + (if p(turns[|turns| - 1]) then 1 else 0)
  {
  }

  /** A buyer turn is answered at most once, an agent turn answers at most once. */
  lemma {:induction false} ReplyTimesAreFew(turns: seq<Turn>)
    ensures |ReplyTimes(turns)| <= Count(turns, IsAgent)
    ensures |ReplyTimes(turns)| + (if Pending(turns).Some? then 1 else 0) <= Count(turns, IsBuyer)
    decreases |turns|
  {
    if turns != [] {
      ReplyTimesAreFew(turns[..|turns| - 1]);
      CountNext(turns, IsAgent);
      CountNext(turns, IsBuyer);
    }
  }

  lemma {:induction false} ReplyTimesNonNegative(turns: seq<Turn>)
    requires Chronological(turns)
    ensures forall k :: 0 <= k < |ReplyTimes(turns)| ==> ReplyTimes(turns)[k] >= 0.0
    decreases |turns|
  {
    if turns != [] {
      ReplyTimesNonNegative(turns[..|turns| - 1]);
    }
  }

  // ---------- median ----------

  ghost predicate SortedReals(s: seq<real>) {
    forall i, j :: 0 <= i < j < |s| ==> s[i] <= s[j]
  }

  lemma AppendLargest(front: seq<real>, x: real)
    requires SortedReals(front) && forall y :: y in front ==> y <= x
    ensures SortedReals(front + [x])
  {
    forall i | 0 <= i < |front| ensures front[i] <= x {
      assert front[i] in front;
    }
  }

  lemma InsertedReals(sorted: seq<real>, x: real, y: real)
    ensures y in InsertReal(sorted, x) <==> y in sorted || y == x
  {
    assert y in InsertReal(sorted, x) <==> y in multiset(InsertReal(sorted, x));
    assert y in sorted <==> y in multiset(sorted);
  }

  lemma {:induction false} InsertKeepsSorted(sorted: seq<real>, x: real)
    requires SortedReals(sorted)
    ensures SortedReals(InsertReal(sorted, x))
    decreases |sorted|
  {
    if sorted != [] {
      var front, last := sorted[..|sorted| - 1], sorted[|sorted| - 1];
      if x < last {
        InsertKeepsSorted(front, x);
        forall y | y in InsertReal(front, x) ensures y <= last {
          InsertedReals(front, x, y);
        }
        AppendLargest(InsertReal(front, x), last);
      } else {
        AppendLargest(sorted, x);
      }
    }
  }

  lemma {:induction false} SortIsSorted(values: seq<real>)
    ensures SortedReals(SortReals(values))
    decreases |values|
  {
    if values != [] {
      SortIsSorted(values[..|values| - 1]);
      InsertKeepsSorted(SortReals(values[..|values| - 1]), values[|values| - 1]);
    }
  }

  lemma LastIsLargest(a: seq<real>, b: seq<real>)
    requires SortedReals(a) && SortedReals(b) && multiset(a) == multiset(b) && a != []
    ensures b != [] && a[|a| - 1] == b[|b| - 1]
  {
    assert a[|a| - 1] in multiset(b);
    var j :| 0 <= j < |b| && b[j] == a[|a| - 1];
    assert b[|b| - 1] in multiset(a);
    var i :| 0 <= i < |a| && a[i] == b[|b| - 1];
  }

  lemma {:induction false} SortedIsUnique(a: seq<real>, b: seq<real>)
    requires SortedReals(a) && SortedReals(b) && multiset(a) == multiset(b)
    ensures a == b
    decreases |a|
  {
    assert |multiset(a)| == |multiset(b)|;
    if a != [] {
      LastIsLargest(a, b);
      TakeOne(a, b, |b| - 1);
      assert b[..|b| - 1] + b[|b|..] == b[..|b| - 1];
      SortedIsUnique(a[..|a| - 1], b[..|b| - 1]);
      assert a == a[..|a| - 1] + [a[|a| - 1]] && b == b[..|b| - 1] + [b[|b| - 1]];
    }
  }

  function AtMost(m: real): real -> bool {
    (x: real) => x <= m
  }

  function AtLeast(m: real): real -> bool {
    (x: real) => x >= m
  }

  lemma FirstOnesCount(s: seq<real>, p: real -> bool, k: nat)
    requires k <= |s| && forall i :: 0 <= i < k ==> p(s[i])
    ensures |Filter(s, p)| >= k
  {
    assert s == s[..k] + s[k..];
    FilterAppend(s[..k], s[k..], p);
    FilterAll(s[..k], p);
  }

  lemma LastOnesCount(s: seq<real>, p: real -> bool, k: nat)
    requires k <= |s| && forall i :: k <= i < |s| ==> p(s[i])
    ensures |Filter(s, p)| >= |s| - k
  {
    assert s == s[..k] + s[k..];
    FilterAppend(s[..k], s[k..], p);
    FilterAll(s[k..], p);
  }

  lemma MiddleSplits(s: seq<real>, m: real)
    requires s != [] && SortedReals(s)
    requires var mid := |s| / 2; m == if |s| % 2 == 1 then s[mid] else (s[mid - 1] + s[mid]) / 2.0
    ensures 2 * |Filter(s, AtMost(m))| >= |s| && 2 * |Filter(s, AtLeast(m))| >= |s|
  {
    var mid := |s| / 2;
    FirstOnesCount(s, AtMost(m), if |s| % 2 == 1 then mid + 1 else mid);
    LastOnesCount(s, AtLeast(m), mid);
  }

  /** At least half of the values lie on each side of the median. */
  lemma MedianSplitsInHalf(values: seq<real>)
    requires values != []
    ensures Median(values).Some?
    ensures 2 * |Filter(values, AtMost(Median(values).value))| >= |values|
    ensures 2 * |Filter(values, AtLeast(Median(values).value))| >= |values|
  {
    var s, m := SortReals(values), Median(values).value;
    SortIsSorted(values);
    MiddleSplits(s, m);
    FilterCountIgnoresOrder(values, s, AtMost(m));
    FilterCountIgnoresOrder(values, s, AtLeast(m));
  }

  lemma MedianOfSame(a: seq<real>, b: seq<real>)
    requires multiset(a) == multiset(b)
    ensures Median(a) == Median(b)
  {
    assert |multiset(a)| == |multiset(b)|;
    SortIsSorted(a);
    SortIsSorted(b);
    SortedIsUnique(SortReals(a), SortReals(b));
  }

  lemma CountParts(threads: seq<Thread>, now: int, days: nat)
    ensures var report, turns := AnalyticsOf(threads, now, days), WindowTurns(threads, WindowFrom(now, days));
      report.messagesBuyer == Count(turns, IsBuyer) && report.messagesAgent == Count(turns, IsAgent)
  {
  }

  lemma DailyPart(threads: seq<Thread>, now: int, days: nat)
    ensures var turns := WindowTurns(threads, WindowFrom(now, days));
      AnalyticsOf(threads, now, days).daily
        == DailySeries(DayOf(now) - days, days, Tally(Days(Filter(turns, IsBuyer))),
                       Tally(Days(Filter(turns, IsAgent))))
  {
    WindowStart(now, days);
    SeriesPart(threads, now, days, DayOf(now) - days);
  }

  lemma WindowStart(now: int, days: nat)
    ensures DayOf(WindowFrom(now, days)) == DayOf(now) - days
  {
    ShiftedDay(now, 0 - days);
  }

  lemma SeriesPart(threads: seq<Thread>, now: int, days: nat, first: int)
    requires first == DayOf(WindowFrom(now, days))
    ensures var turns := WindowTurns(threads, WindowFrom(now, days));
      AnalyticsOf(threads, now, days).daily
        == DailySeries(first, days, Tally(Days(Filter(turns, IsBuyer))), Tally(Days(Filter(turns, IsAgent))))
  {
  }

  /** The median response time does not depend on the order in which the threads are listed. */
  lemma MedianIgnoresThreadOrder(threads: seq<Thread>, threads': seq<Thread>, now: int, days: nat)
    requires multiset(threads) == multiset(threads')
    ensures MedianReply(threads, now, days) == MedianReply(threads', now, days)
  {
    FlatIgnoresOrder(threads, threads', TimesOf(WindowFrom(now, days)));
    MedianOfSame(AllReplyTimes(threads, WindowFrom(now, days)), AllReplyTimes(threads', WindowFrom(now, days)));
  }

  // ---------- daily series ----------

  function InRange(lo: int, hi: int): int -> bool {
    (d: int) => lo <= d < hi
  }

  lemma {:induction false} RangeGrows(days: seq<int>, lo: int, hi: int)
    requires lo <= hi
    ensures |Filter(days, InRange(lo, hi + 1))| == |Filter(days, InRange(lo, hi))| + Occurrences(days, hi)
    decreases |days|
  {
    if days != [] {
      RangeGrows(days[..|days| - 1], lo, hi);
    }
  }

  function SumBuyer(series: seq<Bucket>): int {
    if series == [] then 0 else SumBuyer(series[..|series| - 1]) + series[|series| - 1].buyer
  }

  function SumAgent(series: seq<Bucket>): int {
    if series == [] then 0 else SumAgent(series[..|series| - 1]) + series[|series| - 1].agent
  }

  lemma SeriesNext(first: int, n: nat, buyerDays: Counter<int>, agentDays: Counter<int>)
    ensures DailySeries(first, n + 1, buyerDays, agentDays)
      == DailySeries(first, n, buyerDays, agentDays) + [BucketAt(first + n, buyerDays, agentDays)]
  {
  }

  lemma SumsNext(series: seq<Bucket>, b: Bucket)
    ensures SumBuyer(series + [b]) == SumBuyer(series) + b.buyer
    ensures SumAgent(series + [b]) == SumAgent(series) + b.agent
  {
    assert (series + [b])[..|series|] == series;
  }

  lemma CountedDay(days: seq<int>, lo: int, hi: int)
    requires lo <= hi
    ensures |Filter(days, InRange(lo, hi + 1))| == |Filter(days, InRange(lo, hi))| + CountOf(Tally(days), hi)
  {
    TallyCounts(days, hi);
    RangeGrows(days, lo, hi);
  }

  ghost predicate Covers(first: int, n: nat, buyerDays: seq<int>, agentDays: seq<int>) {
    var series := DailySeries(first, n, Tally(buyerDays), Tally(agentDays));
    && SumBuyer(series) == |Filter(buyerDays, InRange(first, first + n))|
    && SumAgent(series) == |Filter(agentDays, InRange(first, first + n))|
  }

  lemma CoversNext(first: int, n: nat, buyerDays: seq<int>, agentDays: seq<int>)
    requires Covers(first, n, buyerDays, agentDays)
    ensures Covers(first, n + 1, buyerDays, agentDays)
  {
    var buyers, agents, hi := Tally(buyerDays), Tally(agentDays), first + n;
    SeriesNext(first, n, buyers, agents);
    SumsNext(DailySeries(first, n, buyers, agents), BucketAt(hi, buyers, agents));
    CountedDay(buyerDays, first, hi);
    CountedDay(agentDays, first, hi);
    assert InRange(first, first + (n + 1)) == InRange(first, hi + 1);
  }

  /** The dense series adds up to the turns whose day it covers. */
  lemma {:induction false} SeriesCoversRange(first: int, n: nat, buyerDays: seq<int>, agentDays: seq<int>)
    ensures Covers(first, n, buyerDays, agentDays)
    decreases n
  {
    if n == 0 {
      FilterNone(buyerDays, InRange(first, first));
      FilterNone(agentDays, InRange(first, first));
    } else {
      SeriesCoversRange(first, n - 1, buyerDays, agentDays);
      CoversNext(first, n - 1, buyerDays, agentDays);
    }
  }

  lemma {:induction false} WindowTurnsStartAt(threads: seq<Thread>, since: int)
    ensures forall t :: t in WindowTurns(threads, since) ==> t.at >= since
    decreases |threads|
  {
    if threads != [] {
      var n := |threads| - 1;
      WindowTurnsStartAt(threads[..n], since);
      forall t | t in InWindow(threads[n], since) ensures t.at >= since {
        FilterIn(threads[n].turns, Since(since), t);
      }
    }
  }

  lemma DaysAreNear(turns: seq<Turn>, p: Turn -> bool, now: int, days: nat)
    requires forall t :: t in turns ==> WindowFrom(now, days) <= t.at <= now
    ensures forall d :: d in Days(Filter(turns, p)) ==> DayOf(now) - days <= d <= DayOf(now)
  {
    var kept := Filter(turns, p);
    ShiftedDay(now, 0 - days);
    forall d | d in Days(kept) ensures DayOf(now) - days <= d <= DayOf(now) {
      var i :| 0 <= i < |kept| && Days(kept)[i] == d;
      assert kept[i] in kept;
      FilterIn(turns, p, kept[i]);
    }
  }

  lemma WithinDays(ds: seq<int>, lo: int, hi: int)
    requires lo <= hi && forall d :: d in ds ==> lo <= d <= hi
    ensures |ds| == |Filter(ds, InRange(lo, hi))| + Occurrences(ds, hi)
  {
    FilterAll(ds, InRange(lo, hi + 1));
    RangeGrows(ds, lo, hi);
  }

  lemma CountByDay(turns: seq<Turn>, p: Turn -> bool, now: int, days: nat, today: int)
    requires today == DayOf(now) && forall t :: t in turns ==> WindowFrom(now, days) <= t.at <= now
    ensures var ds := Days(Filter(turns, p));
      Count(turns, p) == |Filter(ds, InRange(today - days, today - days + days))| + Occurrences(ds, today)
  {
    DaysAreNear(turns, p, now, days);
    WithinDays(Days(Filter(turns, p)), today - days, today);
    assert today - days + days == today;
  }

  lemma SumsWithToday(first: int, days: nat, buyerDays: seq<int>, agentDays: seq<int>, today: int, buyer: nat,
                      agent: nat)
    requires buyer == |Filter(buyerDays, InRange(first, first + days))| + Occurrences(buyerDays, today)
    requires agent == |Filter(agentDays, InRange(first, first + days))| + Occurrences(agentDays, today)
    ensures var series := DailySeries(first, days, Tally(buyerDays), Tally(agentDays));
      && buyer == SumBuyer(series) + Occurrences(buyerDays, today)
      && agent == SumAgent(series) + Occurrences(agentDays, today)
  {
    SeriesCoversRange(first, days, buyerDays, agentDays);
  }

  lemma DailyOfTurns(turns: seq<Turn>, now: int, days: nat, today: int)
    requires today == DayOf(now) && forall t :: t in turns ==> WindowFrom(now, days) <= t.at <= now
    ensures var buyerDays, agentDays := Days(Filter(turns, IsBuyer)), Days(Filter(turns, IsAgent));
      var series := DailySeries(today - days, days, Tally(buyerDays), Tally(agentDays));
      && Count(turns, IsBuyer) == SumBuyer(series) + Occurrences(buyerDays, today)
      && Count(turns, IsAgent) == SumAgent(series) + Occurrences(agentDays, today)
  {
    var buyerDays, agentDays := Days(Filter(turns, IsBuyer)), Days(Filter(turns, IsAgent));
    var buyer, agent := Count(turns, IsBuyer), Count(turns, IsAgent);
    CountByDay(turns, IsBuyer, now, days, today);
    CountByDay(turns, IsAgent, now, days, today);
    SumsWithToday(today - days, days, buyerDays, agentDays, today, buyer, agent);
  }

  /**
   * For turns no later than now, each total is the sum of the daily series plus the turns of today,
   * the one day of the window the series does not reach.
   */
  lemma DailySeriesAccountsForTotals(threads: seq<Thread>, now: int, days: nat)
    requires forall t :: t in WindowTurns(threads, WindowFrom(now, days)) ==> t.at <= now
    ensures var report := AnalyticsOf(threads, now, days);
      var turns := WindowTurns(threads, WindowFrom(now, days));
      && report.messagesBuyer == SumBuyer(report.daily) + Occurrences(Days(Filter(turns, IsBuyer)), DayOf(now))
      && report.messagesAgent == SumAgent(report.daily) + Occurrences(Days(Filter(turns, IsAgent)), DayOf(now))
  {
    CountParts(threads, now, days);
    DailyPart(threads, now, days);
    WindowTurnsStartAt(threads, WindowFrom(now, days));
    DailyOfTurns(WindowTurns(threads, WindowFrom(now, days)), now, days, DayOf(now));
  }

  lemma SeriesDay(daily: seq<Bucket>, first: int, n: nat, buyerDays: Counter<int>, agentDays: Counter<int>, i: nat)
    requires daily == DailySeries(first, n, buyerDays, agentDays) && i < n
    ensures |daily| == n && daily[i].day == first + i
  {
    assert daily[i] == BucketAt(first + i, buyerDays, agentDays);
  }

  /** The series runs over the `days` days before today, and so ends yesterday. */
  lemma SeriesEndsYesterday(threads: seq<Thread>, now: int, days: nat, i: nat)
    requires i < days
    ensures var daily := AnalyticsOf(threads, now, days).daily;
      |daily| == days && daily[i].day == DayOf(now) - days + i < DayOf(now)
  {
    var turns := WindowTurns(threads, WindowFrom(now, days));
    DailyPart(threads, now, days);
    SeriesDay(AnalyticsOf(threads, now, days).daily, DayOf(now) - days, days, Tally(Days(Filter(turns, IsBuyer))),
              Tally(Days(Filter(turns, IsAgent))), i);
  }

  // ---------- handoffs ----------

  lemma {:induction false} KeywordsAreHandoffs(turns: seq<Turn>)
    ensures |Keywords(turns)| <= Count(turns, IsHandoff) <= Count(turns, IsAgent)
    ensures Count(turns, IsTakeover) <= Count(turns, IsAgent)
    ensures Count(turns, IsBuyer) + Count(turns, IsAgent) == |turns|
    decreases |turns|
  {
    if turns != [] {
      KeywordsAreHandoffs(turns[..|turns| - 1]);
      CountNext(turns, IsHandoff);
      CountNext(turns, IsAgent);
      CountNext(turns, IsTakeover);
      CountNext(turns, IsBuyer);
    }
  }

  lemma {:induction false} TotalIgnoresOrder(c: Counter<string>, d: Counter<string>)
    requires multiset(c) == multiset(d)
    ensures Total(c) == Total(d)
    decreases |c|
  {
    assert |multiset(c)| == |multiset(d)|;
    if c != [] {
      var n := |c| - 1;
      assert c[n] in multiset(c);
      var i :| 0 <= i < |d| && d[i] == c[n];
      TakeOne(c, d, i);
      TotalIgnoresOrder(c[..n], d[..i] + d[i + 1..]);
      TotalAppend(d[..i], d[i + 1..]);
      assert d == (d[..i] + [d[i]]) + d[i + 1..];
      TotalAppend(d[..i] + [d[i]], d[i + 1..]);
      TotalAppend(d[..i], [d[i]]);
      assert [d[i]][..0] == [];
    }
  }

  lemma {:induction false} TotalIsNatural(c: Counter<string>)
    requires forall i :: 0 <= i < |c| ==> c[i].1 >= 0
    ensures Total(c) >= 0
    decreases |c|
  {
    if c != [] {
      TotalIsNatural(c[..|c| - 1]);
    }
  }

  /** The keyword listing is the top of the counts, and the rate is a part of the agent's turns. */
  lemma TopKeywordsAreTheTop(threads: seq<Thread>, now: int, days: nat, keyword: string)
    ensures var report, turns := AnalyticsOf(threads, now, days), WindowTurns(threads, WindowFrom(now, days));
      var entry := (keyword, multiset(Keywords(turns))[keyword]);
      && IsTop(Tally(Keywords(turns)), KeywordCount(), 5, report.topKeywords)
      && (keyword in Keywords(turns) ==>
            entry in report.topKeywords ||
            (|report.topKeywords| == 5 && forall row :: row in report.topKeywords ==> row.1 >= entry.1))
  {
    var turns := WindowTurns(threads, WindowFrom(now, days));
    KeywordPart(threads, now, days);
    FirstOfSortedIsTop(Tally(Keywords(turns)), KeywordCount(), 5);
    TopOrBeaten(Keywords(turns), TopKeywords(Tally(Keywords(turns))), keyword);
  }

  lemma KeywordPart(threads: seq<Thread>, now: int, days: nat)
    ensures AnalyticsOf(threads, now, days).topKeywords
      == TopKeywords(Tally(Keywords(WindowTurns(threads, WindowFrom(now, days)))))
  {
  }

  lemma TopOrBeaten(keywords: seq<string>, top: seq<(string, int)>, keyword: string)
    requires top == TopKeywords(Tally(keywords)) && IsTop(Tally(keywords), KeywordCount(), 5, top)
    ensures var entry := (keyword, multiset(keywords)[keyword]);
      keyword in keywords ==> entry in top || (|top| == 5 && forall row :: row in top ==> row.1 >= entry.1)
  {
    var entry := (keyword, multiset(keywords)[keyword]);
    if keyword in keywords && entry !in top {
      TallyMember(keywords, entry);
      if |Tally(keywords)| <= 5 {
        SortedMembers(Tally(keywords), KeywordCount(), entry);
      }
      forall row | row in top ensures row.1 >= entry.1 {
        assert KeywordCount()(row) >= KeywordCount()(entry);
      }
    }
  }

  lemma RateIsFraction(part: nat, whole: nat)
    requires part <= whole
    ensures 0.0 <= Rate(part, whole) <= 1.0
    ensures Rate(part, whole) * whole as real == part as real
  {
  }

  lemma RatePart(threads: seq<Thread>, now: int, days: nat)
    ensures var report, turns := AnalyticsOf(threads, now, days), WindowTurns(threads, WindowFrom(now, days));
      && report.handoffCount == Count(turns, IsHandoff)
      && report.handoffRate == Rate(report.handoffCount, report.messagesAgent)
      && report.messagesTotal == |turns|
  {
    EveryTurnCounts(WindowTurns(threads, WindowFrom(now, days)));
  }

  /** The total counts the turns in the window, the buyers' and the agent's together. */
  lemma TotalsAddUp(threads: seq<Thread>, now: int, days: nat)
    ensures var report := AnalyticsOf(threads, now, days);
      && report.messagesTotal == |WindowTurns(threads, WindowFrom(now, days))|
      && report.messagesTotal == report.messagesBuyer + report.messagesAgent
      && report.handoffCount <= report.messagesAgent
  {
    CountParts(threads, now, days);
    RatePart(threads, now, days);
    KeywordsAreHandoffs(WindowTurns(threads, WindowFrom(now, days)));
  }

  /** The rate is the share of the agent's turns that hand off, between 0 and 1, and 0 without any. */
  lemma HandoffRateIsShare(threads: seq<Thread>, now: int, days: nat)
    ensures IsShare(AnalyticsOf(threads, now, days))
  {
    RatePart(threads, now, days);
    TotalsAddUp(threads, now, days);
    ShareOfReport(AnalyticsOf(threads, now, days));
  }

  ghost predicate IsShare(report: Report) {
    && 0.0 <= report.handoffRate <= 1.0
    && report.handoffRate * report.messagesAgent as real == report.handoffCount as real
    && (report.messagesAgent == 0 ==> report.handoffRate == 0.0)
  }

  lemma ShareOfReport(report: Report)
    requires report.handoffCount <= report.messagesAgent
    requires report.handoffRate == Rate(report.handoffCount, report.messagesAgent)
    ensures IsShare(report)
  {
    RateIsFraction(report.handoffCount, report.messagesAgent);
  }

  /** The listed keyword counts add up to at most the handoffs, and those to at most the agent's turns. */
  lemma KeywordsWithinHandoffs(threads: seq<Thread>, now: int, days: nat)
    ensures var report := AnalyticsOf(threads, now, days);
      && Total(report.topKeywords) <= report.handoffCount <= report.messagesAgent
      && |report.topKeywords| <= 5
  {
    var turns := WindowTurns(threads, WindowFrom(now, days));
    var c := Tally(Keywords(turns));
    var sorted := SortDescending(c, KeywordCount());
    KeywordsAreHandoffs(turns);
    TallyCounts(Keywords(turns), "");
    TotalIgnoresOrder(c, sorted);
    var top := First(sorted, 5);
    var rest := sorted[|top|..];
    assert sorted == top + rest;
    TotalAppend(top, rest);
    forall i | 0 <= i < |rest| ensures rest[i].1 >= 0 {
      assert sorted[|top| + i] in multiset(sorted);
      assert rest[i] in multiset(c);
    }
    TotalIsNatural(rest);
  }
}

/** The figures as numbers of turns, without any counter. */
module AnalyticsCounts {
  import opened Clock
  import opened Common
  import opened Counting
  import opened Gathering
  import opened Analytics
  import opened AnalyticsFacts

  /** The turns of the window that satisfy `q`, by thread and place. */
  ghost function Sightings(threads: seq<Thread>, since: int, q: Turn -> bool): set<(int, int)> {
    set i, j | 0 <= i < |threads| && 0 <= j < |threads[i].turns|
               && threads[i].turns[j].at >= since && q(threads[i].turns[j]) :: (i, j)
  }

  function TurnsOf(): Thread -> seq<Turn> {
    (thread: Thread) => thread.turns
  }

  function SinceAnd(since: int, q: Turn -> bool): Turn -> bool {
    (t: Turn) => t.at >= since && q(t)
  }

  lemma {:induction false} FilterBoth(turns: seq<Turn>, since: int, q: Turn -> bool)
    ensures Filter(Filter(turns, Since(since)), q) == Filter(turns, SinceAnd(since, q))
    decreases |turns|
  {
    if turns != [] {
      var n := |turns| - 1;
      FilterBoth(turns[..n], since, q);
      FilterNext(Filter(turns[..n], Since(since)), turns[n], q);
    }
  }

  lemma {:induction false} WindowFilter(threads: seq<Thread>, since: int, q: Turn -> bool)
    ensures Filter(WindowTurns(threads, since), q) == Filter(FlatMap(threads, TurnsOf()), SinceAnd(since, q))
    decreases |threads|
  {
    if threads != [] {
      var front, x := threads[..|threads| - 1], threads[|threads| - 1];
      WindowFilter(front, since, q);
      FilterBoth(x.turns, since, q);
      FilterAppend(WindowTurns(front, since), InWindow(x, since), q);
      FilterAppend(FlatMap(front, TurnsOf()), x.turns, SinceAnd(since, q));
    }
  }

  lemma CountIsSightings(threads: seq<Thread>, since: int, q: Turn -> bool)
    ensures Count(WindowTurns(threads, since), q) == |Sightings(threads, since, q)|
  {
    WindowFilter(threads, since, q);
    CountIsPlaces(threads, TurnsOf(), SinceAnd(since, q));
    assert Places(threads, TurnsOf(), SinceAnd(since, q)) == Sightings(threads, since, q);
  }

  lemma {:induction false} CountAgrees(turns: seq<Turn>, p: Turn -> bool, q: Turn -> bool)
    requires forall t :: p(t) <==> q(t)
    ensures Count(turns, p) == Count(turns, q)
    decreases |turns|
  {
    if turns != [] {
      CountAgrees(turns[..|turns| - 1], p, q);
    }
  }

  // ---------- totals ----------

  function ByBuyer(): Turn -> bool {
    (t: Turn) => t.role == "buyer"
  }

  function ByAgent(): Turn -> bool {
    (t: Turn) => t.role != "buyer"
  }

  /** An agent's turn whose metadata says "true" under the key. */
  function Marked(key: string): Turn -> bool {
    (t: Turn) => t.role != "buyer" && key in t.metadata && t.metadata[key] == "true"
  }

  ghost function BuyersIn(threads: seq<Thread>, since: int): set<string> {
    set i, j | 0 <= i < |threads| && 0 <= j < |threads[i].turns| && threads[i].turns[j].at >= since
      :: threads[i].buyerId
  }

  lemma BuyersAreSeen(threads: seq<Thread>, since: int)
    ensures BuyersSeen(threads, since) == BuyersIn(threads, since)
  {
    forall i | 0 <= i < |threads|
      ensures InWindow(threads[i], since) != [] <==>
        exists j :: 0 <= j < |threads[i].turns| && threads[i].turns[j].at >= since
    {
      var w := InWindow(threads[i], since);
      if w != [] {
        FilterIn(threads[i].turns, Since(since), w[0]);
        assert w[0] in w;
      }
      forall t | t in threads[i].turns && t.at >= since ensures t in w {
        FilterIn(threads[i].turns, Since(since), t);
      }
    }
    forall id ensures id in BuyersSeen(threads, since) <==> id in BuyersIn(threads, since) {
      if id in BuyersSeen(threads, since) {
        var i :| 0 <= i < |threads| && InWindow(threads[i], since) != [] && threads[i].buyerId == id;
        var j :| 0 <= j < |threads[i].turns| && threads[i].turns[j].at >= since;
        assert threads[i].buyerId in BuyersIn(threads, since);
      }
    }
  }

  /** Each total is the number of such turns in the window. */
  lemma TotalsAreCounts(threads: seq<Thread>, now: int, days: nat)
    ensures var report, since := AnalyticsOf(threads, now, days), WindowFrom(now, days);
      && report.messagesBuyer == |Sightings(threads, since, ByBuyer())|
      && report.messagesAgent == |Sightings(threads, since, ByAgent())|
      && report.handoffCount == |Sightings(threads, since, Marked("handoff"))|
      && report.takeoverCount == |Sightings(threads, since, Marked("human"))|
      && report.uniqueBuyers == |BuyersIn(threads, since)|
  {
    var since := WindowFrom(now, days);
    var turns := WindowTurns(threads, since);
    CountAgrees(turns, IsBuyer, ByBuyer());
    CountAgrees(turns, IsAgent, ByAgent());
    CountAgrees(turns, IsHandoff, Marked("handoff"));
    CountAgrees(turns, IsTakeover, Marked("human"));
    CountIsSightings(threads, since, ByBuyer());
    CountIsSightings(threads, since, ByAgent());
    CountIsSightings(threads, since, Marked("handoff"));
    CountIsSightings(threads, since, Marked("human"));
    BuyersAreSeen(threads, since);
  }

  // ---------- days ----------

  /** Turns of a side on one day, from midnight to midnight. */
  function OnDay(side: Turn -> bool, day: int): Turn -> bool {
    (t: Turn) => side(t) && day * 86400000000 <= t.at < (day + 1) * 86400000000
  }

  lemma {:induction false} DayCounts(turns: seq<Turn>, p: Turn -> bool, side: Turn -> bool, day: int)
    requires forall t :: p(t) <==> side(t)
    ensures Occurrences(Days(Filter(turns, p)), day) == Count(turns, OnDay(side, day))
    decreases |turns|
  {
    if turns != [] {
      var n := |turns| - 1;
      DayCounts(turns[..n], p, side, day);
      if p(turns[n]) {
        var kept := Filter(turns[..n], p);
        var all := Days(kept + [turns[n]]);
        assert all[..|all| - 1] == Days(kept);
      }
    }
  }

  /** The numbers of turns of a day. */
  ghost function BucketFor(threads: seq<Thread>, since: int, day: int): Bucket {
    Bucket(day, |Sightings(threads, since, OnDay(ByBuyer(), day))|, |Sightings(threads, since, OnDay(ByAgent(), day))|)
  }

  lemma BucketCounts(b: Bucket, threads: seq<Thread>, since: int, turns: seq<Turn>, day: int)
    requires turns == WindowTurns(threads, since)
    requires b == BucketAt(day, Tally(Days(Filter(turns, IsBuyer))), Tally(Days(Filter(turns, IsAgent))))
    ensures b == BucketFor(threads, since, day)
  {
    BucketHolds(turns, IsBuyer, ByBuyer(), day);
    BucketHolds(turns, IsAgent, ByAgent(), day);
    CountIsSightings(threads, since, OnDay(ByBuyer(), day));
    CountIsSightings(threads, since, OnDay(ByAgent(), day));
  }

  /** The series has one bucket for each day from the window's first on. */
  lemma BucketsAreCounts(threads: seq<Thread>, now: int, days: nat, i: nat)
    requires i < days
    ensures var daily := AnalyticsOf(threads, now, days).daily;
      |daily| == days && daily[i] == BucketFor(threads, WindowFrom(now, days), DayOf(WindowFrom(now, days)) + i)
  {
    var since := WindowFrom(now, days);
    SeriesPart(threads, now, days, DayOf(since));
    SeriesCounts(AnalyticsOf(threads, now, days).daily, threads, since, DayOf(since), days, i);
  }

  lemma SeriesCounts(daily: seq<Bucket>, threads: seq<Thread>, since: int, first: int, days: nat, i: nat)
    requires var turns := WindowTurns(threads, since);
      daily == DailySeries(first, days, Tally(Days(Filter(turns, IsBuyer))), Tally(Days(Filter(turns, IsAgent))))
    requires i < days
    ensures |daily| == days && daily[i] == BucketFor(threads, since, first + i)
  {
    var turns := WindowTurns(threads, since);
    BucketOf(first, days, Tally(Days(Filter(turns, IsBuyer))), Tally(Days(Filter(turns, IsAgent))), i);
    BucketCounts(daily[i], threads, since, turns, first + i);
  }

  lemma BucketOf(first: int, days: nat, buyerDays: Counter<int>, agentDays: Counter<int>, i: nat)
    requires i < days
    ensures |DailySeries(first, days, buyerDays, agentDays)| == days
    ensures DailySeries(first, days, buyerDays, agentDays)[i] == BucketAt(first + i, buyerDays, agentDays)
  {
  }

  lemma BucketHolds(turns: seq<Turn>, p: Turn -> bool, side: Turn -> bool, day: int)
    requires forall t :: p(t) <==> side(t)
    ensures CountOf(Tally(Days(Filter(turns, p))), day) == Count(turns, OnDay(side, day))
  {
    TallyCounts(Days(Filter(turns, p)), day);
    DayCounts(turns, p, side, day);
  }

  // ---------- keywords ----------

  /** A handed-over turn of the agent with this keyword. */
  function HandedOverOn(keyword: string): Turn -> bool {
    (t: Turn) => t.role != "buyer" && "handoff" in t.metadata && t.metadata["handoff"] == "true"
                 && "handoff_keyword" in t.metadata && t.metadata["handoff_keyword"] == keyword
  }

  lemma {:induction false} KeywordCounts(turns: seq<Turn>, keyword: string)
    requires keyword != ""
    ensures Occurrences(Keywords(turns), keyword) == Count(turns, HandedOverOn(keyword))
    decreases |turns|
  {
    if turns != [] {
      var n := |turns| - 1;
      KeywordCounts(turns[..n], keyword);
      if HasKeyword(turns[n]) {
        var all := Keywords(turns);
        assert all[..|all| - 1] == Keywords(turns[..n]);
      }
    }
  }

  /** The number of turns handed over on the keyword. */
  ghost function Handovers(threads: seq<Thread>, since: int, keyword: string): nat {
    |Sightings(threads, since, HandedOverOn(keyword))|
  }

  lemma HandoversAreCounted(threads: seq<Thread>, since: int, keyword: string)
    requires keyword != ""
    ensures Handovers(threads, since, keyword) == multiset(Keywords(WindowTurns(threads, since)))[keyword]
  {
    var turns := WindowTurns(threads, since);
    OccurrencesOf(Keywords(turns), keyword);
    KeywordCounts(turns, keyword);
    CountIsSightings(threads, since, HandedOverOn(keyword));
  }

  /** `n` is listed for the keyword, or the keyword stands behind five others. */
  predicate ListsKeyword(top: seq<(string, int)>, keyword: string, n: nat) {
    && (forall row :: row in top && row.0 == keyword ==> row.1 == n > 0)
    && (n > 0 ==> (keyword, n) in top || (|top| == 5 && forall row :: row in top ==> row.1 >= n))
  }

  /**
   * A listed keyword has the number of turns handed over on it; a keyword that is not listed stands
   * behind five with at least as many.
   */
  lemma KeywordsAreCounts(threads: seq<Thread>, now: int, days: nat, keyword: string)
    requires keyword != ""
    ensures ListsKeyword(AnalyticsOf(threads, now, days).topKeywords, keyword,
                         Handovers(threads, WindowFrom(now, days), keyword))
  {
    KeywordPart(threads, now, days);
    WindowLists(threads, WindowFrom(now, days), AnalyticsOf(threads, now, days).topKeywords, keyword);
  }

  lemma WindowLists(threads: seq<Thread>, since: int, top: seq<(string, int)>, keyword: string)
    requires keyword != "" && top == TopKeywords(Tally(Keywords(WindowTurns(threads, since))))
    ensures ListsKeyword(top, keyword, Handovers(threads, since, keyword))
  {
    HandoversAreCounted(threads, since, keyword);
    TopLists(top, Keywords(WindowTurns(threads, since)), keyword, Handovers(threads, since, keyword));
  }

  lemma TopLists(top: seq<(string, int)>, keywords: seq<string>, keyword: string, n: nat)
    requires top == TopKeywords(Tally(keywords)) && n == multiset(keywords)[keyword]
    ensures ListsKeyword(top, keyword, n)
  {
    FirstOfSortedIsTop(Tally(keywords), KeywordCount(), 5);
    TopOrBeaten(keywords, top, keyword);
    forall row | row in top && row.0 == keyword ensures row.1 == n > 0 {
      assert row in multiset(top) && row in multiset(Tally(keywords));
      TallyMember(keywords, row);
    }
    if n > 0 {
      assert keyword in multiset(keywords);
    }
  }

  // ---------- reply times ----------

  /** An agent's turn directly after a buyer's, so many seconds later. */
  predicate IsAnswer(window: seq<Turn>, j: int, seconds: real) {
    && 1 <= j < |window| && window[j].role != "buyer" && window[j - 1].role == "buyer"
    && (window[j].at - window[j - 1].at) as real / 1000000.0 == seconds
  }

  function Answers(window: seq<Turn>, seconds: real): set<int> {
    set j | 1 <= j < |window| && IsAnswer(window, j, seconds)
  }

  function Lasting(seconds: real): real -> bool {
    (x: real) => x == seconds
  }

  lemma AnswersNext(front: seq<Turn>, turn: Turn, seconds: real)
    ensures var window := front + [turn];
      |Answers(window, seconds)| == |Answers(front, seconds)| + if IsAnswer(window, |front|, seconds) then 1 else 0
  {
    var window, n := front + [turn], |front|;
    assert window[n] == turn;
    forall j | 1 <= j < n ensures IsAnswer(window, j, seconds) <==> IsAnswer(front, j, seconds) {
      assert window[j] == front[j] && window[j - 1] == front[j - 1];
    }
    assert Answers(window, seconds) == Answers(front, seconds) + if IsAnswer(window, n, seconds) then {n} else {};
  }

  /** Every duration is measured as often as an answer took that long. */
  lemma {:induction false} ReplyTimesAreAnswers(window: seq<Turn>, seconds: real)
    ensures |Filter(ReplyTimes(window), Lasting(seconds))| == |Answers(window, seconds)|
    decreases |window|
  {
    if window == [] {
      assert Answers(window, seconds) == {};
    } else {
      var n := |window| - 1;
      var front := window[..n];
      assert window == front + [window[n]];
      ReplyTimesAreAnswers(front, seconds);
      AnswersNext(front, window[n], seconds);
      if n > 0 && IsAgent(window[n]) && IsBuyer(window[n - 1]) {
        FilterNext(ReplyTimes(front), Seconds(window[n].at - window[n - 1].at), Lasting(seconds));
      }
    }
  }

  /** The median is the middle of the values in order, or the mean of the two in the middle. */
  lemma MedianIsMiddle(values: seq<real>, sorted: seq<real>)
    requires multiset(sorted) == multiset(values) && SortedReals(sorted)
    ensures |sorted| == |values|
    ensures Median(values) ==
      if values == [] then None
      else if |values| % 2 == 1 then Some(sorted[|values| / 2])
      else Some((sorted[|values| / 2 - 1] + sorted[|values| / 2]) / 2.0)
  {
    assert |multiset(sorted)| == |multiset(values)|;
    SortIsSorted(values);
    SortedIsUnique(SortReals(values), sorted);
  }
}
