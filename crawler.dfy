/**
 * The crawler of the Python application (netease/crawler.py): the scan of a
 * snapshot into new records, the scroll-drive loop `scroll_until_complete`,
 * the older `scroll_and_scan`, and the part of `crawl` that runs once the
 * feed frame is loaded.
 *
 * Everything the crawler learns from outside is an oracle in `Surface`: the
 * page's scroll height, the outcome of each scroll, each HTML snapshot, the
 * clock, the stop flag the window thread sets, and every read of
 * `len(ui.articles)` (the window thread appends to that list while the
 * crawler runs, so each read is its own input). Reads are indexed by the
 * iteration they happen in (0 outside the loop) and by where in the
 * iteration they happen.
 */
module Crawler {
  import opened Wrappers
  import opened Text
  import opened Records
  import opened Extraction

  const MaxScrolls: nat := 100
  /** Seconds without a new article after which the loop gives up. */
  const StaleSeconds: real := 180.0
  /** Ticks of the pause shown after new articles are found. */
  const PauseTicks: nat := 5
  const MaxScrollsLegacy: nat := 10

  /** Where in `crawl` or in one loop iteration `len(ui.articles)` is read. */
  datatype CountRead =
    | CrawlStart | FirstScanDone | CrawlEnd
    | LoopStart | CountCheck | ScrollStatus | HeightRecheck | ScanDone

  /** Where `self.stop_crawling` is read; `Tick(i)` is the check before countdown second `i`. */
  datatype StopRead = LoopTest | AfterSettle | Tick(i: nat) | BeforeScrolling | AtFinish

  /** Where `time.time()` is read. */
  datatype ClockRead = ScrollStart | StaleCheck | FoundNew

  /**
   * The world as the crawler observes it. `scrollHeight(0)` is the initial
   * height, `scrollHeight(k)` the height after scroll `k`; `scrollTo(k)` is
   * the error raised by scroll `k`, if any; `content(0)` is the snapshot of
   * the first scan and `content(k)` that of iteration `k`.
   */
  datatype Surface = Surface(
    scrollHeight: nat -> Result<int>,
    scrollTo: nat -> Option<string>,
    content: nat -> Result<seq<Item>>,
    articleCount: (nat, CountRead) -> nat,
    stopFlag: (nat, StopRead) -> bool,
    clock: (nat, ClockRead) -> real)

  // ------------------------------------------------------------ messages

  /** `total_articles if total_articles else '未知'`. */
  function TotalLabel(total: Option<int>): Piece {
    if total.Some? && total.value != 0 then Number(total.value) else Literal("未知")
  }

  function AllFetchedMessage(total: int): Message {
    [Literal("已获取所有 "), Number(total), Literal(" 篇文章，停止滚动")]
  }

  const StaleMessage: Message := [Literal("超过3分钟没有发现新文章，停止滚动")]
  const BottomMessage: Message := [Literal("页面似乎已到底部，再尝试几次...")]

  function ScrollingMessage(k: nat, n: nat, total: Option<int>): Message {
    [Literal("滚动加载中 ("), Number(k), Literal(")... 已获取 "), Number(n), Literal(" 篇文章 (总计: "), TotalLabel(total), Literal(")")]
  }

  function ScanningMessage(total: Option<int>): Message {
    [Literal("扫描新内容... (总计: "), TotalLabel(total), Literal(")")]
  }

  function ErrorMessage(e: string): Message {
    [Literal("滚动加载出错: "), Literal(e)]
  }

  /** The countdown line: after the first scan (`first`) or after a scroll found new articles. */
  function PauseMessage(first: bool, n: nat, i: nat, total: Option<int>): Message {
    if first then [Literal("首次扫描发现 "), Number(n), Literal(" 篇文章，暂停中: "), Number(i), Literal("秒... (总计: "), TotalLabel(total), Literal(")")]
    else [Literal("发现 "), Number(n), Literal(" 篇新文章，暂停中: "), Number(i), Literal("秒...  (总计: "), TotalLabel(total), Literal(")")]
  }

  function StartMessage(total: Option<int>): Message {
    [Literal("开始提取文章... (总计: "), TotalLabel(total), Literal(")")]
  }

  function FinalMessage(stopped: bool, n: nat, total: Option<int>): Message {
    [Literal(if stopped then "爬取已手动终止，共获取 " else "爬取完成，共获取 "), Number(n), Literal(" 篇文章 (总计: "), TotalLabel(total), Literal(")")]
  }

  // ------------------------------------------------------------ countdown

  /** The statuses of the pause `for i in range(i, 0, -1)`, cut short at the first tick the stop flag is seen. */
  function Countdown(env: Surface, k: nat, first: bool, n: nat, total: Option<int>, i: nat): (us: seq<Update>)
    ensures |us| <= i && StatusOnly(us)
    decreases i
  {
    if i == 0 || env.stopFlag(k, Tick(i)) then []
    else [Status(PauseMessage(first, n, i, total))] + Countdown(env, k, first, n, total, i - 1)
  }

  // ------------------------------------------------------------ scroll loop specification

  /** Why `scroll_until_complete` returned. */
  datatype Halt = CompleteByCount | Stalled | Cancelled | IterationCap | Failed(error: string)

  /**
   * The loop variables (`current_scroll`, `last_height`, `last_article_count`,
   * `last_new_article_time`), the crawler's processed-id set, and the
   * updates sent so far.
   */
  datatype Loop = Loop(scroll: nat, lastHeight: int, lastCount: nat, lastNewTime: real, ids: set<string>, updates: seq<Update>)

  /** How the loop ended and the state it ended in. */
  datatype Finish = Finish(halt: Halt, last: Loop)

  function Send(s: Loop, us: seq<Update>): Loop {
    s.(updates := s.updates + us)
  }

  /**
   * The cause, in the oracles, of the loop ending for `halt` in state
   * `last`: the count hint at the start or at the height re-check, the
   * staleness window, the stop flag at the loop test or after the settle
   * wait, the cap, or an error, which is then the last status sent.
   */
  predicate HaltExplained(env: Surface, total: Option<int>, halt: Halt, last: Loop) {
    var k := last.scroll;
    (halt == CompleteByCount ==>
      total.Some? && 1 <= k && (env.articleCount(k, CountCheck) >= total.value || env.articleCount(k, HeightRecheck) >= total.value))
    && (halt == Stalled ==> 1 <= k && env.clock(k, StaleCheck) - last.lastNewTime > StaleSeconds)
    && (halt == Cancelled ==>
      (k < MaxScrolls && env.stopFlag(k + 1, LoopTest)) || (1 <= k && env.stopFlag(k, AfterSettle)))
    && (halt == IterationCap ==> k == MaxScrolls)
    && (halt.Failed? ==>
      ((1 <= k && (env.scrollTo(k) == Some(halt.error) || env.content(k) == Err(halt.error))) || env.scrollHeight(k) == Err(halt.error))
      && last.updates != [] && last.updates[|last.updates| - 1] == Status(ErrorMessage(halt.error)))
  }

  /**
   * The loop variables after the growth check of iteration `s.scroll`, from
   * the state `scanned` the scan left: when the page count grew, the pause is
   * sent and the count and the time of the last growth move on.
   */
  function Grown(env: Surface, total: Option<int>, s: Loop, scanned: Loop, newHeight: int): Loop {
    var k := s.scroll;
    var current := env.articleCount(k, ScanDone);
    if current > s.lastCount then
      var pause := Countdown(env, k, false, current - s.lastCount, total, PauseTicks);
      Send(scanned, pause).(lastNewTime := env.clock(k, FoundNew), lastCount := current, lastHeight := newHeight)
    else scanned.(lastHeight := newHeight)
  }

  /*
   * The loop is specified by four mutually recursive functions: `Run` is the
   * loop test, `Iterate` one pass of the body, `Settled` its part after the
   * settle wait and `ScanPhase` its part from the scan on, which continues
   * with `Run` from the grown state. Each ends in the `Finish` of the whole
   * remaining loop and promises that the loop never goes back, stops within
   * the cap, and stops for a reason the oracles show.
   */

  /** The part of iteration `s.scroll` from the scan of its snapshot, starting from state `s3`. */
  function ScanPhase(extract: Item -> Option<Article>, env: Surface, total: Option<int>, s: Loop, s3: Loop, newHeight: int): (f: Finish)
    requires 1 <= s.scroll <= MaxScrolls && s3.scroll == s.scroll
    ensures s.scroll <= f.last.scroll <= MaxScrolls && HaltExplained(env, total, f.halt, f.last)
    decreases MaxScrolls - s.scroll, 1
  {
    match env.content(s.scroll)
    case Err(e) => Finish(Failed(e), Send(s3, [Status(ErrorMessage(e))]))
    case Ok(items) =>
      var scan := ScanWith(extract, items, s3.ids);
      Run(extract, env, total, Grown(env, total, s, Send(s3, scan.updates).(ids := scan.ids), newHeight))
  }

  /** The part of iteration `s.scroll` after the settle wait, starting from state `s1`: height check, scan, growth check. */
  function Settled(extract: Item -> Option<Article>, env: Surface, total: Option<int>, s: Loop, s1: Loop): (f: Finish)
    requires 1 <= s.scroll <= MaxScrolls && s1.scroll == s.scroll
    ensures s.scroll <= f.last.scroll <= MaxScrolls && HaltExplained(env, total, f.halt, f.last)
    decreases MaxScrolls - s.scroll, 2
  {
    var k := s.scroll;
    match env.scrollHeight(k)
    case Err(e) => Finish(Failed(e), Send(s1, [Status(ErrorMessage(e))]))
    case Ok(newHeight) =>
      if newHeight == s.lastHeight && total.Some? && env.articleCount(k, HeightRecheck) >= total.value then
        Finish(CompleteByCount, Send(s1, [Status(AllFetchedMessage(total.value))]))
      else
        var s2 := if newHeight == s.lastHeight && k % 3 == 0 then Send(s1, [Status(BottomMessage)]) else s1;
        ScanPhase(extract, env, total, s, Send(s2, [Status(ScanningMessage(total))]), newHeight)
  }

  /** Iteration `s.scroll` of the loop body, `current_scroll` already incremented, and the loop after it. */
  function Iterate(extract: Item -> Option<Article>, env: Surface, total: Option<int>, s: Loop): (f: Finish)
    requires 1 <= s.scroll <= MaxScrolls
    ensures s.scroll <= f.last.scroll <= MaxScrolls && HaltExplained(env, total, f.halt, f.last)
    decreases MaxScrolls - s.scroll, 3
  {
    var k := s.scroll;
    if total.Some? && env.articleCount(k, CountCheck) >= total.value then
      Finish(CompleteByCount, Send(s, [Status(AllFetchedMessage(total.value))]))
    else if env.clock(k, StaleCheck) - s.lastNewTime > StaleSeconds then
      Finish(Stalled, Send(s, [Status(StaleMessage)]))
    else
      var s1 := Send(s, [Status(ScrollingMessage(k, env.articleCount(k, ScrollStatus), total))]);
      match env.scrollTo(k)
      case Some(e) => Finish(Failed(e), Send(s1, [Status(ErrorMessage(e))]))
      case None =>
        if env.stopFlag(k, AfterSettle) then Finish(Cancelled, s1)
        else Settled(extract, env, total, s, s1)
  }

  /** The loop from state `s` to its end: at most `MaxScrolls` iterations, and it never goes back. */
  function Run(extract: Item -> Option<Article>, env: Surface, total: Option<int>, s: Loop): (f: Finish)
    ensures s.scroll <= MaxScrolls ==> s.scroll <= f.last.scroll <= MaxScrolls && HaltExplained(env, total, f.halt, f.last)
    decreases MaxScrolls - s.scroll, 0
  {
    if s.scroll >= MaxScrolls then Finish(IterationCap, s)
    else if env.stopFlag(s.scroll + 1, LoopTest) then Finish(Cancelled, s)
    else Iterate(extract, env, total, s.(scroll := s.scroll + 1))
  }

  /** The state the loop starts in once the initial height is known. */
  function InitialLoop(env: Surface, height: int, ids: set<string>): Loop {
    Loop(0, height, env.articleCount(0, LoopStart), env.clock(0, ScrollStart), ids, [])
  }

  /**
   * `scroll_until_complete` from the processed-id set `ids`: it returns
   * within 100 iterations, for a reason the oracles show.
   */
  function ScrollSpec(extract: Item -> Option<Article>, env: Surface, total: Option<int>, ids: set<string>): (f: Finish)
    ensures f.last.scroll <= MaxScrolls && HaltExplained(env, total, f.halt, f.last)
  {
    match env.scrollHeight(0)
    case Err(e) => Finish(Failed(e), Loop(0, 0, 0, 0.0, ids, [Status(ErrorMessage(e))]))
    case Ok(h) => Run(extract, env, total, InitialLoop(env, h, ids))
  }

  // ------------------------------------------------------------ scroll loop properties

  /** Past the checks at the start and the settle wait, an iteration is its settled part. */
  lemma {:induction false} IterateSettles(extract: Item -> Option<Article>, env: Surface, total: Option<int>, s: Loop)
    requires 1 <= s.scroll <= MaxScrolls
    requires !(total.Some? && env.articleCount(s.scroll, CountCheck) >= total.value)
    requires env.clock(s.scroll, StaleCheck) - s.lastNewTime <= StaleSeconds
    requires env.scrollTo(s.scroll).None? && !env.stopFlag(s.scroll, AfterSettle)
    ensures Iterate(extract, env, total, s) ==
      Settled(extract, env, total, s, Send(s, [Status(ScrollingMessage(s.scroll, env.articleCount(s.scroll, ScrollStatus), total))]))
  {
  }

  /** The count hint is honoured at the start of an iteration: once it is met, the loop stops there. */
  lemma {:induction false} CountHintStops(extract: Item -> Option<Article>, env: Surface, total: Option<int>, s: Loop)
    requires s.scroll < MaxScrolls && !env.stopFlag(s.scroll + 1, LoopTest)
    requires total.Some? && env.articleCount(s.scroll + 1, CountCheck) >= total.value
    ensures Run(extract, env, total, s) ==
      Finish(CompleteByCount, Send(s.(scroll := s.scroll + 1), [Status(AllFetchedMessage(total.value))]))
  {
  }

  /** The staleness window is honoured: more than 180 s since the last growth stops the loop. */
  lemma {:induction false} StaleWindowStops(extract: Item -> Option<Article>, env: Surface, total: Option<int>, s: Loop)
    requires s.scroll < MaxScrolls && !env.stopFlag(s.scroll + 1, LoopTest)
    requires total.None? || env.articleCount(s.scroll + 1, CountCheck) < total.value
    requires env.clock(s.scroll + 1, StaleCheck) - s.lastNewTime > StaleSeconds
    ensures Run(extract, env, total, s) == Finish(Stalled, Send(s.(scroll := s.scroll + 1), [Status(StaleMessage)]))
  {
  }

  /** The stop flag ends the loop at the loop test with nothing more sent. */
  lemma {:induction false} StopAtLoopTest(extract: Item -> Option<Article>, env: Surface, total: Option<int>, s: Loop)
    requires s.scroll < MaxScrolls && env.stopFlag(s.scroll + 1, LoopTest)
    ensures Run(extract, env, total, s) == Finish(Cancelled, s)
  {
  }

  /** The stop flag seen right after the settle wait ends the loop before any height read or scan. */
  lemma {:induction false} StopAfterSettle(extract: Item -> Option<Article>, env: Surface, total: Option<int>, s: Loop)
    requires 1 <= s.scroll <= MaxScrolls
    requires total.None? || env.articleCount(s.scroll, CountCheck) < total.value
    requires env.clock(s.scroll, StaleCheck) - s.lastNewTime <= StaleSeconds
    requires env.scrollTo(s.scroll).None? && env.stopFlag(s.scroll, AfterSettle)
    ensures Iterate(extract, env, total, s) ==
      Finish(Cancelled, Send(s, [Status(ScrollingMessage(s.scroll, env.articleCount(s.scroll, ScrollStatus), total))]))
  {
  }

  /**
   * An unchanged scroll height alone never ends the loop: unless the count
   * re-check is met, the iteration sends the bottom notice on every third
   * scroll, scans, and the loop goes on with the height unchanged.
   */
  lemma {:induction false} UnchangedHeightContinues(extract: Item -> Option<Article>, env: Surface, total: Option<int>, s: Loop)
    requires 1 <= s.scroll <= MaxScrolls
    requires total.None? || (env.articleCount(s.scroll, CountCheck) < total.value && env.articleCount(s.scroll, HeightRecheck) < total.value)
    requires env.clock(s.scroll, StaleCheck) - s.lastNewTime <= StaleSeconds
    requires env.scrollTo(s.scroll).None? && !env.stopFlag(s.scroll, AfterSettle)
    requires env.scrollHeight(s.scroll) == Ok(s.lastHeight) && env.content(s.scroll).Ok?
    ensures var k := s.scroll;
      var s1 := Send(s, [Status(ScrollingMessage(k, env.articleCount(k, ScrollStatus), total))]);
      var s2 := if k % 3 == 0 then Send(s1, [Status(BottomMessage)]) else s1;
      var s3 := Send(s2, [Status(ScanningMessage(total))]);
      var scan := ScanWith(extract, env.content(k).value, s3.ids);
      var next := Grown(env, total, s, Send(s3, scan.updates).(ids := scan.ids), s.lastHeight);
      Iterate(extract, env, total, s) == Run(extract, env, total, next) && next.lastHeight == s.lastHeight
  {
    var k := s.scroll;
    var s1 := Send(s, [Status(ScrollingMessage(k, env.articleCount(k, ScrollStatus), total))]);
    var s2 := if k % 3 == 0 then Send(s1, [Status(BottomMessage)]) else s1;
    IterateSettles(extract, env, total, s);
    assert Settled(extract, env, total, s, s1) == ScanPhase(extract, env, total, s, Send(s2, [Status(ScanningMessage(total))]), s.lastHeight);
  }

  /** `last_article_count` and `last_new_article_time` change only when the scan grew the article count. */
  lemma {:induction false} GrowthOnlyUpdates(env: Surface, total: Option<int>, s: Loop, scanned: Loop, newHeight: int)
    requires scanned.lastCount == s.lastCount && scanned.lastNewTime == s.lastNewTime
    ensures var n := Grown(env, total, s, scanned, newHeight);
      n.lastHeight == newHeight && n.scroll == scanned.scroll && n.ids == scanned.ids
      && (env.articleCount(s.scroll, ScanDone) > s.lastCount ==>
        n.lastCount == env.articleCount(s.scroll, ScanDone) && n.lastNewTime == env.clock(s.scroll, FoundNew))
      && (env.articleCount(s.scroll, ScanDone) <= s.lastCount ==>
        n.lastCount == s.lastCount && n.lastNewTime == s.lastNewTime && n.updates == scanned.updates)
  {
  }

  /** `scroll_until_complete` performs at most 100 iterations and only adds to the processed set. */
  lemma {:induction false} ScrollBound(extract: Item -> Option<Article>, env: Surface, total: Option<int>, ids: set<string>)
    ensures ScrollSpec(extract, env, total, ids).last.scroll <= MaxScrolls
    ensures ids <= ScrollSpec(extract, env, total, ids).last.ids
  {
    ScrollAdmitsAtMostOnce(extract, env, total, ids);
  }

  /**
   * The loop-wide dedup invariant: the records announced so far have distinct
   * ids, none was processed before the loop, and the processed set is the
   * initial one plus exactly their ids.
   */
  predicate AdmittedOnce(ids0: set<string>, s: Loop) {
    Announced(ids0, s.ids, s.updates)
  }

  /** The updates `us` announce distinct records, none in `ids0`, and `ids` is `ids0` plus their ids. */
  predicate Announced(ids0: set<string>, ids: set<string>, us: seq<Update>) {
    var arts := NewArticles(us);
    DistinctIds(arts) && (forall a :: a in arts ==> a.id !in ids0) && ids == ids0 + IdSet(arts)
  }

  lemma {:induction false} SendStatuses(ids0: set<string>, s: Loop, us: seq<Update>)
    requires AdmittedOnce(ids0, s) && StatusOnly(us)
    ensures AdmittedOnce(ids0, Send(s, us))
  {
    StatusOnlyAnnouncesNothing(us);
    NewArticlesAppend(s.updates, us);
    assert NewArticles(s.updates + us) == NewArticles(s.updates);
  }

  lemma {:induction false} DistinctAppend(a: seq<Article>, b: seq<Article>)
    requires DistinctIds(a) && DistinctIds(b)
    requires forall x :: x in b ==> x.id !in IdSet(a)
    ensures DistinctIds(a + b)
  {
    var c := a + b;
    forall i, j | 0 <= i < j < |c| ensures c[i].id != c[j].id {
      if j >= |a| && i < |a| {
        assert c[j] in b;
        assert c[i].id in IdSet(a);
      } else if i >= |a| {
        assert c[i] == b[i - |a|] && c[j] == b[j - |a|];
      }
    }
  }

  lemma {:induction false} IdSetAppend(a: seq<Article>, b: seq<Article>)
    ensures IdSet(a + b) == IdSet(a) + IdSet(b)
  {
    var c := a + b;
    forall x | x in IdSet(c) ensures x in IdSet(a) + IdSet(b) {
      var i :| 0 <= i < |c| && x == c[i].id;
      if i < |a| { assert c[i] == a[i]; } else { assert c[i] == b[i - |a|]; }
    }
    forall x | x in IdSet(a) + IdSet(b) ensures x in IdSet(c) {
      if x in IdSet(a) {
        var i :| 0 <= i < |a| && x == a[i].id;
        assert c[i] == a[i];
      } else {
        var i :| 0 <= i < |b| && x == b[i].id;
        assert c[|a| + i] == b[i];
      }
    }
  }

  /** Two announcing runs, the second starting from the set the first ended with, compose. */
  lemma {:induction false} AnnouncedConcat(ids0: set<string>, ids1: set<string>, ids2: set<string>, a: seq<Update>, b: seq<Update>)
    requires Announced(ids0, ids1, a) && Announced(ids1, ids2, b)
    ensures Announced(ids0, ids2, a + b)
  {
    var arts1 := NewArticles(a);
    var arts2 := NewArticles(b);
    NewArticlesAppend(a, b);
    forall x | x in arts2 ensures x.id !in IdSet(arts1) && x.id !in ids0 {
      assert x.id !in ids1;
    }
    DistinctAppend(arts1, arts2);
    IdSetAppend(arts1, arts2);
  }

  /** A run that sends statuses only announces nothing. */
  lemma {:induction false} StatusesAnnounced(ids: set<string>, us: seq<Update>)
    requires StatusOnly(us)
    ensures Announced(ids, ids, us)
  {
    StatusOnlyAnnouncesNothing(us);
    assert IdSet([]) == {};
  }

  /** A scan composed onto the loop state keeps the dedup invariant. */
  lemma {:induction false} ScanKeepsAdmittedOnce(extract: Item -> Option<Article>, ids0: set<string>, s: Loop, items: seq<Item>)
    requires AdmittedOnce(ids0, s)
    ensures var scan := ScanWith(extract, items, s.ids); AdmittedOnce(ids0, Send(s, scan.updates).(ids := scan.ids))
  {
    var scan := ScanWith(extract, items, s.ids);
    ScanAdmitsAtMostOnce(extract, items, |items|, s.ids);
    ScanOneEventPerArticle(extract, items, |items|, s.ids);
    var arts := NewArticles(s.updates);
    NewArticlesAppend(s.updates, scan.updates);
    forall x | x in scan.articles ensures x.id !in IdSet(arts) && x.id !in ids0 {
      assert x.id !in s.ids;
    }
    DistinctAppend(arts, scan.articles);
    IdSetAppend(arts, scan.articles);
  }

  /** The dedup invariant speaks only of the processed set and the log, not of the loop's counters. */
  lemma {:induction false} AdmittedOnceIgnoresCounters(ids0: set<string>, l: Loop, scroll: nat, h: int, c: nat, t: real)
    requires AdmittedOnce(ids0, l)
    ensures AdmittedOnce(ids0, Loop(scroll, h, c, t, l.ids, l.updates))
  {
  }

  /** The growth check sends statuses only. */
  lemma {:induction false} GrownKeepsAdmittedOnce(env: Surface, total: Option<int>, ids0: set<string>, s: Loop, scanned: Loop, newHeight: int)
    requires AdmittedOnce(ids0, scanned)
    ensures AdmittedOnce(ids0, Grown(env, total, s, scanned, newHeight))
  {
    var k := s.scroll;
    var current := env.articleCount(k, ScanDone);
    if current > s.lastCount {
      var pause := Countdown(env, k, false, current - s.lastCount, total, PauseTicks);
      var sent := Send(scanned, pause);
      SendStatuses(ids0, scanned, pause);
      AdmittedOnceIgnoresCounters(ids0, sent, sent.scroll, newHeight, current, env.clock(k, FoundNew));
    } else {
      AdmittedOnceIgnoresCounters(ids0, scanned, scanned.scroll, newHeight, scanned.lastCount, scanned.lastNewTime);
    }
  }

  lemma {:induction false} ScanPhaseKeepsAdmittedOnce(extract: Item -> Option<Article>, env: Surface, total: Option<int>, ids0: set<string>,
                                                       s: Loop, s3: Loop, newHeight: int)
    requires 1 <= s.scroll <= MaxScrolls && s3.scroll == s.scroll && AdmittedOnce(ids0, s3)
    ensures AdmittedOnce(ids0, ScanPhase(extract, env, total, s, s3, newHeight).last)
    decreases MaxScrolls - s.scroll, 1
  {
    match env.content(s.scroll)
    case Err(e) =>
      SendStatuses(ids0, s3, [Status(ErrorMessage(e))]);
    case Ok(items) =>
      var scan := ScanWith(extract, items, s3.ids);
      var scanned := Send(s3, scan.updates).(ids := scan.ids);
      ScanKeepsAdmittedOnce(extract, ids0, s3, items);
      GrownKeepsAdmittedOnce(env, total, ids0, s, scanned, newHeight);
      RunKeepsAdmittedOnce(extract, env, total, ids0, Grown(env, total, s, scanned, newHeight));
  }

  lemma {:induction false} SettledKeepsAdmittedOnce(extract: Item -> Option<Article>, env: Surface, total: Option<int>, ids0: set<string>,
                                                    s: Loop, s1: Loop)
    requires 1 <= s.scroll <= MaxScrolls && s1.scroll == s.scroll && AdmittedOnce(ids0, s1)
    ensures AdmittedOnce(ids0, Settled(extract, env, total, s, s1).last)
    decreases MaxScrolls - s.scroll, 2
  {
    var k := s.scroll;
    match env.scrollHeight(k)
    case Err(e) =>
      SendStatuses(ids0, s1, [Status(ErrorMessage(e))]);
    case Ok(newHeight) =>
      if newHeight == s.lastHeight && total.Some? && env.articleCount(k, HeightRecheck) >= total.value {
        SendStatuses(ids0, s1, [Status(AllFetchedMessage(total.value))]);
      } else {
        SendStatuses(ids0, s1, [Status(BottomMessage)]);
        var s2 := if newHeight == s.lastHeight && k % 3 == 0 then Send(s1, [Status(BottomMessage)]) else s1;
        SendStatuses(ids0, s2, [Status(ScanningMessage(total))]);
        ScanPhaseKeepsAdmittedOnce(extract, env, total, ids0, s, Send(s2, [Status(ScanningMessage(total))]), newHeight);
      }
  }

  lemma {:induction false} IterateKeepsAdmittedOnce(extract: Item -> Option<Article>, env: Surface, total: Option<int>, ids0: set<string>, s: Loop)
    requires 1 <= s.scroll <= MaxScrolls && AdmittedOnce(ids0, s)
    ensures AdmittedOnce(ids0, Iterate(extract, env, total, s).last)
    decreases MaxScrolls - s.scroll, 3
  {
    var k := s.scroll;
    var f := Iterate(extract, env, total, s);
    if total.Some? && env.articleCount(k, CountCheck) >= total.value {
      SendStatuses(ids0, s, [Status(AllFetchedMessage(total.value))]);
      assert f.last == Send(s, [Status(AllFetchedMessage(total.value))]);
    } else if env.clock(k, StaleCheck) - s.lastNewTime > StaleSeconds {
      SendStatuses(ids0, s, [Status(StaleMessage)]);
      assert f.last == Send(s, [Status(StaleMessage)]);
    } else {
      var s1 := Send(s, [Status(ScrollingMessage(k, env.articleCount(k, ScrollStatus), total))]);
      SendStatuses(ids0, s, [Status(ScrollingMessage(k, env.articleCount(k, ScrollStatus), total))]);
      if env.scrollTo(k).Some? {
        SendStatuses(ids0, s1, [Status(ErrorMessage(env.scrollTo(k).value))]);
        assert f.last == Send(s1, [Status(ErrorMessage(env.scrollTo(k).value))]);
      } else if env.stopFlag(k, AfterSettle) {
        assert f.last == s1;
      } else {
        SettledKeepsAdmittedOnce(extract, env, total, ids0, s, s1);
        assert f == Settled(extract, env, total, s, s1);
      }
    }
  }

  lemma {:induction false} RunKeepsAdmittedOnce(extract: Item -> Option<Article>, env: Surface, total: Option<int>, ids0: set<string>, s: Loop)
    requires AdmittedOnce(ids0, s)
    ensures AdmittedOnce(ids0, Run(extract, env, total, s).last)
    decreases MaxScrolls - s.scroll, 0
  {
    if s.scroll < MaxScrolls && !env.stopFlag(s.scroll + 1, LoopTest) {
      IterateKeepsAdmittedOnce(extract, env, total, ids0, s.(scroll := s.scroll + 1));
    }
  }

  /**
   * Across the whole loop every record is announced at most once: the
   * `new_article` events carry distinct ids, none processed before the
   * loop, and the processed set grows by exactly those ids.
   */
  lemma {:induction false} ScrollAdmitsAtMostOnce(extract: Item -> Option<Article>, env: Surface, total: Option<int>, ids: set<string>)
    ensures AdmittedOnce(ids, ScrollSpec(extract, env, total, ids).last)
  {
    match env.scrollHeight(0)
    case Err(e) =>
      assert NewArticles([Status(ErrorMessage(e))]) == [];
      assert IdSet([]) == {};
    case Ok(h) =>
      assert NewArticles([]) == [];
      assert IdSet([]) == {};
      RunKeepsAdmittedOnce(extract, env, total, ids, InitialLoop(env, h, ids));
  }

  // ------------------------------------------------------------ the older variant

  /** Why `scroll_and_scan` returned. */
  datatype LegacyHalt = ReachedBottom | LegacyCap | LegacyFailed(error: string)

  datatype LegacyLoop = LegacyLoop(i: nat, lastHeight: int, lastCount: nat, ids: set<string>, updates: seq<Update>)

  function LegacyScrollingMessage(k: nat): Message {
    [Literal("滚动加载中 ("), Number(k), Literal("/"), Number(MaxScrollsLegacy), Literal(")...")]
  }

  function LegacyPause(n: nat, i: nat): (us: seq<Update>)
    ensures |us| == i && StatusOnly(us)
    decreases i
  {
    if i == 0 then []
    else [Status([Literal("发现 "), Number(n), Literal(" 篇新文章，暂停中: "), Number(i), Literal("秒...")])] + LegacyPause(n, i - 1)
  }

  /** One iteration of `scroll_and_scan`: either the loop goes on from the returned state or it returns. */
  datatype LegacyStep = LegacyNext(next: LegacyLoop) | LegacyStop(halt: LegacyHalt, last: LegacyLoop)

  /**
   * Iteration `k = s.i + 1` of `scroll_and_scan`, with no stop-flag check:
   * scroll, compare the height with the previous one (an unchanged height
   * returns), scan, and pause when the page count grew. Height and snapshot
   * of scroll `k` are `scrollHeight(k)` and `content(k)`.
   */
  function LegacyIterate(extract: Item -> Option<Article>, env: Surface, s: LegacyLoop): (st: LegacyStep)
    ensures match st case LegacyNext(n) => n.i == s.i + 1 case LegacyStop(_, l) => l.i == s.i && l.ids == s.ids
  {
    var k := s.i + 1;
    var u1 := s.updates + [Status(LegacyScrollingMessage(k))];
    match env.scrollTo(k)
    case Some(e) => LegacyStop(LegacyFailed(e), s.(updates := u1 + [Status(ErrorMessage(e))]))
    case None =>
      match env.scrollHeight(k)
      case Err(e) => LegacyStop(LegacyFailed(e), s.(updates := u1 + [Status(ErrorMessage(e))]))
      case Ok(newHeight) =>
        if newHeight == s.lastHeight then LegacyStop(ReachedBottom, s.(updates := u1 + [Status([Literal("已到达页面底部，没有更多内容")])]))
        else
          var u2 := u1 + [Status([Literal("扫描新内容...")])];
          match env.content(k)
          case Err(e) => LegacyStop(LegacyFailed(e), s.(updates := u2 + [Status(ErrorMessage(e))]))
          case Ok(items) =>
            var scan := ScanWith(extract, items, s.ids);
            var current := env.articleCount(k, ScanDone);
            var grew := current > s.lastCount;
            var u3 := u2 + scan.updates + (if grew then LegacyPause(current - s.lastCount, PauseTicks) else []);
            LegacyNext(LegacyLoop(k, newHeight, if grew then current else s.lastCount, scan.ids, u3))
  }

  /** `scroll_and_scan` from iteration `s.i`: at most ten scrolls. */
  function LegacyRun(extract: Item -> Option<Article>, env: Surface, s: LegacyLoop): (f: (LegacyHalt, LegacyLoop))
    decreases MaxScrollsLegacy - s.i
  {
    if s.i >= MaxScrollsLegacy then (LegacyCap, s)
    else
      match LegacyIterate(extract, env, s)
      case LegacyStop(halt, last) => (halt, last)
      case LegacyNext(next) => LegacyRun(extract, env, next)
  }

  function LegacySpec(extract: Item -> Option<Article>, env: Surface, ids: set<string>): (LegacyHalt, LegacyLoop) {
    match env.scrollHeight(0)
    case Err(e) => (LegacyFailed(e), LegacyLoop(0, 0, 0, ids, [Status(ErrorMessage(e))]))
    case Ok(h) => LegacyRun(extract, env, LegacyLoop(0, h, env.articleCount(0, LoopStart), ids, []))
  }

  /** The older loop stops at the first unchanged height; it never scans after it. */
  lemma {:induction false} LegacyStopsOnUnchangedHeight(extract: Item -> Option<Article>, env: Surface, s: LegacyLoop)
    requires s.i < MaxScrollsLegacy && env.scrollTo(s.i + 1).None? && env.scrollHeight(s.i + 1) == Ok(s.lastHeight)
    ensures LegacyRun(extract, env, s).0 == ReachedBottom
    ensures LegacyRun(extract, env, s).1.ids == s.ids && LegacyRun(extract, env, s).1.i == s.i
  {
  }

  /** The older loop performs at most ten scrolls. */
  lemma {:induction false} LegacyBound(extract: Item -> Option<Article>, env: Surface, s: LegacyLoop)
    requires s.i <= MaxScrollsLegacy
    ensures s.i <= LegacyRun(extract, env, s).1.i <= MaxScrollsLegacy
    ensures LegacyRun(extract, env, s).0 == LegacyCap ==> LegacyRun(extract, env, s).1.i == MaxScrollsLegacy
    decreases MaxScrollsLegacy - s.i
  {
    if s.i < MaxScrollsLegacy {
      match LegacyIterate(extract, env, s)
      case LegacyStop(h, l) =>
        assert LegacyRun(extract, env, s) == (h, l);
      case LegacyNext(next) =>
        LegacyBound(extract, env, next);
        assert LegacyRun(extract, env, s) == LegacyRun(extract, env, next);
    }
  }

  // ------------------------------------------------------------ the crawl after the frame is loaded

  /** How `crawl` ends after the frame is loaded: raised by the first scan, stopped by hand, or complete. */
  datatype CrawlEnd = Raised(error: string) | Terminated | Completed

  datatype CrawlResult = CrawlResult(end: CrawlEnd, ids: set<string>, updates: seq<Update>)

  /** Lines 326-368 of `crawl`: first scan, first pause, the scroll loop unless stopped, and the final status. */
  function CrawlSpec(extract: Item -> Option<Article>, env: Surface, total: Option<int>, ids: set<string>): CrawlResult {
    var u0 := [Status(StartMessage(total))];
    match env.content(0)
    case Err(e) => CrawlResult(Raised(e), ids, u0)
    case Ok(items) =>
      var first := ScanWith(extract, items, ids);
      var u1 := u0 + first.updates + FirstPause(env, total);
      var tail := CrawlTail(extract, env, total, first.ids);
      CrawlResult(tail.end, tail.ids, u1 + tail.updates)
  }

  /** The pause after the first scan, when the page already holds more posts than before it. */
  function FirstPause(env: Surface, total: Option<int>): (us: seq<Update>)
    ensures StatusOnly(us)
  {
    var initial := env.articleCount(0, CrawlStart);
    var current := env.articleCount(0, FirstScanDone);
    if current > initial then Countdown(env, 0, true, current - initial, total, PauseTicks) else []
  }

  /** The end of `crawl` after the first pause: the scroll loop unless stopped, then the final status. */
  function CrawlTail(extract: Item -> Option<Article>, env: Surface, total: Option<int>, ids: set<string>): CrawlResult {
    var scrolled :=
      if env.stopFlag(0, BeforeScrolling) then Finish(Cancelled, Loop(0, 0, 0, 0.0, ids, []))
      else ScrollSpec(extract, env, total, ids);
    var stopped := env.stopFlag(0, AtFinish);
    CrawlResult(if stopped then Terminated else Completed, scrolled.last.ids,
      scrolled.last.updates + [Status(FinalMessage(stopped, env.articleCount(0, CrawlEnd), total))])
  }

  /** A failing first snapshot raises out of `crawl` after the opening status, with nothing processed. */
  lemma {:induction false} CrawlFirstScanRaises(extract: Item -> Option<Article>, env: Surface, total: Option<int>, ids: set<string>)
    requires env.content(0).Err?
    ensures CrawlSpec(extract, env, total, ids) == CrawlResult(Raised(env.content(0).error), ids, [Status(StartMessage(total))])
  {
  }

  /** Otherwise `crawl` ends with exactly one final status, chosen by the last read of the stop flag. */
  lemma {:induction false} CrawlEndsWithFinalStatus(extract: Item -> Option<Article>, env: Surface, total: Option<int>, ids: set<string>)
    requires env.content(0).Ok?
    ensures var r := CrawlSpec(extract, env, total, ids);
      r.end == (if env.stopFlag(0, AtFinish) then Terminated else Completed)
      && r.updates[|r.updates| - 1] == Status(FinalMessage(env.stopFlag(0, AtFinish), env.articleCount(0, CrawlEnd), total))
      && r.updates[0] == Status(StartMessage(total))
  {
  }

  lemma {:induction false} AppendAssoc3(a: seq<Update>, b: seq<Update>, c: seq<Update>)
    ensures a + b + c == a + (b + c)
  {
  }

  lemma {:induction false} AppendAssoc(q: seq<Update>, a: seq<Update>, b: seq<Update>, c: seq<Update>, d: seq<Update>)
    ensures q + a + b + c + d == q + (a + b + c + d)
  {
  }

  /** The shape of a crawl whose first snapshot succeeds: start status, first scan, first pause, tail. */
  lemma {:induction false} CrawlSpecOk(extract: Item -> Option<Article>, env: Surface, total: Option<int>, ids: set<string>)
    requires env.content(0).Ok?
    ensures var first := ScanWith(extract, env.content(0).value, ids);
      var pause := FirstPause(env, total);
      var tail := CrawlTail(extract, env, total, first.ids);
      CrawlSpec(extract, env, total, ids) == CrawlResult(tail.end, tail.ids, [Status(StartMessage(total))] + first.updates + pause + tail.updates)
  {
  }

  /** Across the first scan and the loop, `crawl` announces each record at most once. */
  lemma {:induction false} CrawlAdmitsAtMostOnce(extract: Item -> Option<Article>, env: Surface, total: Option<int>, ids: set<string>)
    ensures var r := CrawlSpec(extract, env, total, ids); Announced(ids, r.ids, r.updates)
  {
    var u0 := [Status(StartMessage(total))];
    StatusesAnnounced(ids, u0);
    if env.content(0).Ok? {
      var items := env.content(0).value;
      var first := ScanWith(extract, items, ids);
      ScanAnnounced(extract, items, ids);
      var pause := FirstPause(env, total);
      StatusesAnnounced(first.ids, pause);
      var tail := CrawlTail(extract, env, total, first.ids);
      CrawlTailAnnounced(extract, env, total, first.ids);
      AnnouncedChain(ids, first.ids, tail.ids, u0, first.updates, pause, tail.updates);
      CrawlSpecOk(extract, env, total, ids);
    }
  }

  lemma {:induction false} AnnouncedChain(ids0: set<string>, ids1: set<string>, ids2: set<string>, u0: seq<Update>, a: seq<Update>, p: seq<Update>, t: seq<Update>)
    requires Announced(ids0, ids0, u0) && Announced(ids0, ids1, a) && Announced(ids1, ids1, p) && Announced(ids1, ids2, t)
    ensures Announced(ids0, ids2, u0 + a + p + t)
  {
    AnnouncedConcat(ids0, ids0, ids1, u0, a);
    AnnouncedConcat(ids0, ids1, ids1, u0 + a, p);
    AnnouncedConcat(ids0, ids1, ids2, u0 + a + p, t);
  }

  /** One scan announces its records once each, none of them seen before. */
  lemma {:induction false} ScanAnnounced(extract: Item -> Option<Article>, items: seq<Item>, ids: set<string>)
    ensures var scan := ScanWith(extract, items, ids); Announced(ids, scan.ids, scan.updates)
  {
    ScanAdmitsAtMostOnce(extract, items, |items|, ids);
    ScanOneEventPerArticle(extract, items, |items|, ids);
  }

  lemma {:induction false} CrawlTailAnnounced(extract: Item -> Option<Article>, env: Surface, total: Option<int>, ids: set<string>)
    ensures var t := CrawlTail(extract, env, total, ids); Announced(ids, t.ids, t.updates)
  {
    var scrolled :=
      if env.stopFlag(0, BeforeScrolling) then Finish(Cancelled, Loop(0, 0, 0, 0.0, ids, []))
      else ScrollSpec(extract, env, total, ids);
    if env.stopFlag(0, BeforeScrolling) {
      StatusesAnnounced(ids, []);
    } else {
      ScrollAdmitsAtMostOnce(extract, env, total, ids);
    }
    var fin := [Status(FinalMessage(env.stopFlag(0, AtFinish), env.articleCount(0, CrawlEnd), total))];
    StatusesAnnounced(scrolled.last.ids, fin);
    AnnouncedConcat(ids, scrolled.last.ids, scrolled.last.ids, scrolled.last.updates, fin);
  }

  // ------------------------------------------------------------ the crawler object

  class NetEaseCrawler {
    /** Fingerprints of every record admitted so far; created once, never cleared. */
    var processedIds: set<string>
    /** Set by the window to ask the crawl to stop. */
    var stopCrawling: bool

    constructor ()
      ensures processedIds == {} && !stopCrawling
    {
      processedIds := {};
      stopCrawling := false;
    }

    /**
     * `scan_all_articles`: fetches the snapshot (raising if that fails), then
     * admits each complete, unseen item, sending one progress status per item
     * and one `new_article` event per admitted record.
     */
    method ScanAllArticles(content: Result<seq<Item>>, queue: UpdateQueue) returns (r: Result<seq<Article>>)
      modifies this`processedIds, queue
      ensures content.Err? ==>
        r == Err(content.error) && processedIds == old(processedIds) && queue.items == old(queue.items)
      ensures content.Ok? ==>
        var scan := ScanSpec(content.value, old(processedIds));
        r == Ok(scan.articles) && processedIds == scan.ids && queue.items == old(queue.items) + scan.updates
    {
      if content.Err? {
        return Err(content.error);
      }
      var dcntcElements := content.value;
      var articles: seq<Article> := [];
      for i := 0 to |dcntcElements|
        invariant articles == ScanPrefix(ExtractArticle, dcntcElements, i, old(processedIds)).articles
        invariant processedIds == ScanPrefix(ExtractArticle, dcntcElements, i, old(processedIds)).ids
        invariant queue.items == old(queue.items) + ScanPrefix(ExtractArticle, dcntcElements, i, old(processedIds)).updates
      {
        ghost var prev := ScanPrefix(ExtractArticle, dcntcElements, i, old(processedIds));
        ScanPrefixNext(ExtractArticle, dcntcElements, i, old(processedIds));
        ScanStepShift(ExtractArticle, prev, dcntcElements[i], ProgressMessage(i, |dcntcElements|), old(queue.items));
        articles := ScanItem(dcntcElements[i], i, |dcntcElements|, articles, queue);
      }
      return Ok(articles);
    }

    /** The body of the scan loop for the `i`-th of `n` elements, given the records admitted so far. */
    method ScanItem(elem: Item, i: nat, n: nat, articles: seq<Article>, queue: UpdateQueue) returns (result: seq<Article>)
      modifies this`processedIds, queue
      ensures var st := ScanStep(ExtractArticle, Scan(articles, old(processedIds), old(queue.items)), elem, ProgressMessage(i, n));
        result == st.articles && processedIds == st.ids && queue.items == st.updates
    {
      ghost var prev := Scan(articles, processedIds, queue.items);
      ghost var progress := ProgressMessage(i, n);
      result := articles;
      queue.Put(Status(ProgressMessage(i, n)));
      if elem.time.None? {
        ExtractArticleIncomplete(elem);
        ScanStepSkip(ExtractArticle, prev, elem, progress);
        return;
      }
      var timeText := TimeText(elem.time.value);
      if elem.text.None? {
        ExtractArticleIncomplete(elem);
        ScanStepSkip(ExtractArticle, prev, elem, progress);
        return;
      }
      var textHtml := Strip(elem.text.value, IsPySpace);
      var articleId := GenerateElementId(timeText, textHtml);
      ExtractArticleComplete(elem, timeText, textHtml);
      if articleId in processedIds {
        ScanStepSkip(ExtractArticle, prev, elem, progress);
        return;
      }
      var song := ExtractSongInfo(elem);
      var images := ExtractImageUrls(elem);
      var article := Article(articleId, timeText, textHtml, song, images);
      ScanStepAdmit(ExtractArticle, prev, elem, progress, article);
      processedIds := processedIds + {articleId};
      result := articles + [article];
      queue.Put(NewArticle(article));
    }

    /** The pause `for i in range(5, 0, -1)`: one status per second until the stop flag is seen. */
    method Pause(env: Surface, k: nat, first: bool, n: nat, total: Option<int>, queue: UpdateQueue)
      modifies queue
      ensures queue.items == old(queue.items) + Countdown(env, k, first, n, total, PauseTicks)
    {
      var i: nat := PauseTicks;
      while i > 0
        invariant i <= PauseTicks
        invariant old(queue.items) + Countdown(env, k, first, n, total, PauseTicks) == queue.items + Countdown(env, k, first, n, total, i)
      {
        if env.stopFlag(k, Tick(i)) {
          break;
        }
        AppendAssoc3(queue.items, [Status(PauseMessage(first, n, i, total))], Countdown(env, k, first, n, total, i - 1));
        queue.Put(Status(PauseMessage(first, n, i, total)));
        i := i - 1;
      }
    }

    /** `scroll_until_complete`. */
    method ScrollUntilComplete(env: Surface, total: Option<int>, queue: UpdateQueue) returns (halt: Halt)
      modifies this`processedIds, queue
      ensures var f := ScrollSpec(ExtractArticle, env, total, old(processedIds));
        halt == f.halt && processedIds == f.last.ids && queue.items == old(queue.items) + f.last.updates
    {
      var initialHeight := env.scrollHeight(0);
      if initialHeight.Err? {
        queue.Put(Status(ErrorMessage(initialHeight.error)));
        return Failed(initialHeight.error);
      }
      var lastHeight := initialHeight.value;
      var lastArticleCount := env.articleCount(0, LoopStart);
      var lastNewArticleTime := env.clock(0, ScrollStart);
      var currentScroll := 0;
      ghost var final := ScrollSpec(ExtractArticle, env, total, processedIds);
      ghost var cur := InitialLoop(env, lastHeight, processedIds);
      while currentScroll < MaxScrolls && !env.stopFlag(currentScroll + 1, LoopTest)
        invariant cur.scroll == currentScroll <= MaxScrolls
        invariant cur.lastHeight == lastHeight && cur.lastCount == lastArticleCount && cur.lastNewTime == lastNewArticleTime
        invariant cur.ids == processedIds
        invariant Run(ExtractArticle, env, total, cur) == final
        invariant queue.items == old(queue.items) + cur.updates
        decreases MaxScrolls - currentScroll
      {
        currentScroll := currentScroll + 1;
        var stop, newHeight, newCount, newTime, next :=
          ScrollIteration(env, total, cur, old(queue.items), lastHeight, lastArticleCount, lastNewArticleTime, currentScroll, queue);
        if stop.Some? {
          return stop.value;
        }
        lastHeight, lastArticleCount, lastNewArticleTime := newHeight, newCount, newTime;
        cur := next;
      }
      halt := if currentScroll >= MaxScrolls then IterationCap else Cancelled;
    }

    /**
     * One pass of the body of the `scroll_until_complete` loop from state
     * `cur`, once the loop test has passed and `current_scroll` is
     * incremented: returns the halt reason when the body breaks out or
     * raises, and the new loop variables otherwise, from which the rest of
     * the loop goes on.
     */
    method ScrollIteration(env: Surface, total: Option<int>, ghost cur: Loop, ghost q0: seq<Update>,
                           lastHeight: int, lastArticleCount: nat, lastNewArticleTime: real, currentScroll: nat,
                           queue: UpdateQueue)
      returns (stop: Option<Halt>, newHeight: int, newCount: nat, newTime: real, ghost next: Loop)
      requires currentScroll == cur.scroll + 1 <= MaxScrolls && !env.stopFlag(currentScroll, LoopTest)
      requires cur == Loop(cur.scroll, lastHeight, lastArticleCount, lastNewArticleTime, processedIds, cur.updates)
      requires queue.items == q0 + cur.updates
      modifies this`processedIds, queue
      ensures var f := Run(ExtractArticle, env, total, cur);
        stop.Some? ==> stop.value == f.halt && processedIds == f.last.ids && queue.items == q0 + f.last.updates
      ensures stop.None? ==>
        Run(ExtractArticle, env, total, cur) == Run(ExtractArticle, env, total, next) &&
        next.scroll == currentScroll && next.ids == processedIds && queue.items == q0 + next.updates &&
        next.lastHeight == newHeight && next.lastCount == newCount && next.lastNewTime == newTime
    {
      ghost var s := cur.(scroll := currentScroll);
      assert Run(ExtractArticle, env, total, cur) == Iterate(ExtractArticle, env, total, s);
      var k := currentScroll;
      newHeight, newCount, newTime, next := lastHeight, lastArticleCount, lastNewArticleTime, s;
      if total.Some? && env.articleCount(k, CountCheck) >= total.value {
        queue.Put(Status(AllFetchedMessage(total.value)));
        return Some(CompleteByCount), newHeight, newCount, newTime, next;
      }
      var currentTime := env.clock(k, StaleCheck);
      if currentTime - lastNewArticleTime > StaleSeconds {
        queue.Put(Status(StaleMessage));
        return Some(Stalled), newHeight, newCount, newTime, next;
      }
      queue.Put(Status(ScrollingMessage(k, env.articleCount(k, ScrollStatus), total)));
      ghost var s1 := Send(s, [Status(ScrollingMessage(k, env.articleCount(k, ScrollStatus), total))]);
      var scrollError := env.scrollTo(k);
      if scrollError.Some? {
        queue.Put(Status(ErrorMessage(scrollError.value)));
        return Some(Failed(scrollError.value)), newHeight, newCount, newTime, next;
      }
      if env.stopFlag(k, AfterSettle) {
        return Some(Cancelled), newHeight, newCount, newTime, next;
      }
      IterateSettles(ExtractArticle, env, total, s);
      stop, newHeight, newCount, newTime, next :=
        SettleAndScan(env, total, s, s1, q0, lastHeight, lastArticleCount, lastNewArticleTime, currentScroll, queue);
    }

    /** The rest of the loop body once the settle wait is over and the stop flag was not seen. */
    method SettleAndScan(env: Surface, total: Option<int>, ghost s: Loop, ghost s1: Loop, ghost q0: seq<Update>,
                         lastHeight: int, lastArticleCount: nat, lastNewArticleTime: real, currentScroll: nat,
                         queue: UpdateQueue)
      returns (stop: Option<Halt>, newHeight: int, newCount: nat, newTime: real, ghost next: Loop)
      requires 1 <= currentScroll <= MaxScrolls
      requires s.scroll == currentScroll && s.lastHeight == lastHeight && s.lastCount == lastArticleCount
      requires s1.scroll == currentScroll && s1.ids == processedIds
      requires s1.lastCount == lastArticleCount && s1.lastNewTime == lastNewArticleTime
      requires queue.items == q0 + s1.updates
      modifies this`processedIds, queue
      ensures var f := Settled(ExtractArticle, env, total, s, s1);
        stop.Some? ==> stop.value == f.halt && processedIds == f.last.ids && queue.items == q0 + f.last.updates
      ensures stop.None? ==>
        Settled(ExtractArticle, env, total, s, s1) == Run(ExtractArticle, env, total, next) &&
        next.scroll == currentScroll && next.ids == processedIds && queue.items == q0 + next.updates &&
        next.lastHeight == newHeight && next.lastCount == newCount && next.lastNewTime == newTime
    {
      var k := currentScroll;
      newCount, newTime, next := lastArticleCount, lastNewArticleTime, s1;
      var heightRead := env.scrollHeight(k);
      if heightRead.Err? {
        newHeight := 0;
        queue.Put(Status(ErrorMessage(heightRead.error)));
        return Some(Failed(heightRead.error)), newHeight, newCount, newTime, next;
      }
      newHeight := heightRead.value;
      ghost var s2 := s1;
      if newHeight == lastHeight {
        if total.Some? && env.articleCount(k, HeightRecheck) >= total.value {
          queue.Put(Status(AllFetchedMessage(total.value)));
          return Some(CompleteByCount), newHeight, newCount, newTime, next;
        }
        if k % 3 == 0 {
          queue.Put(Status(BottomMessage));
          s2 := Send(s1, [Status(BottomMessage)]);
        }
      }
      queue.Put(Status(ScanningMessage(total)));
      ghost var s3 := Send(s2, [Status(ScanningMessage(total))]);
      stop, newCount, newTime, next :=
        ScanAndGrow(env, total, s, s3, q0, newHeight, lastArticleCount, lastNewArticleTime, currentScroll, queue);
    }

    /** The scan of the current snapshot, then the growth check. */
    method ScanAndGrow(env: Surface, total: Option<int>, ghost s: Loop, ghost s3: Loop, ghost q0: seq<Update>,
                       newHeight: int, lastArticleCount: nat, lastNewArticleTime: real, currentScroll: nat,
                       queue: UpdateQueue)
      returns (stop: Option<Halt>, newCount: nat, newTime: real, ghost next: Loop)
      requires 1 <= currentScroll <= MaxScrolls
      requires s.scroll == s3.scroll == currentScroll && s.lastCount == lastArticleCount
      requires s3.ids == processedIds && s3.lastCount == lastArticleCount && s3.lastNewTime == lastNewArticleTime
      requires queue.items == q0 + s3.updates
      modifies this`processedIds, queue
      ensures var f := ScanPhase(ExtractArticle, env, total, s, s3, newHeight);
        stop.Some? ==> stop.value == f.halt && processedIds == f.last.ids && queue.items == q0 + f.last.updates
      ensures stop.None? ==>
        ScanPhase(ExtractArticle, env, total, s, s3, newHeight) == Run(ExtractArticle, env, total, next) &&
        next.scroll == currentScroll && next.ids == processedIds && queue.items == q0 + next.updates &&
        next.lastHeight == newHeight && next.lastCount == newCount && next.lastNewTime == newTime
    {
      newCount, newTime, next := lastArticleCount, lastNewArticleTime, s3;
      var scanned := ScanAllArticles(env.content(currentScroll), queue);
      if scanned.Err? {
        queue.Put(Status(ErrorMessage(scanned.error)));
        return Some(Failed(scanned.error)), newCount, newTime, next;
      }
      ghost var scan := ScanSpec(env.content(currentScroll).value, s3.ids);
      ghost var after := Send(s3, scan.updates).(ids := scan.ids);
      newCount, newTime := GrowthCheck(env, total, s, after, q0, newHeight, lastArticleCount, lastNewArticleTime, currentScroll, queue);
      next := Grown(env, total, s, after, newHeight);
      stop := None;
    }

    /** The growth check after a scan: the pause and the new count and time when the article count grew. */
    method GrowthCheck(env: Surface, total: Option<int>, ghost s: Loop, ghost scanned: Loop, ghost q0: seq<Update>,
                       newHeight: int, lastArticleCount: nat, lastNewArticleTime: real, currentScroll: nat,
                       queue: UpdateQueue)
      returns (newCount: nat, newTime: real)
      requires scanned.scroll == s.scroll == currentScroll && s.lastCount == lastArticleCount
      requires scanned.lastCount == lastArticleCount && scanned.lastNewTime == lastNewArticleTime
      requires queue.items == q0 + scanned.updates
      modifies queue
      ensures var n := Grown(env, total, s, scanned, newHeight);
        queue.items == q0 + n.updates && newCount == n.lastCount && newTime == n.lastNewTime
    {
      var k := currentScroll;
      newCount, newTime := lastArticleCount, lastNewArticleTime;
      var currentArticleCount := env.articleCount(k, ScanDone);
      if currentArticleCount > lastArticleCount {
        newTime := env.clock(k, FoundNew);
        ghost var pause := Countdown(env, k, false, currentArticleCount - lastArticleCount, total, PauseTicks);
        Pause(env, k, false, currentArticleCount - lastArticleCount, total, queue);
        AppendAssoc3(q0, scanned.updates, pause);
        newCount := currentArticleCount;
      }
    }

    /** `crawl` from line 326 on: the first scan, its pause, the scroll loop unless stopped, and the final status. */
    method CrawlAfterLoad(env: Surface, total: Option<int>, queue: UpdateQueue) returns (end: CrawlEnd)
      modifies this`processedIds, queue
      ensures var r := CrawlSpec(ExtractArticle, env, total, old(processedIds));
        end == r.end && processedIds == r.ids && queue.items == old(queue.items) + r.updates
    {
      ghost var u0 := [Status(StartMessage(total))];
      var initialArticleCount := env.articleCount(0, CrawlStart);
      queue.Put(Status(StartMessage(total)));
      var articles := ScanAllArticles(env.content(0), queue);
      if articles.Err? {
        return Raised(articles.error);
      }
      ghost var first := ScanSpec(env.content(0).value, old(processedIds));
      assert queue.items == old(queue.items) + u0 + first.updates;
      FirstPauseStep(env, total, initialArticleCount, queue);
      ghost var pause := FirstPause(env, total);
      ghost var q2 := queue.items;
      assert q2 == old(queue.items) + u0 + first.updates + pause && processedIds == first.ids;
      end := FinishCrawl(env, total, queue);
      ghost var tail := CrawlTail(ExtractArticle, env, total, first.ids);
      assert queue.items == q2 + tail.updates;
      AppendAssoc(old(queue.items), u0, first.updates, pause, tail.updates);
      CrawlSpecOk(ExtractArticle, env, total, old(processedIds));
    }

    /** Lines 336-349: the pause after the first scan when it already found more posts. */
    method FirstPauseStep(env: Surface, total: Option<int>, initialArticleCount: nat, queue: UpdateQueue)
      requires initialArticleCount == env.articleCount(0, CrawlStart)
      modifies queue
      ensures queue.items == old(queue.items) + FirstPause(env, total)
    {
      var currentArticleCount := env.articleCount(0, FirstScanDone);
      if currentArticleCount > initialArticleCount {
        Pause(env, 0, true, currentArticleCount - initialArticleCount, total, queue);
      } else {
        assert queue.items + [] == queue.items;
      }
    }

    /** The end of `crawl`: the scroll loop unless the stop flag is already set, then the final status. */
    method FinishCrawl(env: Surface, total: Option<int>, queue: UpdateQueue) returns (end: CrawlEnd)
      modifies this`processedIds, queue
      ensures var t := CrawlTail(ExtractArticle, env, total, old(processedIds));
        end == t.end && processedIds == t.ids && queue.items == old(queue.items) + t.updates
    {
      if !env.stopFlag(0, BeforeScrolling) {
        var halt := ScrollUntilComplete(env, total, queue);
      }
      var stopped := env.stopFlag(0, AtFinish);
      queue.Put(Status(FinalMessage(stopped, env.articleCount(0, CrawlEnd), total)));
      end := if stopped then Terminated else Completed;
    }
  }
}
