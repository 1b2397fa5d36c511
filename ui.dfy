/**
 * The desktop window of netease/ui.py as far as it holds data: the article
 * list it folds the crawler's update events into, the status line with its
 * count prefix and total suffix, the list box, the range spinboxes, the
 * range selection the exports read, and the user-id check that starts a
 * crawl. Tk widgets are fields holding the text they show.
 */
module Ui {
  import opened Wrappers
  import opened Text
  import opened Records
  import opened Extraction
  import opened DataProcessor
  import opened Crawler

  // ---------------------------------------------------------------- status line

  /** Python truthiness of `total_articles`: neither `None` nor `0`. */
  predicate Truthy(total: Option<int>) {
    total.Some? && total.value != 0
  }

  /** Progress lines that the window shows without the count prefix. */
  predicate Exempt(message: string) {
    StartsWith(message, "处理文章") || StartsWith(message, "图片") || StartsWith(message, "正在处理")
  }

  function CountPrefix(count: nat): string {
    "已获取 " + NatToString(count) + " 篇文章 - "
  }

  function TotalSuffix(total: int): string {
    " (总计: " + IntToString(total) + ")"
  }

  /** The prefix test of `process_updates`, on the message as it arrived. */
  predicate NeedsPrefix(message: string, count: nat) {
    !Contains(message, "已获取") && count > 0 && !Exempt(message)
  }

  /** The suffix test, stated on the message as it arrived. */
  predicate NeedsSuffix(message: string, total: Option<int>) {
    Truthy(total) && !Contains(message, "总计")
  }

  /**
   * The line `process_updates` shows for a `status` event while the window
   * holds `count` articles and knows the total `total`; the suffix test
   * looks at the message after the prefix was added.
   */
  function FormatStatus(message: string, count: nat, total: Option<int>): string {
    var m := if NeedsPrefix(message, count) then CountPrefix(count) + message else message;
    if Truthy(total) && !Contains(m, "总计") then m + TotalSuffix(total.value) else m
  }

  /** A pattern whose first character is absent from `x` occurs in `x + y` only inside `y`. */
  lemma {:induction false} ContainsPastFree(x: string, y: string, p: string)
    requires p != [] && p[0] !in x
    requires Contains(x + y, p)
    ensures Contains(y, p)
    decreases |x|
  {
    if x != [] {
      assert (x + y)[0] == x[0];
      assert (x + y)[1..] == x[1..] + y;
      ContainsPastFree(x[1..], y, p);
    } else {
      assert x + y == y;
    }
  }

  lemma {:induction false} CountPrefixHasNoTotal(count: nat)
    ensures '总' !in CountPrefix(count)
  {
    var d := NatToString(count);
    assert forall i :: 0 <= i < |d| ==> IsDigit(d[i]);
    assert CountPrefix(count) == "已获取 " + d + " 篇文章 - ";
  }

  /** The count prefix does not hide or create a `总计`: the suffix test may look at either form. */
  lemma {:induction false} PrefixKeepsTotalTest(count: nat, message: string)
    ensures Contains(CountPrefix(count) + message, "总计") <==> Contains(message, "总计")
  {
    CountPrefixHasNoTotal(count);
    if Contains(CountPrefix(count) + message, "总计") {
      ContainsPastFree(CountPrefix(count), message, "总计");
    }
    if Contains(message, "总计") {
      ContainsAppendRight(CountPrefix(count), message, "总计");
    }
  }

  /**
   * The shown line is the message itself, preceded by the count prefix
   * exactly when the prefix test holds and followed by the total suffix
   * exactly when the total is truthy and the message has no `总计`.
   */
  lemma {:induction false} FormatStatusShape(message: string, count: nat, total: Option<int>)
    ensures FormatStatus(message, count, total) ==
      (if NeedsPrefix(message, count) then CountPrefix(count) else "") + message
      + (if NeedsSuffix(message, total) then TotalSuffix(total.value) else "")
  {
    PrefixKeepsTotalTest(count, message);
    if !NeedsPrefix(message, count) {
      assert "" + message == message;
    }
    if !NeedsSuffix(message, total) {
      var m := (if NeedsPrefix(message, count) then CountPrefix(count) else "") + message;
      assert m + "" == m;
    }
  }

  lemma {:induction false} SuffixHasTotal(total: int)
    ensures Contains(TotalSuffix(total), "总计")
  {
    var s := TotalSuffix(total);
    assert StartsWith(s[2..], "总计");
    assert s[1..][1..] == s[2..];
  }

  /** Once a line was shown, the prefix test fails on it, whatever follows it. */
  lemma {:induction false} PrefixSettled(message: string, count: nat, p: string, s: string)
    requires p == if NeedsPrefix(message, count) then CountPrefix(count) else ""
    ensures !NeedsPrefix(p + message + s, count)
  {
    var r := p + message + s;
    if NeedsPrefix(message, count) {
      assert r[..3] == "已获取";
      StartsWithContains(r, "已获取");
    } else {
      assert r == message + s;
      if Contains(message, "已获取") {
        ContainsAppendLeft(message, s, "已获取");
      } else if count > 0 {
        if StartsWith(message, "处理文章") {
          StartsWithAppend(message, s, "处理文章");
        } else if StartsWith(message, "图片") {
          StartsWithAppend(message, s, "图片");
        } else {
          StartsWithAppend(message, s, "正在处理");
        }
      }
    }
  }

  /** Once a line was shown, the suffix test fails on it. */
  lemma {:induction false} SuffixSettled(message: string, total: Option<int>, p: string, s: string)
    requires s == if NeedsSuffix(message, total) then TotalSuffix(total.value) else ""
    ensures !NeedsSuffix(p + message + s, total)
  {
    if NeedsSuffix(message, total) {
      SuffixHasTotal(total.value);
      ContainsAppendRight(p + message, s, "总计");
    } else if Truthy(total) {
      ContainsAppendRight(p, message, "总计");
      ContainsAppendLeft(p + message, s, "总计");
    }
  }

  /** Showing an already shown line again changes nothing: neither the prefix nor the suffix is doubled. */
  lemma {:induction false} FormatStatusIdempotent(message: string, count: nat, total: Option<int>)
    ensures FormatStatus(FormatStatus(message, count, total), count, total) == FormatStatus(message, count, total)
  {
    var r := FormatStatus(message, count, total);
    var p := if NeedsPrefix(message, count) then CountPrefix(count) else "";
    var s := if NeedsSuffix(message, total) then TotalSuffix(total.value) else "";
    FormatStatusShape(message, count, total);
    PrefixSettled(message, count, p, s);
    SuffixSettled(message, total, p, s);
    FormatStatusShape(r, count, total);
    assert "" + r + "" == r;
  }

  /** The line `add_update` shows when the crawler announces its `n`-th article. */
  function AddedStatus(n: nat, total: Option<int>): string {
    "已获取 " + NatToString(n) + " 篇文章" + (if Truthy(total) then TotalSuffix(total.value) else "")
  }

  /** A line set by `add_update` is one the window's status formatting leaves as it is. */
  lemma {:induction false} AddedStatusIsFormatted(n: nat, count: nat, total: Option<int>)
    ensures FormatStatus(AddedStatus(n, total), count, total) == AddedStatus(n, total)
  {
    var head := "已获取 " + NatToString(n) + " 篇文章";
    var tail := if Truthy(total) then TotalSuffix(total.value) else "";
    var r := AddedStatus(n, total);
    assert r == head + tail;
    assert StartsWith(r, "已获取");
    StartsWithContains(r, "已获取");
    if Truthy(total) {
      SuffixHasTotal(total.value);
      ContainsAppendRight(head, tail, "总计");
    }
  }

  // ---------------------------------------------------------------- list box and spinboxes

  /** `get_short_text`: the processed text, cut to its first 50 characters plus "..." when longer. */
  function ShortText(html: string): (r: string)
    ensures var t := ProcessHtmlText(html);
      if |t| <= 50 then r == t else |r| == 53 && r == t[..50] + "..."
  {
    var text := ProcessHtmlText(html);
    if |text| > 50 then text[..50] + "..." else text
  }

  /** The list-box line of one article. */
  function Entry(a: Article): string {
    a.time + " - " + ShortText(a.text)
  }

  /** The list-box lines of the articles, in order. */
  function Entries(articles: seq<Article>): (r: seq<string>)
    ensures |r| == |articles|
    decreases |articles|
  {
    if articles == [] then [] else Entries(articles[..|articles| - 1]) + [Entry(articles[|articles| - 1])]
  }

  lemma {:induction false} EntriesSnoc(articles: seq<Article>, a: Article)
    ensures Entries(articles + [a]) == Entries(articles) + [Entry(a)]
  {
    assert (articles + [a])[..|articles|] == articles;
  }

  /** One more line for the next article. */
  lemma {:induction false} EntriesStep(articles: seq<Article>, i: nat)
    requires i < |articles|
    ensures Entries(articles[..i + 1]) == Entries(articles[..i]) + [Entry(articles[i])]
  {
    assert articles[..i + 1] == articles[..i] + [articles[i]];
    EntriesSnoc(articles[..i], articles[i]);
  }

  /** Line `i` of the list box shows article `i`. */
  lemma {:induction false} EntriesAt(articles: seq<Article>, i: nat)
    requires i < |articles|
    ensures Entries(articles)[i] == Entry(articles[i])
    decreases |articles|
  {
    if i < |articles| - 1 {
      var init := articles[..|articles| - 1];
      EntriesAt(init, i);
      assert init[i] == articles[i];
    }
  }

  function CountLabel(count: nat): string {
    "已检测到 " + NatToString(count) + " 篇文章"
  }

  /** The two range spinboxes: their upper bounds (`from_` is always 1) and the texts they hold. */
  datatype Range = Range(startTo: int, endTo: int, startText: string, endText: string)

  /**
   * `update_range_inputs` with `count` articles: both upper bounds become
   * `max(1, count)`, and an end entry reading "1" becomes the count when
   * there is more than one article.
   */
  function RangeInputs(r: Range, count: nat): Range {
    var top := if count > 1 then count else 1;
    Range(top, top, r.startText, if r.endText == "1" && count > 1 then NatToString(count) else r.endText)
  }

  lemma {:induction false} NatToStringOne(n: nat)
    requires NatToString(n) == "1"
    ensures n == 1
  {
    NatToStringRoundTrip(n);
    assert DigitsValue("1") == DigitsValue("1"[..0]) * 10 + DigitValue('1');
  }

  /** Updating the spinboxes twice for the same count is updating them once. */
  lemma {:induction false} RangeInputsIdempotent(r: Range, count: nat)
    ensures RangeInputs(RangeInputs(r, count), count) == RangeInputs(r, count)
  {
    if r.endText == "1" && count > 1 && NatToString(count) == "1" {
      NatToStringOne(count);
    }
  }

  // ---------------------------------------------------------------- event folding

  /** What `process_updates` reads and writes: the list, the total, the three labels and the spinboxes. */
  datatype View = View(articles: seq<Article>, total: Option<int>, status: string, countLabel: string,
                       listbox: seq<string>, range: Range)

  /** The effect of one queued update on the window. */
  function ApplyUpdate(v: View, u: Update): View {
    match u
    case Articles(data) =>
      v.(articles := data, countLabel := CountLabel(|data|), range := RangeInputs(v.range, |data|),
         listbox := Entries(data))
    case Status(message) =>
      v.(status := FormatStatus(Render(message), |v.articles|, v.total))
    case NewArticle(a) =>
      v.(articles := v.articles + [a], countLabel := CountLabel(|v.articles| + 1),
         listbox := v.listbox + [Entry(a)], range := RangeInputs(v.range, |v.articles| + 1))
    case TotalCount(count) =>
      v.(total := count)
  }

  /** The window after draining `us`, oldest first. */
  function ApplyAll(v: View, us: seq<Update>): View
    decreases |us|
  {
    if us == [] then v else ApplyUpdate(ApplyAll(v, us[..|us| - 1]), us[|us| - 1])
  }

  /** Draining two batches in turn is draining their concatenation. */
  lemma {:induction false} ApplyAllAppend(v: View, a: seq<Update>, b: seq<Update>)
    ensures ApplyAll(v, a + b) == ApplyAll(ApplyAll(v, a), b)
    decreases |b|
  {
    if b == [] {
      assert a + b == a;
    } else {
      assert (a + b)[..|a + b| - 1] == a + b[..|b| - 1];
      ApplyAllAppend(v, a, b[..|b| - 1]);
    }
  }

  /** The list box shows one line per held article and the label their number. */
  predicate Consistent(v: View) {
    v.listbox == Entries(v.articles) && v.countLabel == CountLabel(|v.articles|)
  }

  lemma {:induction false} ApplyUpdateConsistent(v: View, u: Update)
    requires Consistent(v)
    ensures Consistent(ApplyUpdate(v, u))
  {
    if u.NewArticle? {
      EntriesSnoc(v.articles, u.article);
    }
  }

  /** Every event keeps the list box and the label in step with the list; an `articles` event restores them from any state. */
  lemma {:induction false} ApplyAllConsistent(v: View, us: seq<Update>)
    requires Consistent(v)
    ensures Consistent(ApplyAll(v, us))
    decreases |us|
  {
    if us != [] {
      ApplyAllConsistent(v, us[..|us| - 1]);
      ApplyUpdateConsistent(ApplyAll(v, us[..|us| - 1]), us[|us| - 1]);
    }
  }

  /** Both spinboxes reach up to the number of listed articles, and to 1 for an empty or one-article list. */
  predicate Bounded(v: View) {
    v.range.startTo == v.range.endTo == (if |v.articles| > 1 then |v.articles| else 1)
  }

  /** An event that changes the list also resizes the spinboxes to it; the others leave list and spinboxes alone. */
  lemma {:induction false} ApplyUpdateBounded(v: View, u: Update)
    ensures u.Articles? || u.NewArticle? ==> Bounded(ApplyUpdate(v, u))
    ensures !u.Articles? && !u.NewArticle? ==>
              ApplyUpdate(v, u).articles == v.articles && ApplyUpdate(v, u).range == v.range
  {
  }

  /** Once the spinboxes match the list, every drained event keeps them matching. */
  lemma {:induction false} ApplyAllBounded(v: View, us: seq<Update>)
    requires Bounded(v)
    ensures Bounded(ApplyAll(v, us))
    decreases |us|
  {
    if us != [] {
      ApplyAllBounded(v, us[..|us| - 1]);
      ApplyUpdateBounded(ApplyAll(v, us[..|us| - 1]), us[|us| - 1]);
    }
  }

  /** No event of `us` replaces the whole list. */
  predicate NoReplace(us: seq<Update>) {
    forall i :: 0 <= i < |us| ==> !us[i].Articles?
  }

  /**
   * Without an `articles` event, draining the queue appends exactly the
   * announced articles, in order, and leaves the earlier entries as they were.
   */
  lemma {:induction false} ApplyAllAppendsAnnounced(v: View, us: seq<Update>)
    requires NoReplace(us)
    ensures ApplyAll(v, us).articles == v.articles + NewArticles(us)
    decreases |us|
  {
    if us != [] {
      var init := us[..|us| - 1];
      assert NoReplace(init) by {
        forall i | 0 <= i < |init| ensures !init[i].Articles? { assert init[i] == us[i]; }
      }
      ApplyAllAppendsAnnounced(v, init);
      assert !us[|us| - 1].Articles?;
    }
  }

  /** An `articles` event replaces the list whatever came before it. */
  lemma {:induction false} ArticlesEventReplaces(v: View, us: seq<Update>, data: seq<Article>)
    ensures ApplyAll(v, us + [Articles(data)]).articles == data
    ensures Consistent(ApplyAll(v, us + [Articles(data)]))
  {
    assert (us + [Articles(data)])[..|us|] == us;
  }

  /** Without a `total_count` event the total stays as it was. */
  lemma {:induction false} ApplyAllKeepsTotal(v: View, us: seq<Update>)
    requires forall i :: 0 <= i < |us| ==> !us[i].TotalCount?
    ensures ApplyAll(v, us).total == v.total
    decreases |us|
  {
    if us != [] {
      var init := us[..|us| - 1];
      assert forall i :: 0 <= i < |init| ==> init[i] == us[i];
      ApplyAllKeepsTotal(v, init);
      assert !us[|us| - 1].TotalCount?;
    }
  }

  /** The total is the count of the last `total_count` event. */
  lemma {:induction false} ApplyAllLastTotal(v: View, us: seq<Update>, i: nat)
    requires i < |us| && us[i].TotalCount?
    requires forall j :: i < j < |us| ==> !us[j].TotalCount?
    ensures ApplyAll(v, us).total == us[i].count
    decreases |us|
  {
    var init := us[..|us| - 1];
    if i < |us| - 1 {
      assert forall j :: i < j < |init| ==> init[j] == us[j];
      ApplyAllLastTotal(v, init, i);
      assert !us[|us| - 1].TotalCount?;
    }
  }

  /** A scan sends progress statuses and `new_article` events only. */
  lemma {:induction false} ScanSendsNoReplace(extract: Item -> Option<Article>, items: seq<Item>, k: nat, ids: set<string>)
    requires k <= |items|
    ensures NoReplace(ScanPrefix(extract, items, k, ids).updates)
    decreases k
  {
    if k > 0 {
      ScanSendsNoReplace(extract, items, k - 1, ids);
    }
  }

  /** The window ends a scan's events holding its old list followed by the records the scan admitted. */
  lemma {:induction false} ScanShownInWindow(v: View, items: seq<Item>, ids: set<string>)
    ensures ApplyAll(v, ScanSpec(items, ids).updates).articles == v.articles + ScanSpec(items, ids).articles
  {
    ScanSendsNoReplace(ExtractArticle, items, |items|, ids);
    ScanOneEventPerArticle(ExtractArticle, items, |items|, ids);
    ApplyAllAppendsAnnounced(v, ScanSpec(items, ids).updates);
  }

  // ---------------------------------------------------------------- range selection

  /**
   * Python `int(s)` on a range entry: surrounding whitespace, an optional
   * sign, then decimal digits with single underscores between them.
   */
  function ParsePyInt(s: string): (r: Option<int>)
    ensures r.Some? ==> Strip(s, IsPySpace) != []
  {
    var t := Strip(s, IsPySpace);
    if t != [] && (t[0] == '+' || t[0] == '-') then
      (if DigitGroups(t[1..]) then (var n: int := GroupsValue(t[1..]); Some(if t[0] == '-' then -n else n)) else None)
    else if DigitGroups(t) then Some(GroupsValue(t))
    else None
  }

  /** Digits, with single underscores allowed between two digits. */
  predicate DigitGroups(s: string) {
    s != [] &&
    forall i :: 0 <= i < |s| ==>
      IsDigit(s[i]) || (0 < i < |s| - 1 && s[i] == '_' && IsDigit(s[i - 1]) && IsDigit(s[i + 1]))
  }

  /** The value of a digit string, skipping underscores. */
  function GroupsValue(s: string): nat
    decreases |s|
  {
    if s == [] then 0
    else if IsDigit(s[|s| - 1]) then GroupsValue(s[..|s| - 1]) * 10 + DigitValue(s[|s| - 1])
    else GroupsValue(s[..|s| - 1])
  }

  lemma {:induction false} GroupsValueOfDigits(s: string)
    requires AllDigits(s)
    ensures GroupsValue(s) == DigitsValue(s)
    decreases |s|
  {
    if s != [] {
      GroupsValueOfDigits(s[..|s| - 1]);
    }
  }

  lemma {:induction false} StripUnpadded(s: string)
    requires s != [] && !IsPySpace(s[0]) && !IsPySpace(s[|s| - 1])
    ensures Strip(s, IsPySpace) == s
  {
  }

  /** A plain run of digits reads as its decimal value. */
  lemma {:induction false} ParseDigits(d: string)
    requires d != [] && AllDigits(d)
    ensures ParsePyInt(d) == Some(DigitsValue(d))
  {
    assert IsDigit(d[0]) && IsDigit(d[|d| - 1]);
    StripUnpadded(d);
    assert DigitGroups(d);
    GroupsValueOfDigits(d);
  }

  /** `int(str(n)) == n`: the text a spinbox gets from `str(count)` reads back as the count. */
  lemma {:induction false} ParseNatToString(n: nat)
    ensures ParsePyInt(NatToString(n)) == Some(n)
  {
    ParseDigits(NatToString(n));
    NatToStringRoundTrip(n);
  }

  const RangeError := "请输入有效的范围"
  const NumberError := "请输入有效的数字范围"

  /** The outcome of `get_selected_articles`: the selected articles, or the error dialog shown instead. */
  datatype Selection<T> = Selection(articles: seq<T>, error: Option<string>)

  /**
   * The clamp both selections share: the start raised to at least 1, the end
   * lowered to at most the list length; the zero-based slice bounds, or
   * `None` when the clamped range is empty.
   */
  function ClampedRange(len: nat, start: int, end: int): (r: Option<(nat, nat)>)
    ensures r.Some? ==> r.value.0 < r.value.1 <= len
  {
    var s := if start > 1 then start else 1;
    var e := if end < len then end else len;
    if s > e || s > len then None else Some(((s - 1) as nat, e as nat))
  }

  /**
   * `get_selected_articles` on the two spinbox texts: clamp, then slice; an
   * unparsable entry or an empty clamped range shows an error and selects
   * nothing.
   */
  function GetSelectedArticles<T>(articles: seq<T>, startText: string, endText: string): (r: Selection<T>)
    ensures ParsePyInt(startText).None? || ParsePyInt(endText).None? ==> r == Selection([], Some(NumberError))
    ensures r.error.None? <==> r.articles != []
    ensures r.error.Some? ==> r.error.value in {RangeError, NumberError}
    ensures exists lo, hi :: 0 <= lo <= hi <= |articles| && r.articles == articles[lo..hi]
  {
    assert [] == articles[0..0];
    var ps := ParsePyInt(startText);
    if ps.None? then Selection([], Some(NumberError))
    else
      var pe := ParsePyInt(endText);
      if pe.None? then Selection([], Some(NumberError))
      else match ClampedRange(|articles|, ps.value, pe.value)
        case None => Selection([], Some(RangeError))
        case Some(bounds) => Selection(articles[bounds.0..bounds.1], None)
  }

  /**
   * Entries inside the list select the articles from the start-th to the
   * end-th, both included; an end beyond the list stops at its last article.
   */
  lemma {:induction false} SelectionClamps<T>(articles: seq<T>, startText: string, endText: string, s: int, e: int)
    requires ParsePyInt(startText) == Some(s) && ParsePyInt(endText) == Some(e)
    requires 1 <= s <= |articles| && s <= e
    ensures GetSelectedArticles(articles, startText, endText).articles ==
      articles[s - 1..if e < |articles| then e else |articles|]
    ensures |GetSelectedArticles(articles, startText, endText).articles| == (if e < |articles| then e else |articles|) - s + 1
  {
  }

  /** After `set_max_range`, the selection is the whole list. */
  lemma {:induction false} MaxRangeSelectsAll<T>(articles: seq<T>)
    requires articles != []
    ensures GetSelectedArticles(articles, "1", NatToString(|articles|)) == Selection(articles, None)
  {
    PyParseDigit('1');
    ParseNatToString(|articles|);
    SelectionOfAll(articles, "1", NatToString(|articles|));
  }

  /** Entries reading 1 and the list length select the whole list. */
  lemma {:induction false} SelectionOfAll<T>(articles: seq<T>, startText: string, endText: string)
    requires articles != []
    requires ParsePyInt(startText) == Some(1) && ParsePyInt(endText) == Some(|articles|)
    ensures GetSelectedArticles(articles, startText, endText) == Selection(articles, None)
  {
    assert ClampedRange(|articles|, 1, |articles|) == Some((0, |articles|));
    assert articles[0..|articles|] == articles;
  }

  /** A single digit reads as its value. */
  lemma {:induction false} PyParseDigit(c: char)
    requires IsDigit(c)
    ensures ParsePyInt([c]) == Some(DigitValue(c))
  {
    assert AllDigits([c]);
    ParseDigits([c]);
    assert [c][..0] == [];
  }

  // ---------------------------------------------------------------- starting a crawl

  /** The feed page of a user is this address followed by `?id=` and the id. */
  const EventHost := "https://music.163.com/#/user/event"
  const EventUrl := EventHost + "?id="
  const BusyNotice := "已经在爬取中，请等待完成"
  const BadIdError := "请输入有效的网易云音乐用户ID（纯数字）"
  const LoadingStatus := "开始加载页面..."
  const StoppingStatus := "正在终止爬取..."

  /** The user id `start_crawling` accepts: the stripped entry, when it is a non-empty run of digits. */
  function UserId(entry: string): (r: Option<string>)
    ensures r.Some? ==> r.value != [] && AllDigits(r.value)
    ensures r.None? ==> var t := Strip(entry, IsPySpace); t == [] || !AllDigits(t)
  {
    var userId := Strip(entry, IsPySpace);
    if userId == [] || !AllDigits(userId) then None else Some(userId)
  }

  /** The feed page a crawl loads for an accepted id. */
  function EventPage(userId: string): string {
    EventUrl + userId
  }

  /** The id can be read back from the page address. */
  lemma {:induction false} EventPageRoundTrip(entry: string)
    requires UserId(entry).Some?
    ensures var url := EventPage(UserId(entry).value);
      StartsWith(url, EventUrl) && url[|EventUrl|..] == Strip(entry, IsPySpace) && AllDigits(url[|EventUrl|..])
  {
  }

  /** Two accepted entries load the same page exactly when they hold the same id. */
  lemma {:induction false} EventPageInjective(a: string, b: string)
    requires UserId(a).Some? && UserId(b).Some?
    ensures EventPage(UserId(a).value) == EventPage(UserId(b).value) <==> Strip(a, IsPySpace) == Strip(b, IsPySpace)
  {
    var u := EventPage(UserId(a).value);
    var w := EventPage(UserId(b).value);
    if u == w {
      assert u[|EventUrl|..] == w[|EventUrl|..];
    }
  }

  /** What pressing the load button leads to. */
  datatype StartOutcome =
    | Refused(notice: string)  // a dialog, nothing else happens
    | AskDownload              // the browser is missing; the download itself is not part of this model
    | Started(url: string)     // the crawl thread is started on `url`

  function StartDecision(crawling: bool, browserInstalled: bool, entry: string): StartOutcome {
    if crawling then Refused(BusyNotice)
    else if !browserInstalled then AskDownload
    else match UserId(entry)
      case None => Refused(BadIdError)
      case Some(userId) => Started(EventPage(userId))
  }

  /** The window once a crawl starts: the list, the list box and the label start empty; the total is kept. */
  function Restarted(v: View): View {
    v.(articles := [], listbox := [], countLabel := CountLabel(0), status := LoadingStatus)
  }

  lemma {:induction false} RestartedConsistent(v: View)
    ensures Consistent(Restarted(v))
  {
  }

  /** Clearing the window for a new crawl leaves the spinboxes at the old count, so they no longer match the empty list. */
  lemma {:induction false} RestartedUnbounded(v: View)
    requires Bounded(v) && |v.articles| > 1
    ensures !Bounded(Restarted(v))
    ensures Restarted(v).range == v.range
  {
  }

  /**
   * As written, a second crawl keeps the crawler's processed-id set, so
   * after the window was cleared the scan of the same snapshot shows
   * nothing, although the first crawl showed every record it admitted.
   */
  lemma {:induction false} RecrawlShowsNothing(v: View, items: seq<Item>, ids: set<string>)
    ensures var first := ScanSpec(items, ids);
      ApplyAll(Restarted(v), first.updates).articles == first.articles &&
      ApplyAll(Restarted(v), ScanSpec(items, first.ids).updates).articles == []
  {
    var first := ScanSpec(items, ids);
    ScanShownInWindow(Restarted(v), items, ids);
    ScanIdempotent(items, ids);
    ScanShownInWindow(Restarted(v), items, first.ids);
  }

  /**
   * With the processed-id set cleared at the start, the scan of a snapshot
   * shows the same records whatever crawl came before.
   */
  lemma {:induction false} CorrectedRecrawlShowsAll(v: View, w: View, items: seq<Item>)
    ensures ApplyAll(Restarted(v), ScanSpec(items, {}).updates).articles == ScanSpec(items, {}).articles
    ensures ApplyAll(Restarted(v), ScanSpec(items, {}).updates).articles ==
            ApplyAll(Restarted(w), ScanSpec(items, {}).updates).articles
  {
    ScanShownInWindow(Restarted(v), items, {});
    ScanShownInWindow(Restarted(w), items, {});
  }

  // ---------------------------------------------------------------- the window

  class NetEaseMusicUi {
    const crawler: NetEaseCrawler
    var articles: seq<Article>
    var totalArticles: Option<int>
    var crawling: bool
    var status: string
    var countLabel: string
    var listbox: seq<string>
    var range: Range

    function State(): View
      reads this
    {
      View(articles, totalArticles, status, countLabel, listbox, range)
    }

    /** The window as `__init__` builds it; the spinboxes' first texts are the widgets' own. */
    constructor (crawler: NetEaseCrawler, startText: string, endText: string)
      ensures this.crawler == crawler && !crawling
      ensures State() == View([], None, "等待加载...", CountLabel(0), [], Range(1, 1, startText, endText))
    {
      this.crawler := crawler;
      articles := [];
      totalArticles := None;
      crawling := false;
      status := "等待加载...";
      countLabel := CountLabel(0);
      listbox := [];
      range := Range(1, 1, startText, endText);
    }

    /** `update_range_inputs`. */
    method UpdateRangeInputs()
      modifies this`range
      ensures range == RangeInputs(old(range), |articles|)
    {
      var count := |articles|;
      var top := if count > 1 then count else 1;
      range := range.(startTo := top, endTo := top);
      var currentEnd := range.endText;
      if currentEnd == "1" && count > 1 {
        range := range.(endText := NatToString(count));
      }
    }

    /** `update_article_display`: the label, the spinboxes, then the list box rebuilt line by line. */
    method UpdateArticleDisplay()
      modifies this`countLabel, this`range, this`listbox
      ensures countLabel == CountLabel(|articles|) && listbox == Entries(articles)
      ensures range == RangeInputs(old(range), |articles|)
    {
      var count := |articles|;
      countLabel := CountLabel(count);
      UpdateRangeInputs();
      RebuildListbox();
    }

    /** The list box emptied, then one line inserted per article in order. */
    method RebuildListbox()
      modifies this`listbox
      ensures listbox == Entries(articles)
    {
      listbox := [];
      for i := 0 to |articles|
        invariant listbox == Entries(articles[..i])
      {
        EntriesStep(articles, i);
        listbox := listbox + [Entry(articles[i])];
      }
      assert articles[..|articles|] == articles;
    }

    /** One pass of the `process_updates` loop body. */
    method ApplyOne(u: Update)
      modifies this`articles, this`totalArticles, this`status, this`countLabel, this`listbox, this`range
      ensures State() == ApplyUpdate(old(State()), u)
    {
      match u
      case Articles(data) =>
        articles := data;
        UpdateArticleDisplay();
      case Status(msg) =>
        var message := Render(msg);
        var currentCount := |articles|;
        if !Contains(message, "已获取") && currentCount > 0 {
          if !Exempt(message) {
            message := CountPrefix(currentCount) + message;
          }
        }
        if Truthy(totalArticles) && !Contains(message, "总计") {
          message := message + TotalSuffix(totalArticles.value);
        }
        status := message;
      case NewArticle(a) =>
        articles := articles + [a];
        countLabel := CountLabel(|articles|);
        listbox := listbox + [Entry(a)];
        UpdateRangeInputs();
      case TotalCount(count) =>
        totalArticles := count;
    }

    /** `process_updates`: drains the queue, oldest update first. */
    method ProcessUpdates(queue: UpdateQueue)
      modifies this`articles, this`totalArticles, this`status, this`countLabel, this`listbox, this`range, queue
      ensures State() == ApplyAll(old(State()), old(queue.items))
      ensures queue.items == []
    {
      ghost var all := queue.items;
      ghost var i := 0;
      var empty := queue.Empty();
      while !empty
        invariant 0 <= i <= |all| && queue.items == all[i..]
        invariant empty <==> queue.items == []
        invariant State() == ApplyAll(old(State()), all[..i])
        decreases |queue.items|
      {
        var update := queue.GetNowait();
        assert update == Some(all[i]);
        ApplyOne(update.value);
        assert all[..i + 1][..i] == all[..i];
        i := i + 1;
        empty := queue.Empty();
      }
      assert all[..|all|] == all;
    }

    /** `add_update`: queues the event and, for a new article, shows the count it will reach. */
    method AddUpdate(u: Update, queue: UpdateQueue)
      modifies this`status, queue
      ensures queue.items == old(queue.items) + [u]
      ensures status == if u.NewArticle? then AddedStatus(|articles| + 1, totalArticles) else old(status)
    {
      queue.Put(u);
      if u.NewArticle? {
        var currentCount := |articles| + 1;
        var message := "已获取 " + NatToString(currentCount) + " 篇文章";
        if Truthy(totalArticles) {
          message := message + TotalSuffix(totalArticles.value);
        }
        status := message;
      }
    }

    /** `set_max_range`: with articles held, the range becomes 1 to their count. */
    method SetMaxRange()
      modifies this`range, this`status
      ensures articles == [] ==> range == old(range) && status == old(status)
      ensures articles != [] ==>
        range == old(range).(startText := "1", endText := NatToString(|articles|)) &&
        status == if crawling then old(status) else "已设置范围: 1 到 " + NatToString(|articles|)
      ensures articles != [] ==> GetSelectedArticles(articles, range.startText, range.endText) == Selection(articles, None)
    {
      var count := |articles|;
      if count > 0 {
        range := range.(startText := "1", endText := NatToString(count));
        if !crawling {
          status := "已设置范围: 1 到 " + NatToString(count);
        }
        MaxRangeSelectsAll(articles);
      }
    }

    /** `stop_crawling`: raises the crawler's stop flag while a crawl runs, or when forced. */
    method StopCrawling(force: bool)
      modifies crawler`stopCrawling, this`status
      ensures crawling || force ==> crawler.stopCrawling && status == StoppingStatus
      ensures !(crawling || force) ==> crawler.stopCrawling == old(crawler.stopCrawling) && status == old(status)
    {
      if crawling || force {
        crawler.stopCrawling := true;
        status := StoppingStatus;
      }
    }

    /**
     * `start_crawling` as written: refuses while crawling, without a browser
     * or with a bad id; otherwise clears the window, lowers the stop flag and
     * starts the crawl. The crawler's processed-id set is left as it was.
     */
    method StartCrawling(entry: string, browserInstalled: bool) returns (outcome: StartOutcome)
      modifies this`articles, this`listbox, this`countLabel, this`status, this`crawling, crawler`stopCrawling
      ensures outcome == StartDecision(old(crawling), browserInstalled, entry)
      ensures outcome.Started? ==> State() == Restarted(old(State())) && crawling && !crawler.stopCrawling
      ensures !outcome.Started? ==>
        State() == old(State()) && crawling == old(crawling) && crawler.stopCrawling == old(crawler.stopCrawling)
      ensures crawler.processedIds == old(crawler.processedIds)
    {
      if crawling {
        return Refused(BusyNotice);
      }
      if !browserInstalled {
        return AskDownload;
      }
      var userId := UserId(entry);
      if userId.None? {
        return Refused(BadIdError);
      }
      var url := EventPage(userId.value);
      ClearForCrawl();
      return Started(url);
    }

    /** The window cleared for a new crawl, the crawl marked running and the stop flag lowered. */
    method ClearForCrawl()
      modifies this`articles, this`listbox, this`countLabel, this`status, this`crawling, crawler`stopCrawling
      ensures State() == Restarted(old(State())) && crawling && !crawler.stopCrawling
      ensures crawler.processedIds == old(crawler.processedIds)
    {
      articles := [];
      listbox := [];
      countLabel := CountLabel(0);
      status := LoadingStatus;
      crawling := true;
      crawler.stopCrawling := false;
    }

    /** `start_crawling` as evidently intended: the same, and the processed-id set starts empty too. */
    method StartCrawlingCorrected(entry: string, browserInstalled: bool) returns (outcome: StartOutcome)
      modifies this`articles, this`listbox, this`countLabel, this`status, this`crawling,
               crawler`stopCrawling, crawler`processedIds
      ensures outcome == StartDecision(old(crawling), browserInstalled, entry)
      ensures outcome.Started? ==>
        State() == Restarted(old(State())) && crawling && !crawler.stopCrawling && crawler.processedIds == {}
      ensures !outcome.Started? ==>
        State() == old(State()) && crawling == old(crawling) && crawler.stopCrawling == old(crawler.stopCrawling) &&
        crawler.processedIds == old(crawler.processedIds)
    {
      outcome := StartCrawling(entry, browserInstalled);
      if outcome.Started? {
        crawler.processedIds := {};
      }
    }
  }
}
