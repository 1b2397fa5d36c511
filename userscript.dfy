/**
 * The browser user script netease-note-backup.user.js: its own fingerprint,
 * image-URL cleaning and song block, the dedup scan over the page that
 * appends to the module-level `articleArray` and `processedIds`, the range
 * selection with `parseInt(...) || 1`, the copy-text line breaks and the
 * export file name. Where the script and the Python application differ, a
 * lemma states the difference.
 */
module UserScript {
  import opened Wrappers
  import opened Text
  import opened Records
  import opened Extraction
  import opened DataProcessor
  import opened Ui

  // ------------------------------------------------------------ image URLs

  /** `cleanImageUrl`: "" for an empty URL, else the part before `?` with only a leading `http:` made `https:`. */
  function CleanImageUrl(url: string): (r: string)
    ensures url == "" ==> r == ""
    ensures '?' !in r
    ensures !StartsWith(r, "http:")
  {
    if url == "" then ""
    else
      var cut := BeforeQuery(url);
      assert forall i :: 5 <= i < |cut| ==> cut[5..][i - 5] == cut[i];
      var r := ReplaceLeading(cut, "http:", "https:");
      assert StartsWith(cut, "http:") ==> r[..5] == "https";
      r
  }

  /** When `http:` can only stand at the very start, the two cleanings agree. */
  lemma {:induction false} CleanersAgree(url: string)
    requires url != ""
    requires BeforeQuery(url) == [] || !Contains(BeforeQuery(url)[1..], "http:")
    ensures CleanImageUrl(url) == CleanUrl(url)
  {
    var cut := BeforeQuery(url);
    if cut != [] {
      if StartsWith(cut, "http:") {
        assert cut[1..] == cut[1..5] + cut[5..];
        if Contains(cut[5..], "http:") {
          ContainsAppendRight(cut[1..5], cut[5..], "http:");
        }
        UpgradeHttpAbsent(cut[5..]);
        assert cut[..5] == "http:";
      } else {
        NotContainsCons(cut, "http:");
        UpgradeHttpAbsent(cut);
      }
    }
  }

  /** An `http:` after the start: Python upgrades it, the user script keeps it. */
  lemma {:induction false} CleanersDiffer(c: char)
    requires c != 'h' && c != '?'
    ensures CleanUrl([c] + "http:") == [c] + "https:"
    ensures CleanImageUrl([c] + "http:") == [c] + "http:"
  {
    var url := [c] + "http:";
    assert '?' !in url;
    ReplaceAllWhole("http:", "http:", "https:");
    ReplaceAllSkip(c, "http:", "http:", "https:");
    JsKeepsUnlessLeading(url);
  }

  /** A URL without `?` that does not start with `h` passes the script's cleaning unchanged. */
  lemma {:induction false} JsKeepsUnlessLeading(url: string)
    requires url != [] && url[0] != 'h' && '?' !in url
    ensures CleanImageUrl(url) == url
  {
    assert BeforeQuery(url) == url;
    assert !StartsWith(url, "http:");
  }

  /** What one gallery `img` contributes: its cleaned `src`, unless that or the `src` is empty. */
  function JsCleanedImage(src: string): seq<string> {
    if src != "" && CleanImageUrl(src) != "" then [CleanImageUrl(src)] else []
  }

  function JsGalleryUrls(srcs: seq<string>): seq<string>
    decreases |srcs|
  {
    if srcs == [] then [] else JsGalleryUrls(srcs[..|srcs| - 1]) + JsCleanedImage(srcs[|srcs| - 1])
  }

  /** `extractImageUrls`: the gallery when it has any `img`, otherwise the cover's `src` property. */
  function JsImageUrls(item: Item): seq<string> {
    if |item.gallery| > 0 then JsGalleryUrls(item.gallery)
    else match item.cover
      case None => []
      case Some(img) => JsCleanedImage(img.srcProp)
  }

  /** Every collected URL is non-empty, has no `?`, and does not start with `http:`. */
  lemma {:induction false} JsGalleryUrlsClean(srcs: seq<string>)
    ensures |JsGalleryUrls(srcs)| <= |srcs|
    ensures forall i :: 0 <= i < |JsGalleryUrls(srcs)| ==>
      var u := JsGalleryUrls(srcs)[i]; u != "" && '?' !in u && !StartsWith(u, "http:")
    decreases |srcs|
  {
    if srcs != [] {
      JsGalleryUrlsClean(srcs[..|srcs| - 1]);
    }
  }

  lemma {:induction false} JsImageUrlsClean(item: Item)
    ensures forall i :: 0 <= i < |JsImageUrls(item)| ==>
      var u := JsImageUrls(item)[i]; u != "" && '?' !in u && !StartsWith(u, "http:")
  {
    JsGalleryUrlsClean(item.gallery);
  }

  // ------------------------------------------------------------ song block

  /** `extractSongInfo`: all four nodes present, or no song; the texts trimmed with JavaScript's `trim`. */
  function JsExtractSongInfo(item: Item): Option<Song> {
    match item.src
    case None => None
    case Some(src) =>
      match src.scnt
      case None => None
      case Some(scnt) =>
        match scnt.title
        case None => None
        case Some(title) =>
          match scnt.artist
          case None => None
          case Some(artist) =>
            Some(Song(Strip(title.text, IsJsSpace), HostUrl(title.href), Strip(artist.text, IsJsSpace), HostUrl(artist.href)))
  }

  /** Both sides find a song in the same items, with the same links; only the trimming of the names may differ. */
  lemma {:induction false} SongsAgree(item: Item)
    ensures JsExtractSongInfo(item).Some? <==> ExtractSongInfo(item).Some?
    ensures JsExtractSongInfo(item).Some? ==>
      JsExtractSongInfo(item).value.url == ExtractSongInfo(item).value.url &&
      JsExtractSongInfo(item).value.artistUrl == ExtractSongInfo(item).value.artistUrl
  {
  }

  // ------------------------------------------------------------ fingerprint

  /** `generateElementId`: the time, a dash, and the first 30 text characters with JavaScript whitespace removed. */
  function JsGenerateElementId(time: string, text: string): (id: string)
    ensures StartsWith(id, time + "-")
    ensures |id| <= |time| + 1 + SnippetLength
    ensures forall i :: |time| < i < |id| ==> !IsJsSpace(id[i])
  {
    time + "-" + RemoveAll(Take(text, SnippetLength), IsJsSpace)
  }

  lemma {:induction false} RemoveAllAgree(s: string, p: char -> bool, q: char -> bool)
    requires forall i :: 0 <= i < |s| ==> p(s[i]) == q(s[i])
    ensures RemoveAll(s, p) == RemoveAll(s, q)
    decreases |s|
  {
    if s != [] {
      assert forall i :: 0 <= i < |s[1..]| ==> s[1..][i] == s[i + 1];
      RemoveAllAgree(s[1..], p, q);
    }
  }

  /** The two fingerprints agree unless the snippet holds a character only one whitespace class contains. */
  lemma {:induction false} FingerprintsAgree(time: string, text: string)
    requires forall i :: 0 <= i < |Take(text, SnippetLength)| ==> !SpaceClassesDiffer(Take(text, SnippetLength)[i])
    ensures JsGenerateElementId(time, text) == GenerateElementId(time, text)
  {
    RemoveAllAgree(Take(text, SnippetLength), IsJsSpace, IsPySpace);
  }

  /** U+001C is whitespace to Python and not to JavaScript, so the same post gets two ids. */
  lemma {:induction false} FingerprintsDiffer()
    ensures GenerateElementId("t", "\U{1C}") == "t-"
    ensures JsGenerateElementId("t", "\U{1C}") == "t-\U{1C}"
  {
    assert RemoveAll("\U{1C}"[1..], IsPySpace) == [];
    assert RemoveAll("\U{1C}"[1..], IsJsSpace) == [];
  }

  // ------------------------------------------------------------ the scan

  /** An entry of `articleArray`: the Python record's fields plus its position `domIndex`; the element reference is not modelled. */
  datatype JsArticle = JsArticle(id: string, time: string, text: string, song: Option<Song>, images: seq<string>, domIndex: nat)

  /** The `.time` text: its `a` child's when it has one, else its own, trimmed. */
  function JsTimeText(t: TimeNode): string {
    match t.link
    case Some(l) => Strip(l, IsJsSpace)
    case None => Strip(t.text, IsJsSpace)
  }

  /** The (time, text) pair of an item with both nodes and both trimmed texts non-empty. */
  function JsCandidate(item: Item): (r: Option<(string, string)>)
    ensures r.Some? ==> r.value.0 != "" && r.value.1 != ""
  {
    match item.time
    case None => None
    case Some(t) =>
      match item.text
      case None => None
      case Some(x) =>
        var time := JsTimeText(t);
        var text := Strip(x, IsJsSpace);
        if time != "" && text != "" then Some((time, text)) else None
  }

  /** `articleArray`, `processedIds` and the `newArticlesFound` flag of a scan in progress. */
  datatype JsScan = JsScan(articles: seq<JsArticle>, ids: set<string>, newFound: bool)

  /** One `forEach` step: an unseen complete item is pushed at the next index and its id recorded. */
  function JsScanStep(s: JsScan, item: Item): JsScan {
    match JsCandidate(item)
    case None => s
    case Some(c) =>
      var id := JsGenerateElementId(c.0, c.1);
      if id in s.ids then s
      else
        var a := JsArticle(id, c.0, c.1, JsExtractSongInfo(item), JsImageUrls(item), |s.articles|);
        JsScan(s.articles + [a], s.ids + {id}, true)
  }

  function JsScanPrefix(items: seq<Item>, k: nat, start: JsScan): JsScan
    requires k <= |items|
    decreases k
  {
    if k == 0 then start else JsScanStep(JsScanPrefix(items, k - 1, start), items[k - 1])
  }

  /** `scanForArticles` on the page (`None` when the iframe document is missing) from the current state. */
  function ScanForArticlesSpec(page: Option<seq<Item>>, articles: seq<JsArticle>, ids: set<string>): JsScan {
    match page
    case None => JsScan(articles, ids, false)
    case Some(items) => JsScanPrefix(items, |items|, JsScan(articles, ids, false))
  }

  /** Each entry's `domIndex` is its index in the array. */
  predicate Indexed(articles: seq<JsArticle>) {
    forall i :: 0 <= i < |articles| ==> articles[i].domIndex == i
  }

  /** Every entry's id is recorded, and no two entries share one. */
  predicate Tracked(s: JsScan) {
    (forall i :: 0 <= i < |s.articles| ==> s.articles[i].id in s.ids) &&
    (forall i, j :: 0 <= i < j < |s.articles| ==> s.articles[i].id != s.articles[j].id)
  }

  /**
   * A scan only appends: earlier entries stay, ids are only added, and
   * `newFound` is set exactly when something was pushed.
   */
  lemma {:induction false} JsScanAppends(items: seq<Item>, k: nat, start: JsScan)
    requires k <= |items|
    ensures var r := JsScanPrefix(items, k, start);
      |start.articles| <= |r.articles| && r.articles[..|start.articles|] == start.articles && start.ids <= r.ids &&
      (r.newFound <==> start.newFound || |r.articles| > |start.articles|)
    decreases k
  {
    if k > 0 {
      JsScanAppends(items, k - 1, start);
      var p := JsScanPrefix(items, k - 1, start);
      JsScanStepAppends(p, items[k - 1]);
      PrefixOfPrefix(start.articles, p.articles, JsScanStep(p, items[k - 1]).articles);
    }
  }

  /** One step pushes at most one entry at the end and only adds ids. */
  lemma {:induction false} JsScanStepAppends(s: JsScan, item: Item)
    ensures var r := JsScanStep(s, item);
      |s.articles| <= |r.articles| && r.articles[..|s.articles|] == s.articles && s.ids <= r.ids &&
      (r.newFound <==> s.newFound || |r.articles| > |s.articles|)
  {
    var r := JsScanStep(s, item);
    if r != s {
      assert r.articles[..|s.articles|] == s.articles;
    }
  }

  lemma {:induction false} PrefixOfPrefix<T>(a: seq<T>, b: seq<T>, c: seq<T>)
    requires |a| <= |b| <= |c| && b[..|a|] == a && c[..|b|] == b
    ensures c[..|a|] == a
  {
    assert c[..|a|] == c[..|b|][..|a|];
  }

  /** Each pushed entry's `domIndex` is the array length before the push, so the indices stay exact. */
  lemma {:induction false} JsScanIndexed(items: seq<Item>, k: nat, start: JsScan)
    requires k <= |items| && Indexed(start.articles)
    ensures Indexed(JsScanPrefix(items, k, start).articles)
    decreases k
  {
    if k > 0 {
      JsScanIndexed(items, k - 1, start);
    }
  }

  lemma {:induction false} JsScanStepTracked(s: JsScan, item: Item)
    requires Tracked(s)
    ensures Tracked(JsScanStep(s, item))
  {
    var r := JsScanStep(s, item);
    if |r.articles| > |s.articles| {
      var n := |s.articles|;
      assert r.articles == s.articles + [r.articles[n]];
      assert r.articles[n].id !in s.ids;
      forall i, j | 0 <= i < j < |r.articles| ensures r.articles[i].id != r.articles[j].id {
        if j == n {
          assert r.articles[i] == s.articles[i];
        }
      }
    }
  }

  /** Admission is at most once: an id already in `processedIds` is never pushed again. */
  lemma {:induction false} JsScanTracked(items: seq<Item>, k: nat, start: JsScan)
    requires k <= |items| && Tracked(start)
    ensures Tracked(JsScanPrefix(items, k, start))
    decreases k
  {
    if k > 0 {
      JsScanTracked(items, k - 1, start);
      JsScanStepTracked(JsScanPrefix(items, k - 1, start), items[k - 1]);
    }
  }

  /** The id of a complete item. */
  function JsItemId(item: Item): string
    requires JsCandidate(item).Some?
  {
    JsGenerateElementId(JsCandidate(item).value.0, JsCandidate(item).value.1)
  }

  /** After a scan, the id of every complete item of the scanned part is recorded. */
  lemma {:induction false} JsScanCovers(items: seq<Item>, k: nat, start: JsScan)
    requires k <= |items|
    ensures forall j :: 0 <= j < k && JsCandidate(items[j]).Some? ==> JsItemId(items[j]) in JsScanPrefix(items, k, start).ids
  {
    forall j | 0 <= j < k && JsCandidate(items[j]).Some? ensures JsItemId(items[j]) in JsScanPrefix(items, k, start).ids {
      JsScanCoversOne(items, k, start, j);
    }
  }

  /** The id of the complete item at `j` is recorded once the scan has passed it. */
  lemma {:induction false} JsScanCoversOne(items: seq<Item>, k: nat, start: JsScan, j: nat)
    requires j < k <= |items| && JsCandidate(items[j]).Some?
    ensures JsItemId(items[j]) in JsScanPrefix(items, k, start).ids
    decreases k
  {
    var p := JsScanPrefix(items, k - 1, start);
    JsScanStepRecords(p, items[k - 1]);
    if j < k - 1 {
      JsScanCoversOne(items, k - 1, start, j);
    }
  }

  /** A step keeps every recorded id and records the id of a complete item. */
  lemma {:induction false} JsScanStepRecords(s: JsScan, item: Item)
    ensures s.ids <= JsScanStep(s, item).ids
    ensures JsCandidate(item).Some? ==> JsItemId(item) in JsScanStep(s, item).ids
  {
  }

  /** A scan of items whose ids are all recorded changes nothing. */
  lemma {:induction false} JsScanOfSeen(items: seq<Item>, k: nat, s: JsScan)
    requires k <= |items|
    requires forall j :: 0 <= j < |items| && JsCandidate(items[j]).Some? ==> JsItemId(items[j]) in s.ids
    ensures JsScanPrefix(items, k, s) == s
    decreases k
  {
    if k > 0 {
      JsScanOfSeen(items, k - 1, s);
    }
  }

  /** A rescan of unchanged content, or one without the iframe, leaves the array as it is and reports nothing new. */
  lemma {:induction false} RescanFindsNothing(page: Option<seq<Item>>, articles: seq<JsArticle>, ids: set<string>)
    ensures var first := ScanForArticlesSpec(page, articles, ids);
      ScanForArticlesSpec(page, first.articles, first.ids) == JsScan(first.articles, first.ids, false)
  {
    if page.Some? {
      var items := page.value;
      var first := ScanForArticlesSpec(page, articles, ids);
      JsScanCovers(items, |items|, JsScan(articles, ids, false));
      JsScanOfSeen(items, |items|, JsScan(first.articles, first.ids, false));
    }
  }

  /** An item with an empty time link: Python still records it, the user script skips it. */
  lemma {:induction false} EmptyTimeDiverges(item: Item, t: string)
    requires item.time == Some(TimeNode(Some(""), t)) && item.text.Some?
    ensures ExtractArticle(item).Some? && ExtractArticle(item).value.time == ""
    ensures JsCandidate(item).None?
  {
    var tn := item.time.value;
    StripEmpty(IsPySpace);
    assert TimeText(tn) == "";
    ExtractArticleComplete(item, "", Strip(item.text.value, IsPySpace));
    StripEmpty(IsJsSpace);
    assert JsTimeText(tn) == "";
  }

  /** The module-level state of the user script that the scan and the reset change. */
  class ScriptState {
    var articleArray: seq<JsArticle>
    var processedIds: set<string>
    var hasScrolledToTop: bool

    constructor ()
      ensures articleArray == [] && processedIds == {} && !hasScrolledToTop
    {
      articleArray := [];
      processedIds := {};
      hasScrolledToTop := false;
    }

    /** `scanForArticles`: pushes every complete, unseen item of the page; returns the array and `newFound`. */
    method ScanForArticles(page: Option<seq<Item>>) returns (articles: seq<JsArticle>, newFound: bool)
      modifies this`articleArray, this`processedIds
      ensures var r := ScanForArticlesSpec(page, old(articleArray), old(processedIds));
        articleArray == r.articles && processedIds == r.ids && newFound == r.newFound
      ensures articles == articleArray
    {
      if page.None? {
        return articleArray, false;
      }
      var dcntcElements := page.value;
      ghost var start := JsScan(articleArray, processedIds, false);
      var newArticlesFound := false;
      for i := 0 to |dcntcElements|
        invariant JsScanPrefix(dcntcElements, i, start) == JsScan(articleArray, processedIds, newArticlesFound)
      {
        newArticlesFound := ScanElement(dcntcElements[i], newArticlesFound);
      }
      return articleArray, newArticlesFound;
    }

    /** The `forEach` callback on one element: pushes it when it is complete and unseen. */
    method ScanElement(elem: Item, found: bool) returns (newFound: bool)
      modifies this`articleArray, this`processedIds
      ensures JsScan(articleArray, processedIds, newFound) == JsScanStep(JsScan(old(articleArray), old(processedIds), found), elem)
    {
      ghost var s := JsScan(articleArray, processedIds, found);
      newFound := found;
      if elem.time.Some? && elem.text.Some? {
        var time := JsTimeText(elem.time.value);
        var text := Strip(elem.text.value, IsJsSpace);
        if time != "" && text != "" {
          assert JsCandidate(elem) == Some((time, text));
          var articleId := JsGenerateElementId(time, text);
          if articleId !in processedIds {
            var song := JsExtractSongInfo(elem);
            var images := JsImageUrls(elem);
            var domIndex := |articleArray|;
            ghost var a := JsArticle(articleId, time, text, song, images, domIndex);
            assert JsScanStep(s, elem) == JsScan(s.articles + [a], s.ids + {articleId}, true);
            articleArray := articleArray + [JsArticle(articleId, time, text, song, images, domIndex)];
            processedIds := processedIds + {articleId};
            newFound := true;
          } else {
            assert JsScanStep(s, elem) == s;
          }
        } else {
          assert JsCandidate(elem).None?;
        }
      } else {
        assert JsCandidate(elem).None?;
      }
    }

    /** `resetAllState`. */
    method ResetAllState()
      modifies this
      ensures articleArray == [] && processedIds == {} && !hasScrolledToTop
    {
      articleArray := [];
      processedIds := {};
      hasScrolledToTop := false;
    }
  }

  /** From the reset state a scan builds an exactly indexed array without repeated ids. */
  lemma {:induction false} ScanAfterReset(page: Option<seq<Item>>)
    ensures var r := ScanForArticlesSpec(page, [], {});
      Indexed(r.articles) && Tracked(r) && (r.newFound <==> r.articles != [])
  {
    if page.Some? {
      var start := JsScan([], {}, false);
      JsScanIndexed(page.value, |page.value|, start);
      JsScanTracked(page.value, |page.value|, start);
      JsScanAppends(page.value, |page.value|, start);
    }
  }

  // ------------------------------------------------------------ range selection

  /** The digits at the head of `s`. */
  function DigitPrefix(s: string): (r: string)
    ensures AllDigits(r) && StartsWith(s, r)
    ensures r == s || !IsDigit(s[|r|])
    decreases |s|
  {
    if s != [] && IsDigit(s[0]) then [s[0]] + DigitPrefix(s[1..]) else []
  }

  /** `parseInt(s)` on a number field's value: leading whitespace, a sign, then the leading digits; `None` for `NaN`. */
  function JsParseInt(s: string): (r: Option<int>)
  {
    var t := TrimStart(s, IsJsSpace);
    var body := if t != [] && (t[0] == '-' || t[0] == '+') then t[1..] else t;
    var digits := DigitPrefix(body);
    if digits == [] then None
    else
      var n: int := DigitsValue(digits);
      Some(if t[0] == '-' then -n else n)
  }

  /** `parseInt(s) || 1`: `NaN` and zero both become 1. */
  function OrOne(n: Option<int>): (r: int)
    ensures r != 0
  {
    if n.None? || n.value == 0 then 1 else n.value
  }

  /** `getSelectedArticles`: the same clamp and slice, reading unparsable or zero entries as 1 and never failing. */
  function JsGetSelectedArticles<T>(articles: seq<T>, startValue: string, endValue: string): (r: seq<T>)
    ensures exists lo, hi :: 0 <= lo <= hi <= |articles| && r == articles[lo..hi]
  {
    assert [] == articles[0..0];
    match ClampedRange(|articles|, OrOne(JsParseInt(startValue)), OrOne(JsParseInt(endValue)))
    case None => []
    case Some(bounds) => articles[bounds.0..bounds.1]
  }

  lemma {:induction false} JsParseNatToString(n: nat)
    ensures JsParseInt(NatToString(n)) == Some(n)
  {
    var d := NatToString(n);
    assert IsDigit(d[0]) && AllDigits(d);
    JsDigitPrefixAll(d);
    NatToStringRoundTrip(n);
  }

  lemma {:induction false} JsDigitPrefixAll(d: string)
    requires AllDigits(d)
    ensures DigitPrefix(d) == d
    decreases |d|
  {
    if d != [] {
      JsDigitPrefixAll(d[1..]);
    }
  }

  /** For entries written as numbers with a positive end, both sides select the same slice. */
  lemma {:induction false} SelectionsAgree<T>(articles: seq<T>, s: nat, e: nat)
    requires e > 0
    ensures GetSelectedArticles(articles, NatToString(s), NatToString(e)).articles ==
            JsGetSelectedArticles(articles, NatToString(s), NatToString(e))
  {
    ParseNatToString(s);
    ParseNatToString(e);
    JsParseNatToString(s);
    JsParseNatToString(e);
    SelectionsAgreeOn(articles, NatToString(s), NatToString(e), s, e);
  }

  /** Entries both sides read as the same start of at least 0 and end above 0 select the same slice. */
  lemma {:induction false} SelectionsAgreeOn<T>(articles: seq<T>, startText: string, endText: string, s: nat, e: nat)
    requires e > 0
    requires ParsePyInt(startText) == Some(s) && ParsePyInt(endText) == Some(e)
    requires JsParseInt(startText) == Some(s) && JsParseInt(endText) == Some(e)
    ensures GetSelectedArticles(articles, startText, endText).articles == JsGetSelectedArticles(articles, startText, endText)
  {
    var js := OrOne(Some(s));
    assert OrOne(Some(e)) == e;
    assert ClampedRange(|articles|, s, e) == ClampedRange(|articles|, js, e);
    PySliceOf(articles, startText, endText, s, e);
    JsSliceOf(articles, startText, endText, js, e);
  }

  /** Python's selection is the slice the clamp gives, or nothing. */
  lemma {:induction false} PySliceOf<T>(articles: seq<T>, startText: string, endText: string, s: int, e: int)
    requires ParsePyInt(startText) == Some(s) && ParsePyInt(endText) == Some(e)
    ensures GetSelectedArticles(articles, startText, endText).articles ==
      match ClampedRange(|articles|, s, e) case None => [] case Some(b) => articles[b.0..b.1]
  {
  }

  /** The user script's selection is the slice the clamp gives, or nothing. */
  lemma {:induction false} JsSliceOf<T>(articles: seq<T>, startValue: string, endValue: string, s: int, e: int)
    requires OrOne(JsParseInt(startValue)) == s && OrOne(JsParseInt(endValue)) == e
    ensures JsGetSelectedArticles(articles, startValue, endValue) ==
      match ClampedRange(|articles|, s, e) case None => [] case Some(b) => articles[b.0..b.1]
  {
  }

  lemma {:induction false} ParseEmpty()
    ensures ParsePyInt("") == None
    ensures JsParseInt("") == None
  {
    assert Strip("", IsPySpace) == "";
    assert TrimStart("", IsJsSpace) == "";
  }

  lemma {:induction false} PyParseOneZero()
    ensures ParsePyInt("1") == Some(1) && ParsePyInt("0") == Some(0)
  {
    PyParseDigit('1');
    PyParseDigit('0');
  }

  lemma {:induction false} JsParseOneZero()
    ensures JsParseInt("1") == Some(1) && JsParseInt("0") == Some(0)
  {
    JsParseNatToString(1);
    JsParseNatToString(0);
    assert NatToString(1) == "1" && NatToString(0) == "0";
  }

  /** With both entries read as 1, the user script selects the first article. */
  lemma {:induction false} JsSelectsFirst<T>(articles: seq<T>, startValue: string, endValue: string)
    requires articles != []
    requires OrOne(JsParseInt(startValue)) == 1 && OrOne(JsParseInt(endValue)) == 1
    ensures JsGetSelectedArticles(articles, startValue, endValue) == articles[..1]
  {
    assert ClampedRange(|articles|, 1, 1) == Some((0, 1));
  }

  /** An empty end entry: Python shows an error and selects nothing, the user script selects the first article. */
  lemma {:induction false} EmptyEndDiverges<T>(articles: seq<T>)
    requires articles != []
    ensures GetSelectedArticles(articles, "1", "") == Selection([], Some(NumberError))
    ensures JsGetSelectedArticles(articles, "1", "") == articles[..1]
  {
    ParseEmpty();
    JsParseOneZero();
    JsSelectsFirst(articles, "1", "");
  }

  /** An end entry of 0: Python reports an empty range, the user script reads it as 1 and selects the first article. */
  lemma {:induction false} ZeroEndDiverges<T>(articles: seq<T>)
    requires articles != []
    ensures GetSelectedArticles(articles, "1", "0") == Selection([], Some(RangeError))
    ensures JsGetSelectedArticles(articles, "1", "0") == articles[..1]
  {
    PyParseOneZero();
    PyZeroEndEmpty(articles, "1", "0");
    JsParseOneZero();
    JsSelectsFirst(articles, "1", "0");
  }

  /** Entries reading 1 and 0 give Python's empty-range error. */
  lemma {:induction false} PyZeroEndEmpty<T>(articles: seq<T>, startText: string, endText: string)
    requires ParsePyInt(startText) == Some(1) && ParsePyInt(endText) == Some(0)
    ensures GetSelectedArticles(articles, startText, endText) == Selection([], Some(RangeError))
  {
    assert ClampedRange(|articles|, 1, 0) == None;
  }

  // ------------------------------------------------------------ copy text

  /** `\s*\/?>` with JavaScript's `\s`. */
  function JsBrTail(s: string): (r: Option<nat>)
    ensures r.Some? ==> 1 <= r.value <= |s|
    decreases |s|
  {
    if s == [] then None
    else if s[0] == '>' then Some(1)
    else if s[0] == '/' then (if |s| >= 2 && s[1] == '>' then Some(2) else None)
    else if IsJsSpace(s[0]) then
      match JsBrTail(s[1..])
      case None => None
      case Some(n) => Some(n + 1)
    else None
  }

  /** `/<br\s*\/?>/i` at the head of `s`: the letters in either case. */
  function JsBrAt(s: string): (r: Option<nat>)
    ensures r.Some? ==> 4 <= r.value <= |s|
  {
    if |s| < 3 || s[0] != '<' || (s[1] != 'b' && s[1] != 'B') || (s[2] != 'r' && s[2] != 'R') then None
    else match JsBrTail(s[3..])
      case None => None
      case Some(n) => Some(n + 3)
  }

  /** `text.replace(/<br\s*\/?>/gi, '\n')`. */
  function JsBrToNewline(s: string): string
    decreases |s|
  {
    if s == [] then []
    else match JsBrAt(s)
      case Some(n) => "\n" + JsBrToNewline(s[n..])
      case None => [s[0]] + JsBrToNewline(s[1..])
  }

  /** One block of the copied text: the time, a line break, and the text with line breaks and no tags (no entity decoding). */
  function JsCopyBlock(a: JsArticle): string {
    a.time + "\n" + StripTags(JsBrToNewline(a.text))
  }

  /** The blocks of the copied articles, in order. */
  function JsCopyBlocks(articles: seq<JsArticle>): (r: seq<string>)
    ensures |r| == |articles|
    decreases |articles|
  {
    if articles == [] then []
    else JsCopyBlocks(articles[..|articles| - 1]) + [JsCopyBlock(articles[|articles| - 1])]
  }

  /** The copied text: the blocks joined by one blank line. */
  function JsCopyText(articles: seq<JsArticle>): string {
    Join(JsCopyBlocks(articles), "\n\n")
  }

  /**
   * The copy button: an empty selection copies nothing (the script alerts
   * instead), any other selection copies its joined blocks, never an empty text.
   */
  function JsCopy(articles: seq<JsArticle>, startValue: string, endValue: string): (r: Option<string>)
    ensures r.None? <==> JsGetSelectedArticles(articles, startValue, endValue) == []
    ensures r.Some? ==> r.value != ""
  {
    var selected := JsGetSelectedArticles(articles, startValue, endValue);
    if selected == [] then None
    else
      JsCopyTextEmpty(selected);
      Some(JsCopyText(selected))
  }

  lemma {:induction false} JsCopyBlocksInOrder(articles: seq<JsArticle>)
    ensures forall i :: 0 <= i < |articles| ==> JsCopyBlocks(articles)[i] == JsCopyBlock(articles[i])
    decreases |articles|
  {
    if articles != [] {
      var init := articles[..|articles| - 1];
      JsCopyBlocksInOrder(init);
      assert forall i :: 0 <= i < |init| ==> init[i] == articles[i];
    }
  }

  /** The copied text is empty exactly when no article is copied: each block holds at least a line break. */
  lemma {:induction false} JsCopyTextEmpty(articles: seq<JsArticle>)
    ensures JsCopyText(articles) == "" <==> articles == []
  {
    var blocks := JsCopyBlocks(articles);
    if articles != [] {
      JsCopyBlocksInOrder(articles);
      assert |blocks[0]| > 0;
      if |blocks| > 1 {
        assert Join(blocks, "\n\n") == blocks[0] + "\n\n" + Join(blocks[1..], "\n\n");
      }
    }
  }

  /** One more article adds one blank line and its block at the end, and nothing else. */
  lemma {:induction false} JsCopyTextSnoc(articles: seq<JsArticle>, a: JsArticle)
    requires articles != []
    ensures JsCopyText(articles + [a]) == JsCopyText(articles) + "\n\n" + JsCopyBlock(a)
  {
    assert (articles + [a])[..|articles|] == articles;
    JoinSnoc(JsCopyBlocks(articles), JsCopyBlock(a), "\n\n");
  }

  /** An upper-case `<BR>`: the user script copies a line break, Python drops the tag and the break with it. */
  lemma {:induction false} UpperBrDiverges()
    ensures JsBrToNewline("<BR>") == "\n"
    ensures BrToNewline("<BR>") == "<BR>"
    ensures StripTags(BrToNewline("<BR>")) == ""
  {
    assert "<BR>"[3..] == ">";
    assert JsBrAt("<BR>") == Some(4);
    assert "<BR>"[4..] == [];
    assert BrAt("<BR>") == None;
    assert BrAt("<BR>"[1..]) == None && BrAt("<BR>"[2..]) == None && BrAt("<BR>"[3..]) == None;
    assert "<BR>"[1..][1..] == "<BR>"[2..] && "<BR>"[2..][1..] == "<BR>"[3..] && "<BR>"[3..][1..] == [];
    assert "BR>"[1..] == "R>";
    assert IndexOf("BR>", '>') == Some(2);
    assert TagAt("<BR>") == Some(4);
  }

  /** An article whose text is an upper-case `<BR>` is copied as its time and a blank line. */
  lemma {:induction false} JsCopyBlockUpperBr(a: JsArticle)
    requires a.text == "<BR>"
    ensures JsCopyBlock(a) == a.time + "\n\n"
    ensures JsCopyText([a]) == a.time + "\n\n"
  {
    UpperBrDiverges();
    assert StripTags("\n") == "\n" by {
      assert "\n"[1..] == [];
    }
    assert [a][..0] == [];
  }

  // ------------------------------------------------------------ export file name

  const DefaultUserName := "网易云音乐用户"

  /** The characters the file name may not hold: `\ / : * ? " < > |`. */
  predicate IsReserved(c: char) {
    c == '\\' || c == '/' || c == ':' || c == '*' || c == '?' || c == '"' || c == '<' || c == '>' || c == '|'
  }

  /** `url.match(/[\?&]id=(\d+)/)[1]`: the digits after the leftmost `?id=` or `&id=` followed by a digit. */
  function IdParam(url: string): (r: Option<string>)
    ensures r.Some? ==> r.value != [] && AllDigits(r.value)
    decreases |url|
  {
    if url == [] then None
    else if |url| >= 5 && (url[0] == '?' || url[0] == '&') && url[1..4] == "id=" && IsDigit(url[4]) then
      Some(DigitPrefix(url[4..]))
    else IdParam(url[1..])
  }

  /** The user name with every reserved character made `_`. */
  function SafeName(userName: string): (r: string)
    ensures |r| == |userName|
    ensures forall i :: 0 <= i < |r| ==> !IsReserved(r[i])
  {
    ReplaceChars(userName, IsReserved, '_')
  }

  /** Digits and underscores, a safe name and `.html` hold no reserved character. */
  lemma {:induction false} FileNameSafe(head: string, safe: string)
    requires forall i :: 0 <= i < |head| ==> head[i] == '_' || IsDigit(head[i])
    requires forall i :: 0 <= i < |safe| ==> !IsReserved(safe[i])
    ensures forall i :: 0 <= i < |head + safe + ".html"| ==> !IsReserved((head + safe + ".html")[i])
  {
    var r := head + safe + ".html";
    forall i | 0 <= i < |r| ensures !IsReserved(r[i]) {
      if i < |head| {
        assert r[i] == head[i];
      } else if i < |head| + |safe| {
        assert r[i] == safe[i - |head|];
      } else {
        assert r[i] == ".html"[i - |head| - |safe|];
      }
    }
  }

  /** The part before the name: the page's id and an underscore, or nothing. */
  function IdHead(url: string): (r: string)
    ensures forall i :: 0 <= i < |r| ==> r[i] == '_' || IsDigit(r[i])
    ensures IdParam(url).Some? ==> r == IdParam(url).value + "_"
    ensures IdParam(url).None? ==> r == ""
  {
    match IdParam(url)
    case Some(userId) => userId + "_"
    case None => ""
  }

  /** The trimmed name, or the default name when it is missing or blank. */
  function UserName(nameText: Option<string>): string {
    var trimmed := match nameText case Some(t) => Strip(t, IsJsSpace) case None => "";
    if trimmed == "" then DefaultUserName else trimmed
  }

  /**
   * `getExportFileName`: the page's id and an underscore when there is one,
   * then the user name (`nameText` is `None` when the iframe or the name
   * element is missing) with every reserved character made `_`, then `.html`.
   */
  function ExportFileName(url: string, nameText: Option<string>): (r: string)
    ensures EndsWith(r, ".html")
    ensures forall i :: 0 <= i < |r| ==> !IsReserved(r[i])
    ensures IdParam(url).Some? ==> StartsWith(r, IdParam(url).value + "_")
  {
    var head := IdHead(url);
    var safe := SafeName(UserName(nameText));
    FileNameSafe(head, safe);
    Framed(head, safe, ".html");
    head + safe + ".html"
  }

  /** A name without reserved characters is kept as it is, just before `.html`. */
  lemma {:induction false} ExportFileNameKeepsName(url: string, nameText: Option<string>)
    requires SafeName(UserName(nameText)) == UserName(nameText)
    ensures EndsWith(ExportFileName(url, nameText), UserName(nameText) + ".html")
  {
    var h := IdHead(url);
    var n := UserName(nameText);
    assert ExportFileName(url, nameText) == h + n + ".html";
    Assoc3(h, n, ".html");
    EndsWithAppend(h, n + ".html");
  }

  /** A name without reserved characters is its own safe form. */
  lemma {:induction false} SafeNameKeeps(name: string)
    requires forall i :: 0 <= i < |name| ==> !IsReserved(name[i])
    ensures SafeName(name) == name
  {
    assert SafeName(name) == name;
  }

  lemma {:induction false} DefaultNameChars()
    ensures forall i :: 0 <= i < |DefaultUserName| ==> !IsReserved(DefaultUserName[i])
  {
    forall i | 0 <= i < |DefaultUserName| ensures !IsReserved(DefaultUserName[i]) {
      assert DefaultUserName[i] > '|';
    }
  }

  /** The default name holds no reserved character. */
  lemma {:induction false} DefaultNameSafe()
    ensures SafeName(DefaultUserName) == DefaultUserName
  {
    DefaultNameChars();
    SafeNameKeeps(DefaultUserName);
  }

  /** Without a usable name the file is named after the default user name. */
  lemma {:induction false} ExportFileNameDefault(url: string, nameText: Option<string>)
    requires nameText.None? || Strip(nameText.value, IsJsSpace) == ""
    ensures EndsWith(ExportFileName(url, nameText), DefaultUserName + ".html")
  {
    DefaultNameSafe();
    assert UserName(nameText) == DefaultUserName;
    ExportFileNameKeepsName(url, nameText);
  }

  lemma {:induction false} IdParamSkips(p: string, s: string)
    requires '?' !in p && '&' !in p
    ensures IdParam(p + s) == IdParam(s)
    decreases |p|
  {
    if p != [] {
      assert (p + s)[1..] == p[1..] + s;
      IdParamSkips(p[1..], s);
    } else {
      assert p + s == s;
    }
  }

  /** The address has no `?` or `&` before the query. */
  lemma {:induction false} EventHostPlain()
    ensures '?' !in EventHost && '&' !in EventHost
  {
  }

  /** The id parameter of a user's feed page is that user's id. */
  lemma {:induction false} EventPageIdParam(userId: string)
    requires userId != [] && AllDigits(userId)
    ensures IdParam(EventPage(userId)) == Some(userId)
  {
    var q := "?id=" + userId;
    assert EventPage(userId) == EventHost + q;
    EventHostPlain();
    IdParamSkips(EventHost, q);
    assert q[1..4] == "id=" && q[4..] == userId;
    JsDigitPrefixAll(userId);
  }

  /** The page the desktop application loads for a user id names the export after that id. */
  lemma {:induction false} ExportNamedAfterEventPage(entry: string, nameText: Option<string>)
    requires UserId(entry).Some?
    ensures StartsWith(ExportFileName(EventPage(UserId(entry).value), nameText), UserId(entry).value + "_")
  {
    EventPageIdParam(UserId(entry).value);
  }
}
