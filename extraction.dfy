/**
 * Record extraction on the Python side (netease/crawler.py): the fingerprint
 * of a post, the song block, the image list, and the specification of one
 * scan of the page (`scan_all_articles`) as a fold over the `.dcntc` items.
 */
module Extraction {
  import opened Wrappers
  import opened Text
  import opened Records

  /** Number of leading text characters that enter the fingerprint. */
  const SnippetLength: nat := 30
  const MusicHost := "https://music.163.com"

  // ------------------------------------------------------------ fingerprint

  /** `generate_element_id`: the time, a dash, and the first 30 text characters with whitespace removed. */
  function GenerateElementId(time: string, text: string): (id: string)
    ensures StartsWith(id, time + "-")
    ensures |id| <= |time| + 1 + SnippetLength
    ensures forall i :: |time| < i < |id| ==> !IsPySpace(id[i])
  {
    time + "-" + RemoveAll(Take(text, SnippetLength), IsPySpace)
  }

  /** Two texts that agree on their first 30 characters collide: the documented identity limitation. */
  lemma {:induction false} SnippetCollision(time: string, a: string, b: string)
    requires Take(a, SnippetLength) == Take(b, SnippetLength)
    ensures GenerateElementId(time, a) == GenerateElementId(time, b)
  {
  }

  /** When display times carry no dash, the fingerprint determines the time. */
  lemma {:induction false} FingerprintDeterminesTime(t1: string, x1: string, t2: string, x2: string)
    requires '-' !in t1 && '-' !in t2
    requires GenerateElementId(t1, x1) == GenerateElementId(t2, x2)
    ensures t1 == t2
  {
    DashAfterTime(t1, x1);
    DashAfterTime(t2, x2);
    var id := GenerateElementId(t1, x1);
    if |t1| < |t2| {
      assert false;
    } else if |t2| < |t1| {
      assert false;
    } else {
      assert forall i :: 0 <= i < |t1| ==> t1[i] == id[i] == t2[i];
    }
  }

  /** Without a dash in the time, the first dash of the fingerprint follows the time. */
  lemma {:induction false} DashAfterTime(time: string, text: string)
    requires '-' !in time
    ensures var id := GenerateElementId(time, text);
      id[|time|] == '-' && forall i :: 0 <= i < |time| ==> id[i] == time[i] && id[i] != '-'
  {
    var id := GenerateElementId(time, text);
    assert id[..|time| + 1] == time + "-";
    forall i | 0 <= i < |time| ensures id[i] == time[i] {
      assert id[..|time| + 1][i] == time[i];
    }
    assert id[..|time| + 1][|time|] == '-';
  }

  // ------------------------------------------------------------ song block

  /** An `href` turned into an absolute link, or "" for an empty one. */
  function HostUrl(href: string): string {
    if href == "" then "" else MusicHost + href
  }

  /** `extract_song_info`: all four nodes present, or no song at all. */
  function ExtractSongInfo(item: Item): (r: Option<Song>)
    ensures r.Some? <==>
      item.src.Some? && item.src.value.scnt.Some?
      && item.src.value.scnt.value.title.Some? && item.src.value.scnt.value.artist.Some?
    ensures r.Some? ==>
      var title := item.src.value.scnt.value.title.value;
      var artist := item.src.value.scnt.value.artist.value;
      r.value == Song(Strip(title.text, IsPySpace), HostUrl(title.href), Strip(artist.text, IsPySpace), HostUrl(artist.href))
  {
    match item.src
    case None => None
    case Some(src) =>
      match src.scnt
      case None => None
      case Some(scnt) =>
        match scnt.title
        case None => None
        case Some(title) =>
          match scnt.artist
          case None => None
          case Some(artist) =>
            Some(Song(Strip(title.text, IsPySpace), HostUrl(title.href), Strip(artist.text, IsPySpace), HostUrl(artist.href)))
  }

  // ------------------------------------------------------------ image URLs

  function UpgradeHttp(s: string): string {
    ReplaceAll(s, "http:", "https:")
  }

  /** A text without `http:` is left alone by the upgrade. */
  lemma {:induction false} UpgradeHttpAbsent(s: string)
    requires !Contains(s, "http:")
    ensures UpgradeHttp(s) == s
    decreases |s|
  {
    if |s| >= 5 {
      assert !StartsWith(s, "http:");
      UpgradeHttpAbsent(s[1..]);
      assert s == [s[0]] + s[1..];
    }
  }

  /** If the rewritten text starts with a pattern without `h`, so did the original. */
  lemma {:induction false} UpgradeHttpPrefix(s: string, p: string)
    requires 'h' !in p
    requires StartsWith(UpgradeHttp(s), p)
    ensures StartsWith(s, p)
    decreases |s|
  {
    if |s| < 5 {
    } else if s[..5] == "http:" {
      assert UpgradeHttp(s)[0] == 'h';
    } else if p != [] {
      var r := UpgradeHttp(s[1..]);
      assert UpgradeHttp(s) == [s[0]] + r;
      assert StartsWith(r, p[1..]) by {
        assert (UpgradeHttp(s))[1..|p|] == r[..|p| - 1];
      }
      UpgradeHttpPrefix(s[1..], p[1..]);
      assert s[..|p|] == [s[0]] + s[1..][..|p| - 1];
    }
  }

  lemma {:induction false} ShortNoContains(s: string, p: string)
    requires |s| < |p|
    ensures !Contains(s, p)
    decreases |s|
  {
    if s != [] {
      ShortNoContains(s[1..], p);
    }
  }

  lemma {:induction false} NotContainsCons(s: string, p: string)
    requires s != [] && !StartsWith(s, p) && !Contains(s[1..], p)
    ensures !Contains(s, p)
  {
  }

  /** A character other than `h` put in front of a text without `http:` creates none. */
  lemma {:induction false} ConsNotH(c: char, x: string)
    requires c != 'h' && !Contains(x, "http:")
    ensures !Contains([c] + x, "http:")
  {
    assert ([c] + x)[1..] == x;
    assert !StartsWith([c] + x, "http:") by {
      if |[c] + x| >= 5 {
        assert ([c] + x)[..5][0] == c;
      }
    }
    NotContainsCons([c] + x, "http:");
  }

  /** Putting `https:` in front of a text without `http:` creates no `http:`. */
  lemma {:induction false} HttpsPrefixClean(x: string)
    requires !Contains(x, "http:")
    ensures !Contains("https:" + x, "http:")
  {
    var y5 := [':'] + x;
    ConsNotH(':', x);
    var y4 := ['s'] + y5;
    ConsNotH('s', y5);
    var y3 := ['p'] + y4;
    ConsNotH('p', y4);
    var y2 := ['t'] + y3;
    ConsNotH('t', y3);
    var y1 := ['t'] + y2;
    ConsNotH('t', y2);
    var r := ['h'] + y1;
    assert r[1..] == y1 && r[4] == 's';
    NotContainsCons(r, "http:");
    assert r == "https:" + x;
  }

  /** Python's `replace("http:", "https:")` leaves no `http:` anywhere, not only at the start. */
  lemma {:induction false} UpgradeHttpComplete(s: string)
    ensures !Contains(UpgradeHttp(s), "http:")
    decreases |s|
  {
    if |s| < 5 {
      ShortNoContains(s, "http:");
    } else if s[..5] == "http:" {
      UpgradeHttpComplete(s[5..]);
      HttpsPrefixClean(UpgradeHttp(s[5..]));
    } else {
      UpgradeHttpComplete(s[1..]);
      UpgradeHttpKeepsOther(s);
    }
  }

  /** When `s` does not start with `http:`, its first character is kept and cannot begin an `http:`. */
  lemma {:induction false} UpgradeHttpKeepsOther(s: string)
    requires |s| >= 5 && s[..5] != "http:"
    requires !Contains(UpgradeHttp(s[1..]), "http:")
    ensures !Contains(UpgradeHttp(s), "http:")
  {
    var x := UpgradeHttp(s[1..]);
    var r := UpgradeHttp(s);
    assert r == [s[0]] + x;
    assert r[1..] == x;
    if StartsWith(r, "http:") {
      assert StartsWith(x, "ttp:") by { assert x[..4] == r[1..5]; }
      UpgradeHttpPrefix(s[1..], "ttp:");
      assert false;
    }
    NotContainsCons(r, "http:");
  }

  /** `src.split("?")[0].replace("http:", "https:")`. */
  function CleanUrl(src: string): (r: string)
    ensures '?' !in r
    ensures !Contains(r, "http:")
  {
    var cut := BeforeQuery(src);
    UpgradeHttpComplete(cut);
    UpgradeHttpNoQuestion(cut);
    UpgradeHttp(cut)
  }

  lemma {:induction false} UpgradeHttpNoQuestion(s: string)
    requires '?' !in s
    ensures '?' !in UpgradeHttp(s)
    decreases |s|
  {
    if |s| < 5 {
    } else if s[..5] == "http:" {
      UpgradeHttpNoQuestion(s[5..]);
    } else {
      UpgradeHttpNoQuestion(s[1..]);
    }
  }

  /** What one gallery `img` contributes: its cleaned URL, unless `src` or the cleaned URL is empty. */
  function CleanedImage(src: string): seq<string> {
    if src != "" && CleanUrl(src) != "" then [CleanUrl(src)] else []
  }

  /** The cleaned URLs of the gallery images, in document order. */
  function GalleryUrls(srcs: seq<string>): seq<string>
    decreases |srcs|
  {
    if srcs == [] then [] else GalleryUrls(srcs[..|srcs| - 1]) + CleanedImage(srcs[|srcs| - 1])
  }

  /** What the cover image contributes when there is no gallery. */
  function CoverUrls(cover: Option<CoverImg>): seq<string> {
    match cover
    case None => []
    case Some(img) => if img.srcAttr != "" && CleanUrl(img.srcAttr) != "" then [CleanUrl(img.srcAttr)] else []
  }

  /** `extract_image_urls`: the gallery when it has any `img` element, otherwise the cover. */
  function ImageUrls(item: Item): seq<string> {
    if |item.gallery| > 0 then GalleryUrls(item.gallery) else CoverUrls(item.cover)
  }

  /** Every gallery URL is non-empty, query-free, upgraded, and cleaned from some gallery `src`. */
  lemma {:induction false} GalleryUrlsClean(srcs: seq<string>)
    ensures |GalleryUrls(srcs)| <= |srcs|
    ensures forall u :: u in GalleryUrls(srcs) ==>
      u != "" && '?' !in u && !Contains(u, "http:") && exists i :: 0 <= i < |srcs| && u == CleanUrl(srcs[i])
    decreases |srcs|
  {
    if srcs != [] {
      var init := srcs[..|srcs| - 1];
      GalleryUrlsClean(init);
      forall u | u in GalleryUrls(srcs)
        ensures exists i :: 0 <= i < |srcs| && u == CleanUrl(srcs[i])
      {
        if u in GalleryUrls(init) {
          var i :| 0 <= i < |init| && u == CleanUrl(init[i]);
          assert srcs[i] == init[i];
        } else {
          assert u == CleanUrl(srcs[|srcs| - 1]);
        }
      }
    }
  }

  /** The image list: clean URLs; the cover is consulted only when the gallery has no element. */
  lemma {:induction false} ImageUrlsClean(item: Item)
    ensures forall u :: u in ImageUrls(item) ==> u != "" && '?' !in u && !Contains(u, "http:")
    ensures |item.gallery| > 0 ==>
      forall u :: u in ImageUrls(item) ==> exists i :: 0 <= i < |item.gallery| && u == CleanUrl(item.gallery[i])
    ensures |item.gallery| == 0 ==>
      |ImageUrls(item)| <= 1 && (ImageUrls(item) != [] ==> item.cover.Some? && ImageUrls(item)[0] == CleanUrl(item.cover.value.srcAttr))
  {
    GalleryUrlsClean(item.gallery);
  }

  /** `extract_image_urls` with its append loop over the gallery elements. */
  method ExtractImageUrls(item: Item) returns (imageUrls: seq<string>)
    ensures imageUrls == ImageUrls(item)
  {
    imageUrls := [];
    var imageElements := item.gallery;
    if |imageElements| > 0 {
      var i := 0;
      while i < |imageElements|
        invariant 0 <= i <= |imageElements|
        invariant imageUrls == GalleryUrls(imageElements[..i])
      {
        var src := imageElements[i];
        if src != "" {
          var cleanSrc := CleanUrl(src);
          if cleanSrc != "" {
            imageUrls := imageUrls + [cleanSrc];
          }
        }
        assert imageElements[..i + 1][..i] == imageElements[..i];
        i := i + 1;
      }
      assert imageElements[..i] == imageElements;
    } else {
      match item.cover
      case Some(coverImg) =>
        if coverImg.srcAttr != "" {
          var cleanSrc := CleanUrl(coverImg.srcAttr);
          if cleanSrc != "" {
            imageUrls := imageUrls + [cleanSrc];
          }
        }
      case None =>
    }
  }

  // ------------------------------------------------------------ one scan

  /** The display time: the text of the `a` inside `.time` when there is one, else the text of `.time`, stripped. */
  function TimeText(t: TimeNode): string {
    match t.link
    case Some(l) => Strip(l, IsPySpace)
    case None => Strip(t.text, IsPySpace)
  }

  /** The (time, text) pair of an item, or `None` when `.time` or `.text` is missing. */
  function Candidate(item: Item): Option<(string, string)> {
    match item.time
    case None => None
    case Some(t) =>
      match item.text
      case None => None
      case Some(x) => Some((TimeText(t), Strip(x, IsPySpace)))
  }

  /** The record built for a complete item; its id is the fingerprint of its time and text. */
  function ExtractArticle(item: Item): (r: Option<Article>)
    ensures r.Some? <==> Candidate(item).Some?
    ensures r.Some? ==> r.value.id == GenerateElementId(Candidate(item).value.0, Candidate(item).value.1)
  {
    match Candidate(item)
    case None => None
    case Some(c) => Some(Article(GenerateElementId(c.0, c.1), c.0, c.1, ExtractSongInfo(item), ImageUrls(item)))
  }

  /** An item lacking `.time` or `.text` yields no record. */
  lemma {:induction false} ExtractArticleIncomplete(item: Item)
    requires item.time.None? || item.text.None?
    ensures ExtractArticle(item) == None
  {
  }

  /** A complete item yields the record built from its stripped time and text. */
  lemma {:induction false} ExtractArticleComplete(item: Item, timeText: string, textHtml: string)
    requires item.time.Some? && item.text.Some?
    requires timeText == TimeText(item.time.value) && textHtml == Strip(item.text.value, IsPySpace)
    ensures ExtractArticle(item) ==
      Some(Article(GenerateElementId(timeText, textHtml), timeText, textHtml, ExtractSongInfo(item), ImageUrls(item)))
  {
    assert Candidate(item) == Some((timeText, textHtml));
  }

  function ProgressMessage(i: nat, n: nat): Message {
    [Literal("处理文章 "), Number(i + 1), Literal("/"), Number(n), Literal("...")]
  }

  /** State after a scan: the admitted articles, the processed-id set, and the updates sent. */
  datatype Scan = Scan(articles: seq<Article>, ids: set<string>, updates: seq<Update>)

  /**
   * One iteration of the scan loop over `item`: a progress status, then the
   * item is admitted when `extract` yields a record whose id is unseen, and
   * skipped otherwise.
   */
  function ScanStep(extract: Item -> Option<Article>, prev: Scan, item: Item, progress: Message): Scan {
    var withProgress := prev.updates + [Status(progress)];
    match extract(item)
    case None => Scan(prev.articles, prev.ids, withProgress)
    case Some(a) =>
      if a.id in prev.ids then Scan(prev.articles, prev.ids, withProgress)
      else Scan(prev.articles + [a], prev.ids + {a.id}, withProgress + [NewArticle(a)])
  }

  /** The scan of `items[..k]` starting from the processed-id set `ids`. */
  function ScanPrefix(extract: Item -> Option<Article>, items: seq<Item>, k: nat, ids: set<string>): Scan
    requires k <= |items|
    decreases k
  {
    if k == 0 then Scan([], ids, [])
    else ScanStep(extract, ScanPrefix(extract, items, k - 1, ids), items[k - 1], ProgressMessage(k - 1, |items|))
  }

  /** The scan of a whole snapshot with the record extractor `extract`. */
  function ScanWith(extract: Item -> Option<Article>, items: seq<Item>, ids: set<string>): Scan {
    ScanPrefix(extract, items, |items|, ids)
  }

  /** `scan_all_articles` over a whole snapshot of the feed. */
  function ScanSpec(items: seq<Item>, ids: set<string>): Scan {
    ScanWith(ExtractArticle, items, ids)
  }

  /** The scan of one more item is one more step. */
  lemma {:induction false} ScanPrefixNext(extract: Item -> Option<Article>, items: seq<Item>, i: nat, ids: set<string>)
    requires i < |items|
    ensures ScanPrefix(extract, items, i + 1, ids) ==
      ScanStep(extract, ScanPrefix(extract, items, i, ids), items[i], ProgressMessage(i, |items|))
  {
  }

  /** A skipped item only adds its progress status. */
  lemma {:induction false} ScanStepSkip(extract: Item -> Option<Article>, prev: Scan, item: Item, progress: Message)
    requires extract(item).None? || extract(item).value.id in prev.ids
    ensures ScanStep(extract, prev, item, progress) == Scan(prev.articles, prev.ids, prev.updates + [Status(progress)])
  {
  }

  /** An admitted item adds its record, its id, its progress status and its `new_article` event. */
  lemma {:induction false} ScanStepAdmit(extract: Item -> Option<Article>, prev: Scan, item: Item, progress: Message, a: Article)
    requires extract(item) == Some(a) && a.id !in prev.ids
    ensures ScanStep(extract, prev, item, progress) ==
      Scan(prev.articles + [a], prev.ids + {a.id}, prev.updates + [Status(progress), NewArticle(a)])
  {
  }

  /** A step's events come after whatever the update list already held. */
  lemma {:induction false} ScanStepShift(extract: Item -> Option<Article>, prev: Scan, item: Item, progress: Message, before: seq<Update>)
    ensures var st := ScanStep(extract, prev, item, progress);
      ScanStep(extract, Scan(prev.articles, prev.ids, before + prev.updates), item, progress) ==
      Scan(st.articles, st.ids, before + st.updates)
  {
  }

  function IdSet(arts: seq<Article>): set<string> {
    set i | 0 <= i < |arts| :: arts[i].id
  }

  predicate DistinctIds(arts: seq<Article>) {
    forall i, j :: 0 <= i < j < |arts| ==> arts[i].id != arts[j].id
  }

  lemma {:induction false} IdSetSnoc(arts: seq<Article>, a: Article)
    ensures IdSet(arts + [a]) == IdSet(arts) + {a.id}
  {
    var r := arts + [a];
    forall x | x in IdSet(r) ensures x in IdSet(arts) + {a.id} {
      var i :| 0 <= i < |r| && x == r[i].id;
      if i < |arts| { assert r[i] == arts[i]; }
    }
    forall x | x in IdSet(arts) + {a.id} ensures x in IdSet(r) {
      if x in IdSet(arts) {
        var i :| 0 <= i < |arts| && x == arts[i].id;
        assert r[i] == arts[i];
      } else {
        assert r[|arts|].id == x;
      }
    }
  }

  /**
   * Admission is at most once: the admitted ids are pairwise distinct, none
   * was processed before, and the processed set grows by exactly them.
   */
  lemma {:induction false} ScanAdmitsAtMostOnce(extract: Item -> Option<Article>, items: seq<Item>, k: nat, ids: set<string>)
    requires k <= |items|
    ensures var r := ScanPrefix(extract, items, k, ids);
      DistinctIds(r.articles)
      && (forall a :: a in r.articles ==> a.id !in ids)
      && r.ids == ids + IdSet(r.articles)
    decreases k
  {
    if k > 0 {
      ScanAdmitsAtMostOnce(extract, items, k - 1, ids);
      var prev := ScanPrefix(extract, items, k - 1, ids);
      var r := ScanPrefix(extract, items, k, ids);
      if r.articles != prev.articles {
        var a := extract(items[k - 1]).value;
        assert r.articles == prev.articles + [a];
        IdSetSnoc(prev.articles, a);
        forall i | 0 <= i < |prev.articles| ensures prev.articles[i].id != a.id {
          assert prev.articles[i].id in IdSet(prev.articles);
        }
      }
    }
  }

  /** Every id extracted from `items[..k]` is in the processed set afterwards, and nothing is removed from it. */
  lemma {:induction false} ScanCoversExtracted(extract: Item -> Option<Article>, items: seq<Item>, k: nat, ids: set<string>)
    requires k <= |items|
    ensures ids <= ScanPrefix(extract, items, k, ids).ids
    ensures forall j :: 0 <= j < k && extract(items[j]).Some? ==> extract(items[j]).value.id in ScanPrefix(extract, items, k, ids).ids
    decreases k
  {
    if k > 0 {
      ScanCoversExtracted(extract, items, k - 1, ids);
    }
  }

  /** A scan from a set that already holds every extracted id admits nothing and leaves the set as it was. */
  lemma {:induction false} ScanOfSeenAdmitsNothing(extract: Item -> Option<Article>, items: seq<Item>, k: nat, ids: set<string>)
    requires k <= |items|
    requires forall j :: 0 <= j < |items| && extract(items[j]).Some? ==> extract(items[j]).value.id in ids
    ensures ScanPrefix(extract, items, k, ids).articles == []
    ensures ScanPrefix(extract, items, k, ids).ids == ids
    decreases k
  {
    if k > 0 {
      ScanOfSeenAdmitsNothing(extract, items, k - 1, ids);
    }
  }

  /** Idempotence: scanning the same snapshot again returns no article and leaves the processed set unchanged. */
  lemma {:induction false} ScanIdempotent(items: seq<Item>, ids: set<string>)
    ensures var first := ScanSpec(items, ids);
      ScanSpec(items, first.ids).articles == [] && ScanSpec(items, first.ids).ids == first.ids
  {
    ScanCoversExtracted(ExtractArticle, items, |items|, ids);
    ScanOfSeenAdmitsNothing(ExtractArticle, items, |items|, ScanSpec(items, ids).ids);
  }

  /** An item lacking `.time` or `.text`, or one already processed, changes neither the result nor the processed set. */
  lemma {:induction false} ScanSkips(items: seq<Item>, j: nat, ids: set<string>)
    requires j < |items|
    requires ExtractArticle(items[j]).None? || ExtractArticle(items[j]).value.id in ScanPrefix(ExtractArticle, items, j, ids).ids
    ensures ScanPrefix(ExtractArticle, items, j + 1, ids).articles == ScanPrefix(ExtractArticle, items, j, ids).articles
    ensures ScanPrefix(ExtractArticle, items, j + 1, ids).ids == ScanPrefix(ExtractArticle, items, j, ids).ids
  {
  }

  /**
   * The returned list follows document order: article `m` is the record of
   * item `idx[m]`, and the indices strictly increase.
   */
  lemma {:induction false} ScanPreservesOrder(extract: Item -> Option<Article>, items: seq<Item>, k: nat, ids: set<string>)
    returns (idx: seq<nat>)
    requires k <= |items|
    ensures var r := ScanPrefix(extract, items, k, ids);
      |idx| == |r.articles|
      && (forall m :: 0 <= m < |idx| ==> idx[m] < k && extract(items[idx[m]]) == Some(r.articles[m]))
      && (forall m, n :: 0 <= m < n < |idx| ==> idx[m] < idx[n])
    decreases k
  {
    if k == 0 {
      idx := [];
    } else {
      idx := ScanPreservesOrder(extract, items, k - 1, ids);
      var prev := ScanPrefix(extract, items, k - 1, ids);
      var r := ScanPrefix(extract, items, k, ids);
      if r.articles != prev.articles {
        idx := idx + [k - 1];
      }
    }
  }

  /** One scan step keeps the events in step with the admitted records. */
  lemma {:induction false} StepEvents(extract: Item -> Option<Article>, prev: Scan, item: Item, progress: Message, m: nat)
    requires NewArticles(prev.updates) == prev.articles && |prev.updates| == m + |prev.articles|
    ensures var r := ScanStep(extract, prev, item, progress);
      NewArticles(r.updates) == r.articles && |r.updates| == m + 1 + |r.articles|
  {
    var status := Status(progress);
    NewArticlesAppend(prev.updates, [status]);
    assert NewArticles([status]) == [];
    if extract(item).Some? && extract(item).value.id !in prev.ids {
      var a := extract(item).value;
      NewArticlesAppend(prev.updates + [status], [NewArticle(a)]);
      assert NewArticles([NewArticle(a)]) == [a];
    }
  }

  /** Each admitted record produces exactly one `new_article` event, and every item one progress status. */
  lemma {:induction false} ScanOneEventPerArticle(extract: Item -> Option<Article>, items: seq<Item>, k: nat, ids: set<string>)
    requires k <= |items|
    ensures var r := ScanPrefix(extract, items, k, ids);
      NewArticles(r.updates) == r.articles && |r.updates| == k + |r.articles|
    decreases k
  {
    if k > 0 {
      ScanOneEventPerArticle(extract, items, k - 1, ids);
      StepEvents(extract, ScanPrefix(extract, items, k - 1, ids), items[k - 1], ProgressMessage(k - 1, |items|), k - 1);
    }
  }
}
