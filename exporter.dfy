/**
 * The two exports of netease/exporter.py: the plain-text clipboard copy,
 * and the standalone HTML document with its per-image progress events. The
 * HTTP session and the base64 codec are parameters; both exports see the
 * article records as the window holds them.
 */
module Exporter {
  import opened Wrappers
  import opened Text
  import opened Records
  import opened Extraction
  import opened DataProcessor

  // ------------------------------------------------------------ copy_to_clipboard

  /** What one article contributes to the clipboard: its time, a line break, then its plain text. */
  function ClipboardBlock(a: Article, unescape: string -> string): string {
    a.time + "\n" + PlainTextFromHtml(a.text, unescape)
  }

  /** The clipboard blocks of `articles`, in input order. */
  function ClipboardBlocks(articles: seq<Article>, unescape: string -> string): (r: seq<string>)
    ensures |r| == |articles|
    decreases |articles|
  {
    if articles == [] then []
    else ClipboardBlocks(articles[..|articles| - 1], unescape) + [ClipboardBlock(articles[|articles| - 1], unescape)]
  }

  /** The clipboard text: the blocks joined by one blank line. */
  function ClipboardText(articles: seq<Article>, unescape: string -> string): string {
    Join(ClipboardBlocks(articles, unescape), "\n\n")
  }

  /** `copy_to_clipboard`; `unescape` stands for `html.unescape`. */
  method CopyToClipboard(articles: seq<Article>, unescape: string -> string) returns (result: string)
    ensures result == ClipboardText(articles, unescape)
  {
    var copyText: seq<string> := [];
    for i := 0 to |articles|
      invariant copyText == ClipboardBlocks(articles[..i], unescape)
    {
      var timeText := articles[i].time;
      var plainText := PlainTextFromHtml(articles[i].text, unescape);
      var articleText := timeText + "\n" + plainText;
      assert articles[..i + 1][..i] == articles[..i];
      copyText := copyText + [articleText];
    }
    assert articles[..|articles|] == articles;
    result := Join(copyText, "\n\n");
  }

  /** Block `i` of the clipboard is the block of article `i`. */
  lemma {:induction false} ClipboardBlocksInOrder(articles: seq<Article>, unescape: string -> string)
    ensures forall i :: 0 <= i < |articles| ==> ClipboardBlocks(articles, unescape)[i] == ClipboardBlock(articles[i], unescape)
    decreases |articles|
  {
    if articles != [] {
      var init := articles[..|articles| - 1];
      ClipboardBlocksInOrder(init, unescape);
      assert forall i :: 0 <= i < |init| ==> init[i] == articles[i];
    }
  }

  /** The clipboard text is empty exactly when there is no article: each block holds at least a line break. */
  lemma {:induction false} ClipboardTextEmpty(articles: seq<Article>, unescape: string -> string)
    ensures ClipboardText(articles, unescape) == "" <==> articles == []
  {
    var blocks := ClipboardBlocks(articles, unescape);
    if articles != [] {
      ClipboardBlocksInOrder(articles, unescape);
      assert |blocks[0]| > 0;
      if |blocks| > 1 {
        assert Join(blocks, "\n\n") == blocks[0] + "\n\n" + Join(blocks[1..], "\n\n");
      }
    }
  }

  /** One more article adds one blank line and its block at the end, and nothing else. */
  lemma {:induction false} ClipboardTextSnoc(articles: seq<Article>, a: Article, unescape: string -> string)
    requires articles != []
    ensures ClipboardText(articles + [a], unescape) == ClipboardText(articles, unescape) + "\n\n" + ClipboardBlock(a, unescape)
  {
    assert (articles + [a])[..|articles|] == articles;
    JoinSnoc(ClipboardBlocks(articles, unescape), ClipboardBlock(a, unescape), "\n\n");
  }

  /** A single article is copied as its block alone; an empty text leaves the time and a line break. */
  lemma {:induction false} ClipboardTextSingle(a: Article, unescape: string -> string)
    ensures ClipboardText([a], unescape) == ClipboardBlock(a, unescape)
    ensures a.text == "" ==> ClipboardText([a], unescape) == a.time + "\n"
  {
    assert [a][..0] == [];
  }

  // ------------------------------------------------------------ convert_image_to_base64

  /** What the HTTP session gives back for a GET: a response, or an exception raised while fetching or reading. */
  datatype Fetched = Response(status: int, body: seq<bv8>, contentType: Option<string>) | Raised(error: string)

  /** The network side of the export: `session.get` and `base64.b64encode(...).decode('utf-8')`. */
  datatype Session = Session(get: string -> Fetched, b64encode: seq<bv8> -> string)

  predicate Fetches(f: Fetched) {
    f.Response? && f.status == 200
  }

  /** The MIME type of a successful response: its `Content-Type` header, `image/jpeg` when it has none. */
  function MimeType(f: Fetched): string
    requires f.Response?
  {
    if f.contentType.Some? then f.contentType.value else "image/jpeg"
  }

  /**
   * `convert_image_to_base64`: `""` for an empty URL, for a status other
   * than 200 and for any exception; otherwise a `data:` URL. Every `http:`
   * in the URL is fetched as `https:`.
   */
  function ConvertImageToBase64(url: string, session: Session): (r: string)
    ensures r == "" <==> url == "" || !Fetches(session.get(UpgradeHttp(url)))
    ensures r != "" ==> r == "data:" + MimeType(session.get(UpgradeHttp(url))) + ";base64,"
                             + session.b64encode(session.get(UpgradeHttp(url)).body)
  {
    if url == "" then ""
    else
      var secureUrl := UpgradeHttp(url);
      match session.get(secureUrl)
      case Raised(_) => ""
      case Response(status, body, _) =>
        if status == 200 then "data:" + MimeType(session.get(secureUrl)) + ";base64," + session.b64encode(body)
        else ""
  }

  /** The image fetch asks the session for the cleaned URL itself: cleaning has already upgraded every `http:`. */
  lemma {:induction false} FetchesCleanUrl(src: string, session: Session)
    ensures ConvertImageToBase64(CleanUrl(src), session) == ""
            <==> CleanUrl(src) == "" || !Fetches(session.get(CleanUrl(src)))
  {
    UpgradeHttpAbsent(CleanUrl(src));
  }

  // ------------------------------------------------------------ generate_html_content

  /** The export settings the window passes: `imageSize` and `useBase64Images`. */
  datatype Settings = Settings(imageSize: int, useBase64Images: bool)

  const HeadStart: string :=
    "<!DOCTYPE html>\n<html lang=\"zh-CN\">\n<head>\n"
    + "<meta charset=\"UTF-8\">\n"
    + "<title>网易云音乐动态导出</title>\n"
    + "<style>\n"
    + "body { font-family: Arial, sans-serif; max-width: 800px; margin: 0 auto; padding: 20px; }\n"
    + ".article { border-bottom: 1px solid #eee; padding: 20px 0; }\n"
    + ".time { color: #888; margin-bottom: 10px; }\n"
    + ".text { white-space: pre-wrap; line-height: 1.6; }\n"
    + ".song { background-color: #f7f7f7; padding: 10px; margin: 10px 0; border-radius: 5px; }\n"
    + ".song a { color: #0c73c2; text-decoration: none; }\n"
    + ".song a:hover { text-decoration: underline; }\n"
    + ".images { display: flex; flex-wrap: wrap; gap: 10px; margin-top: 10px; }\n"

  /** The CSS rule sizing the thumbnails: width and height are both the configured size. */
  function ImageRule(size: int): string {
    ".images img { width: " + IntToString(size) + "px; height: " + IntToString(size)
    + "px; object-fit: cover; border-radius: 3px; cursor: pointer; }\n"
  }

  /** The thumbnail size can be read back from the rule: different sizes give different rules. */
  lemma {:induction false} ImageRuleInjective(a: int, b: int)
    requires ImageRule(a) == ImageRule(b)
    ensures a == b
  {
    IntToStringNoP(a);
    IntToStringNoP(b);
    SizedRule(".images img { width: ", IntToString(a), IntToString(b), "px; height: ",
              "px; object-fit: cover; border-radius: 3px; cursor: pointer; }\n");
    IntToStringInjective(a, b);
  }

  lemma {:induction false} SizedRule(w: string, x: string, y: string, mid: string, tail: string)
    requires w + x + mid + x + tail == w + y + mid + y + tail
    requires mid != [] && mid[0] == 'p'
    requires forall k :: 0 <= k < |x| ==> x[k] != 'p'
    requires forall k :: 0 <= k < |y| ==> y[k] != 'p'
    ensures x == y
  {
    var r := mid[1..] + x + tail;
    var t := mid[1..] + y + tail;
    assert mid == ['p'] + mid[1..];
    assert w + x + mid + x + tail == w + (x + ['p'] + r);
    assert w + y + mid + y + tail == w + (y + ['p'] + t);
    assert x + ['p'] + r == (w + x + mid + x + tail)[|w|..];
    assert y + ['p'] + t == (w + y + mid + y + tail)[|w|..];
    SplitAtMark(x, r, y, t, 'p');
  }

  const HeadEnd: string :=
    ".lightbox { display: none; position: fixed; top: 0; left: 0; width: 100%; height: 100%; background-color: rgba(0,0,0,0.8); z-index: 1000; justify-content: center; align-items: center; }\n"
    + ".lightbox img { max-width: 90%; max-height: 90%; object-fit: contain; }\n"
    + ".close-lightbox { position: absolute; top: 20px; right: 20px; color: white; font-size: 30px; cursor: pointer; }\n"
    + "</style>\n"
    + "<script>\n"
    + "function openLightbox(imgSrc) {\n"
    + "  const lightbox = document.getElementById(\"lightbox\");\n"
    + "  const lightboxImg = document.getElementById(\"lightbox-img\");\n"
    + "  lightboxImg.src = imgSrc;\n"
    + "  lightbox.style.display = \"flex\";\n"
    + "}\n"
    + "function closeLightbox() {\n"
    + "  document.getElementById(\"lightbox\").style.display = \"none\";\n"
    + "}\n"
    + "</script>\n"
    + "</head>\n<body>\n"
    + "<div id=\"lightbox\" class=\"lightbox\" onclick=\"closeLightbox()\">\n"
    + "  <span class=\"close-lightbox\">&times;</span>\n"
    + "  <img id=\"lightbox-img\" src=\"\" alt=\"大图\">\n"
    + "</div>\n"

  const DocumentEnd: string := "</body>\n</html>"

  /** Everything before the first article: the head, the style sheet, the script and the lightbox. */
  function Prologue(settings: Settings): string {
    HeadStart + ImageRule(settings.imageSize) + HeadEnd
  }

  /** The `img` tag for an embedded image. */
  function EmbeddedImgTag(data: string): string {
    "<img src=\"" + data + "\" alt=\"图片\" loading=\"lazy\" onclick=\"openLightbox('" + data + "')\" />\n"
  }

  /** The `img` tag for a linked image; it hides itself when the image fails to load. */
  function LinkedImgTag(url: string): string {
    "<img src=\"" + url + "\" alt=\"图片\" loading=\"lazy\" onclick=\"openLightbox('" + url
    + "')\" onerror=\"this.style.display='none';\" />\n"
  }

  /** What becomes of one image: nothing (its cleaned URL is empty), embedded, a failed download, or linked. */
  datatype Fate = Skipped | Embedded(data: string) | Failed | Linked(url: string)

  function ImageFate(src: string, settings: Settings, session: Session): Fate {
    var clean := CleanUrl(src);
    if clean == "" then Skipped
    else if settings.useBase64Images then
      var data := ConvertImageToBase64(clean, session);
      if data != "" then Embedded(data) else Failed
    else Linked(clean)
  }

  /** What one image URL contributes to the document. */
  function ImageHtml(fate: Fate): string {
    match fate
    case Embedded(data) => EmbeddedImgTag(data)
    case Linked(url) => LinkedImgTag(url)
    case _ => ""
  }

  /**
   * An image adds a tag unless its cleaned URL is empty or, with base64 on,
   * its download gives nothing; the tag embeds the data URL, or links the
   * cleaned URL itself.
   */
  lemma {:induction false} ImageHtmlCases(src: string, settings: Settings, session: Session)
    ensures ImageHtml(ImageFate(src, settings, session)) == ""
            <==> CleanUrl(src) == "" || (settings.useBase64Images && ConvertImageToBase64(CleanUrl(src), session) == "")
    ensures !settings.useBase64Images && CleanUrl(src) != ""
            ==> ImageHtml(ImageFate(src, settings, session)) == LinkedImgTag(CleanUrl(src))
    ensures settings.useBase64Images && ConvertImageToBase64(CleanUrl(src), session) != ""
            ==> ImageHtml(ImageFate(src, settings, session)) == EmbeddedImgTag(ConvertImageToBase64(CleanUrl(src), session))
  {
    var clean := CleanUrl(src);
    if clean != "" {
      if settings.useBase64Images {
        var data := ConvertImageToBase64(clean, session);
        assert data != "" ==> EmbeddedImgTag(data)[0] == '<';
      } else {
        assert LinkedImgTag(clean)[0] == '<';
      }
    }
  }

  /** What becomes of each image of an export with these settings over this session. */
  function FateOf(settings: Settings, session: Session): string -> Fate {
    src => ImageFate(src, settings, session)
  }

  /** The images of one article, in list order. */
  function ImagesHtml(srcs: seq<string>, m: nat, fate: string -> Fate): string
    requires m <= |srcs|
    decreases m
  {
    if m == 0 then ""
    else ImagesHtml(srcs, m - 1, fate) + ImageHtml(fate(srcs[m - 1]))
  }

  /** The song block: a link to the song and one to the artist, only when the article has a song. */
  function SongBlock(song: Option<Song>): (r: string)
    ensures r == "" <==> song.None?
  {
    match song
    case None => ""
    case Some(s) => "<div class=\"song\">\n" + SongLine(s) + ArtistLine(s) + "</div>\n"
  }

  function SongLine(s: Song): string {
    "<div><a href=\"" + s.url + "\" target=\"_blank\">" + s.title + "</a></div>\n"
  }

  function ArtistLine(s: Song): string {
    "<div>歌手: <a href=\"" + s.artistUrl + "\" target=\"_blank\">" + s.artist + "</a></div>\n"
  }

  /** The images `div`, present exactly when the article has images, whether or not any of them renders. */
  function ImagesBlock(srcs: seq<string>, fate: string -> Fate): (r: string)
    ensures r == "" <==> srcs == []
  {
    if |srcs| > 0 then "<div class=\"images\">\n" + ImagesHtml(srcs, |srcs|, fate) + "</div>\n" else ""
  }

  function TimeLine(time: string): string {
    "<div class=\"time\">" + time + "</div>\n"
  }

  function TextLine(text: string): string {
    "<div class=\"text\">" + text + "</div>\n"
  }

  /** The markup of one article: its time, its text as stored (tags included), its song and its images. */
  function ArticleHtml(a: Article, fate: string -> Fate): string {
    "<div class=\"article\">\n" + TimeLine(a.time) + TextLine(a.text) + SongBlock(a.song)
    + ImagesBlock(a.images, fate) + "</div>\n"
  }

  /** The articles' markup, one article after the other in input order. */
  function ArticlesHtml(articles: seq<Article>, n: nat, fate: string -> Fate): string
    requires n <= |articles|
    decreases n
  {
    if n == 0 then ""
    else ArticlesHtml(articles, n - 1, fate) + ArticleHtml(articles[n - 1], fate)
  }

  // The same markup as the generator writes it, one `html +=` at a time onto what is already there.

  function AppendImages(html: string, srcs: seq<string>, m: nat, fate: string -> Fate): string
    requires m <= |srcs|
    decreases m
  {
    if m == 0 then html
    else AppendImages(html, srcs, m - 1, fate) + ImageHtml(fate(srcs[m - 1]))
  }

  function AppendSong(html: string, song: Option<Song>): string {
    match song
    case None => html
    case Some(s) => html + "<div class=\"song\">\n" + SongLine(s) + ArtistLine(s) + "</div>\n"
  }

  function AppendImagesBlock(html: string, srcs: seq<string>, fate: string -> Fate): string {
    if |srcs| > 0 then AppendImages(html + "<div class=\"images\">\n", srcs, |srcs|, fate) + "</div>\n"
    else html
  }

  function AppendArticle(html: string, a: Article, fate: string -> Fate): string {
    var head := html + "<div class=\"article\">\n" + TimeLine(a.time) + TextLine(a.text);
    AppendImagesBlock(AppendSong(head, a.song), a.images, fate) + "</div>\n"
  }

  function AppendArticles(html: string, articles: seq<Article>, n: nat, fate: string -> Fate): string
    requires n <= |articles|
    decreases n
  {
    if n == 0 then html
    else AppendArticle(AppendArticles(html, articles, n - 1, fate), articles[n - 1], fate)
  }

  /** The document `generate_html_content` returns. */
  function Document(articles: seq<Article>, settings: Settings, session: Session): string {
    AppendArticles(Prologue(settings), articles, |articles|, FateOf(settings, session)) + DocumentEnd
  }

  /** Writing the images after `html` leaves `html` in front of the images' own markup. */
  lemma {:induction false} AppendImagesIsConcat(html: string, srcs: seq<string>, m: nat, fate: string -> Fate)
    requires m <= |srcs|
    ensures AppendImages(html, srcs, m, fate) == html + ImagesHtml(srcs, m, fate)
    decreases m
  {
    if m == 0 {
      assert html + "" == html;
    } else {
      AppendImagesIsConcat(html, srcs, m - 1, fate);
      Assoc3(html, ImagesHtml(srcs, m - 1, fate), ImageHtml(fate(srcs[m - 1])));
    }
  }

  lemma {:induction false} AppendSongIsConcat(html: string, song: Option<Song>)
    ensures AppendSong(html, song) == html + SongBlock(song)
  {
    match song
    case None =>
      assert html + "" == html;
    case Some(s) =>
      Assoc4(html, "<div class=\"song\">\n", SongLine(s), ArtistLine(s) + "</div>\n");
      Assoc3(html + "<div class=\"song\">\n" + SongLine(s), ArtistLine(s), "</div>\n");
  }

  lemma {:induction false} AppendImagesBlockIsConcat(html: string, srcs: seq<string>, fate: string -> Fate)
    ensures AppendImagesBlock(html, srcs, fate) == html + ImagesBlock(srcs, fate)
  {
    if |srcs| > 0 {
      var open := "<div class=\"images\">\n";
      AppendImagesIsConcat(html + open, srcs, |srcs|, fate);
      Assoc4(html, open, ImagesHtml(srcs, |srcs|, fate), "</div>\n");
    } else {
      assert html + "" == html;
    }
  }

  lemma {:induction false} AppendArticleIsConcat(html: string, a: Article, fate: string -> Fate)
    ensures AppendArticle(html, a, fate) == html + ArticleHtml(a, fate)
  {
    var head := html + "<div class=\"article\">\n" + TimeLine(a.time) + TextLine(a.text);
    AppendSongIsConcat(head, a.song);
    AppendImagesBlockIsConcat(head + SongBlock(a.song), a.images, fate);
    Assoc7(html, "<div class=\"article\">\n", TimeLine(a.time), TextLine(a.text), SongBlock(a.song),
           ImagesBlock(a.images, fate), "</div>\n");
  }

  lemma {:induction false} AppendArticlesIsConcat(html: string, articles: seq<Article>, n: nat, fate: string -> Fate)
    requires n <= |articles|
    ensures AppendArticles(html, articles, n, fate) == html + ArticlesHtml(articles, n, fate)
    decreases n
  {
    if n == 0 {
      assert html + "" == html;
    } else {
      var a := articles[n - 1];
      var prev := AppendArticles(html, articles, n - 1, fate);
      AppendArticlesIsConcat(html, articles, n - 1, fate);
      AppendArticleIsConcat(prev, a, fate);
      AppendStep(html, prev, ArticlesHtml(articles, n - 1, fate), ArticleHtml(a, fate),
                 AppendArticle(prev, a, fate), ArticlesHtml(articles, n, fate));
    }
  }

  /**
   * Whatever comes before the articles stays in front of them: the articles'
   * markup follows in input order, and the closing tags end the document.
   * `Document` is this with the prologue in front.
   */
  lemma {:induction false} ArticlesBetween(prologue: string, articles: seq<Article>, fate: string -> Fate)
    ensures AppendArticles(prologue, articles, |articles|, fate) + DocumentEnd
            == prologue + ArticlesHtml(articles, |articles|, fate) + DocumentEnd
    ensures StartsWith(AppendArticles(prologue, articles, |articles|, fate) + DocumentEnd, prologue)
    ensures EndsWith(AppendArticles(prologue, articles, |articles|, fate) + DocumentEnd, DocumentEnd)
  {
    AppendArticlesIsConcat(prologue, articles, |articles|, fate);
    Framed(prologue, ArticlesHtml(articles, |articles|, fate), DocumentEnd);
  }

  /** The number of images over all articles. */
  function ImagesBefore(articles: seq<Article>, n: nat): nat
    requires n <= |articles|
    decreases n
  {
    if n == 0 then 0 else ImagesBefore(articles, n - 1) + |articles[n - 1].images|
  }

  function TotalImages(articles: seq<Article>): nat {
    ImagesBefore(articles, |articles|)
  }

  // ------------------------------------------------------------ the export's status events

  function TotalImagesMessage(total: nat): Message {
    [Literal("共有 "), Number(total), Literal(" 张图片需要处理")]
  }

  /** `正在处理图片 (current/total): 文章 a, 图片 i`, with one-based article and image numbers. */
  function ImageProgressMessage(current: nat, total: nat, articleIdx: nat, imageIdx: nat): Message {
    [Literal("正在处理图片 ("), Number(current), Literal("/"), Number(total), Literal("): 文章 "), Number(articleIdx + 1),
     Literal(", 图片 "), Number(imageIdx + 1)]
  }

  /** `图片 current/total` followed by an outcome. */
  function ImageOutcomeMessage(current: nat, total: nat, outcome: string): Message {
    [Literal("图片 "), Number(current), Literal("/"), Number(total), Literal(outcome)]
  }

  const Downloaded: string := " 下载成功"
  const DownloadFailed: string := " 下载失败"
  const Added: string := " 添加完成"

  /** The events one image sends: its progress line, then its outcome unless it was skipped. */
  function ImageUpdates(current: nat, total: nat, articleIdx: nat, imageIdx: nat, fate: Fate): seq<Update> {
    [Status(ImageProgressMessage(current, total, articleIdx, imageIdx))]
    + match fate
      case Skipped => []
      case Embedded(_) => [Status(ImageOutcomeMessage(current, total, Downloaded))]
      case Failed => [Status(ImageOutcomeMessage(current, total, DownloadFailed))]
      case Linked(_) => [Status(ImageOutcomeMessage(current, total, Added))]
  }

  /** The events of the first `m` images of article `articleIdx`, whose images are counted from `base + 1`. */
  function ImagesUpdates(srcs: seq<string>, m: nat, articleIdx: nat, base: nat, total: nat,
                         fate: string -> Fate): seq<Update>
    requires m <= |srcs|
    decreases m
  {
    if m == 0 then []
    else ImagesUpdates(srcs, m - 1, articleIdx, base, total, fate)
         + ImageUpdates(base + m, total, articleIdx, m - 1, fate(srcs[m - 1]))
  }

  /** The image events of the first `n` articles. */
  function ExportUpdates(articles: seq<Article>, n: nat, total: nat, fate: string -> Fate): seq<Update>
    requires n <= |articles|
    decreases n
  {
    if n == 0 then []
    else
      var a := articles[n - 1];
      ExportUpdates(articles, n - 1, total, fate)
      + ImagesUpdates(a.images, |a.images|, n - 1, ImagesBefore(articles, n - 1), total, fate)
  }

  /** The counter a progress line shows, or nothing for any other event. */
  function CounterOf(u: Update): seq<int> {
    if u.Status? && |u.message| == 8 && u.message[0] == Literal("正在处理图片 (") && u.message[1].Number?
    then [u.message[1].value]
    else []
  }

  /** The counters of the progress lines of `us`, in order. */
  function ProgressCounters(us: seq<Update>): seq<int>
    decreases |us|
  {
    if us == [] then [] else CounterOf(us[0]) + ProgressCounters(us[1..])
  }

  /** `base + 1, base + 2, ..., base + k`. */
  function CountUp(base: int, k: nat): (r: seq<int>)
    ensures |r| == k
    decreases k
  {
    if k == 0 then [] else CountUp(base, k - 1) + [base + k]
  }

  lemma {:induction false} CountUpAt(base: int, k: nat)
    ensures forall i :: 0 <= i < k ==> CountUp(base, k)[i] == base + i + 1
    decreases k
  {
    if k > 0 {
      CountUpAt(base, k - 1);
    }
  }

  lemma {:induction false} CountUpAppend(base: int, j: nat, k: nat)
    ensures CountUp(base, j) + CountUp(base + j, k) == CountUp(base, j + k)
    decreases k
  {
    if k == 0 {
      assert CountUp(base, j) + [] == CountUp(base, j);
    } else {
      CountUpAppend(base, j, k - 1);
      Assoc3(CountUp(base, j), CountUp(base + j, k - 1), [base + j + k]);
    }
  }

  lemma {:induction false} ProgressCountersAppend(a: seq<Update>, b: seq<Update>)
    ensures ProgressCounters(a + b) == ProgressCounters(a) + ProgressCounters(b)
    decreases |a|
  {
    if a == [] {
      assert a + b == b;
    } else {
      assert (a + b)[0] == a[0] && (a + b)[1..] == a[1..] + b;
      ProgressCountersAppend(a[1..], b);
      Assoc3(CounterOf(a[0]), ProgressCounters(a[1..]), ProgressCounters(b));
    }
  }

  lemma {:induction false} CountersJoin(prev: seq<Update>, last: seq<Update>, whole: seq<Update>, j: nat, k: nat, n: nat)
    requires whole == prev + last
    requires n == j + k
    requires ProgressCounters(prev) == CountUp(0, j)
    requires ProgressCounters(last) == CountUp(j, k)
    ensures ProgressCounters(whole) == CountUp(0, n)
  {
    CountersAppend(prev, last, j, k);
  }

  lemma {:induction false} CountersAppend(prev: seq<Update>, last: seq<Update>, j: nat, k: nat)
    requires ProgressCounters(prev) == CountUp(0, j)
    requires ProgressCounters(last) == CountUp(j, k)
    ensures ProgressCounters(prev + last) == CountUp(0, j + k)
  {
    ProgressCountersAppend(prev, last);
    CountUpAppend(0, j, k);
  }

  lemma {:induction false} CountersSnoc(prev: seq<Update>, last: seq<Update>, c: seq<int>, x: int)
    requires ProgressCounters(prev) == c && ProgressCounters(last) == [x]
    ensures ProgressCounters(prev + last) == c + [x]
  {
    ProgressCountersAppend(prev, last);
  }

  /** Each image shows its counter exactly once, whatever becomes of it. */
  lemma {:induction false} ImageUpdatesCounter(current: nat, total: nat, articleIdx: nat, imageIdx: nat, fate: Fate)
    ensures ProgressCounters(ImageUpdates(current, total, articleIdx, imageIdx, fate)) == [current]
  {
    var progress := [Status(ImageProgressMessage(current, total, articleIdx, imageIdx))];
    var us := ImageUpdates(current, total, articleIdx, imageIdx, fate);
    var outcome := us[1..];
    assert us == progress + outcome;
    ProgressCountersAppend(progress, outcome);
    assert ProgressCounters(outcome) == [] by {
      if outcome != [] {
        assert |outcome| == 1 && |outcome[0].message| == 5;
      }
    }
  }

  /** The images of one article show the counters `base + 1` to `base + m`, in order. */
  lemma {:induction false} ImagesUpdatesCounters(srcs: seq<string>, m: nat, articleIdx: nat, base: nat, total: nat,
                                                 fate: string -> Fate)
    requires m <= |srcs|
    ensures ProgressCounters(ImagesUpdates(srcs, m, articleIdx, base, total, fate)) == CountUp(base, m)
    decreases m
  {
    if m > 0 {
      var prev := ImagesUpdates(srcs, m - 1, articleIdx, base, total, fate);
      var last := ImageUpdates(base + m, total, articleIdx, m - 1, fate(srcs[m - 1]));
      assert ImagesUpdates(srcs, m, articleIdx, base, total, fate) == prev + last;
      ImagesUpdatesCounters(srcs, m - 1, articleIdx, base, total, fate);
      ImageUpdatesCounter(base + m, total, articleIdx, m - 1, fate(srcs[m - 1]));
      CountersSnoc(prev, last, CountUp(base, m - 1), base + m);
    }
  }

  /** Over the first `n` articles, the counter runs from 1 up to their number of images. */
  lemma {:induction false} ExportUpdatesCounters(articles: seq<Article>, n: nat, total: nat, fate: string -> Fate)
    requires n <= |articles|
    ensures ProgressCounters(ExportUpdates(articles, n, total, fate)) == CountUp(0, ImagesBefore(articles, n))
    decreases n
  {
    if n > 0 {
      ExportUpdatesCounters(articles, n - 1, total, fate);
      ExportUpdatesCountersStep(articles, n, total, fate);
    }
  }

  /** One more article continues the count where the articles before it stopped. */
  lemma {:induction false} ExportUpdatesCountersStep(articles: seq<Article>, n: nat, total: nat, fate: string -> Fate)
    requires 0 < n <= |articles|
    requires ProgressCounters(ExportUpdates(articles, n - 1, total, fate)) == CountUp(0, ImagesBefore(articles, n - 1))
    ensures ProgressCounters(ExportUpdates(articles, n, total, fate)) == CountUp(0, ImagesBefore(articles, n))
  {
    var a := articles[n - 1];
    var before := ImagesBefore(articles, n - 1);
    var prev := ExportUpdates(articles, n - 1, total, fate);
    var last := ImagesUpdates(a.images, |a.images|, n - 1, before, total, fate);
    ImagesUpdatesCounters(a.images, |a.images|, n - 1, before, total, fate);
    CountersJoin(prev, last, ExportUpdates(articles, n, total, fate), before, |a.images|, ImagesBefore(articles, n));
  }

  /**
   * The events of a whole export show the image counter going 1, 2, ... up
   * to the announced total, once per image: it ends at the total.
   */
  lemma {:induction false} ExportCounterReachesTotal(articles: seq<Article>, fate: string -> Fate)
    ensures var total := TotalImages(articles);
            var log := [Status(TotalImagesMessage(total))] + ExportUpdates(articles, |articles|, total, fate);
            |ProgressCounters(log)| == total
            && (forall i :: 0 <= i < total ==> ProgressCounters(log)[i] == i + 1)
  {
    var total := TotalImages(articles);
    var head := [Status(TotalImagesMessage(total))];
    var log := head + ExportUpdates(articles, |articles|, total, fate);
    ProgressCountersAppend(head, ExportUpdates(articles, |articles|, total, fate));
    ExportUpdatesCounters(articles, |articles|, total, fate);
    CountUpAt(0, total);
  }

  // ------------------------------------------------------------ the generator

  /** The files the exports write, by path: a file written twice keeps the later content. */
  class OutputFiles {
    var written: map<string, string>

    constructor ()
      ensures written == map[]
    {
      written := map[];
    }

    /** `open(file_path, 'w', encoding='utf-8').write(content)`. */
    method Write(path: string, content: string)
      modifies this
      ensures written == old(written)[path := content]
    {
      written := written[path := content];
    }
  }

  const ExportStarted: Message := [Literal("开始准备导出HTML...")]

  function ExportedMessage(filePath: string): Message {
    [Literal("已成功导出到 "), Literal(filePath)]
  }

  /**
   * `export_to_html`: announce the export, generate the document, write it
   * to `file_path`, announce where it went and return that path.
   */
  method ExportToHtml(articles: seq<Article>, filePath: string, settings: Settings, session: Session,
                      queue: UpdateQueue, files: OutputFiles)
    returns (path: string)
    modifies queue, files
    ensures path == filePath
    ensures files.written == old(files.written)[filePath := Document(articles, settings, session)]
    ensures queue.items == old(queue.items) + [Status(ExportStarted), Status(TotalImagesMessage(TotalImages(articles)))]
                           + ExportUpdates(articles, |articles|, TotalImages(articles), FateOf(settings, session))
                           + [Status(ExportedMessage(filePath))]
  {
    ghost var q0 := queue.items;
    queue.Put(Status(ExportStarted));
    ghost var q1 := queue.items;
    var htmlContent := GenerateHtmlContent(articles, settings, session, queue);
    ghost var q2 := queue.items;
    files.Write(filePath, htmlContent);
    queue.Put(Status(ExportedMessage(filePath)));
    path := filePath;
    Bracketed(q0, Status(ExportStarted), q1, Status(TotalImagesMessage(TotalImages(articles))),
              ExportUpdates(articles, |articles|, TotalImages(articles), FateOf(settings, session)),
              q2, Status(ExportedMessage(filePath)), queue.items);
  }

  lemma {:induction false} Bracketed<T>(q0: seq<T>, first: T, q1: seq<T>, second: T, rest: seq<T>, q2: seq<T>, last: T,
                                        q3: seq<T>)
    requires q1 == q0 + [first] && q2 == q1 + [second] + rest && q3 == q2 + [last]
    ensures q3 == q0 + [first, second] + rest + [last]
  {
    assert q0 + [first] + [second] == q0 + [first, second];
  }

  /** The image-count loop at the start of `generate_html_content`. */
  method CountImages(articles: seq<Article>) returns (totalImages: nat)
    ensures totalImages == TotalImages(articles)
  {
    totalImages := 0;
    for i := 0 to |articles|
      invariant totalImages == ImagesBefore(articles, i)
    {
      if |articles[i].images| > 0 {
        totalImages := totalImages + |articles[i].images|;
      }
    }
  }

  /**
   * `generate_html_content`: the document, built article by article, with
   * the image total announced first and the events of every image after it.
   */
  method GenerateHtmlContent(articles: seq<Article>, settings: Settings, session: Session, queue: UpdateQueue)
    returns (html: string)
    modifies queue
    ensures html == Document(articles, settings, session)
    ensures queue.items == old(queue.items) + [Status(TotalImagesMessage(TotalImages(articles)))]
                           + ExportUpdates(articles, |articles|, TotalImages(articles), FateOf(settings, session))
  {
    html := HeadStart;
    html := html + ImageRule(settings.imageSize);
    html := html + HeadEnd;
    var totalImages := CountImages(articles);
    queue.Put(Status(TotalImagesMessage(totalImages)));
    html := AddArticles(html, articles, totalImages, settings, session, queue);
    html := html + DocumentEnd;
  }

  /** The loop over the articles, appending to `html0`. */
  method AddArticles(html0: string, articles: seq<Article>, totalImages: nat, settings: Settings, session: Session,
                     queue: UpdateQueue)
    returns (html: string)
    modifies queue
    ensures html == AppendArticles(html0, articles, |articles|, FateOf(settings, session))
    ensures queue.items == old(queue.items) + ExportUpdates(articles, |articles|, totalImages, FateOf(settings, session))
  {
    html := html0;
    var currentImage: nat := 0;
    for articleIdx := 0 to |articles|
      invariant html == AppendArticles(html0, articles, articleIdx, FateOf(settings, session))
      invariant currentImage == ImagesBefore(articles, articleIdx)
      invariant queue.items == old(queue.items) + ExportUpdates(articles, articleIdx, totalImages, FateOf(settings, session))
    {
      ExportUpdatesSnoc(queue.items, old(queue.items), articles, articleIdx, currentImage, totalImages, FateOf(settings, session));
      html, currentImage := AddArticle(html, articles[articleIdx], articleIdx, currentImage, totalImages,
                                       settings, session, queue);
    }
  }

  lemma {:induction false} ExportUpdatesSnoc(q: seq<Update>, q0: seq<Update>, articles: seq<Article>, n: nat, base: nat, total: nat,
                          fate: string -> Fate)
    requires n < |articles| && base == ImagesBefore(articles, n)
    requires q == q0 + ExportUpdates(articles, n, total, fate)
    ensures q0 + ExportUpdates(articles, n + 1, total, fate)
            == q + ImagesUpdates(articles[n].images, |articles[n].images|, n, base, total, fate)
    ensures ImagesBefore(articles, n + 1) == base + |articles[n].images|
  {
    Assoc3(q0, ExportUpdates(articles, n, total, fate),
           ImagesUpdates(articles[n].images, |articles[n].images|, n, base, total, fate));
  }

  /** The body of the article loop: one article's markup, with its images counted from `base + 1`. */
  method AddArticle(html0: string, article: Article, articleIdx: nat, base: nat, totalImages: nat,
                    settings: Settings, session: Session, queue: UpdateQueue)
    returns (html: string, currentImage: nat)
    modifies queue
    ensures html == AppendArticle(html0, article, FateOf(settings, session))
    ensures currentImage == base + |article.images|
    ensures queue.items == old(queue.items)
                           + ImagesUpdates(article.images, |article.images|, articleIdx, base, totalImages, FateOf(settings, session))
  {
    html := html0 + "<div class=\"article\">\n";
    html := html + TimeLine(article.time);
    html := html + TextLine(article.text);
    ghost var head := html;
    if article.song.Some? {
      var song := article.song.value;
      html := html + "<div class=\"song\">\n";
      html := html + SongLine(song);
      html := html + ArtistLine(song);
      html := html + "</div>\n";
    }
    assert html == AppendSong(head, article.song);
    ghost var withSong := html;
    currentImage := base;
    if |article.images| > 0 {
      html := html + "<div class=\"images\">\n";
      html, currentImage := AddImages(html, article.images, articleIdx, currentImage, totalImages, settings, session, queue);
      html := html + "</div>\n";
    } else {
      assert ImagesUpdates(article.images, 0, articleIdx, base, totalImages, FateOf(settings, session)) == [];
    }
    assert html == AppendImagesBlock(withSong, article.images, FateOf(settings, session));
    html := html + "</div>\n";
  }

  /** The inner loop over one article's images. */
  method AddImages(html0: string, srcs: seq<string>, articleIdx: nat, base: nat, totalImages: nat,
                   settings: Settings, session: Session, queue: UpdateQueue)
    returns (html: string, currentImage: nat)
    modifies queue
    ensures html == AppendImages(html0, srcs, |srcs|, FateOf(settings, session))
    ensures currentImage == base + |srcs|
    ensures queue.items == old(queue.items) + ImagesUpdates(srcs, |srcs|, articleIdx, base, totalImages, FateOf(settings, session))
  {
    html, currentImage := html0, base;
    for imgIdx := 0 to |srcs|
      invariant html == AppendImages(html0, srcs, imgIdx, FateOf(settings, session))
      invariant currentImage == base + imgIdx
      invariant queue.items == old(queue.items) + ImagesUpdates(srcs, imgIdx, articleIdx, base, totalImages, FateOf(settings, session))
    {
      currentImage := currentImage + 1;
      ImagesUpdatesSnoc(queue.items, old(queue.items), srcs, imgIdx, articleIdx, base, currentImage, totalImages,
                        FateOf(settings, session));
      html := AddImage(html, srcs[imgIdx], articleIdx, imgIdx, currentImage, totalImages, settings, session, queue);
    }
  }

  lemma {:induction false} ImagesUpdatesSnoc(q: seq<Update>, q0: seq<Update>, srcs: seq<string>, i: nat, articleIdx: nat, base: nat,
                          current: nat, total: nat, fate: string -> Fate)
    requires i < |srcs| && current == base + i + 1
    requires q == q0 + ImagesUpdates(srcs, i, articleIdx, base, total, fate)
    ensures q0 + ImagesUpdates(srcs, i + 1, articleIdx, base, total, fate)
            == q + ImageUpdates(current, total, articleIdx, i, fate(srcs[i]))
  {
    Assoc3(q0, ImagesUpdates(srcs, i, articleIdx, base, total, fate),
           ImageUpdates(current, total, articleIdx, i, fate(srcs[i])));
  }

  /** The body of the image loop: the progress line, then the image and its outcome line. */
  method AddImage(html0: string, src: string, articleIdx: nat, imgIdx: nat, currentImage: nat, totalImages: nat,
                  settings: Settings, session: Session, queue: UpdateQueue)
    returns (html: string)
    modifies queue
    ensures html == html0 + ImageHtml(ImageFate(src, settings, session))
    ensures queue.items == old(queue.items) + ImageUpdates(currentImage, totalImages, articleIdx, imgIdx, ImageFate(src, settings, session))
  {
    html := html0;
    queue.Put(Status(ImageProgressMessage(currentImage, totalImages, articleIdx, imgIdx)));
    var cleanUrl := CleanUrl(src);
    if cleanUrl != "" {
      if settings.useBase64Images {
        var base64Image := ConvertImageToBase64(cleanUrl, session);
        if base64Image != "" {
          html := html + EmbeddedImgTag(base64Image);
          queue.Put(Status(ImageOutcomeMessage(currentImage, totalImages, Downloaded)));
        } else {
          queue.Put(Status(ImageOutcomeMessage(currentImage, totalImages, DownloadFailed)));
        }
      } else {
        html := html + LinkedImgTag(cleanUrl);
        queue.Put(Status(ImageOutcomeMessage(currentImage, totalImages, Added)));
      }
    }
  }
}
