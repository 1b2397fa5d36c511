/**
 * The data both halves of the system work on: one `.dcntc` feed item of the
 * rendered page as an abstract node record, the article extracted from it,
 * and the update events the crawler sends to the desktop window.
 */
module Records {
  import opened Wrappers
  import opened Text

  /** An `a` element: its text content and its `href` attribute ("" when it has none). */
  datatype Link = Link(text: string, href: string)

  /** The `.scnt` element inside `.src`: its `.tit a` and `.from a` links, when present. */
  datatype ScntNode = ScntNode(title: Option<Link>, artist: Option<Link>)

  /** The `.src` element of an item: its `.scnt` child, when present. */
  datatype SrcNode = SrcNode(scnt: Option<ScntNode>)

  /** The `.time` element: the text of its `a` child (when it has one) and its own text. */
  datatype TimeNode = TimeNode(link: Option<string>, text: string)

  /**
   * The `.cover .lnk img` element. `srcAttr` is its `src` attribute ("" when
   * absent), read by the Python side; `srcProp` is the DOM `src` property,
   * read by the user script.
   */
  datatype CoverImg = CoverImg(srcAttr: string, srcProp: string)

  /**
   * One `.dcntc` element: its `.time` node, the inner markup of its `.text`
   * node (before trimming), its `.src` node, the `src` attribute of every
   * `.pics .pic img` element in document order ("" for one without `src`),
   * and its cover image.
   */
  datatype Item = Item(
    time: Option<TimeNode>,
    text: Option<string>,
    src: Option<SrcNode>,
    gallery: seq<string>,
    cover: Option<CoverImg>)

  /** The song block of a post; never partially filled. */
  datatype Song = Song(title: string, url: string, artist: string, artistUrl: string)

  /** The record the Python side builds for one admitted post. */
  datatype Article = Article(id: string, time: string, text: string, song: Option<Song>, images: seq<string>)

  /** A piece of a status line: literal text, or a number printed in decimal. */
  datatype Piece = Literal(text: string) | Number(value: int)

  /**
   * A status line, kept as the literal text and the interpolated numbers of
   * the f-string that builds it; `Render` gives the line the window shows.
   */
  type Message = seq<Piece>

  function RenderPiece(p: Piece): string {
    match p
    case Literal(t) => t
    case Number(v) => IntToString(v)
  }

  function Render(m: Message): string
    decreases |m|
  {
    if m == [] then "" else RenderPiece(m[0]) + Render(m[1..])
  }

  /** The four kinds of message the crawler puts on the window's update queue. */
  datatype Update =
    | Status(message: Message)
    | NewArticle(article: Article)
    | Articles(data: seq<Article>)
    | TotalCount(count: Option<int>)

  /** The articles carried by the `new_article` events of an update list, in order. */
  function NewArticles(us: seq<Update>): seq<Article>
    decreases |us|
  {
    if us == [] then []
    else NewArticles(us[..|us| - 1]) + (if us[|us| - 1].NewArticle? then [us[|us| - 1].article] else [])
  }

  lemma {:induction false} NewArticlesAppend(a: seq<Update>, b: seq<Update>)
    ensures NewArticles(a + b) == NewArticles(a) + NewArticles(b)
    decreases |b|
  {
    if b == [] {
      assert a + b == a;
    } else {
      assert (a + b)[..|a + b| - 1] == a + b[..|b| - 1];
      NewArticlesAppend(a, b[..|b| - 1]);
    }
  }

  /** Every update of `us` is a status message. */
  predicate StatusOnly(us: seq<Update>) {
    forall i :: 0 <= i < |us| ==> us[i].Status?
  }

  /** Status messages announce no record. */
  lemma {:induction false} StatusOnlyAnnouncesNothing(us: seq<Update>)
    requires StatusOnly(us)
    ensures NewArticles(us) == []
    decreases |us|
  {
    if us != [] {
      StatusOnlyAnnouncesNothing(us[..|us| - 1]);
    }
  }

  /** The window's `queue.Queue` of updates, filled by `add_update` and drained by `process_updates`. */
  class UpdateQueue {
    var items: seq<Update>

    constructor ()
      ensures items == []
    {
      items := [];
    }

    /** `queue.put(update)`. */
    method Put(u: Update)
      modifies this
      ensures items == old(items) + [u]
    {
      items := items + [u];
    }

    /** `queue.empty()`. */
    method Empty() returns (e: bool)
      ensures e <==> items == []
    {
      e := items == [];
    }

    /** `queue.get_nowait()`: the oldest update, or `None` where Python raises `queue.Empty`. */
    method GetNowait() returns (u: Option<Update>)
      modifies this
      ensures old(items) == [] ==> u == None && items == []
      ensures old(items) != [] ==> u == Some(old(items)[0]) && items == old(items)[1..]
    {
      if items == [] {
        u := None;
      } else {
        u := Some(items[0]);
        items := items[1..];
      }
    }
  }
}
