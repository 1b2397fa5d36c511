/**
 * The HTML-to-text transforms of netease/data_processor.py. Each
 * `re.sub` is modelled as a left-to-right scan: at each position the
 * pattern either matches (the match is replaced and the scan resumes after
 * it) or the character is kept and the scan moves on by one. A `...At`
 * function gives the length of the match starting at the head of its
 * argument, following the regular expression's own backtracking.
 */
module DataProcessor {
  import opened Wrappers
  import opened Text
  import opened Records

  /** Index of the first `c` in `s`. */
  function IndexOf(s: string, c: char): (r: Option<nat>)
    ensures r.Some? ==> r.value < |s| && s[r.value] == c && c !in s[..r.value]
    ensures r.None? ==> c !in s
    decreases |s|
  {
    if s == [] then None
    else if s[0] == c then Some(0)
    else match IndexOf(s[1..], c)
      case None => None
      case Some(d) => assert s[..d + 1] == [s[0]] + s[1..][..d]; Some(d + 1)
  }

  /** The first `c` is at `g` when `s[g]` is one and none comes before it. */
  lemma {:induction false} IndexOfAt(s: string, c: char, g: nat)
    requires g < |s| && s[g] == c && c !in s[..g]
    ensures IndexOf(s, c) == Some(g)
  {
  }

  // ------------------------------------------------------------ the patterns

  /** `<[^>]+>` at the head of `s`: a `<`, at least one character other than `>`, then the first `>`. */
  function TagAt(s: string): (r: Option<nat>)
    ensures r.Some? ==> 3 <= r.value <= |s| && s[0] == '<'
  {
    if s == [] || s[0] != '<' then None
    else match IndexOf(s[1..], '>')
      case None => None
      case Some(d) => if d == 0 then None else Some(d + 2)
  }

  /** `\s*\/?>` at the head of `s`, where `\s` is Python's Unicode whitespace. */
  function BrTail(s: string): (r: Option<nat>)
    ensures r.Some? ==> 1 <= r.value <= |s|
    decreases |s|
  {
    if s == [] then None
    else if s[0] == '>' then Some(1)
    else if s[0] == '/' then (if |s| >= 2 && s[1] == '>' then Some(2) else None)
    else if IsPySpace(s[0]) then
      match BrTail(s[1..])
      case None => None
      case Some(n) => Some(n + 1)
    else None
  }

  /** `<br\s*\/?>` at the head of `s` (lower case only: the pattern has no IGNORECASE flag). */
  function BrAt(s: string): (r: Option<nat>)
    ensures r.Some? ==> 4 <= r.value <= |s| && s[0] == '<'
  {
    if |s| < 3 || s[..3] != "<br" then None
    else match BrTail(s[3..])
      case None => None
      case Some(n) => Some(n + 3)
  }

  /** `<(?!br\s*\/?>)[^>]+>` at the head of `s`: a tag that is not a `<br>`-style tag. */
  function OtherTagAt(s: string): Option<nat> {
    if BrAt(s).Some? then None else TagAt(s)
  }

  const ActivityAttr: string := "data-action=\"activity\""

  /**
   * `(.*?)<\/a>` at the head of `s`: the index of the first `</a>`, provided
   * no line break comes before it (`.` does not match a newline).
   */
  function CloseAnchorAt(s: string): (r: Option<nat>)
    ensures r.Some? ==> r.value + 4 <= |s|
    decreases |s|
  {
    if StartsWith(s, "</a>") then Some(0)
    else if s == [] || s[0] == '\n' then None
    else match CloseAnchorAt(s[1..])
      case None => None
      case Some(k) => Some(k + 1)
  }

  /**
   * `<a[^>]*data-action="activity"[^>]*>(.*?)<\/a>` at the head of `s`: the
   * inner text (group 1) and the length of the match. The opening tag ends
   * at the first `>` after `<a`, and must carry the activity attribute.
   */
  function ActivityAt(s: string): (r: Option<(string, nat)>)
    ensures r.Some? ==> 1 <= r.value.1 <= |s|
  {
    if !StartsWith(s, "<a") then None
    else match IndexOf(s[2..], '>')
      case None => None
      case Some(g) =>
        if !Contains(s[2..2 + g], ActivityAttr) then None
        else match CloseAnchorAt(s[3 + g..])
          case None => None
          case Some(k) => Some((s[3 + g..3 + g + k], 3 + g + k + 4))
  }

  // ------------------------------------------------------------ the substitutions

  /** `re.sub(r'<[^>]+>', '', s)`. */
  function StripTags(s: string): string
    decreases |s|
  {
    if s == [] then []
    else match TagAt(s)
      case Some(n) => StripTags(s[n..])
      case None => [s[0]] + StripTags(s[1..])
  }

  /** `re.sub(r'<br\s*\/?>', '\n', s)`. */
  function BrToNewline(s: string): string
    decreases |s|
  {
    if s == [] then []
    else match BrAt(s)
      case Some(n) => "\n" + BrToNewline(s[n..])
      case None => [s[0]] + BrToNewline(s[1..])
  }

  /** `re.sub(r'<(?!br\s*\/?>)[^>]+>', '', s)`. */
  function StripTagsKeepBr(s: string): string
    decreases |s|
  {
    if s == [] then []
    else match OtherTagAt(s)
      case Some(n) => StripTagsKeepBr(s[n..])
      case None => [s[0]] + StripTagsKeepBr(s[1..])
  }

  /** `re.sub(r'<a[^>]*data-action="activity"[^>]*>(.*?)</a>', r'\1', s)`; the inner text is not rescanned. */
  function UnwrapActivity(s: string): string
    decreases |s|
  {
    if s == [] then []
    else match ActivityAt(s)
      case Some(m) => m.0 + UnwrapActivity(s[m.1..])
      case None => [s[0]] + UnwrapActivity(s[1..])
  }

  // ------------------------------------------------------------ the module's functions

  /** `process_html_text`: activity links unwrapped, then every tag but `<br>`-style ones removed. */
  function ProcessHtmlText(html: string): (r: string)
    ensures html == "" ==> r == ""
  {
    if html == "" then "" else StripTagsKeepBr(UnwrapActivity(html))
  }

  /** The text `plain_text_from_html` hands to `html.unescape`: line breaks for `<br>`, no tags. */
  function TagFreeText(html: string): (r: string)
    ensures NoTags(r)
  {
    StripTagsNoTags(BrToNewline(html));
    StripTags(BrToNewline(html))
  }

  /** `plain_text_from_html`; `unescape` stands for `html.unescape`. */
  function PlainTextFromHtml(html: string, unescape: string -> string): (r: string)
    ensures html == "" ==> r == ""
  {
    if html == "" then "" else unescape(TagFreeText(html))
  }

  /** `process_articles`: a fresh list of copies, each with its text processed. */
  method ProcessArticles(articles: seq<Article>) returns (processed: seq<Article>)
    ensures |processed| == |articles|
    ensures forall i :: 0 <= i < |articles| ==> processed[i] == articles[i].(text := ProcessHtmlText(articles[i].text))
  {
    processed := [];
    for i := 0 to |articles|
      invariant |processed| == i
      invariant forall j :: 0 <= j < i ==> processed[j] == articles[j].(text := ProcessHtmlText(articles[j].text))
    {
      var processedArticle := articles[i].(text := ProcessHtmlText(articles[i].text));
      ghost var before := processed;
      processed := processed + [processedArticle];
      assert forall j :: 0 <= j < i ==> processed[j] == before[j];
      assert processed[i] == processedArticle;
    }
  }

  // ------------------------------------------------------------ what remains after a pass

  /** No `<[^>]+>` tag starts anywhere in `s`. */
  predicate NoTags(s: string) {
    forall i :: 0 <= i < |s| ==> TagAt(s[i..]).None?
  }

  /** Every tag that starts in `s` is a `<br>`-style tag. */
  predicate OnlyBrTags(s: string) {
    forall i :: 0 <= i < |s| ==> OtherTagAt(s[i..]).None?
  }

  /** No activity anchor starts anywhere in `s`. */
  predicate NoActivity(s: string) {
    forall i :: 0 <= i < |s| ==> ActivityAt(s[i..]).None?
  }

  lemma {:induction false} TailShift(c: char, r: string)
    ensures forall i :: 1 <= i <= |r| ==> ([c] + r)[i..] == r[i - 1..]
  {
    forall i | 1 <= i <= |r| ensures ([c] + r)[i..] == r[i - 1..] {
    }
  }

  lemma {:induction false} ConsTail(f: string, y: string)
    requires f != []
    ensures [f[0]] + (f[1..] + y) == f + y
  {
    assert f == [f[0]] + f[1..];
  }

  /** A tag needs a `>`: text without one passes both tag strips unchanged. */
  lemma {:induction false} NoGtUnchanged(s: string)
    requires '>' !in s
    ensures StripTags(s) == s && StripTagsKeepBr(s) == s
    decreases |s|
  {
    if s != [] {
      assert '>' !in s[1..];
      NoGtUnchanged(s[1..]);
      if s[0] == '<' {
        assert IndexOf(s[1..], '>').None?;
      }
    }
  }

  /** After `re.sub(r'<[^>]+>', '', s)` no tag is left, even one formed by joining the pieces. */
  lemma {:induction false} StripTagsNoTags(s: string)
    ensures NoTags(StripTags(s))
    decreases |s|
  {
    if s == [] {
    } else if TagAt(s).Some? {
      StripTagsNoTags(s[TagAt(s).value..]);
    } else {
      var t := StripTags(s[1..]);
      var r := [s[0]] + t;
      assert StripTags(s) == r;
      StripTagsNoTags(s[1..]);
      TailShift(s[0], t);
      if s[0] == '<' {
        var x := s[1..];
        if IndexOf(x, '>').None? {
          NoGtUnchanged(x);
          assert r[1..] == x;
        } else {
          assert x[0] == '>';
          assert TagAt(x).None?;
          assert t[0] == '>';
          assert r[1..] == t;
        }
        assert TagAt(r).None?;
      }
      assert forall i :: 1 <= i < |r| ==> TagAt(r[i..]) == TagAt(t[i - 1..]);
    }
  }

  /** Text free of tags passes the strip unchanged. */
  lemma {:induction false} NoTagsFixed(s: string)
    requires NoTags(s)
    ensures StripTags(s) == s
    decreases |s|
  {
    if s != [] {
      assert TagAt(s[0..]).None? && s[0..] == s;
      assert forall i :: 0 <= i < |s[1..]| ==> s[1..][i..] == s[i + 1..];
      NoTagsFixed(s[1..]);
    }
  }

  /** The tag strip is idempotent. */
  lemma {:induction false} StripTagsIdempotent(s: string)
    ensures StripTags(StripTags(s)) == StripTags(s)
  {
    StripTagsNoTags(s);
    NoTagsFixed(StripTags(s));
  }

  // ------------------------------------------------------------ `<br>` tags

  /** A `\s*\/?>` match has no `<` and stays a match whatever follows it. */
  lemma {:induction false} BrTailPrefix(s: string, y: string)
    requires BrTail(s).Some?
    ensures '<' !in s[..BrTail(s).value]
    ensures BrTail(s[..BrTail(s).value] + y) == BrTail(s)
    decreases |s|
  {
    var n := BrTail(s).value;
    var p := s[..n];
    if s[0] != '>' && s[0] != '/' {
      BrTailPrefix(s[1..], y);
      assert p == [s[0]] + s[1..][..n - 1];
      assert (p + y)[1..] == s[1..][..n - 1] + y;
    }
  }

  /** Matches of `\s*\/?>` cannot run into a following `<`. */
  lemma {:induction false} BrTailBeforeLt(x: string, b: string)
    requires b == [] || b[0] == '<'
    ensures BrTail(x + b) == BrTail(x)
    decreases |x|
  {
    if x == [] {
      assert x + b == b;
    } else {
      assert (x + b)[1..] == x[1..] + b;
      BrTailBeforeLt(x[1..], b);
    }
  }

  /** A `<br>`-style match has no `<` after its first character, and stays a match whatever follows. */
  lemma {:induction false} BrAtPrefix(s: string, y: string)
    requires BrAt(s).Some?
    ensures '<' !in s[1..BrAt(s).value]
    ensures BrAt(s[..BrAt(s).value] + y) == BrAt(s)
  {
    var n := BrAt(s).value;
    var x := s[3..];
    BrTailPrefix(x, y);
    assert s[1..n] == "br" + x[..n - 3];
    var p := s[..n] + y;
    assert p[..3] == "<br";
    assert p[3..] == x[..n - 3] + y;
  }

  /** Whether a `<br>`-style tag starts at a non-empty `x` does not depend on a following text beginning with `<`. */
  lemma {:induction false} BrAtBeforeLt(x: string, b: string)
    requires x != [] && (b == [] || b[0] == '<')
    ensures BrAt(x + b) == BrAt(x)
  {
    if |x| >= 3 {
      assert (x + b)[..3] == x[..3];
      assert (x + b)[3..] == x[3..] + b;
      BrTailBeforeLt(x[3..], b);
    } else if |x + b| >= 3 {
      assert (x + b)[..3] != "<br" by {
        assert (x + b)[|x|] == '<';
      }
    }
  }

  /** `re.sub(r'<br\s*\/?>', ...)` works piece by piece when the second piece starts with `<`. */
  lemma {:induction false} BrToNewlineAppend(a: string, b: string)
    requires b == [] || b[0] == '<'
    ensures BrToNewline(a + b) == BrToNewline(a) + BrToNewline(b)
    decreases |a|
  {
    if a == [] {
      assert a + b == b;
    } else {
      BrAtBeforeLt(a, b);
      match BrAt(a)
      case Some(n) =>
        assert (a + b)[n..] == a[n..] + b;
        BrToNewlineAppend(a[n..], b);
        assert BrToNewline(a + b) == "\n" + (BrToNewline(a[n..]) + BrToNewline(b));
        Assoc3("\n", BrToNewline(a[n..]), BrToNewline(b));
      case None =>
        assert (a + b)[1..] == a[1..] + b;
        BrToNewlineAppend(a[1..], b);
        assert BrToNewline(a + b) == [a[0]] + (BrToNewline(a[1..]) + BrToNewline(b));
        Assoc3([a[0]], BrToNewline(a[1..]), BrToNewline(b));
    }
  }

  /** The three spellings `<br>`, `<br/>` and `<br />` are `<br>`-style tags; `<BR>` is not. */
  lemma {:induction false} BrSpellings()
    ensures BrAt("<br>") == Some(4) && BrAt("<br/>") == Some(5) && BrAt("<br />") == Some(6)
    ensures BrAt("<BR>") == None
  {
    assert "<br />"[3..] == " />" && " />"[1..] == "/>";
    assert "<br/>"[3..] == "/>";
    assert "<br>"[3..] == ">";
    assert "<BR>"[..3][1] == 'B';
  }

  /** Each `<br>`-style tag becomes exactly one line break, wherever it stands. */
  lemma {:induction false} BrBecomesNewline(a: string, f: string, b: string)
    requires BrAt(f) == Some(|f|)
    ensures BrToNewline(a + f + b) == BrToNewline(a) + "\n" + BrToNewline(b)
  {
    var fb := f + b;
    assert a + f + b == a + fb;
    BrAfterText(a, fb, f, b);
  }

  lemma {:induction false} BrAfterText(a: string, fb: string, f: string, b: string)
    requires fb == f + b && BrAt(f) == Some(|f|)
    ensures BrToNewline(a + fb) == BrToNewline(a) + ("\n" + BrToNewline(b))
  {
    BrHeadBecomesNewline(f, b);
    BrToNewlineAppend(a, fb);
  }

  /** A text that opens with a whole `<br>`-style tag starts its rewrite with one line break. */
  lemma {:induction false} BrHeadBecomesNewline(f: string, b: string)
    requires BrAt(f) == Some(|f|)
    ensures BrToNewline(f + b) == "\n" + BrToNewline(b)
  {
    BrAtPrefix(f, b);
    assert f[..|f|] == f;
    assert (f + b)[|f|..] == b;
  }

  // ------------------------------------------------------------ keeping `<br>` tags

  /** Characters other than `<` pass the keep-`<br>` strip one by one. */
  lemma {:induction false} KeepBrPassesNoLt(p: string, y: string)
    requires '<' !in p
    ensures StripTagsKeepBr(p + y) == p + StripTagsKeepBr(y)
    decreases |p|
  {
    if p == [] {
      assert p + y == y;
    } else {
      assert (p + y)[1..] == p[1..] + y;
      assert '<' !in p[1..];
      KeepBrPassesNoLt(p[1..], y);
    }
  }

  /** A `<br>`-style tag is kept whole, so it is still one after the text behind it has been stripped. */
  lemma {:induction false} KeepBrKeptBr(s: string)
    requires BrAt(s).Some?
    ensures BrAt([s[0]] + StripTagsKeepBr(s[1..])).Some?
  {
    var n := BrAt(s).value;
    BrAtPrefix(s, StripTagsKeepBr(s[n..]));
    assert s[1..] == s[1..n] + s[n..];
    KeepBrPassesNoLt(s[1..n], s[n..]);
    ConsTail(s[..n], StripTagsKeepBr(s[n..]));
    assert s[..n][1..] == s[1..n];
  }

  /** A `<` with no `>` after it begins no tag, before or after the strip. */
  lemma {:induction false} KeepBrKeptNoGt(s: string)
    requires s != [] && IndexOf(s[1..], '>').None?
    ensures TagAt([s[0]] + StripTagsKeepBr(s[1..])).None?
  {
    NoGtUnchanged(s[1..]);
    assert ([s[0]] + StripTagsKeepBr(s[1..]))[1..] == s[1..];
  }

  /** A `<` directly followed by `>` begins no tag, before or after the strip. */
  lemma {:induction false} KeepBrKeptEmpty(s: string)
    requires |s| >= 2 && s[1] == '>'
    ensures TagAt([s[0]] + StripTagsKeepBr(s[1..])).None?
  {
    var x := s[1..];
    assert x[0] == '>';
    assert OtherTagAt(x).None?;
    var r := [s[0]] + StripTagsKeepBr(x);
    assert r[1..] == StripTagsKeepBr(x);
    assert r[1..][0] == '>';
  }

  /** A kept `<` still begins no removable tag once the text after it has been stripped. */
  lemma {:induction false} KeepBrKeptLt(s: string)
    requires s != [] && s[0] == '<' && OtherTagAt(s).None?
    ensures OtherTagAt([s[0]] + StripTagsKeepBr(s[1..])).None?
  {
    if BrAt(s).Some? {
      KeepBrKeptBr(s);
    } else if IndexOf(s[1..], '>').None? {
      KeepBrKeptNoGt(s);
    } else {
      KeepBrKeptEmpty(s);
    }
  }

  /** After the keep-`<br>` strip every tag left is a `<br>`-style tag. */
  lemma {:induction false} KeepBrOnlyBr(s: string)
    ensures OnlyBrTags(StripTagsKeepBr(s))
    decreases |s|
  {
    if s == [] {
    } else if OtherTagAt(s).Some? {
      KeepBrOnlyBr(s[OtherTagAt(s).value..]);
    } else {
      var t := StripTagsKeepBr(s[1..]);
      var r := [s[0]] + t;
      assert StripTagsKeepBr(s) == r;
      KeepBrOnlyBr(s[1..]);
      TailShift(s[0], t);
      if s[0] == '<' {
        KeepBrKeptLt(s);
      }
      assert OtherTagAt(r[0..]).None? by { assert r[0..] == r; }
      assert forall i :: 1 <= i < |r| ==> OtherTagAt(r[i..]) == OtherTagAt(t[i - 1..]);
    }
  }

  /** Text whose only tags are `<br>`-style passes the keep-`<br>` strip unchanged. */
  lemma {:induction false} OnlyBrFixed(s: string)
    requires OnlyBrTags(s)
    ensures StripTagsKeepBr(s) == s
    decreases |s|
  {
    if s != [] {
      assert OtherTagAt(s[0..]).None? && s[0..] == s;
      assert forall i :: 0 <= i < |s[1..]| ==> s[1..][i..] == s[i + 1..];
      OnlyBrFixed(s[1..]);
    }
  }

  /** A `<br>`-style tag at the front survives the keep-`<br>` strip. */
  lemma {:induction false} KeepBrKeepsBr(f: string, b: string)
    requires BrAt(f) == Some(|f|)
    ensures StripTagsKeepBr(f + b) == f + StripTagsKeepBr(b)
  {
    var p := f + b;
    BrAtPrefix(f, b);
    assert f[..|f|] == f;
    assert p[..|f|] == f;
    assert OtherTagAt(p).None?;
    assert StripTagsKeepBr(p) == [f[0]] + StripTagsKeepBr(p[1..]);
    assert p[1..] == f[1..] + b;
    KeepBrPassesNoLt(f[1..], b);
    ConsTail(f, StripTagsKeepBr(b));
  }

  /** Any other tag at the front is removed. */
  lemma {:induction false} KeepBrDropsOther(s: string)
    requires BrAt(s).None? && TagAt(s).Some?
    ensures StripTagsKeepBr(s) == StripTagsKeepBr(s[TagAt(s).value..])
  {
  }

  // ------------------------------------------------------------ activity links

  /** An activity anchor always begins a tag that is not a `<br>`-style one. */
  lemma {:induction false} ActivityIsOtherTag(s: string)
    requires ActivityAt(s).Some?
    ensures OtherTagAt(s).Some?
  {
    assert s[1] == 'a';
    assert s[1..][1..] == s[2..];
    assert s[..3] != "<br";
  }

  /** Text without activity anchors passes the unwrap unchanged. */
  lemma {:induction false} NoActivityFixed(s: string)
    requires NoActivity(s)
    ensures UnwrapActivity(s) == s
    decreases |s|
  {
    if s != [] {
      assert ActivityAt(s[0..]).None? && s[0..] == s;
      assert forall i :: 0 <= i < |s[1..]| ==> s[1..][i..] == s[i + 1..];
      NoActivityFixed(s[1..]);
    }
  }

  /** With nothing but `<br>`-style tags there is no activity anchor. */
  lemma {:induction false} OnlyBrNoActivity(s: string)
    requires OnlyBrTags(s)
    ensures NoActivity(s)
  {
    forall i | 0 <= i < |s| ensures ActivityAt(s[i..]).None? {
      if ActivityAt(s[i..]).Some? {
        ActivityIsOtherTag(s[i..]);
      }
    }
  }

  /** The lazy group stops at the first `</a>` when the text before it has neither a `</a>` nor a line break. */
  lemma {:induction false} CloseAnchorFirst(inner: string, b: string)
    requires '\n' !in inner && !Contains(inner, "</a>")
    ensures CloseAnchorAt(inner + "</a>" + b) == Some(|inner|)
    decreases |inner|
  {
    var s := inner + "</a>" + b;
    if inner == [] {
      assert s == "</a>" + b;
      assert s[..4] == "</a>";
    } else {
      assert !StartsWith(s, "</a>") by {
        if |inner| >= 4 {
          assert s[..4] == inner[..4];
          assert !StartsWith(inner, "</a>");
        } else {
          assert s[|inner|] == '<';
          assert "</a>"[|inner|] != '<';
        }
      }
      assert s[1..] == inner[1..] + "</a>" + b;
      assert '\n' !in inner[1..];
      CloseAnchorFirst(inner[1..], b);
    }
  }

  /** Where the parts of an anchor `<a attrs>inner</a>` followed by `b` sit. */
  lemma {:induction false} AnchorLayout(attrs: string, inner: string, b: string)
    ensures var s := "<a" + attrs + ">" + inner + "</a>" + b;
      var g := |attrs|;
      StartsWith(s, "<a") && 2 + g < |s| && s[2 + g] == '>' && s[2..2 + g] == attrs
      && s[3 + g..] == inner + "</a>" + b && s[3 + g..3 + g + |inner|] == inner
      && s[3 + g + |inner| + 4..] == b
  {
    var s := "<a" + attrs + ">" + inner + "</a>" + b;
    assert s[..2] == "<a";
    assert s[2..] == attrs + ">" + s[3 + |attrs|..];
  }

  /** The activity pattern matches when the opening tag ends at `2 + g`, carries the attribute and is closed `k` characters later. */
  lemma {:induction false} ActivityAtParts(s: string, g: nat, k: nat)
    requires StartsWith(s, "<a") && 2 + g < |s| && s[2 + g] == '>' && '>' !in s[2..2 + g]
    requires Contains(s[2..2 + g], ActivityAttr) && CloseAnchorAt(s[3 + g..]) == Some(k)
    ensures ActivityAt(s) == Some((s[3 + g..3 + g + k], 3 + g + k + 4))
  {
    var x := s[2..];
    assert x[g] == '>' && x[..g] == s[2..2 + g];
    IndexOfAt(x, '>', g);
  }

  /** An anchor carrying `data-action="activity"` is replaced by its inner text. */
  lemma {:induction false} ActivityUnwrapped(attrs: string, inner: string, b: string)
    requires '>' !in attrs && Contains(attrs, ActivityAttr)
    requires '\n' !in inner && !Contains(inner, "</a>")
    ensures UnwrapActivity("<a" + attrs + ">" + inner + "</a>" + b) == inner + UnwrapActivity(b)
  {
    var s := "<a" + attrs + ">" + inner + "</a>" + b;
    var g, k := |attrs|, |inner|;
    assert CloseAnchorAt(s[3 + g..]) == Some(k) by {
      AnchorLayout(attrs, inner, b);
      CloseAnchorFirst(inner, b);
    }
    assert StartsWith(s, "<a") && 2 + g < |s| && s[2 + g] == '>' && s[2..2 + g] == attrs
      && s[3 + g..3 + g + k] == inner && s[3 + g + k + 4..] == b by {
      AnchorLayout(attrs, inner, b);
    }
    ActivityAtParts(s, g, k);
  }

  // ------------------------------------------------------------ properties of the module's functions

  /** `process_html_text` leaves only `<br>`-style tags. */
  lemma {:induction false} ProcessHtmlTextOnlyBr(html: string)
    ensures OnlyBrTags(ProcessHtmlText(html))
  {
    if html != "" {
      KeepBrOnlyBr(UnwrapActivity(html));
    }
  }

  /** `process_html_text` is idempotent. */
  lemma {:induction false} ProcessHtmlTextIdempotent(html: string)
    ensures ProcessHtmlText(ProcessHtmlText(html)) == ProcessHtmlText(html)
  {
    var r := ProcessHtmlText(html);
    ProcessHtmlTextOnlyBr(html);
    if r != "" {
      OnlyBrNoActivity(r);
      NoActivityFixed(r);
      OnlyBrFixed(r);
    }
  }

  /** No pattern of this module matches at a character other than `<`. */
  lemma {:induction false} NotLtNoMatch(s: string)
    requires s != [] && s[0] != '<'
    ensures TagAt(s).None? && BrAt(s).None? && OtherTagAt(s).None? && ActivityAt(s).None?
  {
    if |s| >= 3 {
      assert s[..3][0] == s[0];
    }
    if |s| >= 2 {
      assert s[..2][0] == s[0];
    }
  }

  /** Text without `<` passes the activity unwrap unchanged. */
  lemma {:induction false} NoLtUnwrapUnchanged(s: string)
    requires '<' !in s
    ensures UnwrapActivity(s) == s
    decreases |s|
  {
    if s != [] {
      NotLtNoMatch(s);
      assert '<' !in s[1..];
      NoLtUnwrapUnchanged(s[1..]);
    }
  }

  /** Text without `<` passes the keep-`<br>` strip unchanged. */
  lemma {:induction false} NoLtKeepBrUnchanged(s: string)
    requires '<' !in s
    ensures StripTagsKeepBr(s) == s
  {
    KeepBrPassesNoLt(s, []);
    assert s + [] == s;
  }

  /** Text without `<` has no line break put in it. */
  lemma {:induction false} NoLtBrUnchanged(s: string)
    requires '<' !in s
    ensures BrToNewline(s) == s
    decreases |s|
  {
    if s != [] {
      NotLtNoMatch(s);
      assert '<' !in s[1..];
      NoLtBrUnchanged(s[1..]);
    }
  }

  /** A text with no `<` passes `process_html_text` unchanged. */
  lemma {:induction false} ProcessHtmlTextNoMarkup(html: string)
    requires '<' !in html
    ensures ProcessHtmlText(html) == html
  {
    NoLtUnwrapUnchanged(html);
    NoLtKeepBrUnchanged(html);
  }
}
