/**
 * The blog service: HTML-to-text helpers (tag removal, word count and read
 * time, whitespace collapse and excerpt), the defaulting that turns one
 * Blogger API item into a post record, and the `BlogService` object that
 * fetches posts and classifies the outcome of the request.
 *
 * The HTTP request is a parameter `transport` (its timeout and the decoding
 * of the body are folded into the `HttpOutcome` it returns); `html.unescape`
 * is the parameter `unescape`; date parsing and formatting together are the
 * parameter `parseDate`; the current time is the text `now`.
 */
module BlogService {
  import opened Wrappers
  import opened Json
  import Text
  import BlogModels

  // Tag removal: every leftmost `<`, one or more non-`>` characters, `>` span is deleted

  /** The index of the first `>` in `s`, if any. */
  function CloseIndex(s: string): (r: Option<nat>)
    ensures r.None? ==> forall i :: 0 <= i < |s| ==> s[i] != '>'
    ensures r.Some? ==> r.value < |s| && s[r.value] == '>' && forall i :: 0 <= i < r.value ==> s[i] != '>'
  {
    if s == [] then None
    else if s[0] == '>' then Some(0)
    else match CloseIndex(s[1..])
      case None => None
      case Some(k) => Some(k + 1)
  }

  /**
   * The length of the tag `s` starts with: a `<`, one or more characters other
   * than `>` (a `<` among them), and the first `>` after them.
   */
  function TagLength(s: string): (r: Option<nat>)
    ensures r.Some? ==> (3 <= r.value <= |s| && s[0] == '<' && s[r.value - 1] == '>'
                         && forall i :: 1 <= i < r.value - 1 ==> s[i] != '>')
  {
    if s == [] || s[0] != '<' then None
    else match CloseIndex(s[1..])
      case None => None
      case Some(k) => if k == 0 then None else Some(k + 2)
  }

  /** Removes every leftmost tag, scanning left to right, and inserts nothing in its place. */
  function StripTags(s: string): string
    decreases |s|
  {
    if s == [] then []
    else match TagLength(s)
      case Some(n) => StripTags(s[n..])
      case None => [s[0]] + StripTags(s[1..])
  }

  /** No tag starts anywhere in `s`. */
  predicate TagFree(s: string) {
    forall i :: 0 <= i < |s| ==> TagLength(s[i..]).None?
  }

  /** Text with no `<` is left alone. */
  lemma {:induction false} StripTagsNoOpen(s: string)
    requires forall i :: 0 <= i < |s| ==> s[i] != '<'
    ensures StripTags(s) == s
    decreases |s|
  {
    if s != [] {
      StripTagsNoOpen(s[1..]);
      assert s == [s[0]] + s[1..];
    }
  }

  /** Text with no `>` is left alone: an unterminated `<` is kept. */
  lemma {:induction false} StripTagsNoClose(s: string)
    requires forall i :: 0 <= i < |s| ==> s[i] != '>'
    ensures StripTags(s) == s
    decreases |s|
  {
    if s != [] {
      assert forall i :: 0 <= i < |s[1..]| ==> s[1..][i] != '>';
      assert CloseIndex(s[1..]).None?;
      StripTagsNoClose(s[1..]);
      assert s == [s[0]] + s[1..];
    }
  }

  /** A tag after text with no `<` is removed, and the text on both sides is joined with nothing between. */
  lemma {:induction false} StripTagsSplice(pre: string, body: string, post: string)
    requires forall i :: 0 <= i < |pre| ==> pre[i] != '<'
    requires body != [] && forall i :: 0 <= i < |body| ==> body[i] != '>'
    ensures StripTags(pre + "<" + body + ">" + post) == pre + StripTags(post)
    decreases |pre|
  {
    var s := pre + "<" + body + ">" + post;
    if pre == [] {
      calc {
        StripTags(s);
        { assert s == ['<'] + (body + (['>'] + post)); }
        StripTags(['<'] + (body + (['>'] + post)));
        { TagAtFront(body, post); }
        StripTags(post);
        { assert pre + StripTags(post) == StripTags(post); }
        pre + StripTags(post);
      }
    } else {
      var rest := pre[1..] + "<" + body + ">" + post;
      calc {
        StripTags(s);
        { assert s == [pre[0]] + rest; }
        StripTags([pre[0]] + rest);
        { NoOpenKept(pre[0], rest); }
        [pre[0]] + StripTags(rest);
        { StripTagsSplice(pre[1..], body, post); }
        [pre[0]] + (pre[1..] + StripTags(post));
        { ConsConcat(pre, StripTags(post)); }
        pre + StripTags(post);
      }
    }
  }

  lemma ConsConcat(a: string, b: string)
    requires a != []
    ensures [a[0]] + (a[1..] + b) == a + b
  {
    assert a == [a[0]] + a[1..];
  }

  /** A tag at the front is dropped whole. */
  lemma TagAtFront(body: string, post: string)
    requires body != [] && forall i :: 0 <= i < |body| ==> body[i] != '>'
    ensures StripTags(['<'] + (body + (['>'] + post))) == StripTags(post)
  {
    var t := body + (['>'] + post);
    var s := ['<'] + t;
    assert s[0] == '<' && s[1..] == t;
    assert t[|body|] == '>';
    assert forall i :: 0 <= i < |body| ==> t[i] == body[i];
    assert CloseIndex(t) == Some(|body|);
    assert s[|body| + 2..] == post;
  }

  /** A character other than `<` never starts a tag. */
  lemma NoOpenKept(c: char, rest: string)
    requires c != '<'
    ensures StripTags([c] + rest) == [c] + StripTags(rest)
  {
    var s := [c] + rest;
    assert s[0] == c && s[1..] == rest;
    StripTagsKeep(s);
  }

  /** `<>` is not a tag: it needs at least one character between the brackets. */
  lemma EmptyBracketsKept(post: string)
    ensures StripTags("<>" + post) == "<>" + StripTags(post)
  {
    var t := ['>'] + post;
    calc {
      StripTags("<>" + post);
      { assert "<>" + post == ['<'] + t; }
      StripTags(['<'] + t);
      { OpenBeforeCloseKept(t); }
      ['<'] + StripTags(t);
      { CloseKept(post); }
      ['<'] + (['>'] + StripTags(post));
      { assert ['<'] + (['>'] + StripTags(post)) == "<>" + StripTags(post); }
      "<>" + StripTags(post);
    }
  }

  /** A leading `>` never starts a tag. */
  lemma CloseKept(post: string)
    ensures StripTags(['>'] + post) == ['>'] + StripTags(post)
  {
    var t := ['>'] + post;
    assert t[0] == '>' && t[1..] == post;
    StripTagsKeep(t);
  }

  /** A `<` directly followed by `>` does not start a tag. */
  lemma OpenBeforeCloseKept(t: string)
    requires t != [] && t[0] == '>'
    ensures StripTags(['<'] + t) == ['<'] + StripTags(t)
  {
    var s := ['<'] + t;
    assert s[0] == '<' && s[1..] == t;
    assert CloseIndex(t) == Some(0);
    StripTagsKeep(s);
  }

  /** Where no tag starts, the first character is kept. */
  lemma StripTagsKeep(s: string)
    requires s != [] && TagLength(s).None?
    ensures StripTags(s) == [s[0]] + StripTags(s[1..])
  {
  }

  /** StripTags only ever outputs characters of its input. */
  lemma {:induction false} StripTagsChars(s: string, c: char)
    requires forall i :: 0 <= i < |s| ==> s[i] != c
    ensures forall i :: 0 <= i < |StripTags(s)| ==> StripTags(s)[i] != c
    decreases |s|
  {
    if s != [] {
      match TagLength(s)
      case Some(n) =>
        StripTagsChars(s[n..], c);
      case None =>
        StripTagsChars(s[1..], c);
    }
  }

  /** No tag survives: the result of StripTags is tag-free. */
  lemma {:induction false} StripTagsTagFree(s: string)
    ensures TagFree(StripTags(s))
    decreases |s|
  {
    if s != [] {
      match TagLength(s)
      case Some(n) =>
        StripTagsTagFree(s[n..]);
      case None =>
        var rest := StripTags(s[1..]);
        StripTagsTagFree(s[1..]);
        var r := [s[0]] + rest;
        forall i | 0 <= i < |r| ensures TagLength(r[i..]).None? {
          if i > 0 {
            assert r[i..] == rest[i - 1..];
          } else {
            KeptOpenTagFree(s, rest);
          }
        }
    }
  }

  /** A `<` that StripTags keeps cannot open a tag in the output either. */
  lemma KeptOpenTagFree(s: string, rest: string)
    requires s != [] && TagLength(s).None? && rest == StripTags(s[1..])
    ensures TagLength([s[0]] + rest).None?
  {
    var r := [s[0]] + rest;
    if s[0] == '<' {
      var t := s[1..];
      match CloseIndex(t)
      case None =>
        StripTagsChars(t, '>');
        assert r[1..] == rest;
        assert CloseIndex(r[1..]).None?;
      case Some(k) =>
        assert k == 0;
        assert t[0] == '>';
        assert TagLength(t).None?;
        assert rest == [t[0]] + StripTags(t[1..]);
        assert r[1..] == rest;
        assert CloseIndex(r[1..]) == Some(0);
    }
  }

  /** Tag-free text is left alone, so StripTags is idempotent. */
  lemma {:induction false} StripTagsOfTagFree(s: string)
    requires TagFree(s)
    ensures StripTags(s) == s
    decreases |s|
  {
    if s != [] {
      assert TagLength(s[0..]).None?;
      assert s[0..] == s;
      assert TagFree(s[1..]) by {
        forall i | 0 <= i < |s[1..]| ensures TagLength(s[1..][i..]).None? {
          assert s[1..][i..] == s[i + 1..];
        }
      }
      StripTagsOfTagFree(s[1..]);
      assert s == [s[0]] + s[1..];
    }
  }

  lemma StripTagsIdempotent(s: string)
    ensures StripTags(StripTags(s)) == StripTags(s)
  {
    StripTagsTagFree(s);
    StripTagsOfTagFree(StripTags(s));
  }

  // Read time

  const WordsPerMinute: nat := 200

  /** `math.ceil(word_count / 200)`. */
  function ReadMinutes(wordCount: nat): (m: nat)
    ensures m * WordsPerMinute >= wordCount
    ensures m > 0 ==> (m - 1) * WordsPerMinute < wordCount
  {
    (wordCount + WordsPerMinute - 1) / WordsPerMinute
  }

  function WordCount(s: string): nat {
    |Text.Split(s)|
  }

  /** `calculate_read_time`: the minutes for the words of the tag-stripped text, at least one. */
  function CalculateReadTime(content: string): string {
    var minutes := ReadMinutes(WordCount(StripTags(content)));
    if minutes <= 1 then "1 min read" else Text.NatToString(minutes) + " min read"
  }

  /** Up to 200 words (none included) read in one minute; more need ceil(words / 200) >= 2 minutes. */
  lemma ReadTimeFacts(content: string)
    ensures var wc := WordCount(StripTags(content));
      && (CalculateReadTime(content) == "1 min read" <==> wc <= WordsPerMinute)
      && (wc > WordsPerMinute ==>
            var m := ReadMinutes(wc);
            && m >= 2 && (m - 1) * WordsPerMinute < wc <= m * WordsPerMinute
            && CalculateReadTime(content) == Text.NatToString(m) + " min read")
  {
    var wc := WordCount(StripTags(content));
    var m := ReadMinutes(wc);
    if wc > WordsPerMinute {
      var digits := Text.NatToString(m);
      var r := digits + " min read";
      assert digits != "1" by {
        Text.NatToStringRoundTrip(m);
        assert "1"[..0] == [];
        assert Text.ParseDigits("1") == 1;
      }
      if |digits| == 1 {
        assert digits == [digits[0]];
        assert r[0] != "1 min read"[0];
      } else {
        assert |r| != |"1 min read"|;
      }
    }
  }

  // Excerpt

  const ExcerptLength: nat := 150

  /** The tag-stripped, unescaped text with its whitespace runs collapsed to single spaces. */
  function CleanText(html: string, unescape: string -> string): (t: string)
    ensures Text.Collapsed(t)
    ensures t != [] ==> !Text.IsSpace(t[0]) && !Text.IsSpace(t[|t| - 1])
    ensures Text.Split(t) == Text.Split(unescape(StripTags(html)))
  {
    var raw := unescape(StripTags(html));
    Text.CollapseShape(raw);
    Text.CollapseKeepsWords(raw);
    Text.Collapse(raw)
  }

  /** The first 150 characters and "...", or the whole text when it is not longer than that. */
  function Excerpt(text: string): (e: string)
    ensures |e| <= ExcerptLength + 3
    ensures |text| <= ExcerptLength ==> e == text
    ensures |text| > ExcerptLength ==> |e| == ExcerptLength + 3 && e[..ExcerptLength] == text[..ExcerptLength]
                                        && e[ExcerptLength..] == "..."
  {
    if |text| > ExcerptLength then text[..ExcerptLength] + "..." else text
  }

  /** `clean_html_content`. */
  function CleanHtmlContent(html: string, unescape: string -> string): string {
    Excerpt(CleanText(html, unescape))
  }

  // The featured image: the quoted `src` value of the first `<img` tag the search pattern matches

  predicate IsQuote(c: char) {
    c == '"' || c == '\''
  }

  predicate At(s: string, i: nat, p: string) {
    i + |p| <= |s| && s[i..i + |p|] == p
  }

  /** The first index k >= from whose character satisfies `quote`-ness, if any. */
  function QuoteFrom(s: string, from: nat): (r: Option<nat>)
    ensures r.None? ==> forall i :: from <= i < |s| ==> !IsQuote(s[i])
    ensures r.Some? ==> from <= r.value < |s| && IsQuote(s[r.value]) && forall i :: from <= i < r.value ==> !IsQuote(s[i])
    decreases |s| - from
  {
    if from >= |s| then None
    else if IsQuote(s[from]) then Some(from)
    else QuoteFrom(s, from + 1)
  }

  /** The first index k >= from with s[k] == '>', or |s| when there is none. */
  function CloseFrom(s: string, from: nat): (e: nat)
    ensures from <= |s| ==> from <= e <= |s|
    ensures forall i :: from <= i < e && i < |s| ==> s[i] != '>'
    ensures e < |s| ==> s[e] == '>'
    decreases |s| - from
  {
    if from >= |s| then from
    else if s[from] == '>' then from
    else CloseFrom(s, from + 1)
  }

  /** The group of `src=` + quote + `[^"']+` + quote when that text starts at p. */
  function SrcAt(s: string, p: nat): (r: Option<string>)
    ensures r.Some? ==> (At(s, p, "src=") && p + 4 < |s| && IsQuote(s[p + 4])
                         && r.value != [] && p + 5 + |r.value| < |s| && s[p + 5..p + 5 + |r.value|] == r.value
                         && IsQuote(s[p + 5 + |r.value|]) && forall i :: 0 <= i < |r.value| ==> !IsQuote(r.value[i]))
  {
    if At(s, p, "src=") && p + 4 < |s| && IsQuote(s[p + 4]) then
      match QuoteFrom(s, p + 5)
      case None => None
      case Some(q) => if q > p + 5 then Some(s[p + 5..q]) else None
    else None
  }

  /** The greedy `[^>]+` tries the latest start of `src=` first: the largest p in lo..hi that matches. */
  function LastSrc(s: string, lo: nat, hi: nat): (r: Option<string>)
    decreases hi
  {
    if hi < lo then None
    else match SrcAt(s, hi)
      case Some(g) => Some(g)
      case None => if hi == 0 then None else LastSrc(s, lo, hi - 1)
  }

  /** A match starting at i: `<img`, then one or more non-`>` characters up to `src=`. */
  function ImgAt(s: string, i: nat): Option<string> {
    if At(s, i, "<img") then LastSrc(s, i + 5, CloseFrom(s, i + 4)) else None
  }

  /** The leftmost match from index i on. */
  function ImgFrom(s: string, i: nat): Option<string>
    decreases |s| - i
  {
    if i >= |s| then None
    else match ImgAt(s, i)
      case Some(g) => Some(g)
      case None => ImgFrom(s, i + 1)
  }

  function FindImgSrc(content: string): Option<string> {
    ImgFrom(content, 0)
  }

  /** A found source is a non-empty quote-free text that stands between two quotes after `src=`. */
  lemma {:induction false} ImgFromSound(s: string, i: nat)
    ensures ImgFrom(s, i).Some? ==>
      var g := ImgFrom(s, i).value;
      && g != [] && (forall k :: 0 <= k < |g| ==> !IsQuote(g[k]))
      && exists p :: i <= p && SrcAt(s, p) == Some(g)
    decreases |s| - i
  {
    if i < |s| {
      match ImgAt(s, i)
      case Some(g) =>
        LastSrcSound(s, i + 5, CloseFrom(s, i + 4));
      case None =>
        ImgFromSound(s, i + 1);
    }
  }

  lemma {:induction false} LastSrcSound(s: string, lo: nat, hi: nat)
    ensures LastSrc(s, lo, hi).Some? ==> exists p :: lo <= p <= hi && SrcAt(s, p) == LastSrc(s, lo, hi)
    decreases hi
  {
    if hi >= lo && SrcAt(s, hi).None? && hi > 0 {
      LastSrcSound(s, lo, hi - 1);
    }
  }

  /** Content with no `<img` has no featured image. */
  lemma {:induction false} NoImgTagNoImage(s: string, i: nat)
    requires forall k :: i <= k < |s| ==> !At(s, k, "<img")
    ensures ImgFrom(s, i) == None
    decreases |s| - i
  {
    if i < |s| {
      NoImgTagNoImage(s, i + 1);
    }
  }

  // One Blogger item

  /** A post as `process_blog_post` returns it; fields copied from the item keep their JSON value. */
  datatype ProcessedPost = ProcessedPost(id: Json, title: Json, excerpt: string, content: string,
                                         publishDate: string, readTime: string, category: Json, url: Json,
                                         author: Json, featuredImage: Option<string>)

  const DefaultCategory: string := "AI/ML"
  const DateUnavailable: string := "Date unavailable"
  const Untitled: string := "Untitled"
  const KeyId: string := "id"
  const KeyTitle: string := "title"
  const KeyContent: string := "content"
  const KeyPublished: string := "published"
  const KeyUrl: string := "url"
  const KeyLabels: string := "labels"
  const KeyAuthor: string := "author"
  const KeyDisplayName: string := "displayName"
  const KeyItems: string := "items"

  /** Python truthiness of a decoded JSON value. */
  predicate PyTruthy(j: Json) {
    match j
    case JNull => false
    case JBool(b) => b
    case JNum(n) => n != 0.0
    case JStr(s) => s != ""
    case JArr(xs) => xs != []
    case JObj(f) => f != map[]
  }

  /** `labels[0]` on a truthy value: a list's first item, a string's first character; anything else raises. */
  function FirstOf(labels: Json): (r: Option<Json>)
    requires PyTruthy(labels)
    ensures labels.JArr? ==> r == Some(labels.items[0])
    ensures labels.JStr? ==> r == Some(JStr([labels.s[0]]))
    ensures !labels.JArr? && !labels.JStr? ==> r.None?
  {
    match labels
    case JArr(xs) => Some(xs[0])
    case JStr(s) => Some(JStr([s[0]]))
    case _ => None
  }

  /** The category: the first of truthy labels, "AI/ML" for falsy ones; None where indexing raises. */
  function Category(labels: Json): (r: Option<Json>)
    ensures !PyTruthy(labels) ==> r == Some(JStr(DefaultCategory))
    ensures PyTruthy(labels) ==> r == FirstOf(labels)
  {
    if PyTruthy(labels) then FirstOf(labels) else Some(JStr(DefaultCategory))
  }

  /** `published_str.replace('Z', '+00:00')` */
  function ReplaceZ(s: string): (r: string)
    ensures forall i :: 0 <= i < |r| ==> r[i] != 'Z'
  {
    if s == [] then []
    else (if s[0] == 'Z' then "+00:00" else [s[0]]) + ReplaceZ(s[1..])
  }

  /** The publish date: the formatted date when a string value parses, otherwise the fixed text. */
  function PublishDate(published: Json, parseDate: string -> Option<string>): (d: string)
    ensures !published.JStr? ==> d == DateUnavailable
    ensures published.JStr? && parseDate(ReplaceZ(published.s)).None? ==> d == DateUnavailable
    ensures published.JStr? && parseDate(ReplaceZ(published.s)).Some? ==> d == parseDate(ReplaceZ(published.s)).value
  {
    if published.JStr? then
      match parseDate(ReplaceZ(published.s))
      case Some(formatted) => formatted
      case None => DateUnavailable
    else DateUnavailable
  }

  /**
   * `process_blog_post`: None exactly where the Python code raises (the item is not an object, its
   * content is not a string, its labels cannot be indexed, its author is not an object).
   */
  function ProcessBlogPost(item: Json, unescape: string -> string, parseDate: string -> Option<string>): Option<ProcessedPost>
  {
    match item
    case JObj(f) =>
      var content := Get(f, KeyContent, JStr(""));
      var labels := Get(f, KeyLabels, JArr([]));
      var authorInfo := Get(f, KeyAuthor, JObj(map[]));
      if !content.JStr? || !authorInfo.JObj? then None
      else
        var category := Category(labels);
        if category.None? then None
        else
          Some(ProcessedPost(
            Get(f, KeyId, JStr("")),
            Get(f, KeyTitle, JStr(Untitled)),
            CleanHtmlContent(content.s, unescape),
            content.s,
            PublishDate(Get(f, KeyPublished, JStr("")), parseDate),
            CalculateReadTime(content.s),
            category.value,
            Get(f, KeyUrl, JStr("")),
            Get(authorInfo.fields, KeyDisplayName, JStr(BlogModels.DefaultAuthor)),
            FindImgSrc(content.s)))
    case _ => None
  }

  /** `process_blog_post` returns None exactly where the Python code raises. */
  lemma ProcessBlogPostFails(item: Json, unescape: string -> string, parseDate: string -> Option<string>)
    ensures !item.JObj? ==> ProcessBlogPost(item, unescape, parseDate).None?
    ensures item.JObj? ==> var f := item.fields;
      (ProcessBlogPost(item, unescape, parseDate).Some? <==>
        && Get(f, KeyContent, JStr("")).JStr?
        && Category(Get(f, KeyLabels, JArr([]))).Some?
        && Get(f, KeyAuthor, JObj(map[])).JObj?)
  {
  }

  /** The fields copied from the item, with their defaults when the item lacks them. */
  lemma ProcessBlogPostDefaults(item: Json, unescape: string -> string, parseDate: string -> Option<string>)
    requires item.JObj? && ProcessBlogPost(item, unescape, parseDate).Some?
    ensures var f := item.fields; var p := ProcessBlogPost(item, unescape, parseDate).value;
      && p.id == Get(f, KeyId, JStr(""))
      && p.title == Get(f, KeyTitle, JStr(Untitled))
      && p.url == Get(f, KeyUrl, JStr(""))
      && (KeyTitle !in f ==> p.title == JStr(Untitled))
      && (KeyLabels !in f ==> p.category == JStr(DefaultCategory))
      && Get(f, KeyAuthor, JObj(map[])).JObj?
      && p.author == Get(Get(f, KeyAuthor, JObj(map[])).fields, KeyDisplayName, JStr(BlogModels.DefaultAuthor))
      && (KeyAuthor !in f ==> p.author == JStr(BlogModels.DefaultAuthor))
  {
  }

  /** The fields computed from the content and the publish date. */
  lemma ProcessBlogPostDerived(item: Json, unescape: string -> string, parseDate: string -> Option<string>)
    requires item.JObj? && ProcessBlogPost(item, unescape, parseDate).Some?
    ensures var f := item.fields; var p := ProcessBlogPost(item, unescape, parseDate).value;
      var content := Get(f, KeyContent, JStr("")).s;
      && p.content == content
      && p.excerpt == CleanHtmlContent(content, unescape)
      && p.readTime == CalculateReadTime(content)
      && p.publishDate == PublishDate(Get(f, KeyPublished, JStr("")), parseDate)
      && p.featuredImage == FindImgSrc(content)
  {
  }

  /** The category is the first label of a non-empty label list, and "AI/ML" for an empty one. */
  lemma CategoryFromLabels(f: map<string, Json>, unescape: string -> string, parseDate: string -> Option<string>)
    requires KeyLabels in f && f[KeyLabels].JArr?
    requires ProcessBlogPost(JObj(f), unescape, parseDate).Some?
    ensures var p := ProcessBlogPost(JObj(f), unescape, parseDate).value;
      && (f[KeyLabels].items == [] ==> p.category == JStr(DefaultCategory))
      && (f[KeyLabels].items != [] ==> p.category == f[KeyLabels].items[0])
  {
    ProcessBlogPostCategory(JObj(f), unescape, parseDate);
    CategoryOfList(f[KeyLabels].items);
  }

  lemma ProcessBlogPostCategory(item: Json, unescape: string -> string, parseDate: string -> Option<string>)
    requires item.JObj? && ProcessBlogPost(item, unescape, parseDate).Some?
    ensures ProcessBlogPost(item, unescape, parseDate).value.category == Category(Get(item.fields, KeyLabels, JArr([]))).value
  {
  }

  lemma CategoryOfList(xs: seq<Json>)
    ensures xs == [] ==> Category(JArr(xs)) == Some(JStr(DefaultCategory))
    ensures xs != [] ==> Category(JArr(xs)) == Some(xs[0])
  {
  }

  /** `process_blog_post` as a function value. */
  function Processor(unescape: string -> string, parseDate: string -> Option<string>): Json -> Option<ProcessedPost> {
    item => ProcessBlogPost(item, unescape, parseDate)
  }

  /** The posts of the items that `process` accepts, in item order: the loop that skips failed items. */
  function Collect(items: seq<Json>, process: Json -> Option<ProcessedPost>): seq<ProcessedPost>
    decreases |items|
  {
    if items == [] then []
    else
      var n := |items| - 1;
      Collect(items[..n], process) + (match process(items[n]) case Some(p) => [p] case None => [])
  }

  /** Collecting a concatenation collects each part. */
  lemma {:induction false} CollectAppend(a: seq<Json>, b: seq<Json>, process: Json -> Option<ProcessedPost>)
    ensures Collect(a + b, process) == Collect(a, process) + Collect(b, process)
    decreases |b|
  {
    if b != [] {
      var n := |b| - 1;
      CollectAppend(a, b[..n], process);
      assert (a + b)[..|a| + n] == a + b[..n];
      assert (a + b)[|a| + n] == b[n];
    } else {
      assert a + b == a;
    }
  }

  /** The positions of the items that `process` accepts, in increasing order. */
  function Accepted(items: seq<Json>, process: Json -> Option<ProcessedPost>): seq<int>
    decreases |items|
  {
    if items == [] then []
    else
      var n := |items| - 1;
      Accepted(items[..n], process) + (if process(items[n]).Some? then [n] else [])
  }

  /**
   * The posts are the accepted items' posts, in item order: the k-th post comes from the item at
   * the k-th accepted position, those positions increase, and every accepted item has one.
   */
  lemma CollectFromItems(items: seq<Json>, process: Json -> Option<ProcessedPost>)
    ensures var ps := Collect(items, process); var idx := Accepted(items, process);
      && |ps| <= |items|
      && |idx| == |ps|
      && (forall k :: 0 <= k < |idx| ==> 0 <= idx[k] < |items| && process(items[idx[k]]) == Some(ps[k]))
      && (forall k, l :: 0 <= k < l < |idx| ==> idx[k] < idx[l])
      && (forall i :: 0 <= i < |items| && process(items[i]).Some? ==> i in idx)
  {
    AcceptedShape(items, process);
    AcceptedPosts(items, process);
    AcceptedComplete(items, process);
  }

  lemma {:induction false} AcceptedShape(items: seq<Json>, process: Json -> Option<ProcessedPost>)
    ensures var idx := Accepted(items, process);
      && |idx| == |Collect(items, process)| <= |items|
      && (forall k :: 0 <= k < |idx| ==> 0 <= idx[k] < |items|)
      && (forall k, l :: 0 <= k < l < |idx| ==> idx[k] < idx[l])
    decreases |items|
  {
    if items != [] {
      AcceptedShape(items[..|items| - 1], process);
    }
  }

  lemma {:induction false} AcceptedPosts(items: seq<Json>, process: Json -> Option<ProcessedPost>)
    ensures var ps := Collect(items, process); var idx := Accepted(items, process);
      |idx| == |ps| &&
      forall k :: 0 <= k < |idx| ==> 0 <= idx[k] < |items| && process(items[idx[k]]) == Some(ps[k])
    decreases |items|
  {
    AcceptedShape(items, process);
    if items != [] {
      var n := |items| - 1;
      AcceptedPosts(items[..n], process);
      var prevIdx := Accepted(items[..n], process);
      forall k | 0 <= k < |prevIdx|
        ensures items[prevIdx[k]] == items[..n][prevIdx[k]]
      {
      }
    }
  }

  lemma {:induction false} AcceptedComplete(items: seq<Json>, process: Json -> Option<ProcessedPost>)
    ensures forall i :: 0 <= i < |items| && process(items[i]).Some? ==> i in Accepted(items, process)
    decreases |items|
  {
    if items != [] {
      var n := |items| - 1;
      AcceptedComplete(items[..n], process);
      forall i | 0 <= i < n
        ensures items[..n][i] == items[i]
      {
      }
    }
  }

  /** Each post comes from some item. */
  lemma CollectFromSomeItem(items: seq<Json>, process: Json -> Option<ProcessedPost>)
    ensures var ps := Collect(items, process);
      forall k :: 0 <= k < |ps| ==> exists i :: 0 <= i < |items| && process(items[i]) == Some(ps[k])
  {
    CollectFromItems(items, process);
    var ps := Collect(items, process);
    var idx := Accepted(items, process);
    forall k | 0 <= k < |ps|
      ensures exists i :: 0 <= i < |items| && process(items[i]) == Some(ps[k])
    {
      assert process(items[idx[k]]) == Some(ps[k]);
    }
  }

  /** When every item is accepted, every item gives exactly one post, in order. */
  lemma {:induction false} CollectAll(items: seq<Json>, process: Json -> Option<ProcessedPost>)
    requires forall i :: 0 <= i < |items| ==> process(items[i]).Some?
    ensures var ps := Collect(items, process);
      |ps| == |items| && forall i :: 0 <= i < |items| ==> Some(ps[i]) == process(items[i])
    decreases |items|
  {
    if items != [] {
      var n := |items| - 1;
      assert forall i :: 0 <= i < n ==> items[..n][i] == items[i];
      CollectAll(items[..n], process);
    }
  }

  // Fetching

  datatype Request = Request(url: string, key: string, maxResults: int, fields: string)

  /** What the request produced: a response with its decoded body, or the exception it raised. */
  datatype HttpOutcome =
    | Response(status: int, body: Json)
    | Timeout
    | RequestError
    | OtherError

  /** The `data` of a result; `isFallback` is None where the key is absent. */
  datatype PostsData = PostsData(posts: seq<ProcessedPost>, totalPosts: int, lastFetched: string, isFallback: Option<bool>)

  /** The service's answer: a success with its data, or an error with its message and no data. */
  datatype ServiceResult = Success(data: PostsData) | Error(message: string)

  const BaseUrl: string := "https://www.googleapis.com/blogger/v3/blogs"
  const FieldsParam: string := "items(id,title,content,published,updated,url,author,labels),nextPageToken"
  const CacheDurationSeconds: nat := 3600

  const ConfigMissing: string := "Blog configuration not available"
  const AccessDenied: string := "API access denied - check credentials"
  const BlogNotFound: string := "Blog not found"
  const TimedOut: string := "Request timed out"
  const NetworkError: string := "Network error occurred"
  const UnexpectedError: string := "An unexpected error occurred"

  /**
   * The items a 200 body holds under its `items` key (none when the key is absent), or None where
   * the test or the loop raises. Iterating an object or a string yields strings, which never
   * process, so those cases give no items.
   */
  function ItemsOf(data: Json): (r: Option<seq<Json>>)
    ensures data.JObj? && KeyItems !in data.fields ==> r == Some([])
    ensures data.JObj? && KeyItems in data.fields && data.fields[KeyItems].JArr? ==> r == Some(data.fields[KeyItems].items)
  {
    match data
    case JObj(f) =>
      if KeyItems !in f then Some([])
      else (match f[KeyItems]
        case JArr(xs) => Some(xs)
        case JObj(_) => Some([])
        case JStr(_) => Some([])
        case _ => None)
    case JArr(xs) => if JStr(KeyItems) in xs then None else Some([])
    case JStr(s) => if exists i: nat | i < |s| :: At(s, i, KeyItems) then None else Some([])
    case _ => None
  }

  /** Iterated keys and characters are strings, and a string item never processes. */
  lemma StringItemFails(s: string, unescape: string -> string, parseDate: string -> Option<string>)
    ensures Processor(unescape, parseDate)(JStr(s)).None?
  {
  }

  /** The blog service with its configuration, read from the environment once, at construction. */
  class BlogService {
    const apiKey: Option<string>
    const blogId: Option<string>
    const baseUrl: string
    const cacheDurationSeconds: nat

    constructor(env: map<string, string>)
      ensures apiKey == (if "GOOGLE_API_KEY" in env then Some(env["GOOGLE_API_KEY"]) else None)
      ensures blogId == (if "BLOGGER_BLOG_ID" in env then Some(env["BLOGGER_BLOG_ID"]) else None)
      ensures baseUrl == BaseUrl && cacheDurationSeconds == CacheDurationSeconds
    {
      apiKey := if "GOOGLE_API_KEY" in env then Some(env["GOOGLE_API_KEY"]) else None;
      blogId := if "BLOGGER_BLOG_ID" in env then Some(env["BLOGGER_BLOG_ID"]) else None;
      baseUrl := BaseUrl;
      cacheDurationSeconds := CacheDurationSeconds;
    }

    /** Both the key and the blog id are set and non-empty. */
    predicate Configured() {
      apiKey.Some? && apiKey.value != "" && blogId.Some? && blogId.value != ""
    }

    function RequestFor(maxResults: int): (q: Request)
      requires Configured()
      ensures q.url == baseUrl + "/" + blogId.value + "/posts" && q.key == apiKey.value
      ensures q.maxResults == maxResults && q.fields == FieldsParam
    {
      Request(baseUrl + "/" + blogId.value + "/posts", apiKey.value, maxResults, FieldsParam)
    }

    /** The result `fetch_blog_posts` returns, as a function of the transport's outcome. */
    function Fetch(maxResults: int, transport: Request -> HttpOutcome, unescape: string -> string,
                   parseDate: string -> Option<string>, now: string): ServiceResult
    {
      if !Configured() then Error(ConfigMissing)
      else match transport(RequestFor(maxResults))
        case Timeout => Error(TimedOut)
        case RequestError => Error(NetworkError)
        case OtherError => Error(UnexpectedError)
        case Response(status, body) =>
          if status == 200 then
            match ItemsOf(body)
            case None => Error(UnexpectedError)
            case Some(items) =>
              var posts := Collect(items, Processor(unescape, parseDate));
              Success(PostsData(posts, |posts|, now, None))
          else if status == 403 then Error(AccessDenied)
          else if status == 404 then Error(BlogNotFound)
          else Error("API request failed: " + Text.IntToString(status))
    }

    /** The loop over the response's items that keeps each processed post and skips the failures. */
    static method ProcessItems(items: seq<Json>, unescape: string -> string, parseDate: string -> Option<string>)
      returns (posts: seq<ProcessedPost>)
      ensures posts == Collect(items, Processor(unescape, parseDate))
    {
      posts := [];
      var i := 0;
      while i < |items|
        invariant 0 <= i <= |items|
        invariant posts == Collect(items[..i], Processor(unescape, parseDate))
      {
        var processed := ProcessBlogPost(items[i], unescape, parseDate);
        assert items[..i + 1][..i] == items[..i];
        if processed.Some? {
          posts := posts + [processed.value];
        }
        i := i + 1;
      }
      assert items[..i] == items;
    }

    /** `fetch_blog_posts`: the request, the status classification and the loop that collects the posts. */
    method FetchBlogPosts(maxResults: int, transport: Request -> HttpOutcome, unescape: string -> string,
                          parseDate: string -> Option<string>, now: string)
      returns (result: ServiceResult)
      ensures result == Fetch(maxResults, transport, unescape, parseDate, now)
    {
      if !(apiKey.Some? && apiKey.value != "") || !(blogId.Some? && blogId.value != "") {
        return Error(ConfigMissing);
      }
      var url := baseUrl + "/" + blogId.value + "/posts";
      var response := transport(Request(url, apiKey.value, maxResults, FieldsParam));
      match response {
        case Timeout => result := Error(TimedOut);
        case RequestError => result := Error(NetworkError);
        case OtherError => result := Error(UnexpectedError);
        case Response(status, body) =>
          if status == 200 {
            var items := ItemsOf(body);
            if items.None? {
              return Error(UnexpectedError);
            }
            var posts := ProcessItems(items.value, unescape, parseDate);
            result := Success(PostsData(posts, |posts|, now, None));
          } else if status == 403 {
            result := Error(AccessDenied);
          } else if status == 404 {
            result := Error(BlogNotFound);
          } else {
            result := Error("API request failed: " + Text.IntToString(status));
          }
      }
    }

    /** Without a key or a blog id the result is the configuration error, whatever the transport would do. */
    lemma FetchUnconfigured(maxResults: int, t1: Request -> HttpOutcome, t2: Request -> HttpOutcome,
                            unescape: string -> string, parseDate: string -> Option<string>, now: string)
      requires !Configured()
      ensures Fetch(maxResults, t1, unescape, parseDate, now) == Error(ConfigMissing)
      ensures Fetch(maxResults, t1, unescape, parseDate, now) == Fetch(maxResults, t2, unescape, parseDate, now)
    {
    }

    /** How each status code of the response is classified. */
    lemma FetchByStatus(maxResults: int, transport: Request -> HttpOutcome, unescape: string -> string,
                        parseDate: string -> Option<string>, now: string)
      requires Configured() && transport(RequestFor(maxResults)).Response?
      ensures var resp := transport(RequestFor(maxResults));
        var r := Fetch(maxResults, transport, unescape, parseDate, now);
        && (resp.status == 200 && ItemsOf(resp.body).Some? ==>
              && r.Success? && r.data.posts == Collect(ItemsOf(resp.body).value, Processor(unescape, parseDate))
              && r.data.totalPosts == |r.data.posts| && r.data.isFallback.None? && r.data.lastFetched == now)
        && (resp.status == 403 ==> r == Error(AccessDenied))
        && (resp.status == 404 ==> r == Error(BlogNotFound))
        && (resp.status !in {200, 403, 404} ==> r == Error("API request failed: " + Text.IntToString(resp.status)))
    {
    }

    /** Every success reports as many posts as it holds. */
    lemma FetchSuccessCount(maxResults: int, transport: Request -> HttpOutcome, unescape: string -> string,
                            parseDate: string -> Option<string>, now: string)
      requires Fetch(maxResults, transport, unescape, parseDate, now).Success?
      ensures var d := Fetch(maxResults, transport, unescape, parseDate, now).data;
        d.totalPosts == |d.posts| && d.isFallback.None?
        && transport(RequestFor(maxResults)).Response? && transport(RequestFor(maxResults)).status == 200
    {
    }
  }

  const FallbackId: string := "fallback-1"
  const FallbackTitle: string := "The Complete AI Playground: Concepts, Challenges, and Innovations"
  const FallbackExcerpt: string := "Exploring the fascinating world of AI/ML from fundamental concepts to cutting-edge innovations. A comprehensive guide through the challenges and breakthroughs shaping the future of artificial intelligence."
  const FallbackDate: string := "Coming Soon"
  const FallbackReadTime: string := "8 min read"
  const FallbackCategory: string := "AI/ML Deep Dive"
  const FallbackUrl: string := "#"

  /** The single fallback post. */
  function FallbackPost(): ProcessedPost {
    ProcessedPost(JStr(FallbackId), JStr(FallbackTitle), FallbackExcerpt, "", FallbackDate, FallbackReadTime,
                  JStr(FallbackCategory), JStr(FallbackUrl), JStr(BlogModels.DefaultAuthor), None)
  }

  /** `get_fallback_posts`: a success with exactly the fallback post, flagged as fallback. */
  function GetFallbackPosts(now: string): (r: ServiceResult)
    ensures r.Success? && |r.data.posts| == 1 && r.data.totalPosts == 1 && r.data.isFallback == Some(true)
    ensures r.data.posts == [FallbackPost()] && r.data.posts[0].id == JStr(FallbackId) && r.data.lastFetched == now
  {
    var posts := [FallbackPost()];
    Success(PostsData(posts, |posts|, now, Some(true)))
  }
}
