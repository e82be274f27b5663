/**
 * The older content transformer (src/post.rs). It maps the same kind of post body to archive
 * content items with paths under the post's folder, applies bold spans by re-splitting the
 * text once per style, and converts fan-site comments into archive comments.
 *
 * `set_style` splits at the byte offsets `char_indices` reports; on `seq<char>` the model takes
 * each character to be one byte, which is exact for ASCII text.
 */
module LegacyPost {
  import opened Wrappers
  import opened Strings
  import opened Seqs
  import F = Fanbox
  import Body
  import Paths

  /** The fields of src/post.rs's `PostListItem` a URL embed reads (here the post id is a `u32`). */
  datatype PostInfo = PostInfo(id: nat, title: String, creatorId: String)

  /** `PostUrlEmbed` */
  datatype PostUrlEmbed =
    | Html(id: String, html: String)
    | HtmlCard(id: String, html: String)
    | FanboxPost(id: String, postInfo: PostInfo)
    | Default(id: String, url: String, host: String)

  /** src/post.rs's `PostBody`: its side tables are `BTreeMap`s. */
  datatype PostBody = PostBody(
    text: Option<String>,
    blocks: Option<seq<F.PostBlock>>,
    images: Option<seq<F.PostImage>>,
    videos: Option<seq<F.PostVideo>>,
    files: Option<seq<F.PostFile>>,
    imageMap: Option<F.OrderedMap<F.PostImage>>,
    fileMap: Option<F.OrderedMap<F.PostFile>>,
    embedMap: Option<F.OrderedMap<F.PostEmbed>>,
    urlEmbedMap: Option<F.OrderedMap<PostUrlEmbed>>)

  /** `post_archiver::ArchiveContent` of that version: text, or a path to an image, video or file. */
  datatype ArchiveContent = Text(text: String) | Image(path: Paths.Path) | Video(path: Paths.Path) | File(path: Paths.Path)

  // ---------------------------------------------------------------------------
  // File names and the image-to-file conversion
  // ---------------------------------------------------------------------------

  /** `Into<PostFile> for PostImage`: same id, url and extension, size 0, named by the image's file name. */
  function ImageToFile(image: F.PostImage): (r: F.PostFile)
    ensures r.id == image.id && r.url == image.originalUrl && r.extension == image.extension
    ensures r.size == 0 && r.name == F.ImageFilename(image)
  {
    F.PostFile(image.id, image.id + "." + image.extension, image.extension, 0, image.originalUrl)
  }

  /**
   * A file name is the stem, a '.', then the extension, so the extension can be read back from
   * it; a converted image keeps its own file name as the stem, so its file name ends in the
   * extension twice.
   */
  lemma FilenameParts(image: F.PostImage, file: F.PostFile)
    ensures F.ImageFilename(image)[|image.id| + 1..] == image.extension
    ensures F.FileFilename(file)[..|file.name|] == file.name
    ensures F.FileFilename(ImageToFile(image)) == F.ImageFilename(image) + "." + image.extension
  {
    assert F.ImageFilename(image) == image.id + ("." + image.extension);
  }

  // ---------------------------------------------------------------------------
  // Bold spans (`set_style`)
  // ---------------------------------------------------------------------------

  function Min(a: int, b: int): int { if a <= b then a else b }

  /** One bold span applied: `left + "**" + styled + "**" + right`, split at offset and offset + length. */
  function Wrap(text: String, style: F.BlockStyle): (r: String)
    ensures |r| == |text| + 4
  {
    var a := Min(style.offset, |text|);
    var b := Min(style.offset + style.length, |text|);
    text[..a] + "**" + text[a..b] + "**" + text[b..]
  }

  /** Wrapping keeps every character of the text in order and adds exactly four '*'. */
  lemma WrapAddsMarkers(text: String, style: F.BlockStyle)
    ensures IsSubsequence(text, Wrap(text, style))
    ensures CountChar(Wrap(text, style), '*') == CountChar(text, '*') + 4
  {
    var a := Min(style.offset, |text|);
    var b := Min(style.offset + style.length, |text|);
    var left, mid, right := text[..a], text[a..b], text[b..];
    assert text == left + mid + right;
    assert Wrap(text, style) == left + ("**" + mid + "**") + right;
    MarkedKeepsText(left, mid, right, "**");
    MarkedCount(left, mid, right, "**", '*');
    assert CountChar("**", '*') == 2;
  }

  /** Putting `mark` on both sides of the middle part keeps the text as a subsequence. */
  lemma MarkedKeepsText(left: String, mid: String, right: String, mark: String)
    ensures IsSubsequence(left + mid + right, left + (mark + mid + mark) + right)
  {
    SubsequenceRefl(left);
    SubsequenceRefl(mid);
    SubsequenceRefl(right);
    SubsequenceEmpty(mark);
    SubsequenceConcat([], mark, mid, mid);
    assert [] + mid == mid && mid + [] == mid;
    SubsequenceConcat(mid, mark + mid, [], mark);
    SubsequenceConcat(left, left, mid, mark + mid + mark);
    SubsequenceConcat(left + mid, left + (mark + mid + mark), right, right);
  }

  /** ... and adds the characters of `mark` twice. */
  lemma MarkedCount(left: String, mid: String, right: String, mark: String, c: char)
    ensures CountChar(left + (mark + mid + mark) + right, c) == CountChar(left + mid + right, c) + 2 * CountChar(mark, c)
  {
    CountCharConcat(left + mid, right, c);
    CountCharConcat(left, mid, c);
    CountCharConcat(left + (mark + mid + mark), right, c);
    CountCharConcat(left, mark + mid + mark, c);
    CountCharConcat(mark + mid, mark, c);
    CountCharConcat(mark, mid, c);
  }

  /** What `set_style` computes: the styles applied from the last to the first; a non-bold style panics. */
  function SetStyleSpec(text: String, styles: seq<F.BlockStyle>): (r: Result<String, F.Panic>)
    ensures r.Err? <==> !Body.AllBold(styles)
    ensures r.Err? ==> r.error == F.UnknownStyle
    ensures r.Ok? ==> |r.value| == |text| + 4 * |styles|
    decreases |styles|
  {
    if styles == [] then Ok(text)
    else
      var style := styles[|styles| - 1];
      var rest := styles[..|styles| - 1];
      assert Body.AllBold(styles) <==> Body.AllBold(rest) && style.ty == "bold";
      if style.ty != "bold" then Err(F.UnknownStyle)
      else SetStyleSpec(Wrap(text, style), rest)
  }

  /** Styling keeps the text as a subsequence and adds four '*' per style. */
  lemma {:induction false} SetStyleKeepsText(text: String, styles: seq<F.BlockStyle>)
    requires Body.AllBold(styles)
    ensures IsSubsequence(text, SetStyleSpec(text, styles).value)
    ensures CountChar(SetStyleSpec(text, styles).value, '*') == CountChar(text, '*') + 4 * |styles|
    decreases |styles|
  {
    if styles == [] {
      SubsequenceRefl(text);
    } else {
      var style := styles[|styles| - 1];
      var rest := styles[..|styles| - 1];
      var wrapped := Wrap(text, style);
      SetStyleSpecPop(text, styles);
      var out := SetStyleSpec(wrapped, rest).value;
      WrapAddsMarkers(text, style);
      SetStyleKeepsText(wrapped, rest);
      SubsequenceTransitive(text, wrapped, out);
      assert CountChar(out, '*') == CountChar(text, '*') + 4 + 4 * |rest|;
    }
  }

  /** Popping the last style: a non-bold one panics, a bold one wraps the text and leaves the rest. */
  lemma SetStyleSpecPop(text: String, styles: seq<F.BlockStyle>)
    requires styles != []
    ensures Body.AllBold(styles) <==> Body.AllBold(styles[..|styles| - 1]) && styles[|styles| - 1].ty == "bold"
    ensures var style := styles[|styles| - 1];
      SetStyleSpec(text, styles) ==
        if style.ty != "bold" then Err(F.UnknownStyle)
        else SetStyleSpec(Wrap(text, style), styles[..|styles| - 1])
  {
    assert forall k :: 0 <= k < |styles| - 1 ==> styles[..|styles| - 1][k] == styles[k];
  }

  /**
   * The block of `set_style` that walks the characters of `text`: those before `offset` go
   * left, those before `end` into the styled part, the others right.
   */
  method SplitSpan(text: String, offset: nat, end: nat) returns (left: String, styled: String, right: String)
    requires offset <= end
    ensures left == text[..Min(offset, |text|)]
    ensures styled == text[Min(offset, |text|)..Min(end, |text|)]
    ensures right == text[Min(end, |text|)..]
  {
    left, styled, right := "", "", "";
    for index := 0 to |text|
      invariant left == text[..Min(index, offset)]
      invariant styled == text[Min(index, offset)..Min(index, end)]
      invariant right == text[Min(index, end)..index]
    {
      if index < offset {
        left := left + [text[index]];
      } else if index < end {
        styled := styled + [text[index]];
      } else {
        right := right + [text[index]];
      }
    }
  }

  lemma WrapOfSplit(text: String, style: F.BlockStyle, left: String, styled: String, right: String)
    requires left == text[..Min(style.offset, |text|)]
    requires styled == text[Min(style.offset, |text|)..Min(style.offset + style.length, |text|)]
    requires right == text[Min(style.offset + style.length, |text|)..]
    ensures left + ("**" + styled + "**") + right == Wrap(text, style)
  {
  }

  /**
   * `set_style`: pop a style, split the current text into the characters before the span, in
   * it and after it, wrap the middle in bold markers, and repeat until no style is left.
   */
  method SetStyle(text: String, styles: seq<F.BlockStyle>) returns (r: Result<String, F.Panic>)
    ensures r == SetStyleSpec(text, styles)
  {
    var current := text;
    var pending := styles;
    while pending != []
      invariant SetStyleSpec(current, pending) == SetStyleSpec(text, styles)
      decreases |pending|
    {
      var style := pending[|pending| - 1];
      SetStyleSpecPop(current, pending);
      pending := pending[..|pending| - 1];
      var left, styled, right := SplitSpan(current, style.offset, style.offset + style.length);
      if style.ty != "bold" {
        return Err(F.UnknownStyle);
      }
      WrapOfSplit(current, style, left, styled, right);
      current := left + ("**" + styled + "**") + right;
    }
    return Ok(current);
  }

  // ---------------------------------------------------------------------------
  // Embeds
  // ---------------------------------------------------------------------------

  /** The legacy `deconstruct`: the same `creator/{c}/post/{p}` shape, with both ids parsed as `i32`. */
  function DeconstructIds(input: String): (r: Option<(int, int)>)
    ensures r.Some? ==> I32_MIN <= r.value.0 <= I32_MAX && I32_MIN <= r.value.1 <= I32_MAX
    ensures r.Some? ==> Body.Deconstruct(input).Some?
  {
    match Body.Deconstruct(input)
    case None => None
    case Some((creator, post)) =>
      (match (ParseI32(creator), ParseI32(post))
       case (Some(c), Some(p)) => Some((c, p))
       case _ => None)
  }

  lemma NoSlashInInt(i: int)
    ensures '/' !in IntToString(i)
  {
    var s := IntToString(i);
    if i < 0 {
      assert s == "-" + NatToString(-i);
      assert forall k :: 1 <= k < |s| ==> s[k] == NatToString(-i)[k - 1];
    }
  }

  /** Formatting two `i32` ids into a content id and deconstructing it gives them back. */
  lemma DeconstructIdsRoundTrip(c: int, p: int)
    requires I32_MIN <= c <= I32_MAX && I32_MIN <= p <= I32_MAX
    ensures DeconstructIds("creator/" + IntToString(c) + "/post/" + IntToString(p)) == Some((c, p))
  {
    NoSlashInInt(c);
    NoSlashInInt(p);
    Body.DeconstructRoundTrip(IntToString(c), IntToString(p));
    ParseI32OfIntToString(c);
    ParseI32OfIntToString(p);
  }

  /**
   * `map_embed`: YouTube (linked by the embed's own id), Google Forms and fan-site posts (linked
   * on the official site by the parsed post id); any other provider or a malformed id panics.
   */
  function MapEmbed(embed: F.PostEmbed): (r: Result<String, F.Panic>)
    ensures r.Err? <==>
      || embed.serviceProvider !in {"youtube", "google_forms", "fanbox"}
      || (embed.serviceProvider == "fanbox" && DeconstructIds(embed.contentId).None?)
    ensures embed.serviceProvider == "youtube" ==> r == Ok(Body.YoutubeLink(embed.id))
  {
    match embed.serviceProvider
    case "youtube" => Ok(Body.YoutubeLink(embed.id))
    case "google_forms" => Ok("[Google Form](https://docs.google.com/forms/d/e/" + embed.contentId + "/viewform)")
    case "fanbox" =>
      (match DeconstructIds(embed.contentId)
       case None => Err(F.MalformedContentId)
       case Some((_, post)) =>
         Ok("[Fanbox Post (" + IntToString(post) + ")](https://official.fanbox.cc/posts/" + IntToString(post) + ")"))
    case _ => Err(F.UnknownEmbedProvider)
  }

  /** A fan-site embed links to the official page of the post id written in its content id. */
  lemma FanboxEmbedLinksToPost(id: String, c: int, p: int)
    requires I32_MIN <= c <= I32_MAX && I32_MIN <= p <= I32_MAX
    ensures MapEmbed(F.PostEmbed(id, "fanbox", "creator/" + IntToString(c) + "/post/" + IntToString(p)))
         == Ok("[Fanbox Post (" + IntToString(p) + ")](https://official.fanbox.cc/posts/" + IntToString(p) + ")")
  {
    DeconstructIdsRoundTrip(c, p);
  }

  /** `map_url_embed`: the iframe link of an HTML embed, an archive link for a fan-site post, or the plain URL. */
  function MapUrlEmbed(embed: PostUrlEmbed): (r: String)
    ensures (embed.Html? || embed.HtmlCard?) ==>
      (r == "[Invalid URL Embed]" <==> Body.IframeSrc(embed.html).None?)
    ensures (embed.Html? || embed.HtmlCard?) && Body.IframeSrc(embed.html).Some? ==>
      var s := Body.IframeSrc(embed.html).value; r == "[" + s + "](" + s + ")"
  {
    match embed
    case Html(_, html) => Body.IframeLink(html)
    case HtmlCard(_, html) => Body.IframeLink(html)
    case FanboxPost(_, info) =>
      "[Fanbox Post " + info.title + "](https://xiaoeyun.me/archive/" + info.creatorId + "/" + NatToString(info.id) + ")"
    case Default(_, url, _) => "[" + url + "](" + url + ")"
  }

  // ---------------------------------------------------------------------------
  // Blocks and the whole body
  // ---------------------------------------------------------------------------

  /**
   * One block of `PostBody::text`: an empty paragraph is an empty text, a paragraph gets two
   * trailing spaces, a header "# "; an image, file or embed id missing from its table degrades
   * to a text holding the id. A missing table, video or URL embed panics.
   */
  function BlockToArchive(body: PostBody, path: Paths.Path, block: F.PostBlock): (r: Result<ArchiveContent, F.Panic>)
    ensures block.P? && block.text == [] ==> r == Ok(Text(""))
    ensures block.P? && block.text != [] && r.Ok? ==>
      r.value.Text? && |r.value.text| >= 2 && r.value.text[|r.value.text| - 2..] == "  "
    ensures block.Header? && r.Ok? ==> r.value.Text? && "# " <= r.value.text
    ensures (block.P? && block.text != []) || block.Header? ==>
      (r.Ok? <==> Body.AllBold(block.styles.UnwrapOr([]))) && (r.Err? ==> r.error == F.UnknownStyle)
    ensures block.P? && block.text != [] && r.Ok? ==>
      r.value == Text(SetStyleSpec(block.text, block.styles.UnwrapOr([])).value + "  ")
    ensures block.Header? && r.Ok? ==>
      r.value == Text("# " + SetStyleSpec(block.text, block.styles.UnwrapOr([])).value)
    ensures block.Image? && body.imageMap.None? ==> r == Err(F.MissingImageMap)
    ensures block.File? && body.fileMap.None? ==> r == Err(F.MissingFileMap)
    ensures block.Embed? && body.embedMap.None? ==> r == Err(F.MissingEmbedMap)
    ensures block.UrlEmbed? && body.urlEmbedMap.None? ==> r == Err(F.MissingUrlEmbedMap)
    ensures block.UrlEmbed? && body.urlEmbedMap.Some? && F.Get(body.urlEmbedMap.value, block.urlEmbedId).None? ==>
      r == Err(F.MissingUrlEmbed)
    ensures block.Video? && body.videos.None? ==> r == Err(F.MissingVideos)
    ensures block.File? && body.fileMap.Some? && F.Get(body.fileMap.value, block.fileId).Some? ==>
      r == Ok(File(Paths.Join(path, F.FileFilename(F.Get(body.fileMap.value, block.fileId).value))))
    ensures block.Image? && body.imageMap.Some? && F.Get(body.imageMap.value, block.imageId).None? ==>
      r == Ok(Text(block.imageId))
    ensures block.Image? && body.imageMap.Some? && F.Get(body.imageMap.value, block.imageId).Some? ==>
      r == Ok(Image(Paths.Join(path, F.ImageFilename(F.Get(body.imageMap.value, block.imageId).value))))
    ensures block.File? && body.fileMap.Some? && F.Get(body.fileMap.value, block.fileId).None? ==>
      r == Ok(Text(block.fileId))
    ensures block.Embed? && body.embedMap.Some? && F.Get(body.embedMap.value, block.embedId).None? ==>
      r == Ok(Text(block.embedId))
    ensures block.Embed? && body.embedMap.Some? && F.Get(body.embedMap.value, block.embedId).Some? ==>
      var t := MapEmbed(F.Get(body.embedMap.value, block.embedId).value);
      r == (if t.Ok? then Ok(Text(t.value)) else Err(t.error))
    ensures block.Video? && body.videos.Some? && Body.FindVideo(body.videos.value, block.videoId).None? ==>
      r == Err(F.MissingVideo)
    ensures block.Video? && body.videos.Some? && Body.FindVideo(body.videos.value, block.videoId).Some? ==>
      var t := Body.VideoToText(Body.FindVideo(body.videos.value, block.videoId).value);
      r == (if t.Ok? then Ok(Text(t.value)) else Err(t.error))
    ensures block.UrlEmbed? && body.urlEmbedMap.Some? && F.Get(body.urlEmbedMap.value, block.urlEmbedId).Some? ==>
      r == Ok(Text(MapUrlEmbed(F.Get(body.urlEmbedMap.value, block.urlEmbedId).value)))
  {
    match block
    case P(text, styles) =>
      if text == [] then Ok(Text(""))
      else
        (match SetStyleSpec(text, styles.UnwrapOr([]))
         case Ok(s) => Ok(Text(s + "  "))
         case Err(e) => Err(e))
    case Header(text, styles) =>
      (match SetStyleSpec(text, styles.UnwrapOr([]))
       case Ok(s) => Ok(Text("# " + s))
       case Err(e) => Err(e))
    case Image(id) =>
      if body.imageMap.None? then Err(F.MissingImageMap)
      else
        (match F.Get(body.imageMap.value, id)
         case Some(image) => Ok(Image(Paths.Join(path, F.ImageFilename(image))))
         case None => Ok(Text(id)))
    case File(id) =>
      if body.fileMap.None? then Err(F.MissingFileMap)
      else
        (match F.Get(body.fileMap.value, id)
         case Some(file) => Ok(File(Paths.Join(path, F.FileFilename(file))))
         case None => Ok(Text(id)))
    case Embed(id) =>
      if body.embedMap.None? then Err(F.MissingEmbedMap)
      else
        (match F.Get(body.embedMap.value, id)
         case Some(embed) =>
           (match MapEmbed(embed)
            case Ok(s) => Ok(Text(s))
            case Err(e) => Err(e))
         case None => Ok(Text(id)))
    case Video(id) =>
      if body.videos.None? then Err(F.MissingVideos)
      else
        (match Body.FindVideo(body.videos.value, id)
         case None => Err(F.MissingVideo)
         case Some(video) =>
           (match Body.VideoToText(video)
            case Ok(s) => Ok(Text(s))
            case Err(e) => Err(e)))
    case UrlEmbed(id) =>
      if body.urlEmbedMap.None? then Err(F.MissingUrlEmbedMap)
      else
        (match F.Get(body.urlEmbedMap.value, id)
         case None => Err(F.MissingUrlEmbed)
         case Some(embed) => Ok(Text(MapUrlEmbed(embed))))
  }

  /** `text.replace("\n", "  \n")`: every line break becomes a Markdown hard break. */
  function HardBreaks(text: String): (r: String)
    ensures |r| == |text| + 2 * CountChar(text, '\n')
    ensures CountChar(r, '\n') == CountChar(text, '\n')
  {
    HardBreaksCount(text);
    ReplaceChar(text, '\n', "  \n")
  }

  lemma {:induction false} HardBreaksCount(text: String)
    ensures CountChar(ReplaceChar(text, '\n', "  \n"), '\n') == CountChar(text, '\n')
  {
    if text != [] {
      HardBreaksCount(text[1..]);
      var head := if text[0] == '\n' then "  \n" else [text[0]];
      assert ReplaceChar(text, '\n', "  \n") == head + ReplaceChar(text[1..], '\n', "  \n");
      CountCharConcat(head, ReplaceChar(text[1..], '\n', "  \n"), '\n');
    }
  }

  /** `BlockToArchive` on one post body and directory, as a function value over blocks. */
  function ToArchive(body: PostBody, path: Paths.Path): F.PostBlock -> Result<ArchiveContent, F.Panic> {
    (block: F.PostBlock) => BlockToArchive(body, path, block)
  }

  /** The item the flat text contributes: none when it is absent or empty. */
  function TextHead(body: PostBody): (r: seq<ArchiveContent>)
    ensures r == [] <==> body.text.None? || body.text.value == []
    ensures r != [] ==> r == [Text(HardBreaks(body.text.value))]
  {
    if body.text.Some? && body.text.value != [] then [Text(HardBreaks(body.text.value))] else []
  }

  /**
   * `PostBody::text`: the flat text when it is present and not empty, with hard line breaks,
   * then one item per block in order; the first block that panics makes the call panic.
   */
  method BodyText(body: PostBody, path: Paths.Path) returns (r: Result<seq<ArchiveContent>, F.Panic>)
    ensures var blocks := body.blocks.UnwrapOr([]);
      r.Err? <==> exists k :: 0 <= k < |blocks| && ToArchive(body, path)(blocks[k]).Err?
    ensures r.Ok? ==> var blocks := body.blocks.UnwrapOr([]); var head := TextHead(body);
      && |r.value| == |head| + |blocks|
      && r.value[..|head|] == head
      && forall k :: 0 <= k < |blocks| ==> r.value[|head| + k] == ToArchive(body, path)(blocks[k]).value
  {
    var content := TextHead(body);
    r := Seqs.PushAll(content, body.blocks.UnwrapOr([]), ToArchive(body, path));
  }

  /**
   * `PostBody::content`: the items of `text`, then an image path per listed image, a thumbnail
   * link per video and a video or file path per listed file (`isVideo` is the MIME guess on the
   * extension). A video from an unknown provider panics.
   */
  method BodyContent(body: PostBody, path: Paths.Path, isVideo: String -> bool)
    returns (r: Result<seq<ArchiveContent>, F.Panic>)
    ensures var blocks := body.blocks.UnwrapOr([]); var videos := body.videos.UnwrapOr([]);
      r.Ok? <==>
        && (forall k :: 0 <= k < |blocks| ==> ToArchive(body, path)(blocks[k]).Ok?)
        && (forall k :: 0 <= k < |videos| ==> videos[k].serviceProvider == "youtube")
    ensures r.Ok? ==> var images := body.images.UnwrapOr([]); var videos := body.videos.UnwrapOr([]);
      var files := body.files.UnwrapOr([]);
      var n := |TextHead(body)| + |body.blocks.UnwrapOr([])|;
      && |r.value| == n + |images| + |videos| + |files|
      && r.value[..|TextHead(body)|] == TextHead(body)
      && (forall k :: 0 <= k < |body.blocks.UnwrapOr([])| ==>
            r.value[|TextHead(body)| + k] == ToArchive(body, path)(body.blocks.UnwrapOr([])[k]).value)
      && (forall k :: 0 <= k < |images| ==> r.value[n + k] == Image(Paths.Join(path, F.ImageFilename(images[k]))))
      && (forall k :: 0 <= k < |videos| ==>
            r.value[n + |images| + k] == Text(Body.YoutubeLink(videos[k].videoId)))
      && (forall k :: 0 <= k < |files| ==>
            var p := Paths.Join(path, F.FileFilename(files[k]));
            r.value[n + |images| + |videos| + k] == if isVideo(files[k].extension) then Video(p) else File(p))
  {
    var text := BodyText(body, path);
    if text.Err? {
      return Err(text.error);
    }
    r := Attachments(text.value, body, path, isVideo);
    if r.Ok? {
      Seqs.PrefixOfPrefix(r.value, text.value, TextHead(body));
      Seqs.PrefixKeeps(r.value, text.value);
    }
  }

  /**
   * The second half of `PostBody::content`: after `content`, an image path per listed image,
   * a thumbnail link per video and a video or file path per listed file.
   */
  method Attachments(content: seq<ArchiveContent>, body: PostBody, path: Paths.Path, isVideo: String -> bool)
    returns (r: Result<seq<ArchiveContent>, F.Panic>)
    ensures var videos := body.videos.UnwrapOr([]);
      r.Ok? <==> forall k :: 0 <= k < |videos| ==> videos[k].serviceProvider == "youtube"
    ensures r.Ok? ==> var images := body.images.UnwrapOr([]); var videos := body.videos.UnwrapOr([]);
      var files := body.files.UnwrapOr([]);
      var n := |content|;
      && n == |r.value| - |images| - |videos| - |files|
      && r.value[..n] == content
      && (forall k :: 0 <= k < |images| ==> r.value[n + k] == Image(Paths.Join(path, F.ImageFilename(images[k]))))
      && (forall k :: 0 <= k < |videos| ==>
            r.value[n + |images| + k] == Text(Body.YoutubeLink(videos[k].videoId)))
      && (forall k :: 0 <= k < |files| ==>
            var p := Paths.Join(path, F.FileFilename(files[k]));
            r.value[n + |images| + |videos| + k] == if isVideo(files[k].extension) then Video(p) else File(p))
  {
    var images := body.images.UnwrapOr([]);
    var videos := body.videos.UnwrapOr([]);
    var files := body.files.UnwrapOr([]);
    var withImages := Seqs.PushEach(content, images, (image: F.PostImage) => Image(Paths.Join(path, F.ImageFilename(image))));
    var withVideos := Seqs.PushAll(withImages, videos, (video: F.PostVideo) => VideoItem(video));
    if withVideos.Err? {
      return Err(withVideos.error);
    }
    var withFiles := Seqs.PushEach(withVideos.value, files, (file: F.PostFile) => FileItem(path, file, isVideo));
    ContentSegments(content, withImages, withVideos.value, withFiles, body, path, isVideo);
    return Ok(withFiles);
  }

  /** A video's item: the thumbnail link for YouTube, a panic for any other provider. */
  function VideoItem(video: F.PostVideo): (r: Result<ArchiveContent, F.Panic>)
    ensures r.Ok? <==> video.serviceProvider == "youtube"
    ensures r.Ok? ==> r.value == Text(Body.YoutubeLink(video.videoId))
  {
    match Body.VideoToText(video)
    case Ok(t) => Ok(Text(t))
    case Err(e) => Err(e)
  }

  /** A file's item: a video path when the extension guesses as a video, a file path otherwise. */
  function FileItem(path: Paths.Path, file: F.PostFile, isVideo: String -> bool): ArchiveContent {
    var p := Paths.Join(path, F.FileFilename(file));
    if isVideo(file.extension) then Video(p) else File(p)
  }

  /** Where each segment of `content` ends up once all three loops have pushed theirs. */
  lemma ContentSegments(text: seq<ArchiveContent>, withImages: seq<ArchiveContent>, withVideos: seq<ArchiveContent>,
                        withFiles: seq<ArchiveContent>, body: PostBody, path: Paths.Path, isVideo: String -> bool)
    requires var images := body.images.UnwrapOr([]);
      && |withImages| == |text| + |images| && withImages[..|text|] == text
      && forall k :: 0 <= k < |images| ==> withImages[|text| + k] == Image(Paths.Join(path, F.ImageFilename(images[k])))
    requires var videos := body.videos.UnwrapOr([]);
      && |withVideos| == |withImages| + |videos| && withVideos[..|withImages|] == withImages
      && forall k :: 0 <= k < |videos| ==> withVideos[|withImages| + k] == Text(Body.YoutubeLink(videos[k].videoId))
    requires var files := body.files.UnwrapOr([]);
      && |withFiles| == |withVideos| + |files| && withFiles[..|withVideos|] == withVideos
      && forall k :: 0 <= k < |files| ==> withFiles[|withVideos| + k] == FileItem(path, files[k], isVideo)
    ensures var images := body.images.UnwrapOr([]); var videos := body.videos.UnwrapOr([]);
      var files := body.files.UnwrapOr([]);
      var n := |text|;
      && n == |withFiles| - |images| - |videos| - |files|
      && withFiles[..n] == text
      && (forall k :: 0 <= k < |images| ==> withFiles[n + k] == Image(Paths.Join(path, F.ImageFilename(images[k]))))
      && (forall k :: 0 <= k < |videos| ==> withFiles[n + |images| + k] == Text(Body.YoutubeLink(videos[k].videoId)))
      && (forall k :: 0 <= k < |files| ==>
            var p := Paths.Join(path, F.FileFilename(files[k]));
            withFiles[n + |images| + |videos| + k] == if isVideo(files[k].extension) then Video(p) else File(p))
  {
    var images := body.images.UnwrapOr([]);
    var videos := body.videos.UnwrapOr([]);
    forall k | 0 <= k < |images|
      ensures withFiles[|text| + k] == Image(Paths.Join(path, F.ImageFilename(images[k])))
    {
      assert withFiles[|text| + k] == withVideos[|text| + k] == withImages[|text| + k];
    }
    forall k | 0 <= k < |videos|
      ensures withFiles[|withImages| + k] == Text(Body.YoutubeLink(videos[k].videoId))
    {
      assert withFiles[|withImages| + k] == withVideos[|withImages| + k];
    }
    Seqs.PrefixOfPrefix(withVideos, withImages, text);
    Seqs.PrefixOfPrefix(withFiles, withVideos, text);
  }

  /** `PostBody::images`: the listed images, then the image table's values in key order. */
  method Images(body: PostBody) returns (r: seq<F.PostImage>)
    ensures r == body.images.UnwrapOr([]) + F.Values(body.imageMap.UnwrapOr([]))
    ensures |r| == |body.images.UnwrapOr([])| + |body.imageMap.UnwrapOr([])|
  {
    r := [];
    if body.images.Some? {
      r := r + body.images.value;
    }
    if body.imageMap.Some? {
      r := r + F.Values(body.imageMap.value);
    }
  }

  /** `PostBody::files`: the listed files, then the file table's values in key order. */
  method Files(body: PostBody) returns (r: seq<F.PostFile>)
    ensures r == body.files.UnwrapOr([]) + F.Values(body.fileMap.UnwrapOr([]))
    ensures |r| == |body.files.UnwrapOr([])| + |body.fileMap.UnwrapOr([])|
  {
    r := [];
    if body.files.Some? {
      r := r + body.files.value;
    }
    if body.fileMap.Some? {
      r := r + F.Values(body.fileMap.value);
    }
  }

  // ---------------------------------------------------------------------------
  // Comments
  // ---------------------------------------------------------------------------

  /** A fan-site comment; replies (only root comments have any) are read as an empty list when absent. */
  datatype Comment = Comment(id: nat, parentCommentId: nat, rootCommentId: nat, body: String, created: int,
                             likeCount: nat, isLiked: bool, isOwn: bool, userName: String, replies: seq<Comment>)

  datatype ArchiveComment = ArchiveComment(user: String, text: String, replies: seq<ArchiveComment>)

  /** `Into<ArchiveComment> for Comment`: user name and body kept, replies converted one by one in order. */
  function ToArchiveComment(c: Comment): (r: ArchiveComment)
    ensures r.user == c.userName && r.text == c.body
    ensures |r.replies| == |c.replies|
    ensures forall i :: 0 <= i < |c.replies| ==> r.replies[i] == ToArchiveComment(c.replies[i])
    decreases c, 1
  {
    ArchiveComment(c.userName, c.body, ToArchiveComments(c.replies))
  }

  /** A list of comments converted one by one, keeping count and order. */
  function ToArchiveComments(cs: seq<Comment>): (r: seq<ArchiveComment>)
    ensures |r| == |cs|
    ensures forall i :: 0 <= i < |cs| ==> r[i] == ToArchiveComment(cs[i])
    decreases cs, 0
  {
    seq(|cs|, i requires 0 <= i < |cs| => ToArchiveComment(cs[i]))
  }

  /** The number of comments in a thread, the comment itself included. */
  function ThreadSize(c: Comment): nat
    decreases c, 1
  {
    1 + ThreadsSize(c.replies)
  }

  function ThreadsSize(cs: seq<Comment>): nat
    decreases cs, 0
  {
    if cs == [] then 0 else ThreadSize(cs[0]) + ThreadsSize(cs[1..])
  }

  function ArchiveThreadSize(a: ArchiveComment): nat
    decreases a, 1
  {
    1 + ArchiveThreadsSize(a.replies)
  }

  function ArchiveThreadsSize(as_: seq<ArchiveComment>): nat
    decreases as_, 0
  {
    if as_ == [] then 0 else ArchiveThreadSize(as_[0]) + ArchiveThreadsSize(as_[1..])
  }

  /** Conversion loses no reply at any depth: the archived thread has as many comments as the original. */
  lemma {:induction false} ThreadSizePreserved(c: Comment)
    ensures ArchiveThreadSize(ToArchiveComment(c)) == ThreadSize(c)
    decreases c, 1
  {
    ThreadsSizePreserved(c.replies);
  }

  lemma {:induction false} ThreadsSizePreserved(cs: seq<Comment>)
    ensures ArchiveThreadsSize(ToArchiveComments(cs)) == ThreadsSize(cs)
    decreases cs, 0
  {
    if cs != [] {
      ThreadSizePreserved(cs[0]);
      ThreadsSizePreserved(cs[1..]);
      assert ToArchiveComments(cs)[1..] == ToArchiveComments(cs[1..]);
    }
  }
}
