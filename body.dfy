/**
 * The current content transformer (src/post/body.rs): a post body becomes an ordered list of
 * content items. Text blocks get their bold spans as `**` markers, media blocks become
 * references to stored files, and embeds are rendered as Markdown links.
 */
module Body {
  import opened Wrappers
  import opened Strings
  import opened Seqs
  import opened Fanbox
  import Sync

  /** `post_archiver::Content`: a piece of text, or a reference to a stored file by its id. */
  datatype Content = Text(text: String) | FileRef(fileId: nat)

  // ---------------------------------------------------------------------------
  // Bold markers (`PostBlock::style_text`)
  // ---------------------------------------------------------------------------

  const Bold: String := "**"

  function OpensAt(i: nat): BlockStyle -> bool { (s: BlockStyle) => s.offset == i }
  function ClosesAt(i: nat): BlockStyle -> bool { (s: BlockStyle) => s.offset + s.length == i }

  /** The number of markers that go before character `i`: spans opening there and spans closing there. */
  function Marks(ss: seq<BlockStyle>, i: nat): nat {
    |Filter(ss, OpensAt(i))| + |Filter(ss, ClosesAt(i))|
  }

  /** The text the insertion map holds for position `i` once every style is in. */
  function Inserted(ss: seq<BlockStyle>, i: nat): String {
    Repeat(Bold, Marks(ss, i))
  }

  predicate AllBold(ss: seq<BlockStyle>) {
    forall k :: 0 <= k < |ss| ==> ss[k].ty == "bold"
  }

  /** The first `n` characters of `text`, each preceded by the markers inserted before it. */
  function Interleaved(text: String, ss: seq<BlockStyle>, n: nat): String
    requires n <= |text|
  {
    if n == 0 then [] else Interleaved(text, ss, n - 1) + Inserted(ss, n - 1) + [text[n - 1]]
  }

  /** What the source emits: markers only in front of existing characters. */
  function StyledAsWritten(text: String, ss: seq<BlockStyle>): String {
    Interleaved(text, ss, |text|)
  }

  /** The evident intent: the markers at position `|text|`, which close spans ending the text, are emitted too. */
  function Styled(text: String, ss: seq<BlockStyle>): String {
    Interleaved(text, ss, |text|) + Inserted(ss, |text|)
  }

  /**
   * `style_text`, as the rest of the model uses it (with the closing markers at the end of the
   * text emitted): no styles leaves the text alone; any style other than bold panics.
   */
  function StyleTextOf(text: String, styles: Option<seq<BlockStyle>>): (r: Result<String, Panic>)
    ensures styles.None? ==> r == Ok(text)
    ensures styles.Some? ==> (r.Err? <==> !AllBold(styles.value))
    ensures r.Err? ==> r.error == UnknownStyle
  {
    match styles
    case None => Ok(text)
    case Some(ss) => if AllBold(ss) then Ok(Styled(text, ss)) else Err(UnknownStyle)
  }

  /** `HashMap::entry(k).or_default()` on the insertion map. */
  function Entry(m: map<nat, String>, k: nat): String {
    if k in m then m[k] else []
  }

  function OffsetLe(a: BlockStyle, b: BlockStyle): bool { a.offset <= b.offset }

  lemma MarksCons(s: BlockStyle, rest: seq<BlockStyle>, i: nat)
    ensures Marks([s] + rest, i)
         == (if s.offset == i then 1 else 0) + (if s.offset + s.length == i then 1 else 0) + Marks(rest, i)
  {
    FilterCons(s, rest, OpensAt(i));
    FilterCons(s, rest, ClosesAt(i));
  }

  lemma MarksPermutation(a: seq<BlockStyle>, b: seq<BlockStyle>, i: nat)
    requires multiset(a) == multiset(b)
    ensures Marks(a, i) == Marks(b, i)
  {
    FilterPermutation(a, b, OpensAt(i));
    FilterPermutation(a, b, ClosesAt(i));
  }

  /** One pass of the pop loop: the style's opening marker is appended at its offset, its closing one prepended at its end. */
  lemma InsertStep(before: map<nat, String>, after: map<nat, String>, style: BlockStyle, popped: seq<BlockStyle>)
    requires forall k: nat :: Entry(before, k) == Inserted(popped, k)
    requires var offset, end := style.offset, style.offset + style.length;
      var mid := before[offset := Entry(before, offset) + Bold];
      after == mid[end := Bold + Entry(mid, end)]
    ensures forall k: nat :: Entry(after, k) == Inserted([style] + popped, k)
  {
    var offset, end := style.offset, style.offset + style.length;
    var mid := before[offset := Entry(before, offset) + Bold];
    assert after == mid[end := Bold + Entry(mid, end)];
    forall k: nat
      ensures Entry(after, k) == Inserted([style] + popped, k)
    {
      MarksCons(style, popped, k);
      var n := Marks(popped, k);
      RepeatSucc(Bold, n);
      RepeatSucc(Bold, n + 1);
      if k == offset && k == end {
        assert Entry(after, k) == Bold + (Repeat(Bold, n) + Bold);
      } else if k == offset {
        assert Entry(after, k) == Repeat(Bold, n) + Bold;
      } else if k == end {
        assert Entry(mid, k) == Entry(before, k);
        assert Entry(after, k) == Bold + Repeat(Bold, n);
      } else {
        assert Entry(after, k) == Entry(before, k);
      }
    }
  }

  /**
   * The pop loop of `PostBlock::style_text`: takes styles off the end of the (sorted) list one
   * by one, appending each opening marker at its offset and prepending each closing marker at
   * its end. Panics on the first non-bold style it pops.
   */
  method BuildInsertMap(styles: seq<BlockStyle>) returns (r: Result<map<nat, String>, Panic>)
    ensures r.Err? <==> !AllBold(styles)
    ensures r.Err? ==> r.error == UnknownStyle
    ensures r.Ok? ==> forall k: nat :: Entry(r.value, k) == Inserted(styles, k)
  {
    var pending := styles;
    var insertMap: map<nat, String> := map[];
    while pending != []
      invariant pending == styles[..|pending|]
      invariant AllBold(styles[|pending|..])
      invariant forall k: nat :: Entry(insertMap, k) == Inserted(styles[|pending|..], k)
      decreases |pending|
    {
      var style := pending[|pending| - 1];
      ghost var popped := styles[|pending|..];
      pending := pending[..|pending| - 1];
      assert styles[|pending|..] == [style] + popped;
      if style.ty != "bold" {
        assert styles[|pending|].ty != "bold";
        return Err(UnknownStyle);
      }
      var offset := style.offset;
      var end := style.offset + style.length;
      ghost var before := insertMap;
      insertMap := insertMap[offset := Entry(insertMap, offset) + Bold];
      insertMap := insertMap[end := Bold + Entry(insertMap, end)];
      InsertStep(before, insertMap, style, popped);
    }
    assert styles[|pending|..] == styles;
    return Ok(insertMap);
  }

  /**
   * `PostBlock::style_text` as written: sort the styles by offset, build the insertion map,
   * then copy the characters with each position's markers in front.
   */
  method StyleText(text: String, styles: Option<seq<BlockStyle>>) returns (r: Result<String, Panic>)
    ensures styles.None? ==> r == Ok(text)
    ensures styles.Some? ==> (r.Err? <==> !AllBold(styles.value))
    ensures r.Err? ==> r.error == UnknownStyle
    ensures styles.Some? && r.Ok? ==> r.value == StyledAsWritten(text, styles.value)
  {
    if styles.None? {
      return Ok(text);
    }
    var ss := styles.value;
    var sorted := SortBy(ss, OffsetLe);
    AllBoldPermutation(ss, sorted);
    var built := BuildInsertMap(sorted);
    if built.Err? {
      return Err(built.error);
    }
    var insertMap := built.value;
    forall k: nat ensures Entry(insertMap, k) == Inserted(ss, k) {
      MarksPermutation(sorted, ss, k);
    }
    var output := CopyWithMarkers(text, ss, insertMap);
    return Ok(output);
  }

  /**
   * The copy loop of `PostBlock::style_text`: each character of `text` in turn, preceded by
   * the markers the insertion map holds at its position.
   */
  method CopyWithMarkers(text: String, ss: seq<BlockStyle>, insertMap: map<nat, String>) returns (output: String)
    requires forall k: nat :: Entry(insertMap, k) == Inserted(ss, k)
    ensures output == StyledAsWritten(text, ss)
  {
    output := [];
    for i := 0 to |text|
      invariant output == Interleaved(text, ss, i)
    {
      assert Entry(insertMap, i) == Inserted(ss, i);
      if i in insertMap {
        output := output + insertMap[i];
      } else {
        assert output + Inserted(ss, i) == output;
      }
      output := output + [text[i]];
    }
  }

  lemma AllBoldPermutation(a: seq<BlockStyle>, b: seq<BlockStyle>)
    requires multiset(a) == multiset(b)
    ensures AllBold(a) <==> AllBold(b)
  {
    if AllBold(a) {
      forall k | 0 <= k < |b| ensures b[k].ty == "bold" {
        assert b[k] in multiset(a);
      }
    }
    if AllBold(b) {
      forall k | 0 <= k < |a| ensures a[k].ty == "bold" {
        assert a[k] in multiset(b);
      }
    }
  }

  // ---------------------------------------------------------------------------
  // What styling keeps and adds
  // ---------------------------------------------------------------------------

  /** The markers in front of the first `n` positions. */
  function MarksBefore(ss: seq<BlockStyle>, n: nat): nat {
    if n == 0 then 0 else MarksBefore(ss, n - 1) + Marks(ss, n - 1)
  }

  function OpensBefore(n: nat): BlockStyle -> bool { (s: BlockStyle) => s.offset < n }
  function ClosesBefore(n: nat): BlockStyle -> bool { (s: BlockStyle) => s.offset + s.length < n }

  /** Summed over positions, each span contributes its opening and its closing marker once. */
  lemma {:induction false} MarksBeforeCounts(ss: seq<BlockStyle>, n: nat)
    ensures MarksBefore(ss, n) == |Filter(ss, OpensBefore(n))| + |Filter(ss, ClosesBefore(n))|
  {
    if n > 0 {
      MarksBeforeCounts(ss, n - 1);
      FilterDisjointUnion(ss, OpensBefore(n), OpensBefore(n - 1), OpensAt(n - 1));
      FilterDisjointUnion(ss, ClosesBefore(n), ClosesBefore(n - 1), ClosesAt(n - 1));
      assert MarksBefore(ss, n) == MarksBefore(ss, n - 1) + Marks(ss, n - 1);
      assert Marks(ss, n - 1) == |Filter(ss, OpensAt(n - 1))| + |Filter(ss, ClosesAt(n - 1))|;
      assert |Filter(ss, OpensBefore(n))| == |Filter(ss, OpensBefore(n - 1))| + |Filter(ss, OpensAt(n - 1))|;
      assert |Filter(ss, ClosesBefore(n))| == |Filter(ss, ClosesBefore(n - 1))| + |Filter(ss, ClosesAt(n - 1))|;
    } else {
      FilterNone(ss, OpensBefore(0));
      FilterNone(ss, ClosesBefore(0));
    }
  }

  /** The markers inserted at one position: two characters per marker, both of them `*`. */
  lemma InsertedShape(ss: seq<BlockStyle>, i: nat)
    ensures |Inserted(ss, i)| == 2 * Marks(ss, i)
    ensures CountChar(Inserted(ss, i), '*') == 2 * Marks(ss, i)
  {
    CountCharRepeat(Bold, Marks(ss, i), '*');
    assert CountChar(Bold, '*') == 2;
  }

  /** Appending a gap and then one character keeps a subsequence that gains the same character. */
  lemma SubsequenceAfterGap(a: String, b: String, gap: String, c: char)
    requires IsSubsequence(a, b)
    ensures IsSubsequence(a + [c], b + gap + [c])
  {
    SubsequenceEmpty(gap);
    SubsequenceRefl([c]);
    SubsequenceConcat([], gap, [c], [c]);
    assert [] + [c] == [c];
    SubsequenceConcat(a, b, [c], gap + [c]);
    assert b + (gap + [c]) == b + gap + [c];
  }

  /** The characters of the text survive in order; only marker text is added. */
  lemma {:induction false} InterleavedShape(text: String, ss: seq<BlockStyle>, n: nat)
    requires n <= |text|
    ensures IsSubsequence(text[..n], Interleaved(text, ss, n))
    ensures |Interleaved(text, ss, n)| == n + 2 * MarksBefore(ss, n)
    ensures CountChar(Interleaved(text, ss, n), '*') == CountChar(text[..n], '*') + 2 * MarksBefore(ss, n)
  {
    if n > 0 {
      InterleavedShape(text, ss, n - 1);
      var prev := Interleaved(text, ss, n - 1);
      var ins := Inserted(ss, n - 1);
      var c := text[n - 1];
      PrefixStep(text, n - 1);
      InsertedShape(ss, n - 1);
      ShapeStep(text[..n - 1], prev, ins, c, MarksBefore(ss, n - 1), Marks(ss, n - 1));
    }
  }

  /** One more character after `2 * m` more marker characters keeps the shape of `InterleavedShape`. */
  lemma ShapeStep(t: String, prev: String, ins: String, c: char, k: nat, m: nat)
    requires IsSubsequence(t, prev) && |prev| == |t| + 2 * k && CountChar(prev, '*') == CountChar(t, '*') + 2 * k
    requires |ins| == 2 * m && CountChar(ins, '*') == 2 * m
    ensures IsSubsequence(t + [c], prev + ins + [c])
    ensures |prev + ins + [c]| == |t + [c]| + 2 * (k + m)
    ensures CountChar(prev + ins + [c], '*') == CountChar(t + [c], '*') + 2 * (k + m)
  {
    SubsequenceAfterGap(t, prev, ins, c);
    CountCharConcat(prev + ins, [c], '*');
    CountCharConcat(prev, ins, '*');
    CountCharConcat(t, [c], '*');
  }

  /**
   * With the corrected closing, when every span lies inside the text, styling adds exactly two
   * markers per span: four `*` characters per style and nothing else, and the text itself is a
   * subsequence of the result.
   */
  lemma StyledBalanced(text: String, ss: seq<BlockStyle>)
    requires forall k :: 0 <= k < |ss| ==> ss[k].offset + ss[k].length <= |text|
    ensures IsSubsequence(text, Styled(text, ss))
    ensures |Styled(text, ss)| == |text| + 4 * |ss|
    ensures CountChar(Styled(text, ss), '*') == CountChar(text, '*') + 4 * |ss|
  {
    var n := |text|;
    InterleavedShape(text, ss, n);
    assert text[..n] == text;
    MarksBeforeCounts(ss, n + 1);
    FilterAll(ss, OpensBefore(n + 1));
    FilterAll(ss, ClosesBefore(n + 1));
    assert MarksBefore(ss, n + 1) == MarksBefore(ss, n) + Marks(ss, n);
    var body := Interleaved(text, ss, n);
    var tail := Inserted(ss, n);
    SubsequenceEmpty(tail);
    SubsequenceConcat(text, body, [], tail);
    assert text + [] == text;
    CountCharConcat(body, tail, '*');
    CountCharRepeat(Bold, Marks(ss, n), '*');
    assert CountChar(Bold, '*') == 2;
  }

  /** The source drops the closing marker of a span that ends the text: "ab" bold over 0..2 gives "**ab". */
  lemma StyleTextDropsClosingMarker()
    ensures StyledAsWritten("ab", [BlockStyle("bold", 0, 2)]) == "**ab"
    ensures Styled("ab", [BlockStyle("bold", 0, 2)]) == "**ab**"
  {
    var ss := [BlockStyle("bold", 0, 2)];
    MarksCons(ss[0], [], 0);
    MarksCons(ss[0], [], 1);
    MarksCons(ss[0], [], 2);
    assert [ss[0]] + [] == ss;
    assert Inserted(ss, 0) == Bold;
    assert Inserted(ss, 1) == [];
    assert Inserted(ss, 2) == Bold;
  }

  // ---------------------------------------------------------------------------
  // Videos and embeds
  // ---------------------------------------------------------------------------

  /** The Markdown thumbnail-link to a YouTube video. */
  function YoutubeLink(id: String): String {
    "[![youtube](https://img.youtube.com/vi/" + id + "/0.jpg)](https://www.youtube.com/watch?v=" + id + ")"
  }

  /** The video id can be read back from the link: different videos get different links. */
  lemma YoutubeLinkInjective(a: String, b: String)
    requires YoutubeLink(a) == YoutubeLink(b)
    ensures a == b
  {
    var la, lb := YoutubeLink(a), YoutubeLink(b);
    assert |la| == 2 * |a| + 81 && |lb| == 2 * |b| + 81;
    assert a == la[39..39 + |a|] && b == lb[39..39 + |b|];
  }

  /** `PostVideo::to_text`: only YouTube is known; any other provider panics. */
  function VideoToText(v: PostVideo): (r: Result<String, Panic>)
    ensures r.Ok? <==> v.serviceProvider == "youtube"
    ensures r.Ok? ==> r.value == YoutubeLink(v.videoId)
    ensures r.Err? ==> r.error == UnknownVideoProvider
  {
    if v.serviceProvider == "youtube" then Ok(YoutubeLink(v.videoId)) else Err(UnknownVideoProvider)
  }

  /**
   * `deconstruct`: a fan-site content id `creator/{c}/post/{p}` split into its creator and post,
   * accepted exactly when splitting on '/' gives four parts shaped that way.
   */
  function Deconstruct(input: String): (r: Option<(String, String)>)
    ensures r.Some? <==> var parts := Split(input, '/');
      |parts| == 4 && parts[0] == "creator" && parts[2] == "post"
    ensures r.Some? ==> '/' !in r.value.0 && '/' !in r.value.1
    ensures r.Some? ==> input == "creator/" + r.value.0 + "/post/" + r.value.1
  {
    var parts := Split(input, '/');
    if |parts| == 4 && parts[0] == "creator" && parts[2] == "post" then
      JoinSplit(input, '/');
      assert Join(parts, '/') == parts[0] + "/" + parts[1] + "/" + parts[2] + "/" + parts[3] by {
        JoinFour(parts);
      }
      Some((parts[1], parts[3]))
    else
      None
  }

  lemma JoinFour(parts: seq<String>)
    requires |parts| == 4
    ensures Join(parts, '/') == parts[0] + "/" + parts[1] + "/" + parts[2] + "/" + parts[3]
  {
    assert parts[1..][1..][1..] == [parts[3]];
    assert Join(parts[1..][1..], '/') == parts[2] + "/" + parts[3];
    assert Join(parts[1..], '/') == parts[1] + "/" + (parts[2] + "/" + parts[3]);
  }

  /** Formatting a content id and deconstructing it gives back the creator and the post. */
  lemma DeconstructRoundTrip(c: String, p: String)
    requires '/' !in c && '/' !in p
    ensures Deconstruct("creator/" + c + "/post/" + p) == Some((c, p))
  {
    var parts := ["creator", c, "post", p];
    JoinFour(parts);
    SplitJoin(parts, '/');
    assert "creator/" + c + "/post/" + p == Join(parts, '/');
  }

  /** `PostEmbed::to_text`: one Markdown link per known provider; an unknown provider or a malformed fan-site id panics. */
  function EmbedToText(e: PostEmbed): (r: Result<String, Panic>)
    ensures r.Err? <==>
      || e.serviceProvider !in {"youtube", "google_forms", "fanbox", "twitter"}
      || (e.serviceProvider == "fanbox" && Deconstruct(e.contentId).None?)
    ensures e.serviceProvider == "youtube" ==> r == Ok(YoutubeLink(e.contentId))
    ensures e.serviceProvider == "google_forms" ==>
      r == Ok("[Google Form](https://docs.google.com/forms/d/e/" + e.contentId + "/viewform)")
    ensures e.serviceProvider == "twitter" ==> r == Ok("[Tweet](https://twitter.com/i/web/status/" + e.contentId + ")")
    ensures e.serviceProvider == "fanbox" && Deconstruct(e.contentId).Some? ==>
      var (creator, post) := Deconstruct(e.contentId).value;
      r == Ok("[Fanbox Post (" + creator + "/" + post + ")](" + Sync.GetSourceLink(creator, post) + ")")
    ensures r.Err? ==> r.error == (if e.serviceProvider == "fanbox" then MalformedContentId else UnknownEmbedProvider)
  {
    match e.serviceProvider
    case "youtube" => Ok(YoutubeLink(e.contentId))
    case "google_forms" => Ok("[Google Form](https://docs.google.com/forms/d/e/" + e.contentId + "/viewform)")
    case "fanbox" =>
      (match Deconstruct(e.contentId)
       case None => Err(MalformedContentId)
       case Some((creator, post)) =>
         Ok("[Fanbox Post (" + creator + "/" + post + ")](" + Sync.GetSourceLink(creator, post) + ")"))
    case "twitter" => Ok("[Tweet](https://twitter.com/i/web/status/" + e.contentId + ")")
    case _ => Err(UnknownEmbedProvider)
  }

  /** A fan-site embed of `creator/{c}/post/{p}` links to that post's source link. */
  lemma FanboxEmbedLinksToSource(id: String, c: String, p: String)
    requires '/' !in c && '/' !in p
    ensures EmbedToText(PostEmbed(id, "fanbox", "creator/" + c + "/post/" + p))
         == Ok("[Fanbox Post (" + c + "/" + p + ")](" + Sync.GetSourceLink(c, p) + ")")
  {
    DeconstructRoundTrip(c, p);
  }

  const IframeNeedle: String := "<iframe src=\""

  /**
   * The `src` of the first `<iframe src="` in `html`: the text from just after that needle up
   * to the next `"`. Absent exactly when there is no needle followed somewhere by a `"`.
   */
  function IframeSrc(html: String): (r: Option<String>)
    ensures r.Some? ==> '"' !in r.value
    ensures r.Some? ==> exists i: nat ::
      OccursAt(html, IframeNeedle + r.value + "\"", i) && forall j: nat :: j < i ==> !OccursAt(html, IframeNeedle, j)
    ensures r.None? <==> forall i: nat :: OccursAt(html, IframeNeedle, i) ==> '"' !in html[i + |IframeNeedle|..]
  {
    assert |IframeNeedle| == 13;
    match Find(html, IframeNeedle)
    case None => None
    case Some(start) =>
      var rest := html[start + 13..];
      match Find(rest, "\"")
      case None =>
        IframeWithoutQuote(html, start, rest);
        None
      case Some(end) =>
        IframeWithQuote(html, start, rest, end);
        Some(rest[..end])
  }

  /** No `"` after the first needle: no later needle is followed by one either. */
  lemma IframeWithoutQuote(html: String, start: nat, rest: String)
    requires OccursAt(html, IframeNeedle, start) && rest == html[start + |IframeNeedle|..]
    requires forall j :: 0 <= j < start ==> !OccursAt(html, IframeNeedle, j)
    requires forall j :: !OccursAt(rest, "\"", j)
    ensures forall i: nat :: OccursAt(html, IframeNeedle, i) ==> '"' !in html[i + |IframeNeedle|..]
  {
    var n := |IframeNeedle|;
    assert forall k :: start + n <= k < |html| ==> html[k] != '"' by {
      forall k | start + n <= k < |html| ensures html[k] != '"' {
        assert !OccursAt(rest, "\"", k - start - n);
        assert html[k] == rest[k - start - n];
      }
    }
  }

  /** The first `"` after the first needle closes the `src`. */
  lemma IframeWithQuote(html: String, start: nat, rest: String, end: nat)
    requires OccursAt(html, IframeNeedle, start) && rest == html[start + |IframeNeedle|..]
    requires OccursAt(rest, "\"", end)
    requires forall j :: 0 <= j < end ==> !OccursAt(rest, "\"", j)
    ensures '"' !in rest[..end]
    ensures OccursAt(html, IframeNeedle + rest[..end] + "\"", start)
    ensures '"' in rest
  {
    var n := |IframeNeedle|;
    var src := rest[..end];
    assert rest[end] == '"';
    assert '"' !in src by {
      forall k | 0 <= k < end ensures src[k] != '"' { assert !OccursAt(rest, "\"", k); }
    }
    assert html[start..start + n] == IframeNeedle;
    assert src == html[start + n..start + n + end];
    assert html[start + n + end] == '"';
    SliceSplit(html, start, start + n, start + n + end + 1);
    SliceSplit(html, start + n, start + n + end, start + n + end + 1);
    assert html[start + n + end..start + n + end + 1] == "\"";
  }

  /** `PostTextEmbed::to_text`: each kind of URL embed as a Markdown link. */
  function TextEmbedToText(e: PostTextEmbed): (r: String)
    ensures (e.Html? || e.HtmlCard?) ==>
      (r == "[Invalid URL Embed]" <==> IframeSrc(e.html).None?)
    ensures (e.Html? || e.HtmlCard?) && IframeSrc(e.html).Some? ==>
      var s := IframeSrc(e.html).value; r == "[" + s + "](" + s + ")"
  {
    match e
    case Html(_, html) => IframeLink(html)
    case HtmlCard(_, html) => IframeLink(html)
    case FanboxPost(_, info) =>
      "[Fanbox Post " + info.title + "](" + Sync.GetSourceLink(info.creatorId, info.id) + ")"
    case FanboxCreator(_, name, creatorId) => "[Creator " + name + "](https://" + creatorId + ".fanbox.cc)"
    case Default(_, url, _) => "[" + url + "](" + url + ")"
  }

  function IframeLink(html: String): String {
    match IframeSrc(html)
    case None => "[Invalid URL Embed]"
    case Some(src) =>
      assert ("[" + src + "](" + src + ")")[|src| + 1] == ']';
      "[" + src + "](" + src + ")"
  }

  // ---------------------------------------------------------------------------
  // Blocks and the whole body
  // ---------------------------------------------------------------------------

  /** `videos.iter().find(|v| v.video_id == id)`: the first video with that id. */
  function FindVideo(videos: seq<PostVideo>, id: String): (r: Option<PostVideo>)
    ensures r.Some? ==> exists k :: 0 <= k < |videos| && videos[k] == r.value && IsFirstVideo(videos, id, k)
    ensures r.None? <==> forall k :: 0 <= k < |videos| ==> videos[k].videoId != id
  {
    if videos == [] then None
    else if videos[0].videoId == id then
      assert IsFirstVideo(videos, id, 0);
      Some(videos[0])
    else
      var r := FindVideo(videos[1..], id);
      assert r.Some? ==> exists k :: 0 <= k < |videos| && videos[k] == r.value && IsFirstVideo(videos, id, k) by {
        if r.Some? {
          var k :| 0 <= k < |videos[1..]| && videos[1..][k] == r.value && IsFirstVideo(videos[1..], id, k);
          assert IsFirstVideo(videos, id, k + 1);
        }
      }
      r
  }

  /** `k` is the first index holding a video with that id. */
  predicate IsFirstVideo(videos: seq<PostVideo>, id: String, k: nat) {
    k < |videos| && videos[k].videoId == id && forall j :: 0 <= j < k ==> videos[j].videoId != id
  }

  /** Whether a block renders without a panic, stated without the renderers. */
  predicate Renderable(body: PostBody, files: map<String, nat>, block: PostBlock) {
    match block
    case P(text, styles) => text == [] || styles.None? || AllBold(styles.value)
    case Header(_, styles) => styles.None? || AllBold(styles.value)
    case Image(id) => id in files
    case File(id) => id in files
    case Embed(id) =>
      body.embedMap.Some? &&
      (match Get(body.embedMap.value, id)
       case None => true
       case Some(e) =>
         e.serviceProvider in {"youtube", "google_forms", "twitter"} ||
         (e.serviceProvider == "fanbox" && Deconstruct(e.contentId).Some?))
    case Video(id) =>
      body.videos.Some? &&
      exists k :: 0 <= k < |body.videos.value| && IsFirstVideo(body.videos.value, id, k) &&
        body.videos.value[k].serviceProvider == "youtube"
    case UrlEmbed(_) => body.urlEmbedMap.Some?
  }

  /**
   * `PostBlock::to_text`: one content item per block. An empty paragraph is a line break, a
   * header gets "# ", an embed or URL embed missing from its table degrades to a "not found"
   * placeholder; a missing file id, style, video or table panics.
   */
  function BlockToText(body: PostBody, files: map<String, nat>, block: PostBlock): (r: Result<Content, Panic>)
    ensures block.P? && block.text == [] ==> r == Ok(Text("<br>"))
    ensures (block.P? && block.text != []) || block.Header? ==>
      (r.Ok? <==> block.styles.None? || AllBold(block.styles.value)) &&
      (r.Err? ==> r.error == UnknownStyle)
    ensures block.P? && block.text != [] && r.Ok? ==>
      r.value == Text(if block.styles.None? then block.text else Styled(block.text, block.styles.value))
    ensures block.Header? && r.Ok? ==>
      r.value == Text("# " + if block.styles.None? then block.text else Styled(block.text, block.styles.value))
    ensures block.Header? && r.Ok? ==> r.value.Text? && "# " <= r.value.text
    ensures (block.Image? || block.File?) ==> var id := if block.Image? then block.imageId else block.fileId;
      (r.Ok? <==> id in files) && (r.Ok? ==> r.value == FileRef(files[id]))
    ensures block.Embed? && body.embedMap.Some? && Get(body.embedMap.value, block.embedId).None? ==>
      r == Ok(Text("[Embed not found: " + block.embedId + "]"))
    ensures block.UrlEmbed? && body.urlEmbedMap.Some? && Get(body.urlEmbedMap.value, block.urlEmbedId).None? ==>
      r == Ok(Text("[URL Embed not found: " + block.urlEmbedId + "]"))
    ensures block.Embed? && body.embedMap.None? ==> r == Err(MissingEmbedMap)
    ensures block.Video? && body.videos.None? ==> r == Err(MissingVideos)
    ensures block.UrlEmbed? && body.urlEmbedMap.None? ==> r == Err(MissingUrlEmbedMap)
    ensures block.Embed? && body.embedMap.Some? && Get(body.embedMap.value, block.embedId).Some? ==>
      var t := EmbedToText(Get(body.embedMap.value, block.embedId).value);
      r == (if t.Ok? then Ok(Text(t.value)) else Err(t.error))
    ensures block.Video? && body.videos.Some? && FindVideo(body.videos.value, block.videoId).None? ==>
      r == Err(MissingVideo)
    ensures block.Video? && body.videos.Some? && FindVideo(body.videos.value, block.videoId).Some? ==>
      var t := VideoToText(FindVideo(body.videos.value, block.videoId).value);
      r == (if t.Ok? then Ok(Text(t.value)) else Err(t.error))
    ensures block.UrlEmbed? && body.urlEmbedMap.Some? && Get(body.urlEmbedMap.value, block.urlEmbedId).Some? ==>
      r == Ok(Text(TextEmbedToText(Get(body.urlEmbedMap.value, block.urlEmbedId).value)))
  {
    match block
    case P(text, styles) =>
      if text == [] then Ok(Text("<br>"))
      else
        (match StyleTextOf(text, styles)
         case Ok(s) => Ok(Text(s))
         case Err(e) => Err(e))
    case Header(text, styles) =>
      (match StyleTextOf(text, styles)
       case Ok(s) => Ok(Text("# " + s))
       case Err(e) => Err(e))
    case Image(id) => if id in files then Ok(FileRef(files[id])) else Err(MissingFile)
    case File(id) => if id in files then Ok(FileRef(files[id])) else Err(MissingFile)
    case Embed(id) =>
      if body.embedMap.None? then Err(MissingEmbedMap)
      else
        (match Get(body.embedMap.value, id)
         case None => Ok(Text("[Embed not found: " + id + "]"))
         case Some(e) =>
           (match EmbedToText(e)
            case Ok(s) => Ok(Text(s))
            case Err(err) => Err(err)))
    case Video(id) =>
      if body.videos.None? then Err(MissingVideos)
      else
        (match FindVideo(body.videos.value, id)
         case None => Err(MissingVideo)
         case Some(v) =>
           (match VideoToText(v)
            case Ok(s) => Ok(Text(s))
            case Err(err) => Err(err)))
    case UrlEmbed(id) =>
      if body.urlEmbedMap.None? then Err(MissingUrlEmbedMap)
      else
        (match Get(body.urlEmbedMap.value, id)
         case None => Ok(Text("[URL Embed not found: " + id + "]"))
         case Some(e) => Ok(Text(TextEmbedToText(e))))
  }

  /** A block renders exactly when the ids it names resolve and its styles and providers are known. */
  lemma BlockToTextOkIff(body: PostBody, files: map<String, nat>, block: PostBlock)
    ensures BlockToText(body, files, block).Ok? <==> Renderable(body, files, block)
  {
    if block.Video? && body.videos.Some? {
      var vs, id := body.videos.value, block.videoId;
      match FindVideo(vs, id)
      case None =>
      case Some(v) =>
        var k :| 0 <= k < |vs| && vs[k] == v && IsFirstVideo(vs, id, k);
        forall k' | IsFirstVideo(vs, id, k') ensures k' == k {
        }
    }
  }

  /** `text.replace("\n", "<br>")` */
  function BreakLines(text: String): (r: String)
    ensures '\n' !in r
    ensures |r| == |text| + 3 * CountChar(text, '\n')
  {
    ReplaceChar(text, '\n', "<br>")
  }

  /** `BlockToText` on one post body and file table, as a function value over blocks. */
  function ToText(body: PostBody, files: map<String, nat>): PostBlock -> Result<Content, Panic> {
    (block: PostBlock) => BlockToText(body, files, block)
  }

  /** The item the flat text contributes: none when it is absent. */
  function TextHead(body: PostBody): (r: seq<Content>)
    ensures r == [] <==> body.text.None?
    ensures r != [] ==> r == [Text(BreakLines(body.text.value))]
  {
    if body.text.Some? then [Text(BreakLines(body.text.value))] else []
  }

  /**
   * `PostBody::text`: the flat text (when present) with line breaks as `<br>`, then one item
   * per block, in order. The first block that panics makes the whole call panic.
   */
  method BodyText(body: PostBody, files: map<String, nat>) returns (r: Result<seq<Content>, Panic>)
    ensures var blocks := body.blocks.UnwrapOr([]);
      r.Err? <==> exists k :: 0 <= k < |blocks| && ToText(body, files)(blocks[k]).Err?
    ensures r.Ok? ==> var blocks := body.blocks.UnwrapOr([]); var head := TextHead(body);
      && |r.value| == |head| + |blocks|
      && r.value[..|head|] == head
      && forall k :: 0 <= k < |blocks| ==> r.value[|head| + k] == ToText(body, files)(blocks[k]).value
  {
    var content := TextHead(body);
    r := PushAll(content, body.blocks.UnwrapOr([]), ToText(body, files));
  }

  /**
   * `PostBody::content`: the items of `text`, then a file reference per image and per file
   * attachment, then a thumbnail link per video. An attachment id missing from `files` or a
   * video from an unknown provider panics.
   */
  method BodyContent(body: PostBody, files: map<String, nat>) returns (r: Result<seq<Content>, Panic>)
    ensures var images := body.images.UnwrapOr([]); var attachments := body.files.UnwrapOr([]);
      var videos := body.videos.UnwrapOr([]); var blocks := body.blocks.UnwrapOr([]);
      r.Ok? <==>
        && (forall k :: 0 <= k < |blocks| ==> ToText(body, files)(blocks[k]).Ok?)
        && (forall k :: 0 <= k < |images| ==> images[k].id in files)
        && (forall k :: 0 <= k < |attachments| ==> attachments[k].id in files)
        && (forall k :: 0 <= k < |videos| ==> videos[k].serviceProvider == "youtube")
    ensures r.Ok? ==> var images := body.images.UnwrapOr([]); var attachments := body.files.UnwrapOr([]);
      var videos := body.videos.UnwrapOr([]);
      var head := if body.text.Some? then 1 else 0;
      var n := head + |body.blocks.UnwrapOr([])|;
      && |r.value| == n + |images| + |attachments| + |videos|
      && r.value[..|TextHead(body)|] == TextHead(body)
      && (forall k :: 0 <= k < |body.blocks.UnwrapOr([])| ==>
            r.value[|TextHead(body)| + k] == ToText(body, files)(body.blocks.UnwrapOr([])[k]).value)
      && (forall k :: 0 <= k < |images| ==> r.value[n + k] == FileRef(files[images[k].id]))
      && (forall k :: 0 <= k < |attachments| ==>
            r.value[n + |images| + k] == FileRef(files[attachments[k].id]))
      && (forall k :: 0 <= k < |videos| ==>
            r.value[n + |images| + |attachments| + k] == Text(YoutubeLink(videos[k].videoId)))
  {
    var text := BodyText(body, files);
    if text.Err? {
      return Err(text.error);
    }
    r := Attachments(text.value, body, files);
    if r.Ok? {
      PrefixOfPrefix(r.value, text.value, TextHead(body));
      PrefixKeeps(r.value, text.value);
    }
  }

  /**
   * The second half of `PostBody::content`: after `content`, a file reference per image and
   * per file attachment, then a thumbnail link per video.
   */
  method Attachments(content: seq<Content>, body: PostBody, files: map<String, nat>) returns (r: Result<seq<Content>, Panic>)
    ensures var images := body.images.UnwrapOr([]); var attachments := body.files.UnwrapOr([]);
      var videos := body.videos.UnwrapOr([]);
      r.Ok? <==>
        && (forall k :: 0 <= k < |images| ==> images[k].id in files)
        && (forall k :: 0 <= k < |attachments| ==> attachments[k].id in files)
        && (forall k :: 0 <= k < |videos| ==> videos[k].serviceProvider == "youtube")
    ensures r.Ok? ==> var images := body.images.UnwrapOr([]); var attachments := body.files.UnwrapOr([]);
      var videos := body.videos.UnwrapOr([]);
      var n := |content|;
      && |r.value| == n + |images| + |attachments| + |videos|
      && r.value[..n] == content
      && (forall k :: 0 <= k < |images| ==> r.value[n + k] == FileRef(files[images[k].id]))
      && (forall k :: 0 <= k < |attachments| ==>
            r.value[n + |images| + k] == FileRef(files[attachments[k].id]))
      && (forall k :: 0 <= k < |videos| ==>
            r.value[n + |images| + |attachments| + k] == Text(YoutubeLink(videos[k].videoId)))
  {
    var withImages := PushAll(content, body.images.UnwrapOr([]), (image: PostImage) => FileItem(files, image.id));
    if withImages.Err? {
      return Err(withImages.error);
    }
    var withFiles := PushAll(withImages.value, body.files.UnwrapOr([]), (file: PostFile) => FileItem(files, file.id));
    if withFiles.Err? {
      return Err(withFiles.error);
    }
    var withVideos := PushAll(withFiles.value, body.videos.UnwrapOr([]), (video: PostVideo) => VideoItem(video));
    if withVideos.Err? {
      return Err(withVideos.error);
    }
    ContentSegments(content, withImages.value, withFiles.value, withVideos.value, body, files);
    return Ok(withVideos.value);
  }

  /** The reference to an image or attachment already synced as `files[id]`; a missing id panics. */
  function FileItem(files: map<String, nat>, id: String): (r: Result<Content, Panic>)
    ensures r.Ok? <==> id in files
    ensures r.Ok? ==> r.value == FileRef(files[id])
    ensures r.Err? ==> r.error == MissingFile
  {
    if id in files then Ok(FileRef(files[id])) else Err(MissingFile)
  }

  /** A video's item: the thumbnail link for YouTube, a panic for any other provider. */
  function VideoItem(video: PostVideo): (r: Result<Content, Panic>)
    ensures r.Ok? <==> video.serviceProvider == "youtube"
    ensures r.Ok? ==> r.value == Text(YoutubeLink(video.videoId))
  {
    match VideoToText(video)
    case Ok(t) => Ok(Text(t))
    case Err(e) => Err(e)
  }

  /** Where each segment of `content` ends up once the three loops have pushed theirs. */
  lemma ContentSegments(text: seq<Content>, withImages: seq<Content>, withFiles: seq<Content>,
                        withVideos: seq<Content>, body: PostBody, files: map<String, nat>)
    requires forall k :: 0 <= k < |body.images.UnwrapOr([])| ==> body.images.UnwrapOr([])[k].id in files
    requires forall k :: 0 <= k < |body.files.UnwrapOr([])| ==> body.files.UnwrapOr([])[k].id in files
    requires forall k :: 0 <= k < |body.videos.UnwrapOr([])| ==> body.videos.UnwrapOr([])[k].serviceProvider == "youtube"
    requires var images := body.images.UnwrapOr([]);
      && |withImages| == |text| + |images| && withImages[..|text|] == text
      && forall k :: 0 <= k < |images| ==> withImages[|text| + k] == FileRef(files[images[k].id])
    requires var attachments := body.files.UnwrapOr([]);
      && |withFiles| == |withImages| + |attachments| && withFiles[..|withImages|] == withImages
      && forall k :: 0 <= k < |attachments| ==> withFiles[|withImages| + k] == FileRef(files[attachments[k].id])
    requires var videos := body.videos.UnwrapOr([]);
      && |withVideos| == |withFiles| + |videos| && withVideos[..|withFiles|] == withFiles
      && forall k :: 0 <= k < |videos| ==> withVideos[|withFiles| + k] == Text(YoutubeLink(videos[k].videoId))
    ensures var images := body.images.UnwrapOr([]); var attachments := body.files.UnwrapOr([]);
      var videos := body.videos.UnwrapOr([]);
      var n := |text|;
      && |withVideos| == n + |images| + |attachments| + |videos|
      && withVideos[..n] == text
      && (forall k :: 0 <= k < |images| ==> withVideos[n + k] == FileRef(files[images[k].id]))
      && (forall k :: 0 <= k < |attachments| ==> withVideos[n + |images| + k] == FileRef(files[attachments[k].id]))
      && (forall k :: 0 <= k < |videos| ==>
            withVideos[n + |images| + |attachments| + k] == Text(YoutubeLink(videos[k].videoId)))
  {
    var images := body.images.UnwrapOr([]);
    var attachments := body.files.UnwrapOr([]);
    forall k | 0 <= k < |images| ensures withVideos[|text| + k] == FileRef(files[images[k].id]) {
      assert withVideos[|text| + k] == withFiles[|text| + k] == withImages[|text| + k];
    }
    forall k | 0 <= k < |attachments| ensures withVideos[|withImages| + k] == FileRef(files[attachments[k].id]) {
      assert withVideos[|withImages| + k] == withFiles[|withImages| + k];
    }
    PrefixOfPrefix(withFiles, withImages, text);
    PrefixOfPrefix(withVideos, withFiles, text);
  }
}
