/**
 * The fan-site payload types both content transformers read: text blocks with bold spans,
 * image/file/video/embed records and the id-keyed side tables of a post body. The shapes
 * follow the struct and enum definitions of src/post.rs (the newer `fanbox` module that
 * src/post/body.rs imports has the same fields where it uses them).
 */
module Fanbox {
  import opened Wrappers
  import opened Strings

  /** `PostBlockStyle`: a span `[offset, offset + length)` of type `ty` (only "bold" is known). */
  datatype BlockStyle = BlockStyle(ty: String, offset: nat, length: nat)

  datatype PostBlock =
    | P(text: String, styles: Option<seq<BlockStyle>>)
    | Header(text: String, styles: Option<seq<BlockStyle>>)
    | Image(imageId: String)
    | File(fileId: String)
    | Embed(embedId: String)
    | UrlEmbed(urlEmbedId: String)
    | Video(videoId: String)

  datatype PostImage = PostImage(id: String, extension: String, width: nat, height: nat,
                                 originalUrl: String, thumbnailUrl: String)

  datatype PostVideo = PostVideo(serviceProvider: String, videoId: String)

  datatype PostFile = PostFile(id: String, name: String, extension: String, size: nat, url: String)

  datatype PostEmbed = PostEmbed(id: String, serviceProvider: String, contentId: String)

  /** The fields of a post-list entry the archiver reads (times are seconds since the epoch). */
  datatype PostListItem = PostListItem(id: String, title: String, feeRequired: nat, updated: int,
                                       isRestricted: bool, creatorId: String, commentCount: nat)

  /** `PostTextEmbed`, the url-embed table entries of the newer payload. */
  datatype PostTextEmbed =
    | Html(id: String, html: String)
    | HtmlCard(id: String, html: String)
    | FanboxPost(id: String, postInfo: PostListItem)
    | FanboxCreator(id: String, profileName: String, profileCreatorId: String)
    | Default(id: String, url: String, host: String)

  /** A post body: optional flat text, optional block list, and optional id-keyed side tables. */
  datatype PostBody = PostBody(
    text: Option<String>,
    blocks: Option<seq<PostBlock>>,
    images: Option<seq<PostImage>>,
    files: Option<seq<PostFile>>,
    videos: Option<seq<PostVideo>>,
    imageMap: Option<OrderedMap<PostImage>>,
    fileMap: Option<OrderedMap<PostFile>>,
    embedMap: Option<OrderedMap<PostEmbed>>,
    urlEmbedMap: Option<OrderedMap<PostTextEmbed>>)

  /** `PostImage::filename`: the image id with its extension. */
  function ImageFilename(image: PostImage): String {
    image.id + "." + image.extension
  }

  /** `PostFile::filename`: the file's name with its extension. */
  function FileFilename(file: PostFile): String {
    file.name + "." + file.extension
  }

  /** A fan-site creator as listed by the API. */
  datatype Creator = Creator(creatorId: String, name: String, fee: nat)

  /** The condition a Rust `unwrap`, `expect`, `todo!` or `unimplemented!` panics on. */
  datatype Panic =
    | UnknownStyle
    | UnknownVideoProvider
    | UnknownEmbedProvider
    | MalformedContentId
    | MissingFile
    | MissingImageMap
    | MissingFileMap
    | MissingVideos
    | MissingVideo
    | MissingEmbedMap
    | MissingUrlEmbedMap
    | MissingUrlEmbed

  // ---------------------------------------------------------------------------
  // BTreeMap<String, V>: entries in ascending key order
  // ---------------------------------------------------------------------------

  predicate KeysAscending<V>(m: seq<(String, V)>) {
    forall i, j :: 0 <= i < j < |m| ==> StrLt(m[i].0, m[j].0)
  }

  type OrderedMap<V> = m: seq<(String, V)> | KeysAscending(m) witness []

  /** `BTreeMap::get` */
  function Get<V>(m: OrderedMap<V>, key: String): (r: Option<V>)
    ensures r.Some? <==> exists i :: 0 <= i < |m| && m[i].0 == key
    ensures r.Some? ==> exists i :: 0 <= i < |m| && m[i] == (key, r.value)
  {
    if m == [] then None
    else if m[0].0 == key then Some(m[0].1)
    else
      var tail: OrderedMap<V> := m[1..];
      var r := Get(tail, key);
      assert r.Some? ==> exists i :: 0 <= i < |m| && m[i] == (key, r.value) by {
        if r.Some? {
          var i :| 0 <= i < |tail| && tail[i] == (key, r.value);
          assert m[i + 1] == tail[i];
        }
      }
      assert (exists i :: 0 <= i < |m| && m[i].0 == key) ==> r.Some? by {
        if exists i :: 0 <= i < |m| && m[i].0 == key {
          var i :| 0 <= i < |m| && m[i].0 == key;
          assert i > 0 && tail[i - 1].0 == key;
        }
      }
      r
  }

  /** Keys are unique, so `get` finds the one entry stored under a key. */
  lemma GetStored<V>(m: OrderedMap<V>, i: nat)
    requires i < |m|
    ensures Get(m, m[i].0) == Some(m[i].1)
  {
    var r := Get(m, m[i].0);
    var j :| 0 <= j < |m| && m[j] == (m[i].0, r.value);
    if j < i {
      assert StrLt(m[j].0, m[i].0);
      StrLtIrreflexive(m[i].0);
    } else if i < j {
      assert StrLt(m[i].0, m[j].0);
      StrLtIrreflexive(m[i].0);
    }
  }

  /** `BTreeMap::into_values`: the values in ascending key order. */
  function Values<V>(m: OrderedMap<V>): (r: seq<V>)
    ensures |r| == |m|
    ensures forall i :: 0 <= i < |m| ==> r[i] == m[i].1
  {
    seq(|m|, i requires 0 <= i < |m| => m[i].1)
  }
}
