# FanboxArchive core, modelled in Dafny

FanboxArchive copies the posts of Pixiv Fanbox creators into a local post archive. This
project models the deterministic core of that tool and proves its properties.

**Selection and filtering**
- Which creators are selected: following and supporting lists, whitelist and blacklist,
  skipping free creators.
- Which posts are kept, and which are already synced.
- How the request cookie header and the user agent are built (src/config/mod.rs, and the
  older src/config.rs).

**Content transformers**
- How a post body becomes archive content: text with `**` bold markers, file references,
  Markdown links for videos and embeds. Both the current transformer (src/post/body.rs) and
  the older one (src/post.rs) are modelled.
- Which files a post carries and the metadata built for each (src/post/file.rs).

**Sync and API bookkeeping**
- The per-creator checkpoint kept between runs (src/context.rs).
- The sync bookkeeping over the archive store: source links, tags, file paths, counters and
  folder creation (src/post/mod.rs).
- The API client's envelope classification, comment pagination and post-page gathering
  (src/api.rs).
- The creator-level driver (src/creator/mod.rs): the set of creators and the filter counts,
  post chunking, the creator table's widths, and the recording of synced authors.

**Modules**
- `Wrappers`, `Strings`, `Seqs` and `Paths` model the Rust library operations the core uses:
  `Option`/`Result`, `str` trimming, splitting, searching and number formatting, iterator
  `filter`/`flatten`/`sort_by`, and `PathBuf::join`/`parent`.
- `Fanbox` holds the payload types both transformers read.
- Every other module follows one source file.

**How the Rust code is represented**
- Panics (`unwrap`, `unimplemented!`) become `Err(Panic(kind))`.
- Strings are `seq<char>` and paths are sequences of components.
- A `BTreeMap` is a key-ordered sequence of pairs. A `HashMap` is a `map`, and its iteration
  order is an explicit listing parameter.
- State the source mutates is a `class` (the checkpoint, the archive store's tag and file
  tables, the authors table). Loops in the source are `while`/`for` loops, proved against
  specification functions.

## Model

| member | source | states |
|---|---|---|
| Context.LastUpdatedOf | src/context.rs:40-43 | the stored time is returned exactly when the queried fee is at most the stored fee |
| Context.Advanced | src/context.rs:44-51 | each field becomes the maximum of the old value and the new one |
| Context.CachedCreators.constructor | src/context.rs:33-37 | a fresh checkpoint is the default, both fields zero |
| Context.CachedCreators.LastUpdated | src/context.rs:40-43 | the entry answers as `LastUpdatedOf` of its state: Some exactly when the fee is covered |
| Context.CachedCreators.Update | src/context.rs:44-51 | the new state is the max-merge of the old state and the update |
| Context.AdvanceIdempotent | src/context.rs:44-51 | repeating an update changes nothing |
| Context.AdvanceCommutes | src/context.rs:44-51 | two updates give the same checkpoint in either order |
| Context.LastUpdatedAfterAdvance | src/context.rs:40-51 | after an update the updated fee is answered, and a fee above both the old and the new fee is not |
| Context.DefaultAnswersFreeTier | src/context.rs:33-43 | the default entry answers time 0 for the free tier |
| Context.AdvancedAllIsMaximum | src/context.rs:44-51 | after any run of updates each field holds the maximum over the start and all updates |
| Context.AdvancedAllOrderIndependent | src/context.rs:44-51 | any reordering of the same updates gives the same checkpoint |
| Body.StyleText | src/post/body.rs:82-114 | panics exactly when a style is not bold. Otherwise it returns the text as the as-written loop produces it (text unchanged without styles) |
| Body.BuildInsertMap | src/post/body.rs:89-104 | the insertion map holds, at every position, the markers of the styles opening and closing there; a non-bold style is an error |
| Body.CopyWithMarkers | src/post/body.rs:106-113 | given an insertion map that holds each position's markers, the copy loop produces the as-written styled text |
| Body.StyleTextOf | src/post/body.rs:82-114 | the corrected styling: fails exactly on a non-bold style and leaves unstyled text unchanged |
| Body.StyledBalanced | src/post/body.rs:82-114 | corrected styling keeps the text as a subsequence and adds exactly four `*` per style |
| Body.StyleTextDropsClosingMarker | src/post/body.rs:106-113 | a span ending at the end of the text loses its closing marker as written, and keeps it once corrected |
| Body.InterleavedShape | src/post/body.rs:106-113 | the first n characters with their markers: length and `*` count grow by two per marker before n |
| Body.AllBoldPermutation | src/post/body.rs:89-97 | whether every style is bold does not depend on the order styles are popped |
| Body.VideoToText | src/post/body.rs:117-130 | a YouTube video becomes its watch link; any other provider panics |
| Body.YoutubeLinkInjective | src/post/body.rs:117-130 | different video ids give different links |
| Body.Deconstruct | src/post/body.rs:145-154 | accepts exactly a `/`-split into 4 parts with `creator` and `post` in places 0 and 2, and returns the two ids it lies between |
| Body.DeconstructRoundTrip | src/post/body.rs:145-154 | the ids of `creator/c/post/p` are recovered for slash-free c and p |
| Body.EmbedToText | src/post/body.rs:132-178 | fails exactly for unknown providers or a malformed fanbox content id, with that error; YouTube, Google Forms, fan-site and Twitter embeds give their exact links |
| Body.FanboxEmbedLinksToSource | src/post/body.rs:156-162 | a fanbox embed links to the post's source link |
| Body.IframeSrc | src/post/body.rs:180-231 | the text between the first `<iframe src="` and the next quote; absent exactly when no such pair exists |
| Body.TextEmbedToText | src/post/body.rs:180-231 | an HTML embed links to its iframe source or is marked invalid exactly when there is none |
| Body.FindVideo | src/post/body.rs:47-80 | the first video with the id, or none exactly when no video has it |
| Body.BlockToText | src/post/body.rs:47-80 | empty paragraphs become `<br>`; a paragraph or header converts exactly when all its styles are bold, to the styled text (headers after `# `); images and files become references exactly when stored; missing embed, video and link tables are reported; found embeds, videos and links render through their own conversions and a missing video id fails |
| Body.BlockToTextOkIff | src/post/body.rs:47-80 | a block converts without panicking exactly when it is renderable |
| Body.BreakLines | src/post/body.rs:30-43 | every newline is replaced by `<br>`: no newline remains and each adds three characters |
| Body.BodyText | src/post/body.rs:30-43 | fails exactly when a block fails; otherwise the body text (line breaks as `<br>`) when present, then each block's own conversion, in order |
| Body.BodyContent | src/post/body.rs:11-28 | succeeds exactly when every block, image, file and video converts; the result starts with the body text and each block's conversion in order, then one reference per image and file and one link per video |
| Body.Attachments | src/post/body.rs:14-24 | the given items unchanged, then one reference per image, then per file, then one link per video; fails exactly when an id is not synced or a video is not from YouTube |
| LegacyPost.ImageToFile | src/post.rs:526-536 | an image becomes a file with the same id, URL and extension, size 0 and the image's file name |
| LegacyPost.FilenameParts | src/post.rs:515-517 | an image file name is id `.` extension; a file name, built the same way at src/post.rs line 559, is name `.` extension |
| LegacyPost.Wrap | src/post.rs:333-362 | one bold span adds exactly four characters |
| LegacyPost.WrapAddsMarkers | src/post.rs:333-362 | one bold span keeps the text as a subsequence and adds four `*` |
| LegacyPost.SetStyleSpec | src/post.rs:333-362 | panics exactly on a non-bold style; otherwise each style adds four characters |
| LegacyPost.SetStyleKeepsText | src/post.rs:333-362 | the styled text keeps the original as a subsequence with four more `*` per style |
| LegacyPost.SplitSpan | src/post.rs:339-353 | the characters before the offset, those from the offset up to the end, and the rest, each cut at the text's length |
| LegacyPost.SetStyle | src/post.rs:333-362 | the split-and-wrap loop computes `SetStyleSpec` |
| LegacyPost.DeconstructIds | src/post.rs:386-397 | accepted ids parse as `i32` and come from a well-formed `creator/c/post/p` |
| LegacyPost.DeconstructIdsRoundTrip | src/post.rs:386-397 | printed `i32` ids are recovered |
| LegacyPost.MapEmbed | src/post.rs:377-411 | fails exactly for unknown providers or a malformed fanbox id |
| LegacyPost.FanboxEmbedLinksToPost | src/post.rs:398-401 | a fanbox embed links to the official post page of its post id |
| LegacyPost.MapUrlEmbed | src/post.rs:413-454 | HTML embeds link their iframe source or are marked invalid exactly when there is none |
| LegacyPost.BlockToArchive | src/post.rs:276-329 | the per-block cases: empty text; a paragraph or header converts exactly when its styles are bold, to the styled text (paragraphs with a hard break, headers after `# `); images and found files by path; found embeds, videos and links through their own conversions; each missing table, video or link reported |
| LegacyPost.HardBreaks | src/post.rs:268-275 | each newline gains two trailing spaces, and the newline count is unchanged |
| LegacyPost.BodyText | src/post.rs:268-366 | fails exactly when a block fails; otherwise the non-empty body text with hard breaks, then each block's own conversion, in order |
| LegacyPost.BodyContent | src/post.rs:243-266 | succeeds exactly when blocks and videos convert; the result starts with the body text and each block's conversion in order, then image paths, thumbnail links and video or file paths in order |
| LegacyPost.Attachments | src/post.rs:247-263 | the given items unchanged, then one image path per image, one thumbnail link per video and a video or file path per file; fails exactly when a video is not from YouTube |
| LegacyPost.Images | src/post.rs:201-213 | the inline images, then the image map's values |
| LegacyPost.Files | src/post.rs:214-226 | the inline files, then the file map's values |
| LegacyPost.ToArchiveComment | src/post.rs:633-646 | user and text are carried over, and reply i becomes the conversion of reply i |
| LegacyPost.ToArchiveComments | src/post.rs:638-643 | a list of comments converts one by one, keeping count and order |
| LegacyPost.ThreadsSizePreserved | src/post.rs:603-646 | converting a thread keeps its total number of comments |
| FileMeta.FromUrl | src/post/file.rs:57-70 | the file name is the URL's last path segment |
| FileMeta.FromImage | src/post/file.rs:71-85 | the image's file name and URL, with width and height as extra fields |
| FileMeta.FromFile | src/post/file.rs:86-97 | the file's name and URL, with no extra fields |
| FileMeta.Files | src/post/file.rs:101-130 | the metadata of all images, then of all files, one per item |
| FileMeta.FilesOrder | src/post/file.rs:101-130 | entry k is built from the k-th image, or else from the matching file |
| FileMeta.FolderChangesShape | src/post/file.rs:20-28 | a directory is created only when the folder differs from the last one, and only known folders |
| FileMeta.FolderChangesOfRun | src/post/file.rs:20-28 | a run of files in one folder creates that folder at most once |
| FileMeta.NoParentStops | src/post/file.rs:20-28 | a file without a parent folder aborts the download |
| FileMeta.FailedFolderStops | src/post/file.rs:20-28 | a folder that cannot be created aborts the download |
| FileMeta.DownloadFiles | src/post/file.rs:13-45 | succeeds exactly when every file has a folder that can be created; then it creates exactly the folder changes and spawns every file |
| Sync.GetSourceLink | src/post/mod.rs:245-247 | the link is `https://`, the creator id, then the fixed host and path, ending with the post id |
| Sync.DotEndsCreator | src/post/mod.rs:245-247 | the link's host starts with the creator id and ends at the first dot |
| Sync.SourceLinkInjective | src/post/mod.rs:245-247 | different dot-free creators or posts give different links |
| Sync.KeepAsWritten | src/post/mod.rs:30-36 | as written, a post is kept exactly when every stored row of its link has the post's own update time |
| Sync.KeepAsWrittenIsInverted | src/post/mod.rs:30-36 | as written, an unchanged post is kept and an updated one dropped |
| Sync.UnsyncedKeepsNewAndUpdated | src/post/mod.rs:26-37 | the corrected filter keeps a post exactly when no stored row has its link with the same update time; it and the as-written rule both keep a post exactly when no row has its link |
| Sync.FilterUnsyncedPosts | src/post/mod.rs:26-37 | the retained posts are the order-preserving selection of the posts whose row is not stored |
| Sync.GetOrInsert | src/post/mod.rs:227-243 | the tag is present afterwards with the returned id, and no other name is added |
| Sync.GetOrInsertTwice | src/post/mod.rs:227-243 | a second lookup returns the same id and changes nothing |
| Sync.GetOrInsertFresh | src/post/mod.rs:227-243 | a newly inserted id is unused and ids stay below the counter |
| Sync.Archive.GetOrInsertTag | src/post/mod.rs:227-243 | the store's tag table changes as `GetOrInsert` says, and the file table does not change |
| Sync.FilePath | src/post/mod.rs:182-184 | a file lives at author / post / filename, so its folder is the post's folder |
| Sync.FilePathInjective | src/post/mod.rs:182-184 | different author, post or name give different paths |
| Sync.SyncedFiles | src/post/mod.rs:157-194 | one synced record per file, with its path, URL and a consecutive new id |
| Sync.SyncedFilesOnePostFolder | src/post/mod.rs:157-194 | all files of a post share its folder and have distinct ids |
| Sync.Archive.SyncFiles | src/post/mod.rs:157-194 | the file table gains exactly one row per file under fresh consecutive ids; older rows and tags do not change |
| Sync.CountersAgree | src/post/mod.rs:68-91 | the synced count is at most the total, and equal exactly when every post succeeded |
| Sync.SyncPosts | src/post/mod.rs:61-155 | the counters and failure count agree with the outcomes, and the files collected are those of the successful posts |
| Sync.DownloadFiles | src/post/mod.rs:196-225 | files are placed under the output folder; success and the created folders are as in `FileMeta.DownloadFiles` |
| Config.FilterCreator | src/config/mod.rs:139-148 | accepted exactly when not a skipped free creator, whitelisted if there is a whitelist, and not blacklisted: the blacklist wins |
| Config.FilterPost | src/config/mod.rs:150-159 | accepted exactly when not a skipped free post and not restricted |
| Config.SessionValue | src/config/mod.rs:87-93 | the session without `FANBOXSESSID=` prefix, trailing `;` or surrounding whitespace; a plain value is unchanged |
| Config.SessionPrefixOptional | src/config/mod.rs:87-93 | writing the session with or without the `FANBOXSESSID=` prefix gives the same value |
| Config.ParseCookie | src/config/mod.rs:97-102 | a segment gives a pair exactly when its trimmed form is non-empty and has `=`, split at the first `=` |
| Config.ParsedSegments | src/config/mod.rs:95-102 | one parse result per `;` segment of the cookie string |
| Config.Collect | src/config/mod.rs:103-104 | the table has at most one entry per pair, and the last pair's value is the one kept for its name |
| Config.CollectKeys | src/config/mod.rs:103-104 | the table's names are exactly the names of the pairs |
| Config.CollectLastWins | src/config/mod.rs:103-104 | a name's value is that of its last pair |
| Config.CollectFrom | src/config/mod.rs:103-104 | every entry of the table is one of the pairs |
| Config.AllPairs | src/config/mod.rs:87-103 | one more pair than the user's cookie string gives: those pairs in order, then the session pair last |
| Config.CookieMap | src/config/mod.rs:86-104 | the session entry is always present with the session value, overriding any user cookie of that name |
| Config.CookieMapNames | src/config/mod.rs:95-104 | a name is in the table exactly when it is the session's or a user pair's name |
| Config.UserNameCollected | src/config/mod.rs:95-104 | every user pair's name is in the table |
| Config.Entries | src/config/mod.rs:105-108 | one `trimmed name=trimmed value` entry per listed name, in the listing order |
| Config.SessionEntry | src/config/mod.rs:86-108 | the session entry is `FANBOXSESSID=` followed by the session value |
| Config.Cookies | src/config/mod.rs:86-109 | when the session holds no `;`, splitting the header at `;` gives back exactly the table's entries in iteration order |
| Config.HeaderSplits | src/config/mod.rs:95-108 | a session free of `;` keeps the joined entries splittable back into themselves |
| Config.CookiesCarrySession | src/config/mod.rs:86-108 | the header, in any iteration order, contains the session entry, and splitting it at `;` yields that entry |
| Config.CookieMapHasNoSemicolon | src/config/mod.rs:86-104 | with a `;`-free session, no name or value in the table holds `;` |
| Config.EntriesSplit | src/config/mod.rs:105-108 | splitting the joined header at `;` gives back the entries |
| Config.EpochSeconds | src/config/mod.rs:64-65 | milliseconds cast to `u64` and divided by 1000 |
| Config.VersionsAt | src/config/mod.rs:64-68 | the major version is 4 or 5 (4 exactly on even seconds), webkit is in 0..63 and chrome in 132..136 |
| Config.VersionsPeriod | src/config/mod.rs:64-68 | the versions repeat every 640 seconds |
| Config.VersionsEncodeSeconds | src/config/mod.rs:64-68 | major and webkit together encode the seconds modulo 128 |
| Config.GeneratedUserAgent | src/config/mod.rs:64-71 | the generated agent is a `Mozilla/` string whose first version digit is the major version, 4 on even and 5 on odd seconds |
| Config.ParseUserAgent | src/config/mod.rs:64-71 | a configured agent is kept; an empty one is replaced by the generated agent |
| LegacyConfig.WithPrefix | src/config.rs:85-99 | the value in `name=` form: unchanged exactly when it already has the prefix, otherwise prefixed |
| LegacyConfig.WithPrefixIdempotent | src/config.rs:85-99 | normalising twice adds nothing |
| LegacyConfig.Session | src/config.rs:85-91 | the session cookie always starts with `FANBOXSESSID=` and is never prefixed twice |
| LegacyConfig.Clearance | src/config.rs:92-99 | the clearance cookie always starts with `cf_clearance=`; an unset one is the bare prefix |
| LegacyConfig.UserAgent | src/config.rs:100-103 | the configured agent or the fixed default |
| LegacyConfig.Cache | src/config.rs:107-115 | no cache directory exactly when caching is off or downloads are forced; otherwise the configured one or `.` |
| LegacyConfig.SaveCache | src/config.rs:131-137 | with a cache, one write into the cache directory is queued and `Some` returned; without, nothing is |
| LegacyConfig.FilterCreatorAsWritten | src/config.rs:146-156 | as written: a non-empty whitelist accepts exactly the ids it does not list |
| LegacyConfig.FilterCreatorAsWrittenIsInverted | src/config.rs:146-156 | the listed creator is rejected and every other one accepted |
| LegacyConfig.FilterCreator | src/config.rs:146-156 | corrected: the whitelist accepts exactly what it lists, else the blacklist rejects what it lists |
| LegacyConfig.CorrectedFilterDiffersOnWhitelist | src/config.rs:146-156 | with a whitelist the two versions disagree on every id |
| LegacyConfig.FilterCreatorAgreesWithNewer | src/config.rs:146-156 | the corrected filter equals the newer one when free creators are kept and at most one list is given |
| Api.Fetch | src/api.rs:51-61 | a body is returned whatever the error says; without one, `general_error` is an invalid session and anything else an invalid response; transport errors pass through |
| Api.FirstCommentsUrl | src/api.rs:107-109 | the comments endpoint, then exactly the post id, then `&limit=10`, so the id can be read back |
| Api.WalkFrom | src/api.rs:111-121 | the walk fetches at most its budget, starting at the given URL, fetches nothing exactly when there is no URL or no budget, and runs out only after spending the whole budget |
| Api.CommentsWalk | src/api.rs:102-109 | a post without comments is answered with no fetch; otherwise the walk starts at the first page |
| Api.WalkConcatenatesPages | src/api.rs:111-121 | a finished walk returns the items of the fetched pages concatenated in fetch order |
| Api.WalkAbortsOnError | src/api.rs:111-112 | an error stops the walk at the failing fetch, after only successful ones |
| Api.WalkFollowsNextUrl | src/api.rs:111-118 | each fetch after the first is the `next_url` of the page before it |
| Api.WalkFuelSuffices | src/api.rs:111-120 | a finished walk does not change with a larger fetch budget |
| Api.GetPostComments | src/api.rs:102-122 | the loop fetches exactly the walk's URLs and returns its outcome; no comments means no fetch |
| Api.TryCollect | src/api.rs:89-93 | Ok with every value in order exactly when every result is Ok, else the first error |
| Api.GetPosts | src/api.rs:79-95 | a failed listing is the result, and any other error is one of the page results |
| Api.GetPostsIsUnionOfPages | src/api.rs:79-95 | whatever order the pages finish in, it succeeds exactly when every page does, with the same posts as the pages in URL order |
| Creators.Listed | src/creator/mod.rs:32-57 | a list not accepted or not fetched is empty; otherwise the fetched list |
| Creators.CreatorSet | src/creator/mod.rs:58-59 | the set holds exactly the creators in either list |
| Creators.CreatorSetSize | src/creator/mod.rs:58-59 | merging yields at most as many creators as the two lists together |
| Creators.Retain | src/creator/mod.rs:64 | exactly the creators the filter accepts remain |
| Creators.FilterCounts | src/creator/mod.rs:62-68 | included is the number accepted, and excluded plus included is the total, so the subtraction does not underflow |
| Creators.NoFilterIncludesAll | src/creator/mod.rs:62-68 | with no filter in force nothing is excluded |
| Creators.ChunkPosts | src/creator/mod.rs:90-97 | the chunks concatenate to the posts passing both filters, in order; every chunk is non-empty and full except possibly the last |
| Creators.SentPostsPassFilters | src/creator/mod.rs:90-97 | a post is sent exactly when it passes `filter_post` and the unsynced check |
| Creators.ByIdIsTotalPreorder | src/creator/mod.rs:111 | ordering by creator id is a total preorder, as sorting needs |
| Creators.DisplayCreators | src/creator/mod.rs:108-117 | rows are exactly the creators of the set, sorted by id and a permutation of the listing; each width is the longest entry or the minimum (11, 5), whichever is larger |
| Creators.ColumnWidths | src/creator/mod.rs:113-117 | each width is at least its minimum (11, 5) and every entry fits, and it is the minimum or the length of some entry |
| Creators.Synced | src/creator/mod.rs:149-166 | the table keeps every earlier id, grows by at most one entry per creator, and is unchanged when no sync succeeds |
| Creators.SyncedKeys | src/creator/mod.rs:149-166 | the table gains exactly the ids of the creators whose author sync succeeded |
| Creators.SyncedKeepsOthers | src/creator/mod.rs:149-166 | entries of other ids are untouched |
| Creators.SyncedRecords | src/creator/mod.rs:149-166 | a synced creator is entered with its author |
| Creators.Authors.constructor | src/creator/mod.rs:138-142 | the authors table starts empty |
| Creators.Authors.SyncCreators | src/creator/mod.rs:138-170 | without a transaction nothing changes and the call fails; otherwise each creator is synced in turn, and failing ones are skipped |

## Left out

**I/O and concurrency**
- HTTP requests, file downloads, the SQLite archive, the logger, progress bars and the task
  and channel wiring of src/main.rs are left out. Where the core reads their results, they
  are parameters: a URL-to-response function, posts' stored rows, whether a folder can be
  created, whether an author sync succeeds.
- Piping chunks into the post pipeline is modelled as the returned sequence of chunks.

**Ordering and nondeterminism**
- Concurrency is left out: `JoinSet` completion order is the `completed` parameter of
  `Api.GetPosts`, a permutation of the page results.
- `HashMap`/`HashSet` iteration order is an explicit listing parameter in
  `Config.Entries`, `Creators.DisplayCreators` and `Creators.Authors.SyncCreators`.

**Values the model does not compute**
- The time is a parameter (milliseconds).
- MIME type guessing is a parameter.
- The `is_video` extension test of src/post.rs is a parameter.
- Serialisation of cached data (`serde_json`) is left out: the data arrives already as
  bytes. `load_cache` (a file read) is left out.

**Module contents**
- The `fanbox` module that src/post/body.rs imports is not part of this model. Its payload
  types follow the struct definitions of src/post.rs. Creators are records (id, name, fee),
  and the set holds them by value.
- The conversion from the API's creator lists to `Creator` is not modelled.
- The `POST_CHUNK_SIZE` constant and `filter_unsynced_post` come from a version of
  src/post/mod.rs that is not part of this model. They enter `Creators.ChunkPosts` as the
  `chunkSize` and `unsynced` parameters.
- The Pixiv alias of a synced author is not modelled: it uses the creator's user id, which
  the model's `Creator` does not hold.

**Weaker contracts and bounds**
- Config.Cookies: the header split is stated only for a session free of `;`. A session
  holding `;` makes one entry that splits into several.
- Api.GetPostComments: the `while let` loop is bounded by a fetch budget (`fuel`), so a
  server that never stops paging is not modelled. `Api.WalkFuelSuffices` shows the budget
  never changes a walk that finished.
- Api.GetPosts: a panicking page task (`join_all` re-raises panics) is not modelled.
- Creators.Authors.SyncCreators: `commit().unwrap()` is taken to succeed.
- Creators.DisplayCreators: the printed table lines are left out. Only the row order and
  column widths are modelled, and both widths count characters where Rust counts bytes, the
  same for ASCII ids.
- LegacyPost.SetStyle: it splits at character offsets where the source uses byte offsets.
  This is exact for ASCII text.
- LegacyPost.SplitSpan: it compares character positions where `char_indices` yields byte
  offsets, which agree only for ASCII text.
- Creators.ColumnWidths: it measures creator ids in characters where `len()` counts bytes.
- LegacyPost.MapEmbed: the YouTube branch links `embed.id`, as src/post.rs does; the newer
  transformer uses the content id.
- Body.BlockToText: styled paragraphs and headers use the corrected styling `Body.Styled`.
  It adds the closing markers at the end of the text that `style_text` drops (see Findings);
  the as-written text is `Body.StyledAsWritten`, shorter by `Body.Inserted(ss, |text|)`.
- Body.BodyText: its blocks go through `Body.BlockToText`, so styled blocks carry the
  corrected styling.
- Body.BodyContent: likewise through `Body.BodyText`.
- Creators.SyncedRecords: it is stated for a creator whose id no other listed creator
  shares. The set holds whole records, so two records with one id would overwrite each other
  in iteration order.

## Findings

| source | as written | input that shows it | evidently intended | confidence | as-written member | corrected member |
|---|---|---|---|---|---|---|
| src/post/body.rs:106-113 | markers are emitted only at positions `i < len`, so a bold span that ends at the end of the text never gets its closing `**` | text `ab`, one bold style at offset 0, length 2: gives `**ab` | `**ab**`; every span's markers are balanced | not executed | Body.StyleText, Body.StyleTextDropsClosingMarker | Body.StyleTextOf, Body.StyledBalanced, Body.BlockToText, Body.BodyText, Body.BodyContent |
| src/post/mod.rs:30-36 | a post is dropped exactly when a stored row has its link and a DIFFERENT update time (`updated != ?`, then negated), so unchanged posts are synced again and updated ones are skipped | one stored row (link, 1000); a post with updated 1000 is kept, one with updated 1200 is dropped | keep posts that are new or whose update time changed | not executed | Sync.KeepAsWritten, Sync.KeepAsWrittenIsInverted | Sync.FilterUnsyncedPosts, Sync.UnsyncedKeepsNewAndUpdated |
| src/config.rs:146-156 | a non-empty whitelist returns `!contains`, so it accepts every creator except the listed ones | whitelist `[a]`: `a` is rejected and `b` accepted | accept exactly the whitelisted creators (as src/config/mod.rs:139-148 later does) | not executed | LegacyConfig.FilterCreatorAsWritten, LegacyConfig.FilterCreatorAsWrittenIsInverted | LegacyConfig.FilterCreator, LegacyConfig.CorrectedFilterDiffersOnWhitelist |
