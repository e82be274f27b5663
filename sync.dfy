/**
 * Sync bookkeeping of src/post/mod.rs over an abstract store: the source link that keys a
 * post, the "already synced" filter, the tag lookup, the file path layout, the counters of a
 * sync run and the folder-creation loop of the downloader.
 */
module Sync {
  import opened Wrappers
  import opened Strings
  import opened Seqs
  import F = Fanbox
  import Paths
  import FileMeta

  /** `get_source_link`: the post's public URL, which the store uses as its key. */
  function GetSourceLink(creatorId: String, postId: String): (l: String)
    ensures |l| == 25 + |creatorId| + |postId|
    ensures l[..8] == "https://" && l[8..8 + |creatorId|] == creatorId && l[|l| - |postId|..] == postId
  {
    "https://" + creatorId + ".fanbox.cc/posts/" + postId
  }

  /** In a link, the first '.' after the scheme is the one that ends the creator id. */
  lemma DotEndsCreator(c: String, p: String)
    requires '.' !in c
    ensures var l := GetSourceLink(c, p);
      && 8 + |c| < |l| && l[8 + |c|] == '.'
      && (forall k :: 8 <= k < 8 + |c| ==> l[k] != '.')
      && l[8..8 + |c|] == c && l[|l| - |p|..] == p
  {
  }

  /**
   * Creator ids are subdomains and carry no '.', so the link determines both the creator and
   * the post: two posts get the same key only if they are the same post.
   */
  lemma SourceLinkInjective(c1: String, p1: String, c2: String, p2: String)
    requires '.' !in c1 && '.' !in c2
    requires GetSourceLink(c1, p1) == GetSourceLink(c2, p2)
    ensures c1 == c2 && p1 == p2
  {
    DotEndsCreator(c1, p1);
    DotEndsCreator(c2, p2);
    assert |c1| == |c2|;
  }

  // ---------------------------------------------------------------------------
  // filter_unsynced_posts
  // ---------------------------------------------------------------------------

  /** A row of the archive's post table, as the filter queries it: the source link and the update time. */
  datatype PostRow = PostRow(source: String, updated: int)

  /** The row a post would have if the archive held its current version. */
  function RowOf(post: F.PostListItem): PostRow {
    PostRow(GetSourceLink(post.creatorId, post.id), post.updated)
  }

  /** The query `source = ? AND updated != ?` as written: a row holds this post at another update time. */
  predicate StoredAtOtherTime(rows: set<PostRow>, post: F.PostListItem) {
    exists row :: row in rows && row.source == GetSourceLink(post.creatorId, post.id) && row.updated != post.updated
  }

  /**
   * The retain rule as written: keep a post unless the query finds a row, that is, keep it
   * exactly when every stored row of its link has the post's own update time.
   */
  function KeepAsWritten(rows: set<PostRow>): (keep: F.PostListItem -> bool)
    ensures forall post :: keep(post) <==>
      forall row :: row in rows && row.source == GetSourceLink(post.creatorId, post.id) ==> row.updated == post.updated
  {
    (post: F.PostListItem) => !StoredAtOtherTime(rows, post)
  }

  /** The rule the filter is named for: keep a post unless the archive already holds this version of it. */
  function Unsynced(rows: set<PostRow>): F.PostListItem -> bool {
    (post: F.PostListItem) => RowOf(post) !in rows
  }

  /**
   * As written, a post whose stored row has the same update time is kept (and imported again),
   * while a post updated since it was stored is dropped: the test is the wrong way round.
   */
  lemma KeepAsWrittenIsInverted(creator: String, id: String)
    ensures var link := GetSourceLink(creator, id);
      var rows := {PostRow(link, 1000)};
      var same := F.PostListItem(id, "", 0, 1000, false, creator, 0);
      var updated := F.PostListItem(id, "", 0, 1200, false, creator, 0);
      && KeepAsWritten(rows)(same) && !Unsynced(rows)(same)
      && !KeepAsWritten(rows)(updated) && Unsynced(rows)(updated)
  {
    var link := GetSourceLink(creator, id);
    var updated := F.PostListItem(id, "", 0, 1200, false, creator, 0);
    assert PostRow(link, 1000) in {PostRow(link, 1000)};
    assert StoredAtOtherTime({PostRow(link, 1000)}, updated);
  }

  /**
   * The corrected rule keeps exactly the posts never stored and those stored at another
   * update time; for creator ids without '.', a stored row only stands for its own post.
   */
  lemma UnsyncedKeepsNewAndUpdated(rows: set<PostRow>, post: F.PostListItem)
    ensures Unsynced(rows)(post) <==>
      forall row :: row in rows && row.source == GetSourceLink(post.creatorId, post.id) ==> row.updated != post.updated
    ensures KeepAsWritten(rows)(post) && Unsynced(rows)(post) <==>
      forall row :: row in rows ==> row.source != GetSourceLink(post.creatorId, post.id)
  {
  }

  /**
   * `filter_unsynced_posts` (with the corrected rule): the posts the archive does not already
   * hold at their current update time, in their original order.
   */
  method FilterUnsyncedPosts(rows: set<PostRow>, posts: seq<F.PostListItem>) returns (kept: seq<F.PostListItem>)
    ensures kept == Filter(posts, Unsynced(rows))
    ensures IsSubsequence(kept, posts)
    ensures forall post :: post in kept <==> post in posts && RowOf(post) !in rows
  {
    kept := [];
    for i := 0 to |posts|
      invariant kept == Filter(posts[..i], Unsynced(rows))
    {
      FilterConcat(posts[..i], [posts[i]], Unsynced(rows));
      Seqs.PrefixStep(posts, i);
      if RowOf(posts[i]) !in rows {
        kept := kept + [posts[i]];
      }
    }
    assert posts[..|posts|] == posts;
    FilterIsSubsequence(posts, Unsynced(rows));
    FilterMembers(posts, Unsynced(rows));
  }

  // ---------------------------------------------------------------------------
  // The archive tables: tags and file metadata
  // ---------------------------------------------------------------------------

  /** The tag every imported post is filed under. */
  const TagName: String := "fanbox"

  /** Look `name` up in a tag table, inserting it with the next free id when absent. */
  function GetOrInsert(tags: map<String, nat>, name: String, nextId: nat): (r: (nat, map<String, nat>, nat))
    ensures name in r.1 && r.1[name] == r.0
    ensures r.1.Keys == tags.Keys + {name}
    ensures forall key :: key in tags ==> r.1[key] == tags[key]
    ensures name in tags ==> r.0 == tags[name] && r.2 == nextId
    ensures name !in tags ==> r.0 == nextId && r.2 == nextId + 1
  {
    if name in tags then (tags[name], tags, nextId) else (nextId, tags[name := nextId], nextId + 1)
  }

  /** A second lookup finds what the first one returned, and changes nothing. */
  lemma GetOrInsertTwice(tags: map<String, nat>, name: String, nextId: nat)
    ensures var first := GetOrInsert(tags, name, nextId);
      GetOrInsert(first.1, name, first.2) == first
  {
  }

  /** An inserted id is new: when every stored id is below `nextId`, it differs from all of them. */
  lemma GetOrInsertFresh(tags: map<String, nat>, name: String, nextId: nat)
    requires forall key :: key in tags ==> tags[key] < nextId
    ensures var r := GetOrInsert(tags, name, nextId);
      (forall key :: key in r.1 ==> r.1[key] < r.2)
      && (name !in tags ==> forall key :: key in tags ==> tags[key] != r.0)
  {
  }

  /** A file_metas row: file name, owning author and post, MIME type and extra fields. */
  datatype FileRow = FileRow(filename: String, author: nat, post: nat, mime: String, extra: map<String, nat>)

  /** A file record of a post body (`post_body.files(author, post)`), with the fan site's id for it. */
  datatype PostFileMeta = PostFileMeta(id: String, filename: String, mime: String, extra: map<String, nat>, url: String)

  /** `SyncedFile`: where the file goes relative to the output folder, where it comes from, and its ids. */
  datatype SyncedFile = SyncedFile(path: Paths.Path, url: String, rawId: String, id: nat)

  /** The relative path of a file: author id / post id / file name. */
  function FilePath(author: nat, post: nat, filename: String): (r: Paths.Path)
    ensures |r| == 3 && r[2] == filename
    ensures Paths.Parent(r) == Some([NatToString(author), NatToString(post)])
  {
    var r := Paths.Join(Paths.Join([NatToString(author)], NatToString(post)), filename);
    assert r[..2] == [NatToString(author), NatToString(post)];
    r
  }

  /** Different files never share a path: the path gives back the author, the post and the name. */
  lemma FilePathInjective(a1: nat, p1: nat, f1: String, a2: nat, p2: nat, f2: String)
    requires FilePath(a1, p1, f1) == FilePath(a2, p2, f2)
    ensures a1 == a2 && p1 == p2 && f1 == f2
  {
    var path := FilePath(a1, p1, f1);
    assert path[0] == NatToString(a1) == NatToString(a2);
    assert path[1] == NatToString(p1) == NatToString(p2);
    DigitsValueOfNatToString(a1);
    DigitsValueOfNatToString(a2);
    DigitsValueOfNatToString(p1);
    DigitsValueOfNatToString(p2);
  }

  /** What `sync_files` returns: one entry per record, in order, with ids handed out from `firstId`. */
  function SyncedFiles(metas: seq<PostFileMeta>, author: nat, post: nat, firstId: nat): (r: seq<SyncedFile>)
    ensures |r| == |metas|
    ensures forall k :: 0 <= k < |metas| ==>
      r[k] == SyncedFile(FilePath(author, post, metas[k].filename), metas[k].url, metas[k].id, firstId + k)
  {
    seq(|metas|, k requires 0 <= k < |metas| =>
      SyncedFile(FilePath(author, post, metas[k].filename), metas[k].url, metas[k].id, firstId + k))
  }

  /** All files of one post land in the folder author / post, and no two get the same id. */
  lemma SyncedFilesOnePostFolder(metas: seq<PostFileMeta>, author: nat, post: nat, firstId: nat)
    ensures var r := SyncedFiles(metas, author, post, firstId);
      && (forall k :: 0 <= k < |r| ==> Paths.Parent(r[k].path) == Some([NatToString(author), NatToString(post)]))
      && (forall j, k :: 0 <= j < k < |r| ==> r[j].id != r[k].id)
  {
  }

  /**
   * The archive tables the sync steps write: the tag table and the file_metas table, each with
   * the id its next insert returns (sqlite's rowid counter).
   */
  class Archive {
    var tags: map<String, nat>
    var nextTagId: nat
    var files: map<nat, FileRow>
    var nextFileId: nat

    ghost predicate Valid()
      reads this
    {
      && (forall key :: key in tags ==> tags[key] < nextTagId)
      && (forall id :: id in files ==> id < nextFileId)
    }

    constructor ()
      ensures Valid() && tags == map[] && files == map[]
    {
      tags, nextTagId, files, nextFileId := map[], 1, map[], 1;
    }

    /** `get_or_insert_tag`: the id of the "fanbox" tag, inserting the tag first when it is missing. */
    method GetOrInsertTag() returns (id: nat)
      requires Valid()
      modifies this
      ensures Valid()
      ensures (id, tags, nextTagId) == GetOrInsert(old(tags), TagName, old(nextTagId))
      ensures files == old(files) && nextFileId == old(nextFileId)
    {
      GetOrInsertFresh(tags, TagName, nextTagId);
      if TagName in tags {
        id := tags[TagName];
      } else {
        id := nextTagId;
        tags := tags[TagName := id];
        nextTagId := nextTagId + 1;
      }
    }

    /**
     * `sync_files`: insert one file_metas row per record of the post and return where each file
     * goes (author / post / name), where it comes from, its fan-site id and its new row id.
     */
    method SyncFiles(metas: seq<PostFileMeta>, author: nat, post: nat) returns (r: seq<SyncedFile>)
      requires Valid()
      modifies this
      ensures Valid()
      ensures r == SyncedFiles(metas, author, post, old(nextFileId))
      ensures nextFileId == old(nextFileId) + |metas|
      ensures RowsAdded(files, old(files), metas, author, post, old(nextFileId))
      ensures tags == old(tags) && nextTagId == old(nextTagId)
    {
      var table, nextId := files, nextFileId;
      r := [];
      for i := 0 to |metas|
        modifies {}
        invariant FilesSynced(r, table, nextId, old(files), metas, i, author, post, old(nextFileId))
      {
        FilesSyncedStep(r, table, nextId, old(files), metas, i, author, post, old(nextFileId));
        var meta := metas[i];
        var id := nextId;
        table := table[id := FileRow(meta.filename, author, post, meta.mime, meta.extra)];
        nextId := nextId + 1;
        r := r + [SyncedFile(FilePath(author, post, meta.filename), meta.url, meta.id, id)];
      }
      FilesSyncedDone(r, table, nextId, old(files), metas, author, post, old(nextFileId));
      files, nextFileId := table, nextId;
    }
  }

  /**
   * `table` is `before` with one row per record of `metas` inserted under the ids from
   * `firstId` on, and nothing else changed.
   */
  ghost predicate RowsAdded(table: map<nat, FileRow>, before: map<nat, FileRow>, metas: seq<PostFileMeta>,
                            author: nat, post: nat, firstId: nat)
  {
    && (forall id :: id in table <==> id in before || firstId <= id < firstId + |metas|)
    && (forall id :: id in before ==> table[id] == before[id])
    && (forall id :: firstId <= id < firstId + |metas| ==> table[id] == RowFor(metas[id - firstId], author, post))
  }

  /** The state of `sync_files` after the first `i` records. */
  ghost predicate FilesSynced(r: seq<SyncedFile>, table: map<nat, FileRow>, nextId: nat, before: map<nat, FileRow>,
                              metas: seq<PostFileMeta>, i: nat, author: nat, post: nat, firstId: nat)
  {
    && i <= |metas|
    && (forall id :: id in before ==> id < firstId)
    && nextId == firstId + i
    && r == SyncedFiles(metas[..i], author, post, firstId)
    && RowsAdded(table, before, metas[..i], author, post, firstId)
  }

  lemma FilesSyncedStep(r: seq<SyncedFile>, table: map<nat, FileRow>, nextId: nat, before: map<nat, FileRow>,
                        metas: seq<PostFileMeta>, i: nat, author: nat, post: nat, firstId: nat)
    requires FilesSynced(r, table, nextId, before, metas, i, author, post, firstId) && i < |metas|
    ensures FilesSynced(r + [SyncedFile(FilePath(author, post, metas[i].filename), metas[i].url, metas[i].id, nextId)],
                        table[nextId := FileRow(metas[i].filename, author, post, metas[i].mime, metas[i].extra)],
                        nextId + 1, before, metas, i + 1, author, post, firstId)
  {
    RowsAddedStep(table, before, metas, i, author, post, firstId);
    SyncedFilesStep(metas, i, author, post, firstId);
  }

  lemma FilesSyncedDone(r: seq<SyncedFile>, table: map<nat, FileRow>, nextId: nat, before: map<nat, FileRow>,
                        metas: seq<PostFileMeta>, author: nat, post: nat, firstId: nat)
    requires FilesSynced(r, table, nextId, before, metas, |metas|, author, post, firstId)
    ensures nextId == firstId + |metas| && r == SyncedFiles(metas, author, post, firstId)
    ensures RowsAdded(table, before, metas, author, post, firstId)
    ensures forall id :: id in table ==> id < nextId
  {
    assert metas[..|metas|] == metas;
    RowsAddedBelow(table, before, metas, author, post, firstId);
  }

  lemma RowsAddedBelow(table: map<nat, FileRow>, before: map<nat, FileRow>, metas: seq<PostFileMeta>,
                       author: nat, post: nat, firstId: nat)
    requires forall id :: id in before ==> id < firstId
    requires RowsAdded(table, before, metas, author, post, firstId)
    ensures forall id :: id in table ==> id < firstId + |metas|
  {
  }

  lemma RowsAddedStep(table: map<nat, FileRow>, before: map<nat, FileRow>, metas: seq<PostFileMeta>, i: nat,
                      author: nat, post: nat, firstId: nat)
    requires i < |metas| && forall id :: id in before ==> id < firstId
    requires RowsAdded(table, before, metas[..i], author, post, firstId)
    ensures RowsAdded(table[firstId + i := RowFor(metas[i], author, post)], before, metas[..i + 1], author, post, firstId)
  {
    assert forall k :: 0 <= k < i ==> metas[..i + 1][k] == metas[..i][k];
  }

  lemma SyncedFilesStep(metas: seq<PostFileMeta>, i: nat, author: nat, post: nat, firstId: nat)
    requires i < |metas|
    ensures SyncedFiles(metas[..i + 1], author, post, firstId) ==
      SyncedFiles(metas[..i], author, post, firstId)
        + [SyncedFile(FilePath(author, post, metas[i].filename), metas[i].url, metas[i].id, firstId + i)]
  {
    var a := SyncedFiles(metas[..i + 1], author, post, firstId);
    var b := SyncedFiles(metas[..i], author, post, firstId)
      + [SyncedFile(FilePath(author, post, metas[i].filename), metas[i].url, metas[i].id, firstId + i)];
    assert |a| == |b|;
    forall k | 0 <= k < |a| ensures a[k] == b[k] {
      if k < i {
        assert metas[..i + 1][k] == metas[..i][k];
      }
    }
  }

  /** The file_metas row inserted for one record. */
  function RowFor(meta: PostFileMeta, author: nat, post: nat): FileRow {
    FileRow(meta.filename, author, post, meta.mime, meta.extra)
  }

  // ---------------------------------------------------------------------------
  // sync_posts: counters, files collected, and the downloader
  // ---------------------------------------------------------------------------

  /** The files of the posts that synced, in post order (a failed post contributes none). */
  function CollectedFiles(outcomes: seq<Option<seq<SyncedFile>>>): seq<SyncedFile> {
    if outcomes == [] then [] else outcomes[0].UnwrapOr([]) + CollectedFiles(outcomes[1..])
  }

  function Succeeded(): Option<seq<SyncedFile>> -> bool {
    (o: Option<seq<SyncedFile>>) => o.Some?
  }

  /** The counters of a run: synced never exceeds total, and they are equal only when every post synced. */
  lemma {:induction false} CountersAgree(outcomes: seq<Option<seq<SyncedFile>>>)
    ensures |Filter(outcomes, Succeeded())| <= |outcomes|
    ensures |Filter(outcomes, Succeeded())| == |outcomes| <==> forall k :: 0 <= k < |outcomes| ==> outcomes[k].Some?
  {
    if outcomes != [] {
      CountersAgree(outcomes[1..]);
      assert forall k :: 1 <= k < |outcomes| ==> outcomes[k] == outcomes[1..][k - 1];
    }
  }

  /**
   * `sync_posts`' bookkeeping: `outcomes[k]` is what `sync_post` gave for the k-th post (its
   * synced files, or None on failure). The total, the success count, the failure count that is
   * reported when some post failed, and the files collected for download.
   */
  method SyncPosts(outcomes: seq<Option<seq<SyncedFile>>>)
    returns (total: nat, synced: nat, failed: Option<nat>, allFiles: seq<SyncedFile>)
    ensures total == |outcomes| && synced == |Filter(outcomes, Succeeded())|
    ensures synced <= total
    ensures failed.None? <==> forall k :: 0 <= k < |outcomes| ==> outcomes[k].Some?
    ensures failed.Some? ==> failed.value == total - synced && failed.value > 0
    ensures allFiles == CollectedFiles(outcomes)
  {
    total := |outcomes|;
    synced := 0;
    allFiles := [];
    for i := 0 to |outcomes|
      invariant synced == |Filter(outcomes[..i], Succeeded())|
      invariant allFiles + CollectedFiles(outcomes[i..]) == CollectedFiles(outcomes)
    {
      FilterConcat(outcomes[..i], [outcomes[i]], Succeeded());
      Seqs.PrefixStep(outcomes, i);
      assert outcomes[i..][1..] == outcomes[i + 1..];
      match outcomes[i]
      case Some(files) =>
        synced := synced + 1;
        if files != [] {
          allFiles := allFiles + files;
        }
      case None =>
    }
    assert outcomes[..|outcomes|] == outcomes;
    CountersAgree(outcomes);
    failed := if total != synced then Some(total - synced) else None;
  }

  /**
   * `download_files` of a sync run: each file goes to the output folder joined with its
   * relative path; folders are created as the file-module downloader does.
   */
  method DownloadFiles(files: seq<SyncedFile>, output: Paths.Path, canCreate: Paths.Path -> bool)
    returns (created: seq<Paths.Path>, spawned: seq<(Paths.Path, String)>, r: Result<(), FileMeta.DownloadError>)
    ensures var targets := seq(|files|, k requires 0 <= k < |files| => (Paths.Append(output, files[k].path), files[k].url));
      && (r.Ok? <==> FileMeta.Downloadable(targets, canCreate))
      && (r.Ok? ==> created == FileMeta.FolderChanges([], FileMeta.Folders(targets)) && spawned == targets)
    ensures r == Err(FileMeta.NoParent) ==> output == [] && exists k :: 0 <= k < |files| && files[k].path == []
  {
    var targets := seq(|files|, k requires 0 <= k < |files| => (Paths.Append(output, files[k].path), files[k].url));
    created, spawned, r := FileMeta.DownloadFiles(targets, canCreate);
  }
}
