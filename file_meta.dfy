/**
 * File references of a post body and their metadata (src/post/file.rs): which files a post
 * carries, the metadata record built for each, and the downloader's folder-creation loop.
 *
 * MIME types come from a guess on the file name; the guess is outside the model and enters
 * as a parameter.
 */
module FileMeta {
  import opened Wrappers
  import opened Strings
  import F = Fanbox
  import Paths
  import Seqs

  /** `UnsyncFileMeta<String>`: name, MIME type, extra numeric fields, and the URL to fetch. */
  datatype UnsyncFileMeta = UnsyncFileMeta(filename: String, mime: String, extra: map<String, nat>, data: String)

  /** `from_url`: named by the URL's last '/'-separated segment, fetched from the URL itself. */
  function FromUrl(url: String, mime: String): (r: UnsyncFileMeta)
    ensures r.data == url && r.extra == map[] && r.mime == mime
    ensures '/' !in r.filename && |r.filename| <= |url| && r.filename == url[|url| - |r.filename|..]
    ensures |r.filename| < |url| ==> url[|url| - |r.filename| - 1] == '/'
    ensures '/' !in url ==> r.filename == url
  {
    UnsyncFileMeta(LastSegment(url, '/'), mime, map[], url)
  }

  /** `from_image`: named by the image's file name, fetched from its original URL, sized in `extra`. */
  function FromImage(image: F.PostImage, mime: String): (r: UnsyncFileMeta)
    ensures r.filename == F.ImageFilename(image) && r.data == image.originalUrl && r.mime == mime
    ensures r.extra.Keys == {"width", "height"}
    ensures r.extra["width"] == image.width && r.extra["height"] == image.height
  {
    UnsyncFileMeta(F.ImageFilename(image), mime, map["width" := image.width, "height" := image.height], image.originalUrl)
  }

  /** `from_file`: named by the file's file name, fetched from its URL, no extra fields. */
  function FromFile(file: F.PostFile, mime: String): (r: UnsyncFileMeta)
    ensures r.filename == F.FileFilename(file) && r.data == file.url && r.mime == mime && r.extra == map[]
  {
    UnsyncFileMeta(F.FileFilename(file), mime, map[], file.url)
  }

  /** Every image of a body: the listed ones, then the image table's values in key order. */
  function AllImages(body: F.PostBody): (r: seq<F.PostImage>)
    ensures |r| == |body.images.UnwrapOr([])| + |body.imageMap.UnwrapOr([])|
  {
    body.images.UnwrapOr([]) + F.Values(body.imageMap.UnwrapOr([]))
  }

  /** Every file of a body: the listed ones, then the file table's values in key order. */
  function AllFiles(body: F.PostBody): (r: seq<F.PostFile>)
    ensures |r| == |body.files.UnwrapOr([])| + |body.fileMap.UnwrapOr([])|
  {
    body.files.UnwrapOr([]) + F.Values(body.fileMap.UnwrapOr([]))
  }

  /** `post_images_to_files`: one image record per image, in order. */
  function ImageMetas(images: seq<F.PostImage>, mime: F.PostImage -> String): (r: seq<UnsyncFileMeta>)
    ensures |r| == |images| && forall k :: 0 <= k < |images| ==> r[k] == FromImage(images[k], mime(images[k]))
  {
    seq(|images|, k requires 0 <= k < |images| => FromImage(images[k], mime(images[k])))
  }

  /** `post_files_to_files`: one file record per file, in order. */
  function FileMetas(files: seq<F.PostFile>, mime: F.PostFile -> String): (r: seq<UnsyncFileMeta>)
    ensures |r| == |files| && forall k :: 0 <= k < |files| ==> r[k] == FromFile(files[k], mime(files[k]))
  {
    seq(|files|, k requires 0 <= k < |files| => FromFile(files[k], mime(files[k])))
  }

  /**
   * `PostBody::files`: the metadata of the image list, the image table, the file list and the
   * file table, in that order, one record per entry.
   */
  method Files(body: F.PostBody, imageMime: F.PostImage -> String, fileMime: F.PostFile -> String)
    returns (r: seq<UnsyncFileMeta>)
    ensures |r| == |body.images.UnwrapOr([])| + |body.imageMap.UnwrapOr([])|
                 + |body.files.UnwrapOr([])| + |body.fileMap.UnwrapOr([])|
    ensures r == ImageMetas(AllImages(body), imageMime) + FileMetas(AllFiles(body), fileMime)
  {
    // An absent list or table adds nothing, exactly as the `if let Some(..)` guards do.
    var images := body.images.UnwrapOr([]);
    var imageTable := F.Values(body.imageMap.UnwrapOr([]));
    var files := body.files.UnwrapOr([]);
    var fileTable := F.Values(body.fileMap.UnwrapOr([]));
    r := [];
    r := r + ImageMetas(images, imageMime);
    r := r + ImageMetas(imageTable, imageMime);
    ImageMetasConcat(images, imageTable, imageMime);
    r := r + FileMetas(files, fileMime);
    r := r + FileMetas(fileTable, fileMime);
    FileMetasConcat(files, fileTable, fileMime);
  }

  lemma ImageMetasConcat(a: seq<F.PostImage>, b: seq<F.PostImage>, mime: F.PostImage -> String)
    ensures ImageMetas(a + b, mime) == ImageMetas(a, mime) + ImageMetas(b, mime)
  {
  }

  lemma FileMetasConcat(a: seq<F.PostFile>, b: seq<F.PostFile>, mime: F.PostFile -> String)
    ensures FileMetas(a + b, mime) == FileMetas(a, mime) + FileMetas(b, mime)
  {
  }

  /** The records of `files` follow the body's images first, then its files, each in list-then-table order. */
  lemma FilesOrder(body: F.PostBody, imageMime: F.PostImage -> String, fileMime: F.PostFile -> String, k: nat)
    requires k < |AllImages(body)| + |AllFiles(body)|
    ensures var r := ImageMetas(AllImages(body), imageMime) + FileMetas(AllFiles(body), fileMime);
      var images := AllImages(body);
      && (k < |images| ==> r[k].filename == F.ImageFilename(images[k]) && r[k].data == images[k].originalUrl)
      && (k >= |images| ==>
            r[k].filename == F.FileFilename(AllFiles(body)[k - |images|])
            && r[k].data == AllFiles(body)[k - |images|].url && r[k].extra == map[])
  {
  }

  // ---------------------------------------------------------------------------
  // The folder-creation loop of `download_files`
  // ---------------------------------------------------------------------------

  /** The folder a file is written to (the empty path when the file has no parent). */
  function FolderOf(path: Paths.Path): Paths.Path {
    Paths.Parent(path).UnwrapOr([])
  }

  /** The folders created for files in these folders, starting after `last`: one per change of folder. */
  function FolderChanges(last: Paths.Path, folders: seq<Paths.Path>): (r: seq<Paths.Path>)
    ensures |r| <= |folders|
    decreases |folders|
  {
    if folders == [] then []
    else if folders[0] != last then [folders[0]] + FolderChanges(folders[0], folders[1..])
    else FolderChanges(last, folders[1..])
  }

  /**
   * Folders are created at changes only: never twice in a row, never the starting folder
   * first, and each is the folder of some file.
   */
  lemma {:induction false} FolderChangesShape(last: Paths.Path, folders: seq<Paths.Path>)
    ensures var r := FolderChanges(last, folders);
      && (r != [] ==> r[0] != last)
      && (forall k :: 0 <= k < |r| - 1 ==> r[k] != r[k + 1])
      && (forall k :: 0 <= k < |r| ==> r[k] in folders)
    decreases |folders|
  {
    if folders != [] {
      FolderChangesShape(if folders[0] != last then folders[0] else last, folders[1..]);
      var r := FolderChanges(last, folders);
      var rest := FolderChanges(if folders[0] != last then folders[0] else last, folders[1..]);
      if folders[0] != last {
        assert r == [folders[0]] + rest;
        forall k | 0 <= k < |r| - 1 ensures r[k] != r[k + 1] {
          if k > 0 {
            assert r[k] == rest[k - 1] && r[k + 1] == rest[k];
          }
        }
        forall k | 0 <= k < |r| ensures r[k] in folders {
          if k > 0 {
            assert r[k] == rest[k - 1];
            assert rest[k - 1] in folders[1..];
          }
        }
      } else {
        forall k | 0 <= k < |r| ensures r[k] in folders {
          assert r[k] in folders[1..];
        }
      }
    }
  }

  /** A run of files sharing one folder creates that folder once (or not at all if it is `last`). */
  lemma {:induction false} FolderChangesOfRun(last: Paths.Path, folder: Paths.Path, folders: seq<Paths.Path>)
    requires forall k :: 0 <= k < |folders| ==> folders[k] == folder
    ensures FolderChanges(last, folders) == if folders == [] || folder == last then [] else [folder]
    decreases |folders|
  {
    if folders != [] {
      FolderChangesOfRun(folder, folder, folders[1..]);
      if folder == last {
        FolderChangesOfRun(last, folder, folders[1..]);
      }
    }
  }

  lemma FolderChangesStep(last: Paths.Path, folders: seq<Paths.Path>, i: nat)
    requires i < |folders|
    ensures FolderChanges(last, folders[i..]) ==
      if folders[i] != last then [folders[i]] + FolderChanges(folders[i], folders[i + 1..])
      else FolderChanges(last, folders[i + 1..])
  {
    assert folders[i..][0] == folders[i] && folders[i..][1..] == folders[i + 1..];
  }

  /** Why `download_files` stops: a path without a parent panics, a folder that cannot be created is an error. */
  datatype DownloadError = NoParent | CreateDirFailed(folder: Paths.Path)

  function Folders(files: seq<(Paths.Path, String)>): (r: seq<Paths.Path>)
    ensures |r| == |files| && forall k :: 0 <= k < |files| ==> r[k] == FolderOf(files[k].0)
  {
    seq(|files|, k requires 0 <= k < |files| => FolderOf(files[k].0))
  }

  /** Every file has a folder and every folder change can be created: the run goes through. */
  predicate Downloadable(files: seq<(Paths.Path, String)>, canCreate: Paths.Path -> bool) {
    var changes := FolderChanges([], Folders(files));
    && (forall k :: 0 <= k < |files| ==> files[k].0 != [])
    && (forall k :: 0 <= k < |changes| ==> canCreate(changes[k]))
  }

  lemma NoParentStops(files: seq<(Paths.Path, String)>, canCreate: Paths.Path -> bool, i: nat)
    requires i < |files| && files[i].0 == []
    ensures !Downloadable(files, canCreate)
  {
  }

  lemma FailedFolderStops(files: seq<(Paths.Path, String)>, canCreate: Paths.Path -> bool,
                          created: seq<Paths.Path>, folder: Paths.Path, rest: seq<Paths.Path>)
    requires !canCreate(folder)
    requires created + [folder] + rest == FolderChanges([], Folders(files))
    ensures !Downloadable(files, canCreate)
  {
    assert FolderChanges([], Folders(files))[|created|] == folder;
  }

  /**
   * What the loop of `download_files` knows before file `i`: every earlier file had a folder,
   * `created` holds the folder changes so far (each one created), and `last` is the folder
   * the remaining changes start after.
   */
  ghost predicate Progress(files: seq<(Paths.Path, String)>, canCreate: Paths.Path -> bool,
                           i: nat, created: seq<Paths.Path>, last: Paths.Path)
  {
    && i <= |files|
    && (forall k :: 0 <= k < i ==> files[k].0 != [])
    && created + FolderChanges(last, Folders(files)[i..]) == FolderChanges([], Folders(files))
    && (forall k :: 0 <= k < |created| ==> canCreate(created[k]))
  }

  lemma ProgressInit(files: seq<(Paths.Path, String)>, canCreate: Paths.Path -> bool)
    ensures Progress(files, canCreate, 0, [], [])
  {
    assert Folders(files)[0..] == Folders(files);
  }

  /** One file's step: its folder is created when it differs from the last one, and becomes the last one. */
  lemma ProgressStep(files: seq<(Paths.Path, String)>, canCreate: Paths.Path -> bool,
                     i: nat, created: seq<Paths.Path>, last: Paths.Path)
    requires Progress(files, canCreate, i, created, last) && i < |files| && files[i].0 != []
    requires FolderOf(files[i].0) != last ==> canCreate(FolderOf(files[i].0))
    ensures var folder := FolderOf(files[i].0);
      Progress(files, canCreate, i + 1, if folder != last then created + [folder] else created, folder)
  {
    var folders := Folders(files);
    var folder := folders[i];
    FolderChangesStep(last, folders, i);
    if folder != last {
      var rest := FolderChanges(folder, folders[i + 1..]);
      assert created + ([folder] + rest) == created + [folder] + rest;
    }
  }

  /** A folder change that cannot be created stops the run. */
  lemma ProgressFails(files: seq<(Paths.Path, String)>, canCreate: Paths.Path -> bool,
                      i: nat, created: seq<Paths.Path>, last: Paths.Path)
    requires Progress(files, canCreate, i, created, last) && i < |files|
    requires FolderOf(files[i].0) != last && !canCreate(FolderOf(files[i].0))
    ensures !Downloadable(files, canCreate)
  {
    var folders := Folders(files);
    FolderChangesStep(last, folders, i);
    var rest := FolderChanges(folders[i], folders[i + 1..]);
    assert created + ([folders[i]] + rest) == created + [folders[i]] + rest;
    FailedFolderStops(files, canCreate, created, folders[i], rest);
  }

  /** After the last file every folder change has been created. */
  lemma ProgressDone(files: seq<(Paths.Path, String)>, canCreate: Paths.Path -> bool,
                     created: seq<Paths.Path>, last: Paths.Path)
    requires Progress(files, canCreate, |files|, created, last)
    ensures created == FolderChanges([], Folders(files)) && Downloadable(files, canCreate)
  {
    assert Folders(files)[|files|..] == [];
  }

  /**
   * `download_files`: for each (path, url) in turn, create the file's folder when it differs
   * from the previous file's folder, then spawn one download task. `created` lists the
   * `create_dir_all` calls and `spawned` the tasks; `canCreate` says which calls succeed.
   * A failed download is logged inside its task and never reaches the result.
   */
  method DownloadFiles(files: seq<(Paths.Path, String)>, canCreate: Paths.Path -> bool)
    returns (created: seq<Paths.Path>, spawned: seq<(Paths.Path, String)>, r: Result<(), DownloadError>)
    ensures r.Ok? <==> Downloadable(files, canCreate)
    ensures r.Ok? ==> created == FolderChanges([], Folders(files)) && spawned == files
    ensures r == Err(NoParent) ==> exists k :: 0 <= k < |files| && files[k].0 == []
  {
    var last: Paths.Path := [];
    created, spawned := [], [];
    ProgressInit(files, canCreate);
    for i := 0 to |files|
      invariant Progress(files, canCreate, i, created, last)
      invariant spawned == files[..i]
    {
      var path := files[i].0;
      var parent := Paths.Parent(path);
      if parent.None? {
        NoParentStops(files, canCreate, i);
        return created, spawned, Err(NoParent);
      }
      var folder := parent.value;
      if last != folder {
        if !canCreate(folder) {
          ProgressFails(files, canCreate, i, created, last);
          return created, spawned, Err(CreateDirFailed(folder));
        }
      }
      ProgressStep(files, canCreate, i, created, last);
      if last != folder {
        created := created + [folder];
      }
      last := folder;
      Seqs.PrefixStep(files, i);
      spawned := spawned + [files[i]];
    }
    assert files[..|files|] == files;
    ProgressDone(files, canCreate, created, last);
    return created, spawned, Ok(());
  }
}
