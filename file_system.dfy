/** The file-system service (FileSystemService) and the disk it works on.

    The disk is a map from path to contents and modification time, the set of
    directories, and a clock that stamps every write. The GD image functions
    are the parameter `gd`; `scandir` is the parameter `entries`. The service's
    info lines are not logged here; only `saveMetadata` writes an error. */
module FileSystem {
  import opened Wrappers
  import opened PhpStrings
  import opened Base64
  import opened ImageFormats
  import opened Json
  import opened Logging

  datatype FileEntry = FileEntry(data: seq<byte>, mtime: int)

  /** The files, the directories and the clock; `readOnly` holds the paths a
      write to fails. */
  class Disk {
    var files: map<string, FileEntry>
    var dirs: set<string>
    var now: int
    const readOnly: set<string>

    /** No file is stamped later than the clock. */
    ghost predicate Valid()
      reads this
    {
      forall p :: p in files ==> files[p].mtime <= now
    }

    constructor(files0: map<string, FileEntry>, dirs0: set<string>, now0: int, readOnly0: set<string>)
      requires forall p :: p in files0 ==> files0[p].mtime <= now0
      ensures Valid()
      ensures files == files0 && dirs == dirs0 && now == now0 && readOnly == readOnly0
    {
      files, dirs, now, readOnly := files0, dirs0, now0, readOnly0;
    }

    /** `file_exists`. */
    predicate Exists(path: string)
      reads this
    {
      path in files || path in dirs
    }

    /** `file_put_contents`: the file gets the data and the current time, unless
        the path cannot be written. */
    method PutContents(path: string, data: seq<byte>) returns (ok: bool)
      requires Valid()
      modifies this
      ensures Valid()
      ensures ok <==> path !in readOnly
      ensures files == if ok then old(files)[path := FileEntry(data, old(now))] else old(files)
      ensures dirs == old(dirs) && now == old(now)
    {
      ok := path !in readOnly;
      if ok {
        files := files[path := FileEntry(data, now)];
      }
    }

    /** `mkdir($path, 0755, true)`. */
    method MakeDirectory(path: string)
      requires Valid()
      modifies this
      ensures Valid()
      ensures dirs == old(dirs) + {path}
      ensures files == old(files) && now == old(now)
    {
      dirs := dirs + {path};
    }

    /** `sleep`: the clock moves on. */
    method Sleep(seconds: nat)
      requires Valid()
      modifies this
      ensures Valid()
      ensures now == old(now) + seconds
      ensures files == old(files) && dirs == old(dirs)
    {
      now := now + seconds;
    }
  }

  // ---------------------------------------------------------------------------
  // readImageToBase64's size budget and the GD calls it makes

  /** 5 MiB, inclusive. */
  const MaxSize := 5 * 1024 * 1024

  /** A decoded image as far as the service looks at it: its dimensions. */
  datatype Picture = Picture(width: int, height: int, pixels: seq<int>)

  /** The save settings: a quality for JPEG and WebP, a compression level for
      PNG, the library defaults for GIF. */
  datatype Setting = Quality(q: int) | CompressionLevel(level: int) | Defaults

  /** The GD calls: whether the extension is loaded, `imagecreatefrom*` on the
      bytes of a file, `imagecreatetruecolor` plus `imagecopyresampled` (with
      the alpha channel kept for PNG), and `image*` saving to bytes. */
  datatype Gd = Gd(
    loaded: bool,
    load: (Format, seq<byte>) -> Option<Picture>,
    resample: (Picture, int, int, bool) -> Picture,
    save: (Picture, Format, Setting) -> seq<byte>)

  /** Why `readImageToBase64` fails. GdMissing, Unsupported and LoadFailed are
      the `\Exception`s it throws; EmptyCanvas is the `ValueError` of
      `imagecreatetruecolor` for a scaled width or height of 0, and ReloadFailed
      the `TypeError` of saving the `false` a failed reload returns. */
  datatype FsError =
    | GdMissing
    | Unsupported(ext: string)
    | LoadFailed(path: string)
    | EmptyCanvas(width: bool)
    | ReloadFailed(format: Format)

  predicate IsException(e: FsError) {
    e.GdMissing? || e.Unsupported? || e.LoadFailed?
  }

  function FsMessage(e: FsError): string {
    match e
    case GdMissing => "The GD extension is required for image resizing"
    case Unsupported(ext) => "Unsupported image format: " + ext
    case LoadFailed(path) => "Failed to load image: " + path
    case EmptyCanvas(width) =>
      if width then "imagecreatetruecolor(): Argument #1 ($width) must be greater than 0"
      else "imagecreatetruecolor(): Argument #2 ($height) must be greater than 0"
    case ReloadFailed(format) =>
      (if format == Webp then "imagewebp" else "imagejpeg") + "(): Argument #1 ($image) must be of type GdImage, bool given"
  }

  /** The first save: quality 85 for JPEG and WebP, level 6 for PNG, defaults
      for GIF. */
  function FirstSetting(f: Format): Setting {
    match f
    case Jpeg => Quality(85)
    case Webp => Quality(85)
    case Png => CompressionLevel(6)
    case Gif => Defaults
  }

  /** `(int)($d * 0.7)` for a non-negative dimension, as 7/10 in exact
      arithmetic; the double product is one lower when `d` is a multiple of 10
      whose product rounds below the integer (90 gives 62, not 63), and both
      are zero exactly for `d <= 1`. */
  function Scaled(d: int): int {
    if d <= 0 then 0 else d * 7 / 10
  }

  /** One resize to 70% and one save; a second save at quality 50 of the
      reloaded result only for JPEG and WebP, and only when the first is still
      over budget. */
  function Shrink(f: Format, source: Picture, gd: Gd): (r: Result<seq<byte>, FsError>)
  {
    var w, h := Scaled(source.width), Scaled(source.height);
    if w < 1 then Err(EmptyCanvas(true))
    else if h < 1 then Err(EmptyCanvas(false))
    else
      var canvas := gd.resample(source, w, h, f == Png);
      var first := gd.save(canvas, f, FirstSetting(f));
      if |first| > MaxSize && (f == Jpeg || f == Webp) then
        match gd.load(f, first)
        case None => Err(ReloadFailed(f))
        case Some(again) => Ok(gd.save(again, f, Quality(50)))
      else Ok(first)
  }

  /** A 70% canvas with a zero side is refused (GD throws), and that is the
      only way Shrink reports an empty canvas; a PNG or GIF is never saved
      twice, and the second save happens only for an oversized first one. */
  lemma ShrinkCases(f: Format, source: Picture, gd: Gd)
    ensures var r := Shrink(f, source, gd);
      var w, h := Scaled(source.width), Scaled(source.height);
      && (w < 1 <==> r == Err(EmptyCanvas(true)))
      && (w >= 1 && h < 1 <==> r == Err(EmptyCanvas(false)))
    ensures var r := Shrink(f, source, gd);
      var w, h := Scaled(source.width), Scaled(source.height);
      var first := gd.save(gd.resample(source, w, h, f == Png), f, FirstSetting(f));
      w >= 1 && h >= 1 ==>
        && ((f == Png || f == Gif || |first| <= MaxSize) ==> r == Ok(first))
        && (r.Err? <==> (f == Jpeg || f == Webp) && |first| > MaxSize && gd.load(f, first).None?)
        && (r.Err? ==> r.error == ReloadFailed(f))
        && ((f == Jpeg || f == Webp) && |first| > MaxSize && gd.load(f, first).Some? ==>
              r == Ok(gd.save(gd.load(f, first).value, f, Quality(50))))
  {
  }

  /** `filesize`: None for a missing file (PHP's `false`). */
  function FileSize(files: map<string, FileEntry>, path: string): Option<nat> {
    if path in files then Some(|files[path].data|) else None
  }

  /** `file_get_contents` as `base64_encode` sees it: a missing file reads as
      `false`, which encodes as the empty string. */
  function Contents(files: map<string, FileEntry>, path: string): seq<byte> {
    if path in files then files[path].data else []
  }

  /** `false <= $maxSize` holds, so a missing file takes the small-file path. */
  predicate WithinBudget(files: map<string, FileEntry>, path: string) {
    FileSize(files, path).None? || FileSize(files, path).value <= MaxSize
  }

  // ---------------------------------------------------------------------------
  // The service

  class FileSystemService {
    const logger: Logger
    const disk: Disk
    const inputFolder: string
    const outputFolder: string
    const supportedExtensions: seq<string>

    constructor(logger: Logger, disk: Disk, inputFolder: string, outputFolder: string, supportedExtensions: seq<string>)
      ensures this.logger == logger && this.disk == disk
      ensures this.inputFolder == inputFolder && this.outputFolder == outputFolder
      ensures this.supportedExtensions == supportedExtensions
    {
      this.logger := logger;
      this.disk := disk;
      this.inputFolder := inputFolder;
      this.outputFolder := outputFolder;
      this.supportedExtensions := supportedExtensions;
    }

    /** `$this->inputFolder . '/' . $imageName`. */
    function ImagePath(name: string): string {
      inputFolder + "/" + name
    }

    /** The metadata file of an image: `<out>/<filename>.json`, the same path for
        `isImageProcessed` and `saveMetadata`. */
    function MetadataPath(name: string): string {
      outputFolder + "/" + Filename(name) + ".json"
    }

    /** `initializeFolders`: each folder that does not exist is created. */
    method InitializeFolders()
      requires disk.Valid()
      modifies disk
      ensures disk.Valid()
      ensures disk.dirs == old(disk.dirs)
        + (if old(disk.Exists(inputFolder)) then {} else {inputFolder})
        + (if old(disk.Exists(outputFolder)) then {} else {outputFolder})
      ensures disk.files == old(disk.files) && disk.now == old(disk.now)
    {
      if !disk.Exists(inputFolder) {
        disk.MakeDirectory(inputFolder);
      }
      if !disk.Exists(outputFolder) {
        disk.MakeDirectory(outputFolder);
      }
    }

    /** An entry of the listing is an image: not "." or "..", and its
        lower-cased extension is one of the supported ones. */
    predicate IsImage(file: string) {
      file != "." && file != ".." && LowerExtension(file) in supportedExtensions
    }

    /** The images of a listing, in listing order. */
    function Images(entries: seq<string>): seq<string> {
      if |entries| == 0 then []
      else
        var rest := Images(entries[..|entries| - 1]);
        if IsImage(entries[|entries| - 1]) then rest + [entries[|entries| - 1]] else rest
    }

    /** `getImagesList` over the entries `scandir` returned. */
    method GetImagesList(entries: seq<string>) returns (images: seq<string>)
      ensures images == Images(entries)
    {
      images := [];
      var i := 0;
      while i < |entries|
        invariant 0 <= i <= |entries|
        invariant images == Images(entries[..i])
      {
        var file := entries[i];
        assert entries[..i + 1][..i] == entries[..i];
        if file != "." && file != ".." {
          var extension := LowerExtension(file);
          if extension in supportedExtensions {
            images := images + [file];
          }
        }
        i := i + 1;
      }
      assert entries[..i] == entries;
    }

    /** An entry is listed exactly when it is in the listing and is an image. */
    lemma {:induction false} ImagesMembership(entries: seq<string>, file: string)
      ensures file in Images(entries) <==> file in entries && IsImage(file)
    {
      if |entries| > 0 {
        var init := entries[..|entries| - 1];
        ImagesMembership(init, file);
        assert entries == init + [entries[|entries| - 1]];
      }
    }

    /** The images keep the order of the listing: they are a subsequence of
        it. */
    lemma {:induction false} ImagesAreSubsequence(entries: seq<string>)
      ensures IsSubsequence(Images(entries), entries)
    {
      if |entries| > 0 {
        var init := entries[..|entries| - 1];
        ImagesAreSubsequence(init);
        SubsequenceExtends(Images(init), init, entries[|entries| - 1]);
      }
    }

    /** Extensions are compared after lower-casing the file's, so a supported
        extension with an upper-case letter never matches anything. */
    lemma UpperCaseExtensionNeverMatches(file: string, k: int)
      requires 0 <= k < |supportedExtensions|
      requires exists i :: 0 <= i < |supportedExtensions[k]| && IsUpper(supportedExtensions[k][i])
      ensures LowerExtension(file) != supportedExtensions[k]
    {
    }

    // -------------------------------------------------------------------------
    // isImageProcessed

    /** `isImageProcessed`: the metadata file exists and the image was not
        modified after it. A missing image (`filemtime` false) is never newer. */
    predicate Processed(files: map<string, FileEntry>, name: string) {
      var json := MetadataPath(name);
      json in files
      && (ImagePath(name) in files ==> files[ImagePath(name)].mtime <= files[json].mtime)
    }

    /** Rewriting an image's metadata file at a time no earlier than the
        image's makes the image processed. */
    lemma SaveMakesProcessed(files: map<string, FileEntry>, name: string, data: seq<byte>, now: int)
      requires MetadataPath(name) != ImagePath(name)
      requires ImagePath(name) in files ==> files[ImagePath(name)].mtime <= now
      ensures Processed(files[MetadataPath(name) := FileEntry(data, now)], name)
    {
    }

    /** A processed image stays processed when any file other than the image is
        written at a time no earlier than every stamp on the disk. */
    lemma ProcessedSurvivesWrite(files: map<string, FileEntry>, name: string, path: string, data: seq<byte>, now: int)
      requires Processed(files, name)
      requires path != ImagePath(name)
      requires forall p :: p in files ==> files[p].mtime <= now
      ensures Processed(files[path := FileEntry(data, now)], name)
    {
      if path != MetadataPath(name) {
        assert files[path := FileEntry(data, now)][MetadataPath(name)] == files[MetadataPath(name)];
      }
    }

    // -------------------------------------------------------------------------
    // saveMetadata

    /** `saveMetadata`: writes the encoded metadata to the metadata path and
        reports whether the write succeeded, logging an error when it did
        not. */
    method SaveMetadata(name: string, metadata: Json, encode: Json -> seq<byte>) returns (ok: bool)
      requires disk.Valid()
      modifies disk, logger
      ensures disk.Valid()
      ensures ok <==> MetadataPath(name) !in disk.readOnly
      ensures disk.files == if ok then old(disk.files)[MetadataPath(name) := FileEntry(encode(metadata), old(disk.now))]
                            else old(disk.files)
      ensures disk.dirs == old(disk.dirs) && disk.now == old(disk.now)
      ensures logger.entries == old(logger.entries)
        + (if ok then [] else [LogEntry(Error, "Failed to save metadata for " + name)])
    {
      ok := disk.PutContents(MetadataPath(name), encode(metadata));
      if !ok {
        logger.Log([LogEntry(Error, "Failed to save metadata for " + name)]);
      }
    }

    // -------------------------------------------------------------------------
    // readImageToBase64

    /** `readImageToBase64`: a file within the budget (or missing) is sent as
        is; a larger one needs GD and a known format, is loaded, and is shrunk
        by Shrink. */
    function ReadImage(files: map<string, FileEntry>, name: string, gd: Gd): (r: Result<string, FsError>)
    {
      var path := ImagePath(name);
      if WithinBudget(files, path) then Ok(Encode(Contents(files, path)))
      else if !gd.loaded then Err(GdMissing)
      else
        match FormatOf(LowerExtension(name))
        case None => Err(Unsupported(LowerExtension(name)))
        case Some(f) =>
          match gd.load(f, Contents(files, path))
          case None => Err(LoadFailed(path))
          case Some(source) =>
            match Shrink(f, source, gd)
            case Ok(bytes) => Ok(Encode(bytes))
            case Err(e) => Err(e)
    }

    /** The failures of `readImageToBase64`: an oversized file needs GD, then
        an extension GD can handle, then a successful load; a file within the
        budget (or missing) never fails. */
    lemma ReadImageErrors(files: map<string, FileEntry>, name: string, gd: Gd)
      ensures var r := ReadImage(files, name, gd);
        var path, ext := ImagePath(name), LowerExtension(name);
        && (WithinBudget(files, path) ==> r == Ok(Encode(Contents(files, path))))
        && (r == Err(GdMissing) <==> !WithinBudget(files, path) && !gd.loaded)
        && (r == Err(Unsupported(ext)) <==> !WithinBudget(files, path) && gd.loaded && FormatOf(ext).None?)
        && (r == Err(LoadFailed(path)) <==>
              !WithinBudget(files, path) && gd.loaded && FormatOf(ext).Some?
              && gd.load(FormatOf(ext).value, Contents(files, path)).None?)
    {
      var path, ext := ImagePath(name), LowerExtension(name);
      if !WithinBudget(files, path) && gd.loaded && FormatOf(ext).Some? {
        var f := FormatOf(ext).value;
        if gd.load(f, Contents(files, path)).Some? {
          ShrinkCases(f, gd.load(f, Contents(files, path)).value, gd);
        }
      }
    }

    /** An oversized file that loads is sent as the Base64 of its shrunk
        form. */
    lemma LargeImageIsShrunk(files: map<string, FileEntry>, name: string, gd: Gd)
      requires !WithinBudget(files, ImagePath(name)) && gd.loaded
      requires FormatOf(LowerExtension(name)).Some?
      requires gd.load(FormatOf(LowerExtension(name)).value, Contents(files, ImagePath(name))).Some?
      ensures var f := FormatOf(LowerExtension(name)).value;
        var source := gd.load(f, Contents(files, ImagePath(name))).value;
        var r := ReadImage(files, name, gd);
        && (r.Ok? <==> Shrink(f, source, gd).Ok?)
        && (r.Ok? ==> Decode(r.value) == Some(Shrink(f, source, gd).value))
    {
      var f := FormatOf(LowerExtension(name)).value;
      var source := gd.load(f, Contents(files, ImagePath(name))).value;
      if Shrink(f, source, gd).Ok? {
        RoundTrip(Shrink(f, source, gd).value);
      }
    }

    /** A file within the budget reaches the request unchanged: the payload
        decodes to exactly its bytes. */
    lemma SmallImageIsSentUnchanged(files: map<string, FileEntry>, name: string, gd: Gd)
      requires ImagePath(name) in files && |files[ImagePath(name)].data| <= MaxSize
      ensures ReadImage(files, name, gd).Ok?
      ensures Decode(ReadImage(files, name, gd).value) == Some(files[ImagePath(name)].data)
    {
      RoundTrip(files[ImagePath(name)].data);
    }
  }

  // ---------------------------------------------------------------------------
  // Subsequences

  /** `xs` is `ys` with some elements left out, order kept. */
  predicate IsSubsequence<T(==)>(xs: seq<T>, ys: seq<T>)
    decreases |ys|
  {
    if |xs| == 0 then true
    else if |ys| == 0 then false
    else if xs[|xs| - 1] == ys[|ys| - 1] then IsSubsequence(xs[..|xs| - 1], ys[..|ys| - 1])
    else IsSubsequence(xs, ys[..|ys| - 1])
  }

  /** A subsequence stays one when the sequence grows, and may take the new
      element along. */
  lemma {:induction false} SubsequenceExtends<T>(xs: seq<T>, ys: seq<T>, y: T)
    requires IsSubsequence(xs, ys)
    ensures IsSubsequence(xs, ys + [y]) && IsSubsequence(xs + [y], ys + [y])
  {
    assert (ys + [y])[..|ys|] == ys;
    assert (xs + [y])[..|xs|] == xs;
    SubsequenceWeaken(xs, ys, y);
  }

  /** Dropping the last element of a subsequence keeps it a subsequence. */
  lemma {:induction false} SubsequenceDropLast<T>(xs: seq<T>, ys: seq<T>)
    requires |xs| > 0 && IsSubsequence(xs, ys)
    ensures IsSubsequence(xs[..|xs| - 1], ys)
    decreases |ys|, 0
  {
    if xs[|xs| - 1] == ys[|ys| - 1] {
      SubsequenceWeaken(xs[..|xs| - 1], ys[..|ys| - 1], ys[|ys| - 1]);
      assert ys[..|ys| - 1] + [ys[|ys| - 1]] == ys;
    } else {
      SubsequenceDropLast(xs, ys[..|ys| - 1]);
      SubsequenceWeaken(xs[..|xs| - 1], ys[..|ys| - 1], ys[|ys| - 1]);
      assert ys[..|ys| - 1] + [ys[|ys| - 1]] == ys;
    }
  }

  /** A subsequence of `ys` is a subsequence of `ys + [y]`. */
  lemma {:induction false} SubsequenceWeaken<T>(xs: seq<T>, ys: seq<T>, y: T)
    requires IsSubsequence(xs, ys)
    ensures IsSubsequence(xs, ys + [y])
    decreases |ys|, 1
  {
    assert (ys + [y])[..|ys|] == ys;
    if |xs| > 0 && xs[|xs| - 1] == y {
      SubsequenceDropLast(xs, ys);
    }
  }
}
