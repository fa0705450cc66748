/** The orchestrator (PhotoProcessor): `run` walks the image list, skips what
    is processed, reads, classifies, saves and sleeps; `processSingle` handles
    one local file or URL and turns every `\Exception` into a null result.

    `run` records each service call it makes in `calls`, so the order and the
    number of calls can be stated. Its specification is the function Steps,
    which folds Visit over the image list; an error nobody catches ends the
    fold. */
module Processor {
  import opened Wrappers
  import opened PhpStrings
  import opened Base64
  import opened Json
  import opened Logging
  import opened FileSystem
  import OpenRouter
  import AbstractOpenRouter

  datatype Call =
    | InitializeFolders
    | GetImagesList
    | IsImageProcessed(image: string, processed: bool)
    | ReadImageToBase64(image: string)
    | ClassifyImage(payload: string, image: string)
    | SaveMetadata(image: string, metadata: Json)
    | Sleep

  /** An error that leaves `run`: its message, and whether it is an
      `\Exception` (which the script reports) or an `\Error` (which ends PHP). */
  datatype Stop = Stop(message: string, isException: bool)

  /** What the file system service depends on and the model does not: the GD
      calls, and `json_encode` as the metadata file is written
      (pretty-printed, slashes unescaped). */
  datatype Oracles = Oracles(gd: Gd, encodeFile: Json -> seq<byte>)

  /** The `classifyImage` of the OpenRouterService the processor is given:
      base64 payload and image name to an answer and its log entries. */
  type Classifier = (string, string) -> OpenRouter.Classification

  /** `classify` is the `classifyImage` of an OpenRouterService built with
      this key, model, HTTP client and JSON codec. */
  ghost predicate Wired(classify: Classifier, apiKey: string, model: string,
                        post: OpenRouter.Client, decode: Decoder, encode: Json -> string) {
    forall payload, name :: classify(payload, name) == OpenRouter.ClassifyImage(apiKey, model, payload, name, post, decode, encode)
  }

  /** The state `run` changes: the files and the clock of the disk, the log and
      the calls made so far. */
  datatype World = World(files: map<string, FileEntry>, now: int, log: seq<LogEntry>, calls: seq<Call>)

  datatype Progress = Progress(world: World, stop: Option<Stop>)

  function Slept(w: World): World {
    w.(now := w.now + 1, calls := w.calls + [Sleep])
  }

  /** One pass of the loop of `run` over `image`. */
  function Visit(fs: FileSystemService, classify: Classifier, o: Oracles, w: World, image: string): Progress {
    var processed := fs.Processed(w.files, image);
    var w1 := w.(calls := w.calls + [IsImageProcessed(image, processed)]);
    if processed then Progress(w1, None)
    else
      var w2 := w1.(calls := w1.calls + [ReadImageToBase64(image)]);
      match fs.ReadImage(w.files, image, o.gd)
      case Err(e) => Progress(w2, Some(Stop(FsMessage(e), IsException(e))))
      case Ok(payload) =>
        var c := classify(payload, image);
        var w3 := w2.(log := w2.log + c.log, calls := w2.calls + [ClassifyImage(payload, image)]);
        if c.answer.Escapes? then Progress(w3, Some(Stop(c.answer.error, false)))
        else Progress(Concluded(fs, o, w3, image, c.answer), None)
  }

  /** The end of a visit whose classification did not throw: metadata that is
      a non-empty array is saved (a failed write is logged), anything else is
      logged as a failure, and the loop sleeps one second. */
  function Concluded(fs: FileSystemService, o: Oracles, w: World, image: string, answer: OpenRouter.Answer): World {
    if answer.Metadata? && IsTruthyArray(answer.m) then
      var path := fs.MetadataPath(image);
      var ok := path !in fs.disk.readOnly;
      Slept(w.(files := if ok then w.files[path := FileEntry(o.encodeFile(answer.m), w.now)] else w.files,
               log := w.log + (if ok then [] else [LogEntry(Error, "Failed to save metadata for " + image)]),
               calls := w.calls + [SaveMetadata(image, answer.m)]))
    else
      Slept(w.(log := w.log + [LogEntry(Error, "Failed to process " + image)]))
  }

  /** A processed image is only asked about. */
  lemma VisitSkips(fs: FileSystemService, classify: Classifier, o: Oracles, w: World, image: string)
    requires fs.Processed(w.files, image)
    ensures Visit(fs, classify, o, w, image) == Progress(w.(calls := w.calls + [IsImageProcessed(image, true)]), None)
  {
  }

  /** The world after a visit has read `payload` and classified it. */
  function Classified(w: World, image: string, payload: string, c: OpenRouter.Classification): World {
    w.(log := w.log + c.log,
       calls := w.calls + [IsImageProcessed(image, false)] + [ReadImageToBase64(image)] + [ClassifyImage(payload, image)])
  }

  /** A visit whose read fails stops with the read error. */
  lemma VisitReadFails(fs: FileSystemService, classify: Classifier, o: Oracles, w: World, image: string)
    requires !fs.Processed(w.files, image) && fs.ReadImage(w.files, image, o.gd).Err?
    ensures var e := fs.ReadImage(w.files, image, o.gd).error;
      Visit(fs, classify, o, w, image)
      == Progress(w.(calls := w.calls + [IsImageProcessed(image, false)] + [ReadImageToBase64(image)]),
                  Some(Stop(FsMessage(e), IsException(e))))
  {
  }

  /** A visit whose read succeeds goes on from the classification. */
  lemma VisitClassifies(fs: FileSystemService, classify: Classifier, o: Oracles, w: World, image: string)
    requires !fs.Processed(w.files, image) && fs.ReadImage(w.files, image, o.gd).Ok?
    ensures var payload := fs.ReadImage(w.files, image, o.gd).value;
      var c := classify(payload, image);
      var w3 := Classified(w, image, payload, c);
      Visit(fs, classify, o, w, image)
      == if c.answer.Escapes? then Progress(w3, Some(Stop(c.answer.error, false)))
         else Progress(Concluded(fs, o, w3, image, c.answer), None)
  {
  }

  /** What the end of a visit can do to the world. */
  lemma ConcludedEffect(fs: FileSystemService, o: Oracles, w: World, image: string, answer: OpenRouter.Answer)
    ensures var v := Concluded(fs, o, w, image, answer);
      var path := fs.MetadataPath(image);
      && v.now == w.now + 1
      && |w.log| <= |v.log| && v.log[..|w.log|] == w.log
      && |w.calls| < |v.calls| && v.calls[..|w.calls|] == w.calls
      && (v.files == w.files
          || (path in v.files && v.files[path].mtime == w.now && v.files == w.files[path := v.files[path]]))
  {
    if answer.Metadata? && IsTruthyArray(answer.m) {
      var ok := fs.MetadataPath(image) !in fs.disk.readOnly;
      var extra := if ok then [] else [LogEntry(Error, "Failed to save metadata for " + image)];
      assert (w.log + extra)[..|w.log|] == w.log;
    } else {
      assert (w.log + [LogEntry(Error, "Failed to process " + image)])[..|w.log|] == w.log;
    }
  }

  /** What one visit can do to the world: write the image's metadata file
      stamped with the current time, advance the clock by one second, and
      append to the log and the calls. */
  lemma VisitEffect(fs: FileSystemService, classify: Classifier, o: Oracles, w: World, image: string)
    ensures var v := Visit(fs, classify, o, w, image).world;
      var path := fs.MetadataPath(image);
      && (v.now == w.now || v.now == w.now + 1)
      && |w.log| <= |v.log| && v.log[..|w.log|] == w.log
      && |w.calls| < |v.calls| && v.calls[..|w.calls|] == w.calls
      && (v.files == w.files
          || (path in v.files && v.files[path].mtime == w.now && v.files == w.files[path := v.files[path]]))
  {
    if !fs.Processed(w.files, image) && fs.ReadImage(w.files, image, o.gd).Ok? {
      VisitClassifies(fs, classify, o, w, image);
      var payload := fs.ReadImage(w.files, image, o.gd).value;
      var c := classify(payload, image);
      var w3 := Classified(w, image, payload, c);
      assert w3.log[..|w.log|] == w.log;
      assert w3.calls[..|w.calls|] == w.calls;
      if !c.answer.Escapes? {
        ConcludedEffect(fs, o, w3, image, c.answer);
      }
    }
  }

  /** The loop of `run` over `images`, stopping at the first error that leaves
      it. */
  function Steps(fs: FileSystemService, classify: Classifier, o: Oracles, start: World, images: seq<string>): Progress
    decreases |images|
  {
    if |images| == 0 then Progress(start, None)
    else
      var before := Steps(fs, classify, o, start, images[..|images| - 1]);
      if before.stop.Some? then before
      else Visit(fs, classify, o, before.world, images[|images| - 1])
  }

  /** Once an error has left the loop, later images change nothing. */
  lemma {:induction false} StopIsFinal(fs: FileSystemService, classify: Classifier, o: Oracles,
                                       start: World, images: seq<string>, more: seq<string>)
    requires Steps(fs, classify, o, start, images).stop.Some?
    ensures Steps(fs, classify, o, start, images + more) == Steps(fs, classify, o, start, images)
    decreases |more|
  {
    if |more| > 0 {
      var init := more[..|more| - 1];
      StopIsFinal(fs, classify, o, start, images, init);
      assert (images + more)[..|images + more| - 1] == images + init;
    } else {
      assert images + more == images;
    }
  }

  // ---------------------------------------------------------------------------
  // run

  class PhotoProcessor {
    const fs: FileSystemService
    const classify: Classifier
    const logger: Logger
    var calls: seq<Call>

    constructor(fs: FileSystemService, classify: Classifier, logger: Logger)
      ensures this.fs == fs && this.classify == classify && this.logger == logger
      ensures calls == []
    {
      this.fs := fs;
      this.classify := classify;
      this.logger := logger;
      calls := [];
    }

    function Snapshot(): World
      reads this, fs.disk, logger
    {
      World(fs.disk.files, fs.disk.now, logger.entries, calls)
    }

    /** One pass of the loop body of `run`. */
    method VisitImage(image: string, o: Oracles) returns (stop: Option<Stop>)
      requires fs.disk.Valid() && fs.logger == logger
      modifies this, fs.disk, logger
      ensures fs.disk.Valid() && fs.disk.dirs == old(fs.disk.dirs)
      ensures Progress(Snapshot(), stop) == Visit(fs, classify, o, old(Snapshot()), image)
    {
      ghost var w := Snapshot();
      var processed := fs.Processed(fs.disk.files, image);
      calls := calls + [IsImageProcessed(image, processed)];
      if processed {
        VisitSkips(fs, classify, o, w, image);
        return None;
      }
      calls := calls + [ReadImageToBase64(image)];
      var read := fs.ReadImage(fs.disk.files, image, o.gd);
      if read.Err? {
        VisitReadFails(fs, classify, o, w, image);
        return Some(Stop(FsMessage(read.error), IsException(read.error)));
      }
      VisitClassifies(fs, classify, o, w, image);
      var c := classify(read.value, image);
      logger.Log(c.log);
      calls := calls + [ClassifyImage(read.value, image)];
      assert Snapshot() == Classified(w, image, read.value, c);
      if c.answer.Escapes? {
        return Some(Stop(c.answer.error, false));
      }
      Conclude(image, c.answer, o);
      stop := None;
    }

    /** The end of one pass: save or log, then sleep. */
    method Conclude(image: string, answer: OpenRouter.Answer, o: Oracles)
      requires fs.disk.Valid() && fs.logger == logger
      modifies this, fs.disk, logger
      ensures fs.disk.Valid() && fs.disk.dirs == old(fs.disk.dirs)
      ensures Snapshot() == Concluded(fs, o, old(Snapshot()), image, answer)
    {
      if answer.Metadata? && IsTruthyArray(answer.m) {
        var _ := fs.SaveMetadata(image, answer.m, o.encodeFile);
        calls := calls + [SaveMetadata(image, answer.m)];
      } else {
        logger.Log([LogEntry(Error, "Failed to process " + image)]);
      }
      fs.disk.Sleep(1);
      calls := calls + [Sleep];
    }

    /** `run`: the folders are created, the listing is filtered once, and every
        image is visited in order until an error leaves the loop. */
    method Run(entries: seq<string>, o: Oracles) returns (stop: Option<Stop>)
      requires fs.disk.Valid() && fs.logger == logger
      modifies this, fs.disk, logger
      ensures fs.disk.Valid()
      ensures fs.disk.dirs == old(fs.disk.dirs)
        + (if old(fs.disk.Exists(fs.inputFolder)) then {} else {fs.inputFolder})
        + (if old(fs.disk.Exists(fs.outputFolder)) then {} else {fs.outputFolder})
      ensures Progress(Snapshot(), stop)
        == Steps(fs, classify, o,
                 World(old(fs.disk.files), old(fs.disk.now), old(logger.entries),
                       old(calls) + [InitializeFolders, GetImagesList]),
                 fs.Images(entries))
    {
      fs.InitializeFolders();
      calls := calls + [InitializeFolders];
      var images := fs.GetImagesList(entries);
      calls := calls + [GetImagesList];
      assert calls == old(calls) + [InitializeFolders, GetImagesList];
      stop := VisitAll(images, o);
    }

    /** The loop of `run`: every image in order, until an error leaves it. */
    method VisitAll(images: seq<string>, o: Oracles) returns (stop: Option<Stop>)
      requires fs.disk.Valid() && fs.logger == logger
      modifies this, fs.disk, logger
      ensures fs.disk.Valid() && fs.disk.dirs == old(fs.disk.dirs)
      ensures Progress(Snapshot(), stop) == Steps(fs, classify, o, old(Snapshot()), images)
    {
      ghost var start := Snapshot();
      var i := 0;
      while i < |images|
        invariant 0 <= i <= |images|
        invariant fs.disk.Valid() && fs.logger == logger && fs.disk.dirs == old(fs.disk.dirs)
        invariant Steps(fs, classify, o, start, images[..i]) == Progress(Snapshot(), None)
      {
        ghost var before := Snapshot();
        stop := VisitImage(images[i], o);
        StepsAdvance(fs, classify, o, start, images, i, before, Progress(Snapshot(), stop));
        if stop.Some? {
          return;
        }
        i := i + 1;
      }
      assert images[..i] == images;
      stop := None;
    }
  }

  /** The loop after one more image: the prefix grows by it, and a stop is
      where the whole loop ends. */
  lemma StepsAdvance(fs: FileSystemService, classify: Classifier, o: Oracles,
                     start: World, images: seq<string>, i: nat, before: World, after: Progress)
    requires i < |images|
    requires Steps(fs, classify, o, start, images[..i]) == Progress(before, None)
    requires after == Visit(fs, classify, o, before, images[i])
    ensures Steps(fs, classify, o, start, images[..i + 1]) == after
    ensures after.stop.Some? ==> Steps(fs, classify, o, start, images) == after
  {
    StepsNext(fs, classify, o, start, images, i);
    if after.stop.Some? {
      StopEndsSteps(fs, classify, o, start, images, i + 1);
    }
  }

  /** A prefix that stopped the loop is where the whole loop ends. */
  lemma StopEndsSteps(fs: FileSystemService, classify: Classifier, o: Oracles,
                      start: World, images: seq<string>, i: nat)
    requires i <= |images|
    requires Steps(fs, classify, o, start, images[..i]).stop.Some?
    ensures Steps(fs, classify, o, start, images) == Steps(fs, classify, o, start, images[..i])
  {
    StopIsFinal(fs, classify, o, start, images[..i], images[i..]);
    SplitAt(images, i);
  }

  lemma SplitAt<T>(s: seq<T>, i: nat)
    requires i <= |s|
    ensures s[..i] + s[i..] == s
  {
  }

  /** One more image of the loop, after a prefix that did not stop it. */
  lemma StepsNext(fs: FileSystemService, classify: Classifier, o: Oracles,
                  start: World, images: seq<string>, i: nat)
    requires i < |images|
    requires Steps(fs, classify, o, start, images[..i]).stop.None?
    ensures Steps(fs, classify, o, start, images[..i + 1])
         == Visit(fs, classify, o, Steps(fs, classify, o, start, images[..i]).world, images[i])
  {
    assert images[..i + 1][..i] == images[..i];
  }

  // ---------------------------------------------------------------------------
  // What a run promises

  /** The calls a visit of an already processed image makes. */
  function SkipCalls(images: seq<string>): seq<Call> {
    if |images| == 0 then [] else SkipCalls(images[..|images| - 1]) + [IsImageProcessed(images[|images| - 1], true)]
  }

  /** A rerun over images that are all processed only asks: no read, no
      classification, no write, no log entry, no sleep. */
  lemma {:induction false} RerunChangesNothing(fs: FileSystemService, classify: Classifier, o: Oracles,
                                               start: World, images: seq<string>)
    requires forall k :: 0 <= k < |images| ==> fs.Processed(start.files, images[k])
    ensures Steps(fs, classify, o, start, images)
         == Progress(start.(calls := start.calls + SkipCalls(images)), None)
    decreases |images|
  {
    if |images| > 0 {
      var init := images[..|images| - 1];
      var last := images[|images| - 1];
      assert forall k :: 0 <= k < |init| ==> init[k] == images[k];
      RerunChangesNothing(fs, classify, o, start, init);
      var before := start.(calls := start.calls + SkipCalls(init));
      assert fs.Processed(before.files, last);
      VisitSkips(fs, classify, o, before, last);
      assert Steps(fs, classify, o, start, images) == Visit(fs, classify, o, before, last);
      assert start.calls + SkipCalls(init) + [IsImageProcessed(last, true)]
          == start.calls + SkipCalls(images);
    } else {
      assert start.calls + SkipCalls(images) == start.calls;
    }
  }

  /** With the OpenRouterService wired in, every metadata it returns passes
      `if ($result)`: the visit saves it and never logs it as a failure. */
  lemma WiredMetadataIsSaved(fs: FileSystemService, classify: Classifier, o: Oracles, w: World,
                             image: string, payload: string, apiKey: string, model: string,
                             post: OpenRouter.Client, decode: Decoder, encode: Json -> string)
    requires Wired(classify, apiKey, model, post, decode, encode)
    requires classify(payload, image).answer.Metadata?
    ensures var m := classify(payload, image).answer.m;
      var v := Concluded(fs, o, w, image, classify(payload, image).answer);
      && v.calls == w.calls + [SaveMetadata(image, m), Sleep]
      && v.log == w.log + (if fs.MetadataPath(image) in fs.disk.readOnly
                           then [LogEntry(Error, "Failed to save metadata for " + image)] else [])
  {
    var c := classify(payload, image);
    assert c == OpenRouter.ClassifyImage(apiKey, model, payload, image, post, decode, encode);
    OpenRouter.MetadataIsTruthy(apiKey, model, payload, image, post, decode, encode);
    assert IsTruthyArray(c.answer.m);
  }

  /** The clock never runs behind a stamp. */
  ghost predicate Stamped(w: World) {
    forall p :: p in w.files ==> w.files[p].mtime <= w.now
  }

  /** A visit only writes the image's metadata file, keeps the stamps behind
      the clock, lets the log and the calls only grow, and keeps every image
      of `others` processed as long as no metadata file is one of their image
      files. */
  lemma VisitPreserves(fs: FileSystemService, classify: Classifier, o: Oracles,
                       w: World, image: string, others: seq<string>)
    requires Stamped(w)
    requires forall k :: 0 <= k < |others| ==> fs.MetadataPath(image) != fs.ImagePath(others[k])
    ensures var v := Visit(fs, classify, o, w, image).world;
      && Stamped(v) && w.now <= v.now
      && |w.log| <= |v.log| && v.log[..|w.log|] == w.log
      && (forall p :: p in v.files && p != fs.MetadataPath(image) ==> p in w.files && v.files[p] == w.files[p])
      && (forall k :: 0 <= k < |others| && fs.Processed(w.files, others[k]) ==> fs.Processed(v.files, others[k]))
  {
    var v := Visit(fs, classify, o, w, image).world;
    var path := fs.MetadataPath(image);
    VisitEffect(fs, classify, o, w, image);
    if v.files != w.files {
      forall p | p in v.files ensures v.files[p].mtime <= v.now {
        if p != path {
          assert v.files[p] == w.files[p];
        }
      }
      forall k | 0 <= k < |others| && fs.Processed(w.files, others[k])
        ensures fs.Processed(v.files, others[k])
      {
        fs.ProcessedSurvivesWrite(w.files, others[k], path, v.files[path].data, w.now);
        assert v.files == w.files[path := FileEntry(v.files[path].data, w.now)];
      }
    }
  }

  /** After a visit that did not stop the loop, the image is processed, or the
      log says why not. */
  lemma VisitAccountsForImage(fs: FileSystemService, classify: Classifier, o: Oracles,
                              w: World, image: string)
    requires Stamped(w)
    requires fs.MetadataPath(image) != fs.ImagePath(image)
    requires Visit(fs, classify, o, w, image).stop.None?
    ensures var v := Visit(fs, classify, o, w, image).world;
      || fs.Processed(v.files, image)
      || LogEntry(Error, "Failed to process " + image) in v.log
      || LogEntry(Error, "Failed to save metadata for " + image) in v.log
  {
    if !fs.Processed(w.files, image) {
      VisitClassifies(fs, classify, o, w, image);
      var payload := fs.ReadImage(w.files, image, o.gd).value;
      var c := classify(payload, image);
      ConcludedAccounts(fs, o, Classified(w, image, payload, c), image, c.answer);
    }
  }

  /** The end of a visit leaves the image processed, or logs why not. */
  lemma ConcludedAccounts(fs: FileSystemService, o: Oracles, w: World, image: string, answer: OpenRouter.Answer)
    requires Stamped(w)
    requires fs.MetadataPath(image) != fs.ImagePath(image)
    ensures var v := Concluded(fs, o, w, image, answer);
      || fs.Processed(v.files, image)
      || LogEntry(Error, "Failed to process " + image) in v.log
      || LogEntry(Error, "Failed to save metadata for " + image) in v.log
  {
    var v := Concluded(fs, o, w, image, answer);
    var path := fs.MetadataPath(image);
    if answer.Metadata? && IsTruthyArray(answer.m) {
      if path !in fs.disk.readOnly {
        fs.SaveMakesProcessed(w.files, image, o.encodeFile(answer.m), w.now);
      } else {
        assert v.log[|v.log| - 1] == LogEntry(Error, "Failed to save metadata for " + image);
      }
    } else {
      assert v.log[|v.log| - 1] == LogEntry(Error, "Failed to process " + image);
    }
  }

  /** No metadata file of the list is the image file of an image in it. */
  predicate SeparateFolders(fs: FileSystemService, images: seq<string>) {
    forall j, k :: 0 <= j < |images| && 0 <= k < |images| ==> fs.MetadataPath(images[j]) != fs.ImagePath(images[k])
  }

  /** A run that completes leaves every image of the list processed, or
      reported in the log as failed. */
  lemma {:induction false} CompletedRunAccountsForEveryImage(fs: FileSystemService, classify: Classifier,
                                                             o: Oracles, start: World, images: seq<string>)
    requires Stamped(start)
    requires SeparateFolders(fs, images)
    requires Steps(fs, classify, o, start, images).stop.None?
    ensures var end := Steps(fs, classify, o, start, images).world;
      Stamped(end) && forall k :: 0 <= k < |images| ==> Accounted(fs, end, images[k])
    decreases |images|
  {
    if |images| > 0 {
      var n := |images| - 1;
      var init, last := images[..n], images[n];
      assert SeparateFolders(fs, init);
      var before := Steps(fs, classify, o, start, init);
      assert before.stop.None?;
      CompletedRunAccountsForEveryImage(fs, classify, o, start, init);
      StepsNext(fs, classify, o, start, images, n);
      assert images[..n + 1] == images;
      var end := Visit(fs, classify, o, before.world, last).world;
      VisitPreserves(fs, classify, o, before.world, last, init);
      VisitAccountsForImage(fs, classify, o, before.world, last);
      AllAccountedStay(fs, before.world, end, init);
      AccountedSnoc(fs, end, init, last);
      SplitLast(images);
    }
  }

  lemma SplitLast<T>(s: seq<T>)
    requires |s| > 0
    ensures s[..|s| - 1] + [s[|s| - 1]] == s
  {
  }

  /** Accounting for a list and for one more image accounts for both. */
  lemma AccountedSnoc(fs: FileSystemService, w: World, xs: seq<string>, x: string)
    requires forall k :: 0 <= k < |xs| ==> Accounted(fs, w, xs[k])
    requires Accounted(fs, w, x)
    ensures forall k :: 0 <= k < |xs + [x]| ==> Accounted(fs, w, (xs + [x])[k])
  {
    forall k | 0 <= k < |xs + [x]| ensures Accounted(fs, w, (xs + [x])[k]) {
      if k < |xs| {
        assert (xs + [x])[k] == xs[k];
      }
    }
  }

  /** What is accounted for stays so when processed images stay processed and
      the log only grows. */
  lemma AllAccountedStay(fs: FileSystemService, w: World, v: World, xs: seq<string>)
    requires forall k :: 0 <= k < |xs| ==> Accounted(fs, w, xs[k])
    requires forall k :: 0 <= k < |xs| && fs.Processed(w.files, xs[k]) ==> fs.Processed(v.files, xs[k])
    requires |w.log| <= |v.log| && v.log[..|w.log|] == w.log
    ensures forall k :: 0 <= k < |xs| ==> Accounted(fs, v, xs[k])
  {
    forall k | 0 <= k < |xs| ensures Accounted(fs, v, xs[k]) {
      AccountedStays(fs, w, v, xs[k]);
    }
  }

  /** The image is processed, or the log says why not. */
  ghost predicate Accounted(fs: FileSystemService, w: World, image: string) {
    || fs.Processed(w.files, image)
    || LogEntry(Error, "Failed to process " + image) in w.log
    || LogEntry(Error, "Failed to save metadata for " + image) in w.log
  }

  lemma AccountedStays(fs: FileSystemService, w: World, v: World, image: string)
    requires Accounted(fs, w, image)
    requires fs.Processed(w.files, image) ==> fs.Processed(v.files, image)
    requires |w.log| <= |v.log| && v.log[..|w.log|] == w.log
    ensures Accounted(fs, v, image)
  {
    LogPrefixKeeps(w.log, v.log, LogEntry(Error, "Failed to process " + image));
    LogPrefixKeeps(w.log, v.log, LogEntry(Error, "Failed to save metadata for " + image));
  }

  lemma LogPrefixKeeps(short: seq<LogEntry>, long: seq<LogEntry>, e: LogEntry)
    requires |short| <= |long| && long[..|short|] == short
    ensures e in short ==> e in long
  {
    if e in short {
      var i :| 0 <= i < |short| && short[i] == e;
      assert long[i] == e;
    }
  }

  /** One image processed, one not: the first is only asked about; the
      second is read, classified with what was read under its own name, and
      its failure is logged. */
  lemma OneProcessedOneNot(fs: FileSystemService, classify: Classifier, o: Oracles,
                           start: World, a: string, b: string, payload: string)
    requires fs.Processed(start.files, a) && !fs.Processed(start.files, b)
    requires fs.ReadImage(start.files, b, o.gd) == Ok(payload)
    requires classify(payload, b).answer.Null?
    ensures var end := Steps(fs, classify, o, start, [a, b]);
      && end.stop.None?
      && end.world.calls == start.calls
           + [IsImageProcessed(a, true), IsImageProcessed(b, false), ReadImageToBase64(b), ClassifyImage(payload, b), Sleep]
      && end.world.files == start.files
      && |end.world.log| > 0 && end.world.log[|end.world.log| - 1] == LogEntry(Error, "Failed to process " + b)
  {
    StepsOne(fs, classify, o, start, a);
    VisitSkips(fs, classify, o, start, a);
    var w1 := start.(calls := start.calls + [IsImageProcessed(a, true)]);
    StepsTwo(fs, classify, o, start, a, b);
    VisitClassifies(fs, classify, o, w1, b);
    var c := classify(payload, b);
    var w3 := Classified(w1, b, payload, c);
    var end := Concluded(fs, o, w3, b, c.answer);
    assert end == Slept(w3.(log := w3.log + [LogEntry(Error, "Failed to process " + b)]));
    assert end.calls == start.calls
           + [IsImageProcessed(a, true), IsImageProcessed(b, false), ReadImageToBase64(b), ClassifyImage(payload, b), Sleep];
  }

  /** A loop over one image is one visit. */
  lemma StepsOne(fs: FileSystemService, classify: Classifier, o: Oracles, start: World, x: string)
    ensures Steps(fs, classify, o, start, [x]) == Visit(fs, classify, o, start, x)
  {
    assert [x][..0] == [];
  }

  /** A loop over two images visits the second after the first, unless the
      first stopped it. */
  lemma StepsTwo(fs: FileSystemService, classify: Classifier, o: Oracles, start: World, x: string, y: string)
    requires Steps(fs, classify, o, start, [x]).stop.None?
    ensures Steps(fs, classify, o, start, [x, y]) == Visit(fs, classify, o, Steps(fs, classify, o, start, [x]).world, y)
  {
    assert [x, y][..1] == [x];
  }

  /** Two images that differ only in their extension (`a.jpg`, `a.png`) share
      one metadata file, so once the first is saved the second counts as
      processed and is never read or classified. */
  lemma SharedMetadataFile(fs: FileSystemService, classify: Classifier, o: Oracles,
                           start: World, stem: string, ext1: string, ext2: string, payload: string)
    requires '/' !in stem && '/' !in ext1 && '.' !in ext1 && '/' !in ext2 && '.' !in ext2
    requires Stamped(start)
    requires fs.MetadataPath(stem + "." + ext1) != fs.ImagePath(stem + "." + ext2)
    requires !fs.Processed(start.files, stem + "." + ext1)
    requires fs.MetadataPath(stem + "." + ext1) !in fs.disk.readOnly
    requires fs.ReadImage(start.files, stem + "." + ext1, o.gd) == Ok(payload)
    requires var c := classify(payload, stem + "." + ext1);
      c.answer.Metadata? && IsTruthyArray(c.answer.m)
    ensures fs.MetadataPath(stem + "." + ext1) == fs.MetadataPath(stem + "." + ext2)
    ensures var end := Steps(fs, classify, o, start, [stem + "." + ext1, stem + "." + ext2]);
      && end.stop.None? && |end.world.calls| > 0
      && end.world.calls[|end.world.calls| - 1] == IsImageProcessed(stem + "." + ext2, true)
  {
    var first, second := stem + "." + ext1, stem + "." + ext2;
    FilenameDropsExtension(stem, ext1);
    FilenameDropsExtension(stem, ext2);
    var path := fs.MetadataPath(first);
    var c := classify(payload, first);
    StepsOne(fs, classify, o, start, first);
    VisitClassifies(fs, classify, o, start, first);
    var v1 := Visit(fs, classify, o, start, first);
    assert v1.stop.None?;
    assert v1.world.files == start.files[path := FileEntry(o.encodeFile(c.answer.m), start.now)];
    assert fs.Processed(v1.world.files, second);
    VisitSkips(fs, classify, o, v1.world, second);
    StepsTwo(fs, classify, o, start, first, second);
  }

  // ---------------------------------------------------------------------------
  // processSingle

  /** What curl reports: the body (None for `false`), `curl_error` and the
      HTTP status. */
  datatype Curl = Curl(data: Option<seq<byte>>, error: string, httpCode: int)

  /** The calls `processSingle` makes that the model does not: `filter_var`
      with FILTER_VALIDATE_URL, the curl fetch, and `parse_url` for the path
      component (None for null or false). */
  datatype Fetcher = Fetcher(isUrl: string -> bool, fetch: string -> Curl, urlPath: string -> Option<string>)

  /** `processImageFile`: a path that does not exist is an exception; anything
      else is classified from the base64 of its raw bytes, whatever their size,
      under its basename. */
  function ProcessImageFile(files: map<string, FileEntry>, dirs: set<string>, path: string,
                            classify: Classifier): (r: Result<OpenRouter.Classification, string>)
    ensures r.Err? <==> path !in files && path !in dirs
    ensures r.Err? ==> r.error == "File not found: " + path
  {
    if path !in files && path !in dirs then Err("File not found: " + path)
    else Ok(classify(Encode(Contents(files, path)), Basename(path)))
  }

  /** The name a URL's image is classified under: the basename of its path,
      or of "image.jpg" when the path is absent or PHP-falsy. */
  function UrlFilename(urlPath: Option<string>): (name: string)
    ensures '/' !in name
    ensures urlPath.None? || IsPhpEmpty(urlPath.value) ==> name == "image.jpg"
    ensures urlPath.Some? && !IsPhpEmpty(urlPath.value) ==> name == Basename(urlPath.value)
  {
    Basename(if urlPath.None? || IsPhpEmpty(urlPath.value) then "image.jpg" else urlPath.value)
  }

  /** A URL whose path is just "/" gives an empty name, so the image is sent
      with the fallback MIME type. */
  lemma RootPathHasNoName()
    ensures UrlFilename(Some("/")) == ""
  {
    assert StripTrailingSlashes("/") == "";
  }

  /** The message of the exception for an unreachable URL: the curl error, or
      the HTTP status when curl reports none. */
  function UrlFailure(url: string, curl: Curl): string {
    "Unable to access URL: " + url
    + (if IsPhpEmpty(curl.error) then " - HTTP " + IntToString(curl.httpCode) else " - " + curl.error)
  }

  /** `processImageUrl`: a failed fetch or an HTTP status of 400 or more is an
      exception; otherwise the body is classified under UrlFilename. */
  function ProcessImageUrl(url: string, fetcher: Fetcher, classify: Classifier)
    : (r: Result<OpenRouter.Classification, string>)
    ensures r.Err? <==> fetcher.fetch(url).data.None? || fetcher.fetch(url).httpCode >= 400
    ensures r.Err? ==> StartsWith(r.error, "Unable to access URL: " + url)
  {
    var curl := fetcher.fetch(url);
    if curl.data.None? || curl.httpCode >= 400 then Err(UrlFailure(url, curl))
    else Ok(classify(Encode(curl.data.value), UrlFilename(fetcher.urlPath(url))))
  }

  /** `processSingle`: a URL is fetched, anything else is read from disk; an
      exception on either path becomes null with "Error processing image: ..."
      in the log. */
  function ProcessSingle(files: map<string, FileEntry>, dirs: set<string>, path: string, fetcher: Fetcher,
                         classify: Classifier): OpenRouter.Classification
  {
    var r := if fetcher.isUrl(path) then ProcessImageUrl(path, fetcher, classify)
             else ProcessImageFile(files, dirs, path, classify);
    match r
    case Err(message) => OpenRouter.Classification(OpenRouter.Null, [LogEntry(Error, "Error processing image: " + message)])
    case Ok(c) => c
  }

  /** The null a failure of `processSingle` returns, with its one log entry. */
  function Failed(message: string): OpenRouter.Classification {
    OpenRouter.Classification(OpenRouter.Null, [LogEntry(Error, "Error processing image: " + message)])
  }

  /** A local path that does not exist gives null and never reaches the
      service: the answer is the same whatever the service would answer. */
  lemma MissingFileIsNeverClassified(files: map<string, FileEntry>, dirs: set<string>, path: string, fetcher: Fetcher,
                                     classify: Classifier, otherClassify: Classifier)
    requires !fetcher.isUrl(path) && path !in files && path !in dirs
    ensures ProcessSingle(files, dirs, path, fetcher, classify) == Failed("File not found: " + path)
    ensures ProcessSingle(files, dirs, path, fetcher, classify)
         == ProcessSingle(files, dirs, path, fetcher, otherClassify)
  {
    assert ProcessImageFile(files, dirs, path, classify) == Err("File not found: " + path);
    assert ProcessImageFile(files, dirs, path, otherClassify) == Err("File not found: " + path);
  }

  /** A local file is sent whole: the payload decodes to exactly its bytes,
      even above the 5 MiB the batch path enforces, under its basename. */
  lemma LocalFileIsSentRaw(files: map<string, FileEntry>, dirs: set<string>, path: string, fetcher: Fetcher,
                           classify: Classifier)
    requires !fetcher.isUrl(path) && path in files
    ensures ProcessSingle(files, dirs, path, fetcher, classify)
         == classify(Encode(files[path].data), Basename(path))
    ensures Decode(Encode(files[path].data)) == Some(files[path].data)
  {
    RoundTrip(files[path].data);
  }

  /** A URL that cannot be fetched, or answers with a status of 400 or more,
      gives null with the reason, whatever the service would answer. */
  lemma UnreachableUrlIsNull(files: map<string, FileEntry>, dirs: set<string>, url: string, fetcher: Fetcher,
                             classify: Classifier, otherClassify: Classifier)
    requires fetcher.isUrl(url)
    requires fetcher.fetch(url).data.None? || fetcher.fetch(url).httpCode >= 400
    ensures ProcessSingle(files, dirs, url, fetcher, classify) == Failed(UrlFailure(url, fetcher.fetch(url)))
    ensures ProcessSingle(files, dirs, url, fetcher, classify)
         == ProcessSingle(files, dirs, url, fetcher, otherClassify)
  {
    assert ProcessImageUrl(url, fetcher, classify) == Err(UrlFailure(url, fetcher.fetch(url)));
    assert ProcessImageUrl(url, fetcher, otherClassify) == Err(UrlFailure(url, fetcher.fetch(url)));
  }

  /** A fetched image is sent whole under the name its URL path gives. */
  lemma FetchedImageIsSentRaw(files: map<string, FileEntry>, dirs: set<string>, url: string, fetcher: Fetcher,
                              classify: Classifier)
    requires fetcher.isUrl(url)
    requires fetcher.fetch(url).data.Some? && fetcher.fetch(url).httpCode < 400
    ensures var data := fetcher.fetch(url).data.value;
      && ProcessSingle(files, dirs, url, fetcher, classify)
         == classify(Encode(data), UrlFilename(fetcher.urlPath(url)))
      && Decode(Encode(data)) == Some(data)
  {
    RoundTrip(fetcher.fetch(url).data.value);
  }

  /** `processSingle` catches every `\Exception`: the only error that leaves
      it is the `TypeError` of an array content. */
  lemma OnlyTypeErrorEscapesSingle(files: map<string, FileEntry>, dirs: set<string>, path: string, fetcher: Fetcher,
                                   classify: Classifier, apiKey: string, model: string,
                                   post: OpenRouter.Client, decode: Decoder, encode: Json -> string)
    requires Wired(classify, apiKey, model, post, decode, encode)
    ensures var c := ProcessSingle(files, dirs, path, fetcher, classify);
      c.answer.Escapes? ==> c.answer.error == AbstractOpenRouter.Message(AbstractOpenRouter.ContentIsArray)
  {
    var r := if fetcher.isUrl(path) then ProcessImageUrl(path, fetcher, classify)
             else ProcessImageFile(files, dirs, path, classify);
    if r.Ok? && r.value.answer.Escapes? {
      var payload := if fetcher.isUrl(path) then Encode(fetcher.fetch(path).data.value) else Encode(Contents(files, path));
      var name := if fetcher.isUrl(path) then UrlFilename(fetcher.urlPath(path)) else Basename(path);
      assert r.value == classify(payload, name);
      OpenRouter.ClassifyImageEscapes(apiKey, model, payload, name, post, decode, encode);
    }
  }

  /** With the real service, metadata from `processSingle` is a non-empty
      array, so the script's truthiness test on it always passes. */
  lemma SingleMetadataIsTruthy(files: map<string, FileEntry>, dirs: set<string>, path: string, fetcher: Fetcher,
                               classify: Classifier, apiKey: string, model: string,
                               post: OpenRouter.Client, decode: Decoder, encode: Json -> string)
    requires Wired(classify, apiKey, model, post, decode, encode)
    requires ProcessSingle(files, dirs, path, fetcher, classify).answer.Metadata?
    ensures IsTruthyArray(ProcessSingle(files, dirs, path, fetcher, classify).answer.m)
  {
    var payload := if fetcher.isUrl(path) then Encode(fetcher.fetch(path).data.value) else Encode(Contents(files, path));
    var name := if fetcher.isUrl(path) then UrlFilename(fetcher.urlPath(path)) else Basename(path);
    assert ProcessSingle(files, dirs, path, fetcher, classify) == classify(payload, name);
    assert classify(payload, name) == OpenRouter.ClassifyImage(apiKey, model, payload, name, post, decode, encode);
    OpenRouter.MetadataIsTruthy(apiKey, model, payload, name, post, decode, encode);
  }
}
