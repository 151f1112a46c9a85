/**
 * The network transfer task engine: one SeafileNetworkTask per transfer, with
 * a download and an upload flavour. Every slot is a guarded transition on the
 * task's status. Network replies, redirect resolution and the file system are
 * inputs: a reply is described by its outcome, QUrl::resolved is a function
 * parameter, and files live in a Disk object shared by all tasks.
 */
module Task {
  import opened Options
  import opened Text

  datatype TaskType = UnknownType | Download | Upload

  /** The union of the statuses declared in task.h and those used by task.cpp. */
  datatype TaskStatus =
    | UnknownStatus | Fresh | Prefetching | Prefetched | Processing
    | Redirecting | Finished | Canceling | Aborted | Error

  datatype TaskError = UnknownError | NoError | FileError | NetworkError

  datatype QueryItem = QueryItem(key: string, value: string)

  /** A URL is either built from the server address, an API path and query
      items, or given as text (a prefetch body or a redirect target). */
  datatype Url =
    | ApiUrl(server: string, path: string, query: seq<QueryItem>)
    | TextUrl(text: string)

  /** How a finished network reply ended: its error flag and its redirection target. */
  datatype Reply = Reply(failed: bool, redirect: Option<Url>)

  /** Which request, if any, `reply_` points at. */
  datatype ReplyKind = NoReply | PrefetchReply | TransferReply

  /** What the base task emits at the end of the prefetch phase. */
  datatype PrefetchSignal = NoPrefetchSignal | PrefetchFinished | PrefetchAborted

  /** Signals emitted by transfer tasks and by their mirror records. */
  datatype Signal =
    | EmitRun | EmitCancel | EmitStarted | EmitRedirected
    | EmitProgress(processed: int, total: int) | EmitAborted | EmitFinished(path: string)

  /** The task's QFile: absent, or naming a path and open or closed. */
  datatype Handle = NoFile | File(path: string, isOpen: bool)

  datatype UploadPart = UploadPart(contentType: string, disposition: string, body: string)

  const OctetStream := "application/octet-stream"
  const DispositionTemplate := "form-data; name=\"%1\""

  /** The Content-Disposition value of the upload part for an encoded file
      name: the name between the quotes of `form-data; name="..."`. */
  function Disposition(encodedName: string): string
  {
    "form-data; name=\"" + encodedName + "\""
  }

  /** The source fills the template's %1 with QString::arg; the result is
      the name placed between the quotes, as it is. */
  lemma DispositionShape(encodedName: string)
    ensures Arg(DispositionTemplate, encodedName) == Disposition(encodedName)
  {
    var a := "form-data; name=\"";
    NoPercentNoMarker(a);
    NoPercentNoMarker("\"");
    assert DispositionTemplate == a + "%1" + "\"";
    ArgFill(a, "\"", encodedName);
  }

  /** The local file system as the tasks see it: existing files with their
      contents, and the paths that cannot be opened. */
  class Disk {
    var files: map<string, seq<byte>>
    const locked: set<string>

    constructor (files: map<string, seq<byte>>, locked: set<string>)
      ensures this.files == files && this.locked == locked
    {
      this.files := files;
      this.locked := locked;
    }
  }

  // ---------------------------------------------------------------------------
  // The prefetch body and the download collision search.

  /** The URL carried by a prefetch body: the body without its first and last
      character (the quotes), or nothing when the body has at most 2 characters. */
  function PrefetchTarget(body: string): (r: Option<string>)
    ensures r.Some? <==> |body| > 2
    ensures r.Some? ==> body == [body[0]] + r.value + [body[|body| - 1]]
  {
    if |body| <= 2 then None else Some(body[1..|body| - 1])
  }

  lemma QuotedUrlRoundTrip(u: string)
    requires u != []
    ensures PrefetchTarget("\"" + u + "\"") == Some(u)
  {
    var body := "\"" + u + "\"";
    assert body[1..|body| - 1] == u;
  }

  /** The i-th alternative download location: QString::arg fills the " (%1)."
      marker of the directory of the file name, its base name and its complete
      suffix, concatenated without a separator. When neither the directory
      and base name nor the suffix hold an escape of their own, the candidate
      is the directory glued to "base (i).suffix". */
  function Candidate(dir: string, name: string, i: int): (r: string)
    requires 1 <= i <= 9
    ensures NoMarker(dir + BaseName(name)) && NoMarker(CompleteSuffix(name)) ==>
      r == dir + BaseName(name) + " (" + [Digit(i)] + ")." + CompleteSuffix(name)
  {
    var p := dir + BaseName(name);
    var t := p + " (%1)." + CompleteSuffix(name);
    assert NoMarker(p) && NoMarker(CompleteSuffix(name)) ==>
      Arg(t, [Digit(i)]) == p + " (" + [Digit(i)] + ")." + CompleteSuffix(name) by {
      if NoMarker(p) && NoMarker(CompleteSuffix(name)) {
        CandidateParts(p, CompleteSuffix(name), [Digit(i)]);
      }
    }
    Arg(t, [Digit(i)])
  }

  /** The template of a candidate is the escape-free prefix `p` + " (", the
      %1 escape and ")." + the escape-free suffix, so arg fills that one. */
  lemma CandidateParts(p: string, suffix: string, v: string)
    requires NoMarker(p) && NoMarker(suffix)
    ensures Arg(p + " (%1)." + suffix, v) == p + " (" + v + ")." + suffix
  {
    var a := p + " (";
    var b := ")." + suffix;
    NoPercentNoMarker(" (");
    NoMarkerJoin(p, " (");
    NoPercentNoMarker(").");
    NoMarkerJoin(").", suffix);
    CandidateRegroup(p, v, suffix);
    ArgFill(a, b, v);
  }

  /** A "%0" escape in the prefix `p` of a candidate template takes the
      argument, and the " (%1)." of the template stays. */
  lemma UserEscapeTemplate(p: string, x: string, y: string, suffix: string, v: string)
    requires p == x + "%0" + y
    requires NoMarker(x) && NoMarker(y) && NoMarker(suffix)
    requires y == [] || !IsDigit(y[0])
    ensures Arg(p + " (%1)." + suffix, v) == x + v + y + " (%1)." + suffix
  {
    var c := ")." + suffix;
    NoPercentNoMarker(").");
    NoMarkerJoin(").", suffix);
    NoPercentNoMarker(" (");
    NoMarkerJoin(y, " (");
    Regroup(x, "%0", y, suffix);
    Regroup(x, v, y, suffix);
    ArgFillsLowest(x, y + " (", c, v);
  }

  /** Splits a candidate template and its filled form around the marker. */
  lemma CandidateRegroup(p: string, v: string, suffix: string)
    ensures p + " (%1)." + suffix == (p + " (") + "%1" + (")." + suffix)
    ensures (p + " (") + v + (")." + suffix) == p + " (" + v + ")." + suffix
  {
  }

  /** Moves the " (" of a candidate template from the marker to the text
      before it. */
  lemma Regroup(x: string, m: string, y: string, suffix: string)
    ensures x + m + y + " (%1)." + suffix == x + m + (y + " (") + "%1" + (")." + suffix)
  {
  }

  /** A base name that holds a "%0" escape takes the index in its place, and
      the " (%1)" of the template stays as it is. */
  lemma CandidateUserEscape(dir: string, name: string, i: int, x: string, y: string)
    requires 1 <= i <= 9
    requires dir + BaseName(name) == x + "%0" + y
    requires NoMarker(x) && NoMarker(y) && NoMarker(CompleteSuffix(name))
    requires y == [] || !IsDigit(y[0])
    ensures Candidate(dir, name, i)
         == x + [Digit(i)] + y + " (%1)." + CompleteSuffix(name)
  {
    UserEscapeTemplate(dir + BaseName(name), x, y, CompleteSuffix(name), [Digit(i)]);
  }

  /** The first candidate index from i on whose location does not exist, or 10
      when candidates i..9 all exist. */
  function FirstFree(files: set<string>, dir: string, name: string, i: int): (k: int)
    requires 1 <= i <= 10
    ensures i <= k <= 10
    ensures k < 10 ==> Candidate(dir, name, k) !in files
    ensures forall j :: i <= j < k ==> Candidate(dir, name, j) in files
    decreases 10 - i
  {
    if i == 10 then 10
    else if Candidate(dir, name, i) !in files then i
    else FirstFree(files, dir, name, i + 1)
  }

  /** The collision loop of the download start: tries candidates (1)..(9) and
      stops at the first that does not exist. Returns the index it stopped at
      (10 when all exist) and the name it tried last. */
  method FindAlternative(files: set<string>, dir: string, name: string)
      returns (i: int, alternative: string)
    ensures i == FirstFree(files, dir, name, 1)
    ensures alternative == Candidate(dir, name, if i == 10 then 9 else i)
  {
    i := 1;
    alternative := Candidate(dir, name, 1);
    while i != 10
      invariant 1 <= i <= 10
      invariant FirstFree(files, dir, name, i) == FirstFree(files, dir, name, 1)
      invariant i > 1 ==> alternative == Candidate(dir, name, i - 1)
      decreases 10 - i
    {
      alternative := Candidate(dir, name, i);
      if alternative !in files {
        break;
      }
      i := i + 1;
    }
  }

  /** Where a download is written: the requested location when it does not
      exist, else the first free candidate, else nowhere. */
  function Allocate(files: set<string>, location: string, dir: string, name: string)
      : (r: Option<string>)
    ensures r.Some? ==> r.value !in files
    ensures location !in files ==> r == Some(location)
    ensures location in files ==>
      (r.None? <==> forall j :: 1 <= j <= 9 ==> Candidate(dir, name, j) in files)
    ensures location in files && r.Some? ==>
      exists k :: 1 <= k <= 9 && r.value == Candidate(dir, name, k) &&
        forall j :: 1 <= j < k ==> Candidate(dir, name, j) in files
  {
    if location !in files then Some(location)
    else
      var k := FirstFree(files, dir, name, 1);
      if k == 10 then None
      else
        assert 1 <= k <= 9 && Candidate(dir, name, k) == Candidate(dir, name, k);
        Some(Candidate(dir, name, k))
  }

  /** With the location and candidates (1)..(3) taken and (4) free, the
      download goes to candidate (4). */
  lemma AllocateFourth(files: set<string>, location: string, dir: string, name: string)
    requires location in files
    requires forall j :: 1 <= j <= 3 ==> Candidate(dir, name, j) in files
    requires Candidate(dir, name, 4) !in files
    ensures Allocate(files, location, dir, name) == Some(Candidate(dir, name, 4))
  {
    var r := Allocate(files, location, dir, name);
    assert r.Some?;
    var k :| 1 <= k <= 9 && r.value == Candidate(dir, name, k) &&
      forall j :: 1 <= j < k ==> Candidate(dir, name, j) in files;
    assert k == 4;
  }

  /** The disk after the download's startTask as written: when the location
      and all nine candidates exist, the loop leaves the file on candidate
      (9) and the abort path removes it, although the task did not create
      it. Otherwise no existing file is touched. */
  function WrittenStartDisk(files: map<string, seq<byte>>, locked: set<string>,
                            location: string, dir: string, name: string)
      : (r: map<string, seq<byte>>)
    ensures Allocate(files.Keys, location, dir, name).None? ==>
      Candidate(dir, name, 9) in files && Candidate(dir, name, 9) !in r
    ensures Allocate(files.Keys, location, dir, name).Some? ==>
      forall p :: p in files ==> p in r && r[p] == files[p]
  {
    match Allocate(files.Keys, location, dir, name)
    case None => files - {Candidate(dir, name, 9)}
    case Some(pick) => if pick in locked then files else files[pick := []]
  }

  /** The disk startTask evidently intends: an abort removes only a file the
      task created, so no existing file is ever lost or changed, and the only
      new file is the allocated one. */
  function IntendedStartDisk(files: map<string, seq<byte>>, locked: set<string>,
                             location: string, dir: string, name: string)
      : (r: map<string, seq<byte>>)
    ensures forall p :: p in files ==> p in r && r[p] == files[p]
    ensures forall p :: p in r && p !in files ==>
      Allocate(files.Keys, location, dir, name) == Some(p) && p !in locked && r[p] == []
  {
    match Allocate(files.Keys, location, dir, name)
    case None => files
    case Some(pick) => if pick in locked then files else files[pick := []]
  }

  // ---------------------------------------------------------------------------
  // The base task.

  class NetworkTask {
    const token: string
    var url: Url
    var status: TaskStatus
    var taskType: TaskType
    var reply: ReplyKind
    /** The prefetch buffer; it starts empty and is only ever appended to. */
    var prefetchBuf: seq<byte>
    /** The error the last abort was logged with. */
    var abortError: Option<TaskError>

    /** A reply is in flight exactly in the statuses that wait for one. */
    ghost predicate Valid()
      reads this
    {
      (reply == NoReply <==> status != Prefetching && status != Processing && status != Canceling) &&
      (reply == PrefetchReply ==> status == Prefetching || status == Canceling) &&
      (reply == TransferReply ==> status == Processing || status == Canceling)
    }

    constructor (token: string, url: Url, prefetchApiRequired: bool)
      ensures Valid()
      ensures this.token == token && this.url == url
      ensures status == (if prefetchApiRequired then Fresh else Prefetched)
      ensures taskType == UnknownType && reply == NoReply
      ensures prefetchBuf == [] && abortError == None
    {
      this.token := token;
      this.url := url;
      status := if prefetchApiRequired then Fresh else Prefetched;
      taskType := UnknownType;
      reply := NoReply;
      prefetchBuf := [];
      abortError := None;
    }

    method Status() returns (s: TaskStatus)
      ensures s == status
    {
      s := status;
    }

    method GetUrl() returns (u: Url)
      ensures u == url
    {
      u := url;
    }

    method SetUrl(u: Url)
      modifies this`url
      ensures url == u
    {
      url := u;
    }

    /** The public cancel slot of the header does nothing. */
    method Cancel()
      ensures unchanged(this)
    {
    }

    method OnCancel()
      requires Valid()
      modifies this`status
      ensures Valid()
      ensures old(reply) != NoReply && old(status) != Error ==> status == Canceling
      ensures old(reply) == NoReply || old(status) == Error ==> status == old(status)
    {
      if reply != NoReply && status != Error {
        status := Canceling;
      }
    }

    method StartPrefetchRequest()
      requires Valid()
      modifies this`status, this`reply
      ensures Valid()
      ensures old(status) == Fresh || old(status) == Redirecting ==>
        status == Prefetching && reply == PrefetchReply
      ensures old(status) != Fresh && old(status) != Redirecting ==>
        status == old(status) && reply == old(reply)
    {
      if status != Fresh && status != Redirecting {
        return;
      }
      status := Prefetching;
      reply := PrefetchReply;
    }

    method OnPrefetchProcessReady(chunk: seq<byte>)
      modifies this`prefetchBuf
      ensures prefetchBuf == if old(status) == Prefetching then old(prefetchBuf) + chunk
                             else old(prefetchBuf)
    {
      if status == Prefetching {
        prefetchBuf := prefetchBuf + chunk;
      }
    }

    /** Base onRedirected: the task moves to the new URL and drops its reply. */
    method Redirect(newUrl: Url)
      modifies this`status, this`url, this`reply
      ensures Valid()
      ensures status == Redirecting && url == newUrl && reply == NoReply
    {
      status := Redirecting;
      url := newUrl;
      reply := NoReply;
    }

    /** Base onAborted. */
    method Abort(error: TaskError)
      modifies this`status, this`reply, this`abortError
      ensures Valid()
      ensures status == Aborted && reply == NoReply && abortError == Some(error)
    {
      status := Aborted;
      reply := NoReply;
      abortError := Some(error);
    }

    /** onStart: a Fresh task launches its prefetch, a Prefetched one signals
        that the transfer may start, any other does nothing. */
    method OnStart() returns (signal: PrefetchSignal)
      requires Valid()
      modifies this`status, this`reply
      ensures Valid()
      ensures old(status) == Fresh ==>
        signal == NoPrefetchSignal && status == Prefetching && reply == PrefetchReply
      ensures old(status) == Prefetched ==>
        signal == PrefetchFinished && status == Prefetched && reply == old(reply)
      ensures old(status) != Fresh && old(status) != Prefetched ==>
        signal == NoPrefetchSignal && status == old(status) && reply == old(reply)
    {
      signal := NoPrefetchSignal;
      if status == Fresh {
        StartPrefetchRequest();
      } else if status == Prefetched {
        signal := PrefetchFinished;
      }
    }

    /** onPrefetchFinished, called when the prefetch reply finishes. */
    method OnPrefetchFinished(r: Reply, resolve: (Url, Url) -> Url)
        returns (signal: PrefetchSignal)
      requires Valid() && reply == PrefetchReply
      modifies this`status, this`url, this`reply
      ensures Valid()
      ensures old(status) == Canceling || r.failed ==>
        signal == PrefetchAborted && status == old(status) && url == old(url) && reply == old(reply)
      ensures old(status) != Canceling && !r.failed && r.redirect.Some? ==>
        signal == NoPrefetchSignal && url == resolve(old(url), r.redirect.value) &&
        status == Prefetching && reply == PrefetchReply
      ensures old(status) != Canceling && !r.failed && r.redirect.None? &&
              PrefetchTarget(Latin1(prefetchBuf)).None? ==>
        signal == PrefetchAborted && status == old(status) && url == old(url) && reply == old(reply)
      ensures old(status) != Canceling && !r.failed && r.redirect.None? &&
              PrefetchTarget(Latin1(prefetchBuf)).Some? ==>
        signal == PrefetchFinished && url == TextUrl(PrefetchTarget(Latin1(prefetchBuf)).value) &&
        status == Prefetched && reply == NoReply
    {
      if status == Canceling {
        return PrefetchAborted;
      }
      if r.failed {
        return PrefetchAborted;
      } else if r.redirect.Some? {
        var newUrl := resolve(url, r.redirect.value);
        Redirect(newUrl);
        StartPrefetchRequest();
        return NoPrefetchSignal;
      } else {
        var newUrl := Latin1(prefetchBuf);
        if |newUrl| <= 2 {
          return PrefetchAborted;
        }
        newUrl := newUrl[1..];
        newUrl := newUrl[..|newUrl| - 1];
        Redirect(TextUrl(newUrl));
        status := Prefetched;
      }
      reply := NoReply;
      signal := PrefetchFinished;
    }
  }

  // ---------------------------------------------------------------------------
  // Download task.

  class DownloadTask {
    const base: NetworkTask
    const fs: Disk
    var file: Handle
    var fileName: string
    var location: string
    var events: seq<Signal>

    ghost predicate Valid()
      reads this, base
    {
      base.Valid() && (base.reply == TransferReply ==> file.File?)
    }

    /** The last flag defaults to true: a task built without it starts with a prefetch. */
    constructor (token: string, url: Url, fileName: string, location: string, fs: Disk,
                 prefetchApiRequired: bool := true)
      ensures Valid() && fresh(base)
      ensures base.token == token && base.url == url && base.taskType == Download
      ensures base.status == (if prefetchApiRequired then Fresh else Prefetched)
      ensures base.reply == NoReply && base.prefetchBuf == [] && base.abortError == None
      ensures this.fileName == fileName && this.location == location && this.fs == fs
      ensures file == NoFile && events == []
    {
      var b := new NetworkTask(token, url, prefetchApiRequired);
      b.taskType := Download;
      base := b;
      this.fs := fs;
      file := NoFile;
      this.fileName := fileName;
      this.location := location;
      events := [];
    }

    method FileName() returns (n: string)
      ensures n == fileName
    {
      n := fileName;
    }

    method SetFilename(n: string)
      modifies this`fileName
      ensures fileName == n
    {
      fileName := n;
    }

    method DownloadLocation() returns (d: string)
      ensures d == location
    {
      d := location;
    }

    method SetDownloadLocation(d: string)
      modifies this`location
      ensures location == d
    {
      location := d;
    }

    method OnStart(dir: string)
      requires Valid()
      modifies this, base`status, base`reply, base`abortError, fs`files
      ensures Valid()
      ensures old(base.status) == Fresh ==>
        base.status == Prefetching && base.reply == PrefetchReply && unchanged(this) && unchanged(fs)
      ensures old(base.status) != Fresh && old(base.status) != Prefetched ==>
        unchanged(this) && unchanged(base) && unchanged(fs)
      ensures old(base.status) == Prefetched ==> Started(dir) && unchanged(base`url)
    {
      var signal := base.OnStart();
      if signal == PrefetchFinished {
        StartTask(dir);
      }
    }

    method OnCancel()
      requires Valid()
      modifies base`status
      ensures Valid()
      ensures old(base.reply) != NoReply && old(base.status) != Error ==> base.status == Canceling
      ensures old(base.reply) == NoReply || old(base.status) == Error ==> base.status == old(base.status)
    {
      base.OnCancel();
    }

    method OnPrefetchProcessReady(chunk: seq<byte>)
      modifies base`prefetchBuf
      ensures base.prefetchBuf ==
        if old(base.status) == Prefetching then old(base.prefetchBuf) + chunk else old(base.prefetchBuf)
    {
      base.OnPrefetchProcessReady(chunk);
    }

    /** The prefetch reply finished: prefetchAborted leads to onAborted() and
        prefetchFinished to startTask(). */
    method OnPrefetchFinished(r: Reply, resolve: (Url, Url) -> Url, dir: string)
      requires Valid() && base.reply == PrefetchReply
      modifies this, base`status, base`url, base`reply, base`abortError, fs`files
      ensures Valid()
      ensures old(base.status) == Canceling || r.failed ||
              (r.redirect.None? && PrefetchTarget(Latin1(base.prefetchBuf)).None?) ==>
        base.status == Aborted && base.abortError == Some(UnknownError) &&
        base.url == old(base.url) && file == NoFile && location == old(location) &&
        fileName == old(fileName) && events == old(events) + [EmitAborted] &&
        (old(file).File? ==> fs.files == old(fs.files) - {old(file).path}) &&
        (old(file).NoFile? ==> fs.files == old(fs.files))
      ensures old(base.status) != Canceling && !r.failed && r.redirect.Some? ==>
        base.url == resolve(old(base.url), r.redirect.value) &&
        base.status == Prefetching && unchanged(this) && unchanged(fs)
      ensures old(base.status) != Canceling && !r.failed && r.redirect.None? &&
              PrefetchTarget(Latin1(base.prefetchBuf)).Some? ==>
        base.url == TextUrl(PrefetchTarget(Latin1(base.prefetchBuf)).value) && Started(dir)
    {
      var signal := base.OnPrefetchFinished(r, resolve);
      if signal == PrefetchAborted {
        OnAborted();
      } else if signal == PrefetchFinished {
        StartTask(dir);
      }
    }

    /** What startTask leaves behind, between the state before it and the
        state after it: with no free location among the candidates the ninth
        is removed and the task aborts with a file error; a free location on
        which the file cannot be opened aborts the task the same way; any
        other location is created empty, opened, becomes the download
        location, and started() is emitted before the transfer begins. */
    twostate predicate Started(dir: string)
      reads this, base, fs
    {
      var pick := old(Allocate(fs.files.Keys, location, dir, fileName));
      fileName == old(fileName) &&
      (pick.None? ==>
        base.status == Aborted && base.abortError == Some(FileError) && file == NoFile &&
        fs.files == old(fs.files) - {Candidate(dir, old(fileName), 9)} &&
        location == old(location) && events == old(events) + [EmitAborted]) &&
      (pick.Some? && pick.value in fs.locked ==>
        base.status == Aborted && base.abortError == Some(FileError) && file == NoFile &&
        fs.files == old(fs.files) && location == old(location) &&
        events == old(events) + [EmitAborted]) &&
      (pick.Some? && pick.value !in fs.locked ==>
        location == pick.value && fs.files == old(fs.files)[location := []] &&
        file == File(location, true) && events == old(events) + [EmitStarted] &&
        base.status == Processing && base.reply == TransferReply)
    }

    /** Started's effect on the disk is WrittenStartDisk. */
    twostate lemma StartedDisk(dir: string)
      requires Started(dir)
      ensures fs.files == WrittenStartDisk(old(fs.files), fs.locked, old(location), dir, old(fileName))
    {
    }

    /** startTask: pick a collision-free location, open it for writing, emit
        started() and launch the transfer. `dir` is the absolute path of the
        directory of the file name, as QFileInfo/QDir compute it. */
    method StartTask(dir: string)
      requires Valid() && base.status == Prefetched
      modifies this, base`status, base`reply, base`abortError
      modifies fs`files
      ensures Valid() && unchanged(base`url)
      ensures Started(dir)
    {
      ghost var pick := Allocate(fs.files.Keys, location, dir, fileName);
      file := File(location, false);
      if location in fs.files {
        var i, alternative := FindAlternative(fs.files.Keys, dir, fileName);
        file := File(alternative, false);
        if i == 10 {
          OnAborted(FileError);
          return;
        }
      }
      assert pick == Some(file.path);
      if file.path in fs.locked {
        OnAborted(FileError);
        return;
      }
      fs.files := fs.files[file.path := []];
      file := File(file.path, true);
      location := file.path;
      events := events + [EmitStarted];
      StartRequest();
    }

    method StartRequest()
      requires Valid() && file.File?
      modifies base`status, base`reply
      ensures Valid()
      ensures old(base.status) == Prefetched || old(base.status) == Redirecting ==>
        base.status == Processing && base.reply == TransferReply
      ensures old(base.status) != Prefetched && old(base.status) != Redirecting ==>
        base.status == old(base.status) && base.reply == old(base.reply)
    {
      if base.status != Prefetched && base.status != Redirecting {
        return;
      }
      base.status := Processing;
      base.reply := TransferReply;
    }

    method HttpUpdateProgress(processed: int, total: int)
      modifies this`events
      ensures events == old(events) + [EmitProgress(processed, total)]
    {
      events := events + [EmitProgress(processed, total)];
    }

    /** Received bytes are appended to the open file. */
    method HttpProcessReady(chunk: seq<byte>)
      modifies fs`files
      ensures file.File? && file.isOpen ==>
        fs.files == old(fs.files)[file.path :=
          (if file.path in old(fs.files) then old(fs.files)[file.path] else []) + chunk]
      ensures !(file.File? && file.isOpen) ==> fs.files == old(fs.files)
    {
      if file.File? && file.isOpen {
        var before := if file.path in fs.files then fs.files[file.path] else [];
        fs.files := fs.files[file.path := before + chunk];
      }
    }

    /** httpFinished, called when the transfer reply finishes. */
    method HttpFinished(r: Reply, resolve: (Url, Url) -> Url)
      requires Valid() && base.reply == TransferReply
      modifies this, base`status, base`url, base`reply, base`abortError, fs`files
      ensures Valid()
      ensures old(base.status) == Canceling ==>
        base.status == Aborted && base.abortError == Some(NoError) && file == NoFile &&
        fs.files == old(fs.files) - {old(file).path} && events == old(events) + [EmitAborted]
      ensures old(base.status) != Canceling && r.failed ==>
        base.status == Aborted && base.abortError == Some(NetworkError) && file == NoFile &&
        fs.files == old(fs.files) - {old(file).path} && events == old(events) + [EmitAborted]
      ensures old(base.status) != Canceling && !r.failed && r.redirect.Some? ==>
        base.url == resolve(old(base.url), r.redirect.value) &&
        base.status == Processing && base.reply == TransferReply &&
        events == old(events) + [EmitRedirected] &&
        (old(file).path !in fs.locked ==>
          fs.files == old(fs.files)[old(file).path := []] && file == File(old(file).path, true)) &&
        (old(file).path in fs.locked ==>
          fs.files == old(fs.files) && file == File(old(file).path, false))
      ensures old(base.status) != Canceling && !r.failed && r.redirect.None? ==>
        base.status == Finished && base.reply == NoReply && file == NoFile &&
        fs.files == old(fs.files) && events == old(events) + [EmitFinished(old(location))]
      ensures old(base.status) == Canceling || r.failed || r.redirect.None? ==> base.url == old(base.url)
      ensures location == old(location) && fileName == old(fileName)
    {
      if base.status == Canceling {
        OnAborted(NoError);
        return;
      }
      file := File(file.path, false);
      if r.failed {
        OnAborted(NetworkError);
        return;
      } else if r.redirect.Some? {
        var newUrl := resolve(base.url, r.redirect.value);
        OnRedirected(newUrl);
        return;
      } else {
        base.status := Finished;
        events := events + [EmitFinished(location)];
      }
      base.reply := NoReply;
      file := NoFile;
    }

    /** The download follows a redirect: it reopens its file for writing,
        truncates it to length 0, emits redirected() and restarts the request. */
    method OnRedirected(newUrl: Url)
      requires Valid() && file.File?
      modifies this, base`status, base`url, base`reply, fs`files
      ensures Valid()
      ensures base.url == newUrl && base.status == Processing && base.reply == TransferReply
      ensures old(file).path !in fs.locked ==>
        fs.files == old(fs.files)[old(file).path := []] && file == File(old(file).path, true)
      ensures old(file).path in fs.locked ==> fs.files == old(fs.files) && file == old(file)
      ensures events == old(events) + [EmitRedirected]
      ensures fileName == old(fileName) && location == old(location)
    {
      base.Redirect(newUrl);
      if file.path !in fs.locked {
        file := File(file.path, true);
        fs.files := fs.files[file.path := []];
      }
      events := events + [EmitRedirected];
      StartRequest();
    }

    /** The download gives up: its partially written file is closed and removed. */
    method OnAborted(error: TaskError := UnknownError)
      modifies this`file, this`events, base`status, base`reply, base`abortError, fs`files
      ensures Valid()
      ensures base.status == Aborted && base.reply == NoReply && base.abortError == Some(error)
      ensures file == NoFile
      ensures old(file).File? ==> fs.files == old(fs.files) - {old(file).path}
      ensures old(file).NoFile? ==> fs.files == old(fs.files)
      ensures events == old(events) + [EmitAborted]
    {
      base.Abort(error);
      if file.File? {
        fs.files := fs.files - {file.path};
        file := NoFile;
      }
      events := events + [EmitAborted];
    }
  }

  // ---------------------------------------------------------------------------
  // Upload task.

  class UploadTask {
    const base: NetworkTask
    const fs: Disk
    var file: Handle
    var fileName: string
    var location: string
    var parts: Option<seq<UploadPart>>
    var events: seq<Signal>

    ghost predicate Valid()
      reads this, base
    {
      base.Valid() && (base.reply == TransferReply ==> file.File? && parts.Some?)
    }

    /** The constructor records the task type as DOWNLOAD, as the source does. */
    constructor (token: string, url: Url, fileName: string, location: string, fs: Disk,
                 prefetchApiRequired: bool)
      ensures Valid() && fresh(base)
      ensures base.token == token && base.url == url && base.taskType == Download
      ensures base.status == (if prefetchApiRequired then Fresh else Prefetched)
      ensures base.reply == NoReply && base.prefetchBuf == [] && base.abortError == None
      ensures this.fileName == fileName && this.location == location && this.fs == fs
      ensures file == NoFile && parts == None && events == []
    {
      var b := new NetworkTask(token, url, prefetchApiRequired);
      b.taskType := Download;
      base := b;
      this.fs := fs;
      file := NoFile;
      this.fileName := fileName;
      this.location := location;
      parts := None;
      events := [];
    }

    method OnStart(encode: string -> string)
      requires Valid()
      modifies this, base`status, base`reply, base`abortError
      ensures Valid()
      ensures old(base.status) == Fresh ==>
        base.status == Prefetching && base.reply == PrefetchReply && unchanged(this)
      ensures old(base.status) != Fresh && old(base.status) != Prefetched ==>
        unchanged(this) && unchanged(base)
      ensures old(base.status) == Prefetched ==> Started(encode) && unchanged(base`url)
    {
      var signal := base.OnStart();
      if signal == PrefetchFinished {
        StartTask(encode);
      }
    }

    method OnCancel()
      requires Valid()
      modifies base`status
      ensures Valid()
      ensures old(base.reply) != NoReply && old(base.status) != Error ==> base.status == Canceling
      ensures old(base.reply) == NoReply || old(base.status) == Error ==> base.status == old(base.status)
    {
      base.OnCancel();
    }

    method OnPrefetchProcessReady(chunk: seq<byte>)
      modifies base`prefetchBuf
      ensures base.prefetchBuf ==
        if old(base.status) == Prefetching then old(base.prefetchBuf) + chunk else old(base.prefetchBuf)
    {
      base.OnPrefetchProcessReady(chunk);
    }

    method OnPrefetchFinished(r: Reply, resolve: (Url, Url) -> Url, encode: string -> string)
      requires Valid() && base.reply == PrefetchReply
      modifies this, base`status, base`url, base`reply, base`abortError
      ensures Valid()
      ensures old(base.status) == Canceling || r.failed ||
              (r.redirect.None? && PrefetchTarget(Latin1(base.prefetchBuf)).None?) ==>
        base.status == Aborted && base.abortError == Some(UnknownError) &&
        base.url == old(base.url) && file == NoFile && location == old(location) &&
        fileName == old(fileName) && parts == old(parts) && events == old(events) + [EmitAborted]
      ensures old(base.status) != Canceling && !r.failed && r.redirect.Some? ==>
        base.url == resolve(old(base.url), r.redirect.value) &&
        base.status == Prefetching && unchanged(this)
      ensures old(base.status) != Canceling && !r.failed && r.redirect.None? &&
              PrefetchTarget(Latin1(base.prefetchBuf)).Some? ==>
        base.url == TextUrl(PrefetchTarget(Latin1(base.prefetchBuf)).value) && Started(encode)
    {
      var signal := base.OnPrefetchFinished(r, resolve);
      if signal == PrefetchAborted {
        OnAborted();
      } else if signal == PrefetchFinished {
        StartTask(encode);
      }
    }

    /** What startTask leaves behind, between the state before it and the
        state after it: a source that is missing or cannot be opened aborts
        the task with a file error and an empty body; otherwise the source is
        opened, the body is the one file part, started() is emitted and the
        transfer begins. */
    twostate predicate Started(encode: string -> string)
      reads this, base, fs
    {
      fileName == old(fileName) && location == old(location) &&
      (location !in fs.files || location in fs.locked ==>
        base.status == Aborted && base.abortError == Some(FileError) && file == NoFile &&
        parts == Some([]) && events == old(events) + [EmitAborted]) &&
      (location in fs.files && location !in fs.locked ==>
        file == File(location, true) &&
        parts == Some([UploadPart(OctetStream, Disposition(encode(fileName)), location)]) &&
        events == old(events) + [EmitStarted] &&
        base.status == Processing && base.reply == TransferReply)
    }

    /** startTask: the source file must exist and open read-only; only then is
        the multipart body built, started() emitted and the request launched.
        `encode` is QUrl::toPercentEncoding. */
    method StartTask(encode: string -> string)
      requires Valid() && base.status == Prefetched
      modifies this, base`status, base`reply, base`abortError
      ensures Valid() && unchanged(base`url)
      ensures Started(encode)
    {
      file := File(location, false);
      parts := Some([]);
      if location !in fs.files {
        OnAborted(FileError);
        return;
      }
      if location in fs.locked {
        OnAborted(FileError);
        return;
      }
      file := File(location, true);
      var part := UploadPart(OctetStream, Disposition(encode(fileName)), file.path);
      assert parts.value + [part] == [part];
      parts := Some(parts.value + [part]);
      events := events + [EmitStarted];
      StartRequest();
      assert parts == Some([part]) && file == File(location, true);
      assert base.status == Processing && base.reply == TransferReply;
    }

    method StartRequest()
      requires Valid() && file.File?
      modifies base`status, base`reply
      ensures Valid()
      ensures (old(base.status) == Prefetched || old(base.status) == Redirecting) && parts.Some? ==>
        base.status == Processing && base.reply == TransferReply
      ensures !((old(base.status) == Prefetched || old(base.status) == Redirecting) && parts.Some?) ==>
        base.status == old(base.status) && base.reply == old(base.reply)
    {
      if base.status != Prefetched && base.status != Redirecting {
        return;
      }
      if parts.None? {
        return;
      }
      base.status := Processing;
      base.reply := TransferReply;
    }

    method HttpUpdateProgress(processed: int, total: int)
      modifies this`events
      ensures events == old(events) + [EmitProgress(processed, total)]
    {
      events := events + [EmitProgress(processed, total)];
    }

    /** httpFinished, called when the upload reply finishes. The source file is
        never removed. */
    method HttpFinished(r: Reply, resolve: (Url, Url) -> Url)
      requires Valid() && base.reply == TransferReply
      modifies this, base`status, base`url, base`reply, base`abortError
      ensures Valid()
      ensures old(base.status) == Canceling ==>
        base.status == Aborted && base.abortError == Some(NoError) && file == NoFile &&
        events == old(events) + [EmitAborted]
      ensures old(base.status) != Canceling && r.failed ==>
        base.status == Aborted && base.abortError == Some(NetworkError) && file == NoFile &&
        events == old(events) + [EmitAborted]
      ensures old(base.status) != Canceling && !r.failed && r.redirect.Some? ==>
        base.url == resolve(old(base.url), r.redirect.value) &&
        base.status == Processing && base.reply == TransferReply &&
        file == File(old(file).path, false) && events == old(events) + [EmitRedirected]
      ensures old(base.status) != Canceling && !r.failed && r.redirect.None? ==>
        base.status == Finished && base.reply == NoReply && file == NoFile &&
        events == old(events) + [EmitFinished(old(file).path)]
      ensures old(base.status) == Canceling || r.failed || r.redirect.None? ==> base.url == old(base.url)
      ensures location == old(location) && fileName == old(fileName) && parts == old(parts)
    {
      if base.status == Canceling {
        OnAborted(NoError);
        return;
      }
      file := File(file.path, false);
      if r.failed {
        OnAborted(NetworkError);
        return;
      } else if r.redirect.Some? {
        var newUrl := resolve(base.url, r.redirect.value);
        OnRedirected(newUrl);
        return;
      } else {
        base.status := Finished;
        events := events + [EmitFinished(file.path)];
      }
      base.reply := NoReply;
      file := NoFile;
    }

    /** The upload follows a redirect: it emits redirected() and restarts the
        request. The seek to offset 0 acts on a source that httpFinished has
        just closed, so it changes nothing the model tracks. */
    method OnRedirected(newUrl: Url)
      requires Valid() && file.File? && parts.Some?
      modifies this`events, base`status, base`url, base`reply
      ensures Valid()
      ensures base.url == newUrl && base.status == Processing && base.reply == TransferReply
      ensures events == old(events) + [EmitRedirected]
    {
      base.Redirect(newUrl);
      events := events + [EmitRedirected];
      StartRequest();
    }

    /** The upload gives up: its source is closed but stays on disk. */
    method OnAborted(error: TaskError := UnknownError)
      modifies this`file, this`events, base`status, base`reply, base`abortError
      ensures Valid()
      ensures base.status == Aborted && base.reply == NoReply && base.abortError == Some(error)
      ensures file == NoFile && events == old(events) + [EmitAborted]
    {
      base.Abort(error);
      if file.File? {
        file := NoFile;
      }
      events := events + [EmitAborted];
    }
  }
}
