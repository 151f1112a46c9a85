/**
 * FileNetworkManager and its FileNetworkTask records: the registry of
 * transfers the file browser starts. Each record mirrors one engine task's
 * progress for the user interface; its position in the list is its handle.
 */
module FileNetworkMgr {
  import opened Text
  import opened Task
  import opened TaskBuilder

  /** The mirror record of one transfer. */
  class FileNetworkTask {
    var taskNum: int
    var repoId: string
    var path: string
    var fileName: string
    var fileLocation: string
    var fileRealPath: string
    var processedBytes: int
    var totalBytes: int
    var status: TaskStatus
    var taskType: TaskType
    /** True until the engine reports that the real transfer began. */
    var autoRedirect: bool
    var signals: seq<Signal>

    constructor (repoId: string, path: string, fileName: string, fileLocation: string)
      ensures taskNum == -1
      ensures this.repoId == repoId && this.path == path && this.fileName == fileName
      ensures this.fileLocation == fileLocation && fileRealPath == fileLocation + "/" + fileName
      ensures processedBytes == 0 && totalBytes == 0
      ensures status == UnknownStatus && taskType == UnknownType && autoRedirect
      ensures signals == []
    {
      taskNum := -1;
      this.repoId := repoId;
      this.path := path;
      this.fileName := fileName;
      this.fileLocation := fileLocation;
      fileRealPath := fileLocation + "/" + fileName;
      processedBytes, totalBytes := 0, 0;
      status := UnknownStatus;
      taskType := UnknownType;
      autoRedirect := true;
      signals := [];
    }

    /** run(num) reaches every record; only the one with that handle forwards it. */
    method OnRun(num: int)
      modifies this`signals
      ensures signals == if num == taskNum then old(signals) + [EmitRun] else old(signals)
    {
      if num == taskNum {
        signals := signals + [EmitRun];
      }
    }

    method OnCancel()
      modifies this`status, this`signals
      ensures status == Canceling && signals == old(signals) + [EmitCancel]
    {
      status := Canceling;
      signals := signals + [EmitCancel];
    }

    method OnStarted()
      modifies this`status, this`signals
      ensures status == Processing && signals == old(signals) + [EmitStarted]
    {
      status := Processing;
      signals := signals + [EmitStarted];
    }

    /** Only a redirect reported with a false flag counts: it ends the
        automatic-redirect phase and is passed on. */
    method OnRedirected(redirectAuto: bool := true)
      modifies this`autoRedirect, this`signals
      ensures !redirectAuto ==> !autoRedirect && signals == old(signals) + [EmitRedirected]
      ensures redirectAuto ==> autoRedirect == old(autoRedirect) && signals == old(signals)
    {
      if !redirectAuto {
        autoRedirect := redirectAuto;
        signals := signals + [EmitRedirected];
      }
    }

    /** Progress is ignored while the automatic-redirect phase lasts. */
    method OnUpdateProgress(processed: int, total: int)
      modifies this`processedBytes, this`totalBytes, this`signals
      ensures autoRedirect ==> unchanged(this)
      ensures !autoRedirect ==>
        processedBytes == processed && totalBytes == total &&
        signals == old(signals) + [EmitProgress(processed, total)]
    {
      if autoRedirect {
        return;
      }
      processedBytes := processed;
      totalBytes := total;
      signals := signals + [EmitProgress(processedBytes, totalBytes)];
    }

    method OnAborted()
      modifies this`status, this`signals
      ensures status == Aborted && signals == old(signals) + [EmitAborted]
    {
      status := Aborted;
      signals := signals + [EmitAborted];
    }

    method OnFinished(realPath: string)
      modifies this`fileRealPath, this`status, this`signals
      ensures fileRealPath == realPath && status == Finished
      ensures signals == old(signals) + [EmitFinished(realPath)]
    {
      fileRealPath := realPath;
      status := Finished;
      signals := signals + [EmitFinished(fileRealPath)];
    }
  }

  class FileNetworkManager {
    const account: Account
    /** The downloads directory, taken as an absolute path. */
    const fileCacheDir: string
    var fileCachePath: string
    var tasks: seq<FileNetworkTask>
    const disk: Disk

    constructor (account: Account, downloadsPath: string, disk: Disk)
      ensures this.account == account && this.disk == disk
      ensures fileCacheDir == downloadsPath
      ensures fileCachePath == WithTrailingSlash(downloadsPath)
      ensures tasks == [] && Numbered()
    {
      this.account := account;
      fileCacheDir := downloadsPath;
      var cachePath := downloadsPath;
      if !EndsWithSlash(cachePath) {
        cachePath := cachePath + "/";
      }
      fileCachePath := cachePath;
      this.disk := disk;
      tasks := [];
    }

    /** Every record's handle is its index in the list. */
    predicate Numbered()
      reads this, tasks
    {
      forall k :: 0 <= k < |tasks| ==> tasks[k].taskNum == k
    }

    /** The record with handle `num`; QList indexing demands a valid handle. */
    method GetTask(num: int) returns (t: FileNetworkTask)
      requires 0 <= num < |tasks|
      ensures t == tasks[num]
    {
      t := tasks[num];
    }

    method AddTask(task: FileNetworkTask) returns (num: int)
      modifies this`tasks
      ensures tasks == old(tasks) + [task]
      ensures num == |old(tasks)| && tasks[num] == task
    {
      tasks := tasks + [task];
      num := |tasks| - 1;
    }

    /** The common part of both create operations: a fresh record with the
        next handle, the given type and the Fresh status, appended to the list,
        then run(num) is emitted. The signal reaches every record, but each
        answers only its own handle, and while the list is Numbered that is
        the new record alone; the model delivers it to that record only. */
    method Register(repoId: string, path: string, fileName: string, location: string,
                    taskType: TaskType) returns (num: int)
      modifies this`tasks
      ensures num == |old(tasks)| && |tasks| == num + 1 && tasks[..num] == old(tasks)
      ensures fresh(tasks[num])
      ensures tasks[num].taskNum == num && tasks[num].taskType == taskType
      ensures tasks[num].status == Fresh
      ensures tasks[num].repoId == repoId && tasks[num].path == path && tasks[num].fileName == fileName
      ensures tasks[num].fileLocation == location
      ensures tasks[num].fileRealPath == location + "/" + fileName
      ensures tasks[num].processedBytes == 0 && tasks[num].totalBytes == 0
      ensures tasks[num].autoRedirect && tasks[num].signals == [EmitRun]
      ensures old(Numbered()) ==> Numbered()
      ensures forall k :: 0 <= k < num ==> tasks[k].taskNum == old(tasks[k].taskNum)
    {
      var ftask := new FileNetworkTask(repoId, path, fileName, location);
      num := AddTask(ftask);
      ftask.taskNum := num;
      ftask.taskType := taskType;
      ftask.status := Fresh;
      ftask.OnRun(num);
    }

    /** Registers a download of `fileName` into the downloads directory and
        builds its engine task. The handle is the previous number of records. */
    method CreateDownloadTask(repoId: string, path: string, fileName: string)
        returns (num: int, engine: DownloadTask)
      modifies this`tasks
      ensures num == |old(tasks)| && |tasks| == num + 1 && tasks[..num] == old(tasks)
      ensures fresh(tasks[num])
      ensures tasks[num].taskNum == num && tasks[num].taskType == Download
      ensures tasks[num].status == Fresh
      ensures tasks[num].repoId == repoId && tasks[num].path == path && tasks[num].fileName == fileName
      ensures tasks[num].fileLocation == AbsoluteFilePath(fileCacheDir, fileName)
      ensures old(Numbered()) ==> Numbered()
      ensures fresh(engine) && fresh(engine.base) && engine.Valid()
      ensures engine.base.url == DownloadUrl(account, repoId, path, fileName)
      ensures engine.base.token == account.token && engine.base.status == Fresh
      ensures engine.fileName == fileName && engine.location == tasks[num].fileLocation
      ensures engine.fs == disk
    {
      var location := AbsoluteFilePath(fileCacheDir, fileName);
      num := Register(repoId, path, fileName, location, Download);
      engine := TaskBuilder.CreateDownloadTask(account, repoId, path, fileName, location, disk);
    }

    /** Registers an upload of the file at `updateFilePath`; the record's
        location is the directory that holds that file. */
    method CreateUploadTask(repoId: string, path: string, fileName: string, updateFilePath: string)
        returns (num: int)
      modifies this`tasks
      ensures num == |old(tasks)| && |tasks| == num + 1 && tasks[..num] == old(tasks)
      ensures fresh(tasks[num])
      ensures tasks[num].taskNum == num && tasks[num].taskType == Upload
      ensures tasks[num].status == Fresh
      ensures tasks[num].repoId == repoId && tasks[num].path == path && tasks[num].fileName == fileName
      ensures tasks[num].fileLocation == ContainingDir(updateFilePath)
      ensures old(Numbered()) ==> Numbered()
    {
      num := Register(repoId, path, fileName, ContainingDir(updateFilePath), Upload);
    }

    /** The destructor's teardown: records are taken off the back one at a
        time until none is left. Returns them in the order they were deleted. */
    method Destroy() returns (deleted: seq<FileNetworkTask>)
      modifies this`tasks
      ensures tasks == [] && Numbered()
      ensures |deleted| == |old(tasks)|
      ensures forall k :: 0 <= k < |deleted| ==> deleted[k] == old(tasks)[|old(tasks)| - 1 - k]
    {
      deleted := [];
      while tasks != []
        invariant |tasks| + |deleted| == |old(tasks)|
        invariant tasks == old(tasks)[..|tasks|]
        invariant forall k :: 0 <= k < |deleted| ==> deleted[k] == old(tasks)[|old(tasks)| - 1 - k]
        decreases |tasks|
      {
        var last := tasks[|tasks| - 1];
        tasks := tasks[..|tasks| - 1];
        deleted := deleted + [last];
      }
    }
  }
}
