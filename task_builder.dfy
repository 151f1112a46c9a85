/**
 * SeafileNetworkTaskBuilder: builds the file API URL of a download from the
 * repository id, the directory path, the file name and, optionally, a
 * revision, and creates the download task for it.
 */
module TaskBuilder {
  import opened Text
  import opened Task

  /** The part of an account the builder uses: its server and its token. */
  datatype Account = Account(serverUrl: string, token: string)

  const GetFileUrl := "api2/repos/%1/file/"
  const GetFileFromRevisionUrl := "api2/repos/%1/file/revision/"

  /** Account::getAbsoluteUrl: a relative API path on the account's server. */
  function AbsoluteUrl(account: Account, relative: string): Url
  {
    ApiUrl(account.serverUrl, relative, [])
  }

  /** QUrl::addQueryItem on a URL built from an API path. */
  function AddQueryItem(u: Url, key: string, value: string): Url
    requires u.ApiUrl?
  {
    u.(query := u.query + [QueryItem(key, value)])
  }

  /** The repository id is substituted for the marker of a file URL template. */
  lemma FillRepoId(template: string, tail: string, repoId: string)
    requires '%' !in tail && (tail == [] || !IsDigit(tail[0]))
    requires template == "api2/repos/" + "%1" + tail
    ensures Arg(template, repoId) == "api2/repos/" + repoId + tail
  {
    NoPercentNoMarker("api2/repos/");
    NoPercentNoMarker(tail);
    ArgFill("api2/repos/", tail, repoId);
  }

  lemma FileUrlTemplate()
    ensures GetFileUrl == "api2/repos/" + "%1" + "/file/"
  {
  }

  lemma RevisionUrlTemplate()
    ensures GetFileFromRevisionUrl == "api2/repos/" + "%1" + "/file/revision/"
  {
  }

  lemma FileUrlPath(repoId: string)
    ensures Arg(GetFileUrl, repoId) == "api2/repos/" + repoId + "/file/"
  {
    FileUrlTemplate();
    FillRepoId(GetFileUrl, "/file/", repoId);
  }

  lemma RevisionUrlPath(repoId: string)
    ensures Arg(GetFileFromRevisionUrl, repoId) == "api2/repos/" + repoId + "/file/revision/"
  {
    RevisionUrlTemplate();
    FillRepoId(GetFileFromRevisionUrl, "/file/revision/", repoId);
  }

  /** The URL of a plain download: the repository's file API with the single
      query item p = path + file name, joined without a separator. */
  function DownloadUrl(account: Account, repoId: string, path: string, filename: string)
      : (u: Url)
    ensures u == ApiUrl(account.serverUrl, "api2/repos/" + repoId + "/file/",
                        [QueryItem("p", path + filename)])
  {
    FileUrlPath(repoId);
    var url := AbsoluteUrl(account, Arg(GetFileUrl, repoId));
    assert url.query + [QueryItem("p", path + filename)] == [QueryItem("p", path + filename)];
    AddQueryItem(url, "p", path + filename)
  }

  /** The URL of a download at a revision: the revision file API with p, then
      commit_id = revision. */
  function RevisionDownloadUrl(account: Account, repoId: string, path: string,
                               filename: string, revision: string): (u: Url)
    ensures u == ApiUrl(account.serverUrl, "api2/repos/" + repoId + "/file/revision/",
                        [QueryItem("p", path + filename), QueryItem("commit_id", revision)])
  {
    RevisionUrlPath(repoId);
    var url := AbsoluteUrl(account, Arg(GetFileFromRevisionUrl, repoId));
    var withPath := AddQueryItem(url, "p", path + filename);
    assert withPath.query == [QueryItem("p", path + filename)] by {
      assert url.query + [QueryItem("p", path + filename)] == [QueryItem("p", path + filename)];
    }
    assert withPath.query + [QueryItem("commit_id", revision)]
        == [QueryItem("p", path + filename), QueryItem("commit_id", revision)];
    AddQueryItem(withPath, "commit_id", revision)
  }

  /** The revision variant extends the plain one: its path continues with
      "revision/" and its query appends commit_id after the same p. */
  lemma RevisionExtendsPlain(account: Account, repoId: string, path: string,
                             filename: string, revision: string)
    ensures RevisionDownloadUrl(account, repoId, path, filename, revision).path
         == DownloadUrl(account, repoId, path, filename).path + "revision/"
    ensures RevisionDownloadUrl(account, repoId, path, filename, revision).query
         == DownloadUrl(account, repoId, path, filename).query + [QueryItem("commit_id", revision)]
  {
    assert "api2/repos/" + repoId + "/file/revision/" == ("api2/repos/" + repoId + "/file/") + "revision/";
    assert [QueryItem("p", path + filename), QueryItem("commit_id", revision)]
        == [QueryItem("p", path + filename)] + [QueryItem("commit_id", revision)];
  }

  /** createDownloadTask: a download task for the plain URL, carrying the
      account's token, the file name and the download location. Its prefetch
      flag takes its default, so the task starts Fresh. */
  method CreateDownloadTask(account: Account, repoId: string, path: string, filename: string,
                            downloadLocation: string, fs: Disk)
      returns (t: DownloadTask)
    ensures fresh(t) && fresh(t.base) && t.Valid()
    ensures t.base.url == DownloadUrl(account, repoId, path, filename)
    ensures t.base.token == account.token && t.base.status == Fresh && t.base.taskType == Download
    ensures t.fileName == filename && t.location == downloadLocation && t.fs == fs
    ensures t.file == NoFile && t.events == []
  {
    var url := AbsoluteUrl(account, Arg(GetFileUrl, repoId));
    url := AddQueryItem(url, "p", path + filename);
    t := new DownloadTask(account.token, url, filename, downloadLocation, fs);
  }

  /** createDownloadTask at a revision. */
  method CreateRevisionDownloadTask(account: Account, repoId: string, path: string,
                                    filename: string, revision: string,
                                    downloadLocation: string, fs: Disk)
      returns (t: DownloadTask)
    ensures fresh(t) && fresh(t.base) && t.Valid()
    ensures t.base.url == RevisionDownloadUrl(account, repoId, path, filename, revision)
    ensures t.base.token == account.token && t.base.status == Fresh && t.base.taskType == Download
    ensures t.fileName == filename && t.location == downloadLocation && t.fs == fs
    ensures t.file == NoFile && t.events == []
  {
    var url := AbsoluteUrl(account, Arg(GetFileFromRevisionUrl, repoId));
    url := AddQueryItem(url, "p", path + filename);
    url := AddQueryItem(url, "commit_id", revision);
    t := new DownloadTask(account.token, url, filename, downloadLocation, fs);
  }
}
