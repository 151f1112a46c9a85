/**
 * FileBrowserDialog's directory navigation: the current path, a backward
 * and a forward history stack, and the enabled flags of the Back and
 * Forward toolbar actions. Stacks are sequences whose top is the last
 * element. Clicking a file instead hands it to the FileNetworkManager as a
 * download.
 */
module FileBrowser {
  import opened Options
  import opened Text
  import opened Task
  import opened FileNetworkMgr
  import opened TaskBuilder

  /** The navigation state of the dialog. */
  datatype Nav = Nav(path: string, backward: seq<string>, forward: seq<string>,
                     backEnabled: bool, forwardEnabled: bool)

  /** A directory entry as the file table reports it. */
  datatype Dirent = Dirent(name: string, isDir: bool)

  /**
   * The invariant of every state the handlers reach: each action is
   * enabled exactly when its stack has something to pop, the backward stack
   * is empty only at the root, and its bottom entry is the root.
   */
  predicate Consistent(n: Nav)
  {
    && n.forwardEnabled == (n.forward != [])
    && n.backEnabled == (n.backward != [])
    && (n.backward == [] ==> n.path == "/")
    && (n.backward != [] ==> n.backward[0] == "/")
  }

  /** The state the constructor sets up: at the root, no history, both
      actions disabled. */
  function Initial(): (n: Nav)
    ensures Consistent(n)
  {
    Nav("/", [], [], false, false)
  }

  /**
   * The forward stack after moving to `target` by a route other than
   * Forward: if the top of the stack is `target` only that entry is popped,
   * otherwise the whole stack is dropped. The action is disabled once the
   * stack is empty and otherwise left as it was.
   */
  function Settle(forward: seq<string>, enabled: bool, target: string): (r: (seq<string>, bool))
    ensures forward == [] ==> r == (forward, enabled)
    ensures forward != [] && forward[|forward| - 1] == target ==> r.0 == forward[..|forward| - 1]
    ensures forward != [] && forward[|forward| - 1] != target ==> r.0 == []
    ensures enabled == (forward != []) ==> r.1 == (r.0 != [])
  {
    if forward == [] then (forward, enabled)
    else if forward[|forward| - 1] == target then
      var popped := forward[..|forward| - 1];
      (popped, if popped == [] then false else enabled)
    else ([], false)
  }

  /** onDirClicked: descend into the child directory `name`. */
  function EnterDir(n: Nav, name: string): (r: Nav)
    ensures r.path == WithTrailingSlash(n.path) + name
    ensures r.backward == n.backward + [WithTrailingSlash(n.path)] && r.backEnabled
    ensures (r.forward, r.forwardEnabled) == Settle(n.forward, n.forwardEnabled, r.path)
    ensures Consistent(n) ==> Consistent(r)
  {
    var from := WithTrailingSlash(n.path);
    var to := from + name;
    var (forward, forwardEnabled) := Settle(n.forward, n.forwardEnabled, to);
    Nav(to, n.backward + [from], forward, true, forwardEnabled)
  }

  /** onBackwardActionClicked. */
  function Back(n: Nav): (r: Nav)
    ensures n.backward == [] ==> r == n
    ensures n.backward != [] ==>
      r.backward + [r.path] == n.backward && r.forward == n.forward + [n.path] && r.forwardEnabled
    ensures Consistent(n) ==> Consistent(r)
  {
    if n.backward == [] then n
    else
      var rest := n.backward[..|n.backward| - 1];
      assert rest + [n.backward[|n.backward| - 1]] == n.backward;
      Nav(n.backward[|n.backward| - 1], rest, n.forward + [n.path],
          rest != [] && n.backEnabled, true)
  }

  /** onForwardActionClicked: the mirror image of Back. */
  function Forward(n: Nav): (r: Nav)
    ensures n.forward == [] ==> r == n
    ensures n.forward != [] ==>
      r.forward + [r.path] == n.forward && r.backward == n.backward + [n.path] && r.backEnabled
    ensures Consistent(n) ==> Consistent(r)
  {
    if n.forward == [] then n
    else
      var rest := n.forward[..|n.forward| - 1];
      assert rest + [n.forward[|n.forward| - 1]] == n.forward;
      Nav(n.forward[|n.forward| - 1], n.backward + [n.path], rest,
          true, rest != [] && n.forwardEnabled)
  }

  /** onNavigateHomeActionClicked: jump to the root. The Back action's flag
      is not touched. */
  function Home(n: Nav): (r: Nav)
    ensures n.path == "/" ==> r == n
    ensures n.path != "/" ==>
      r.path == "/" && r.backward == n.backward + [n.path] && r.backEnabled == n.backEnabled
    ensures n.path != "/" ==>
      (r.forward, r.forwardEnabled) == Settle(n.forward, n.forwardEnabled, "/")
    ensures Consistent(n) ==> Consistent(r)
  {
    if n.path == "/" then n
    else
      var (forward, forwardEnabled) := Settle(n.forward, n.forwardEnabled, "/");
      Nav("/", n.backward + [n.path], forward, n.backEnabled, forwardEnabled)
  }

  /** Back undoes Forward. */
  lemma BackUndoesForward(n: Nav)
    requires Consistent(n) && n.forward != []
    ensures Back(Forward(n)) == n
  {
    var f := Forward(n);
    assert f.backward[..|f.backward| - 1] == n.backward;
  }

  /** Forward undoes Back. */
  lemma ForwardUndoesBack(n: Nav)
    requires Consistent(n) && n.backward != []
    ensures Forward(Back(n)) == n
  {
    var b := Back(n);
    assert b.forward[..|b.forward| - 1] == n.forward;
  }

  /** Entering the directory that tops the forward stack is the same move
      as Forward when the current path already ends in '/'. */
  lemma EnterDirMatchesForward(n: Nav, name: string)
    requires Consistent(n) && EndsWithSlash(n.path)
    requires n.forward != [] && n.forward[|n.forward| - 1] == n.path + name
    ensures EnterDir(n, name) == Forward(n)
  {
  }

  /**
   * The remote path a file clicked in the directory `dir` should be
   * requested under: the directory with its trailing '/', then the name.
   * It always splits back into the directory and the name. The dialog as
   * written requests `dir + name` instead (see WrittenRequestNeedsSlash).
   */
  function RequestPath(dir: string, name: string): (p: string)
    ensures '/' !in name ==> DirPart(p) == WithTrailingSlash(dir) && FileNameOf(p) == name
  {
    var p := WithTrailingSlash(dir) + name;
    assert '/' !in name ==> DirPart(p) == WithTrailingSlash(dir) && FileNameOf(p) == name by {
      if '/' !in name {
        JoinDirName(WithTrailingSlash(dir), name);
      }
    }
    p
  }

  /** As written, a file clicked right after entering the directory `d` from
      the root is requested as "/" + d + name: the file name the server sees
      runs the directory name into the file name. */
  lemma FileRequestAfterDescent(account: Account, repoId: string, d: string, name: string)
    requires d != [] && '/' !in d && '/' !in name
    ensures EnterDir(Initial(), d).path == "/" + d
    ensures DownloadUrl(account, repoId, EnterDir(Initial(), d).path, name).query
         == [QueryItem("p", "/" + d + name)]
    ensures FileNameOf("/" + d + name) == d + name != name
    ensures RequestPath(EnterDir(Initial(), d).path, name) == "/" + d + "/" + name
  {
    assert '/' !in d + name by {
      forall k | 0 <= k < |d + name| ensures (d + name)[k] != '/' {
        if k < |d| {
          assert (d + name)[k] == d[k];
        } else {
          assert (d + name)[k] == name[k - |d|];
        }
      }
    }
    JoinDirName("/", d + name);
    assert "/" + d + name == "/" + (d + name);
    assert |d + name| > |name|;
  }

  /** The request onFileClicked makes, the directory and the name run
      together, is the intended one exactly when the directory already ends
      in '/': true at the root, false after any onDirClicked. */
  lemma WrittenRequestNeedsSlash(dir: string, name: string)
    ensures dir + name == RequestPath(dir, name) <==> EndsWithSlash(dir)
  {
    if !EndsWithSlash(dir) {
      assert |RequestPath(dir, name)| == |dir + name| + 1;
    }
  }

  /** A click the user can make on the dialog. */
  datatype Click = ClickDir(name: string) | ClickBack | ClickForward | ClickHome

  function Step(n: Nav, c: Click): (r: Nav)
    ensures Consistent(n) ==> Consistent(r)
  {
    match c
    case ClickDir(name) => EnterDir(n, name)
    case ClickBack => Back(n)
    case ClickForward => Forward(n)
    case ClickHome => Home(n)
  }

  /** The state after a series of clicks from a newly opened dialog. */
  function Replay(clicks: seq<Click>): Nav
  {
    if clicks == [] then Initial()
    else Step(Replay(clicks[..|clicks| - 1]), clicks[|clicks| - 1])
  }

  /** Every state the dialog can reach satisfies Consistent. */
  lemma {:induction false} ReplayConsistent(clicks: seq<Click>)
    ensures Consistent(Replay(clicks))
  {
    if clicks != [] {
      ReplayConsistent(clicks[..|clicks| - 1]);
    }
  }

  /** In every reachable state each action is enabled exactly when its
      stack is non-empty; in particular Home, which pushes onto the
      backward stack without enabling Back, only does so when Back is
      already enabled. */
  lemma ReachableFlags(clicks: seq<Click>)
    ensures var n := Replay(clicks);
      (n.backEnabled <==> n.backward != []) && (n.forwardEnabled <==> n.forward != [])
  {
    ReplayConsistent(clicks);
  }

  class FileBrowserDialog {
    const repoId: string
    const manager: FileNetworkManager
    var path: string
    var backward: seq<string>
    var forward: seq<string>
    var backEnabled: bool
    var forwardEnabled: bool

    function State(): Nav
      reads this
    {
      Nav(path, backward, forward, backEnabled, forwardEnabled)
    }

    constructor (repoId: string, manager: FileNetworkManager)
      ensures State() == Initial()
      ensures this.repoId == repoId && this.manager == manager
    {
      this.repoId := repoId;
      this.manager := manager;
      path := "/";
      backward := [];
      forward := [];
      backEnabled := false;
      forwardEnabled := false;
    }

    /** The forward-stack half shared by entering a directory and going home. */
    method SettleForward()
      modifies this`forward, this`forwardEnabled
      ensures (forward, forwardEnabled) == Settle(old(forward), old(forwardEnabled), path)
    {
      if forward != [] {
        if forward[|forward| - 1] == path {
          forward := forward[..|forward| - 1];
          if forward == [] {
            forwardEnabled := false;
          }
        } else {
          forward := [];
          forwardEnabled := false;
        }
      }
    }

    method OnDirClicked(name: string)
      modifies this`path, this`backward, this`forward, this`backEnabled, this`forwardEnabled
      ensures State() == EnterDir(old(State()), name)
    {
      if !EndsWithSlash(path) {
        path := path + "/";
      }
      backward := backward + [path];
      if !backEnabled {
        backEnabled := true;
      }
      path := path + name;
      SettleForward();
    }

    method OnBackwardActionClicked()
      modifies this`path, this`backward, this`forward, this`backEnabled, this`forwardEnabled
      ensures State() == Back(old(State()))
    {
      if backward == [] {
        return;
      }
      forward := forward + [path];
      if !forwardEnabled {
        forwardEnabled := true;
      }
      path := backward[|backward| - 1];
      backward := backward[..|backward| - 1];
      if backward == [] {
        backEnabled := false;
      }
    }

    method OnForwardActionClicked()
      modifies this`path, this`backward, this`forward, this`backEnabled, this`forwardEnabled
      ensures State() == Forward(old(State()))
    {
      if forward == [] {
        return;
      }
      backward := backward + [path];
      if !backEnabled {
        backEnabled := true;
      }
      path := forward[|forward| - 1];
      forward := forward[..|forward| - 1];
      if forward == [] {
        forwardEnabled := false;
      }
    }

    method OnNavigateHomeActionClicked()
      modifies this`path, this`backward, this`forward, this`backEnabled, this`forwardEnabled
      ensures State() == Home(old(State()))
    {
      if path == "/" {
        return;
      }
      backward := backward + [path];
      path := "/";
      SettleForward();
    }

    /** onFileClicked: registers a download of the file in the current
        directory and returns its handle; navigation is left alone. The
        current path is handed over as it is, so the request is the
        intended one only when it ends in '/' (WrittenRequestNeedsSlash). */
    method OnFileClicked(name: string) returns (num: int)
      modifies manager`tasks
      ensures num == |old(manager.tasks)| && |manager.tasks| == num + 1
      ensures manager.tasks[..num] == old(manager.tasks) && fresh(manager.tasks[num])
      ensures manager.tasks[num].taskNum == num && manager.tasks[num].taskType == Download
      ensures manager.tasks[num].repoId == repoId && manager.tasks[num].fileName == name
      ensures manager.tasks[num].path == path
      ensures manager.tasks[num].fileLocation == AbsoluteFilePath(manager.fileCacheDir, name)
      ensures old(manager.Numbered()) ==> manager.Numbered()
    {
      var engine;
      num, engine := manager.CreateDownloadTask(repoId, path, name);
      var record := manager.GetTask(num);
    }

    /** onDirentClicked: directories navigate, every other entry is
        downloaded. Returns the download's handle, if one was started. */
    method OnDirentClicked(d: Dirent) returns (started: Option<int>)
      modifies this`path, this`backward, this`forward, this`backEnabled, this`forwardEnabled
      modifies manager`tasks
      ensures d.isDir ==> State() == EnterDir(old(State()), d.name) && started == None
      ensures d.isDir ==> manager.tasks == old(manager.tasks)
      ensures !d.isDir ==> State() == old(State()) && started == Some(|old(manager.tasks)|)
      ensures !d.isDir ==> |manager.tasks| == |old(manager.tasks)| + 1
      ensures !d.isDir ==> manager.tasks[..|old(manager.tasks)|] == old(manager.tasks)
      ensures !d.isDir ==>
        manager.tasks[|old(manager.tasks)|].taskType == Download &&
        manager.tasks[|old(manager.tasks)|].repoId == repoId &&
        manager.tasks[|old(manager.tasks)|].path == path &&
        manager.tasks[|old(manager.tasks)|].fileName == d.name
    {
      if d.isDir {
        OnDirClicked(d.name);
        started := None;
      } else {
        var num := OnFileClicked(d.name);
        started := Some(num);
      }
    }
  }
}
