/**
 * The run of `main`: tool check (installing if needed), early login,
 * pre-download snapshot, downloader, path resolution, existence guard,
 * login again and upload.
 *
 * Everything the program learns from the outside is an oracle result in
 * `World`; a run is the sequence of outside interactions it starts, in
 * order, and how it ends.
 */
module Pipeline {
  import opened Wrappers
  import opened StorageFlag
  import opened Snapshot
  import opened Resolution

  /** What `get_personal_info` gives on a freshly built client: an identity, `Null`, or an exception. */
  datatype LoginProbe = Identity | NullIdentity | Raised

  /** The wrapper's own options: `--parent-file-id` (default "root") and `--drive-id`. */
  datatype Known = Known(parentFileId: string, driveId: Option<string>)

  datatype World = World(
    toolOnPath: bool,           // `shutil.which("hfdownloader")` found it
    installSucceeds: bool,      // what `install_hfdownloader()` returns
    earlyLogin: LoginProbe,     // the login before the download
    before: seq<string>,        // directory listing before the download
    downloaderExit: int,        // return code of the downloader
    after: seq<string>,         // directory listing after the download
    ops: PathOps,
    present: string -> bool,    // `Path.exists()` after the download
    isDir: string -> bool,      // `Path.is_dir()` after the download
    uploadLogin: LoginProbe     // the login inside `upload_to_aliyun`
  )

  datatype Effect = InstallTool | Login | Download(args: seq<string>)

  /** An exception that nothing catches; the interpreter then exits with status 1. */
  datatype Fault = ToolUnavailable

  datatype Outcome =
    | Exit(code: int)
    | Crash(fault: Fault)
    | UploadFolder(path: string, parentFileId: string, driveId: Option<string>)
    | UploadFile(path: string, parentFileId: string, driveId: Option<string>)
  {
    predicate IsUpload() {
      UploadFolder? || UploadFile?
    }
  }

  datatype Run = Run(effects: seq<Effect>, outcome: Outcome)

  /**
   * The process exit status: the argument of `sys.exit`; 1 when an
   * exception escapes `main`; 0 when `main` returns after an upload.
   */
  function ExitStatus(o: Outcome): (r: int)
    ensures o.IsUpload() ==> r == 0
    ensures o.Crash? ==> r == 1
    ensures o.Exit? ==> r == o.code
  {
    match o
    case Exit(c) => c
    case Crash(_) => 1
    case UploadFolder(_, _, _) => 0
    case UploadFile(_, _, _) => 0
  }

  /** What one stage of `main` does: the interactions it starts, and how the run ends there if it does. */
  datatype Stage = Stage(effects: seq<Effect>, stop: Option<Outcome>)

  /**
   * `ensure_hfdownloader_available`: the installer runs only when the tool
   * is not on `PATH`, and the stage raises, uncaught, only when that
   * installation fails too.
   */
  function EnsureToolAvailable(w: World): (s: Stage)
    ensures InstallTool in s.effects <==> !w.toolOnPath
    ensures forall e :: e in s.effects ==> e == InstallTool
    ensures |s.effects| <= 1
    ensures s.stop.Some? <==> !w.toolOnPath && !w.installSucceeds
    ensures s.stop.Some? ==> s.stop.value == Crash(ToolUnavailable)
  {
    if w.toolOnPath then Stage([], None)
    else if w.installSucceeds then Stage([InstallTool], None)
    else Stage([InstallTool], Some(Crash(ToolUnavailable)))
  }

  /**
   * `ensure_aliyun_login`: one login attempt; a Null identity and an
   * exception are treated alike and end the run with status 1.
   */
  function EnsureLogin(p: LoginProbe): (s: Stage)
    ensures s.effects == [Login]
    ensures s.stop.None? <==> p == Identity
    ensures s.stop.Some? ==> s.stop.value == Exit(1) && ExitStatus(s.stop.value) != 0
  {
    match p
    case Identity => Stage([Login], None)
    case NullIdentity => Stage([Login], Some(Exit(1)))
    case Raised => Stage([Login], Some(Exit(1)))
  }

  /** The tool check lets the run go on. */
  predicate ToolReady(w: World) {
    EnsureToolAvailable(w).stop.None?
  }

  /** The login with this probe lets the run go on. */
  predicate LoggedIn(p: LoginProbe) {
    EnsureLogin(p).stop.None?
  }

  /** The path the run settles on after a successful download, against the snapshot taken before it. */
  function Target(w: World, args: seq<string>): string {
    ResolveTarget(args, PreSnapshot(w.before), w.after, w.ops)
  }

  /** `main()` with the forwarded arguments `args`. */
  function Main(w: World, known: Known, args: seq<string>): (r: Run)
    ensures ExitStatus(r.outcome) == 0 <==> r.outcome.IsUpload()
    ensures r.outcome.IsUpload() ==> w.present(r.outcome.path)
    ensures r.outcome.UploadFolder? <==> r.outcome.IsUpload() && w.isDir(r.outcome.path)
    ensures forall i :: 0 <= i < |r.effects| && r.effects[i].Download? ==>
              i > 0 && r.effects[i - 1] == Login
  {
    var tool := EnsureToolAvailable(w);
    if tool.stop.Some? then Run(tool.effects, tool.stop.value)
    else
      var login := EnsureLogin(w.earlyLogin);
      var loggedIn := tool.effects + login.effects;
      if login.stop.Some? then Run(loggedIn, login.stop.value)
      else
        var downloaded := loggedIn + [Download(args)];
        if w.downloaderExit != 0 then Run(downloaded, Exit(w.downloaderExit))
        else
          var target := Target(w, args);
          if !w.present(target) then Run(downloaded, Exit(1))
          else
            var relogin := EnsureLogin(w.uploadLogin);
            var uploading := downloaded + relogin.effects;
            if relogin.stop.Some? then Run(uploading, relogin.stop.value)
            else if w.isDir(target) then Run(uploading, UploadFolder(target, known.parentFileId, known.driveId))
            else Run(uploading, UploadFile(target, known.parentFileId, known.driveId))
  }

  /** A missing tool that cannot be installed stops the run before any login or download. */
  lemma ToolFailureStopsBeforeLogin(w: World, known: Known, args: seq<string>)
    requires !w.toolOnPath && !w.installSucceeds
    ensures Main(w, known, args) == Run([InstallTool], Crash(ToolUnavailable))
    ensures ExitStatus(Main(w, known, args).outcome) == 1
  {
  }

  /** A failed early login (Null identity or any exception) exits with 1 before the download. */
  lemma LoginFailureStopsBeforeDownload(w: World, known: Known, args: seq<string>)
    requires ToolReady(w) && !LoggedIn(w.earlyLogin)
    ensures Main(w, known, args).outcome == Exit(1)
    ensures forall e :: e in Main(w, known, args).effects ==> !e.Download?
  {
  }

  /** A failing downloader's return code becomes the exit status, and nothing is uploaded. */
  lemma DownloaderFailurePropagates(w: World, known: Known, args: seq<string>)
    requires ToolReady(w) && LoggedIn(w.earlyLogin) && w.downloaderExit != 0
    ensures Main(w, known, args).outcome == Exit(w.downloaderExit)
  {
  }

  /** A resolved path that does not exist ends the run with 1; the transfer stage and its login never start. */
  lemma MissingArtifactNeverUploads(w: World, known: Known, args: seq<string>)
    requires ToolReady(w) && LoggedIn(w.earlyLogin) && w.downloaderExit == 0
    requires !w.present(Target(w, args))
    ensures Main(w, known, args).outcome == Exit(1)
    ensures |Main(w, known, args).effects| > 0
    ensures Main(w, known, args).effects[|Main(w, known, args).effects| - 1] == Download(args)
  {
  }

  /** A failed login inside the transfer stage (Null identity or an exception) ends the run with 1 after the download. */
  lemma UploadLoginFailureExits(w: World, known: Known, args: seq<string>)
    requires ToolReady(w) && LoggedIn(w.earlyLogin) && w.downloaderExit == 0
    requires w.present(Target(w, args)) && !LoggedIn(w.uploadLogin)
    ensures Main(w, known, args).outcome == Exit(1)
    ensures |Main(w, known, args).effects| >= 3
    ensures Main(w, known, args).effects[|Main(w, known, args).effects| - 3..] == [Login, Download(args), Login]
  {
  }

  /**
   * An upload happens exactly when every stage succeeds, it sends the
   * resolved path to the folder and drive the options named, and before it
   * the run logged in, downloaded and logged in again, in that order.
   */
  lemma UploadIff(w: World, known: Known, args: seq<string>)
    ensures Main(w, known, args).outcome.IsUpload() <==>
              (ToolReady(w) && LoggedIn(w.earlyLogin) && w.downloaderExit == 0
               && w.present(Target(w, args)) && LoggedIn(w.uploadLogin))
    ensures Main(w, known, args).outcome.IsUpload() ==>
              && Main(w, known, args).outcome.path == Target(w, args)
              && Main(w, known, args).outcome.parentFileId == known.parentFileId
              && Main(w, known, args).outcome.driveId == known.driveId
              && Main(w, known, args).effects[|Main(w, known, args).effects| - 3..]
                 == [Login, Download(args), Login]
  {
  }

  /**
   * Only the visible names listed before the download matter: hidden
   * entries and the listing order before the download change neither the
   * chosen path nor the run.
   */
  lemma BeforeListingVisibleOnly(w: World, known: Known, args: seq<string>, before': seq<string>)
    requires forall n :: !IsHidden(n) ==> (n in w.before <==> n in before')
    ensures Target(w.(before := before'), args) == Target(w, args)
    ensures Main(w.(before := before'), known, args) == Main(w, known, args)
  {
    assert PreSnapshot(before') == PreSnapshot(w.before);
  }
}
