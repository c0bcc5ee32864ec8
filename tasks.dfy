/**
 * InstallerTask of installer.py: the record of one pending install, removal or
 * update that the apt and Flatpak backends fill in and the Installer tracks.
 */
module Tasks {
  import opened Wrappers
  import opened Strings
  import opened PkgInfo

  /** InstallerTask.INSTALL_TASK / UNINSTALL_TASK / UPDATE_TASK */
  datatype TaskType = Install | Uninstall | Update

  function TaskTypeName(t: TaskType): string {
    match t
    case Install => "install"
    case Uninstall => "remove"
    case Update => "update"
  }

  /** InstallerTask.STATUS_*: whether a task can proceed once its changes are calculated. */
  datatype Status = StatusNone | StatusOk | Broken | Forbidden | StatusUnknown

  function StatusName(s: Status): string {
    match s
    case StatusNone => "none"
    case StatusOk => "ok"
    case Broken => "broken"
    case Forbidden => "forbidden"
    case StatusUnknown => "unknown"
  }

  /**
   * The confirm/cancel/execute callables: the constructor's defaults (confirm and
   * cancel answer True, execute is None) or those a backend installs on STATUS_OK.
   */
  datatype Handlers = Defaults | AptHandlers | FlatpakHandlers

  /**
   * An exception handed to handle_error: its numeric code, its `.message` attribute
   * (None when the exception has none, as for a plain Python exception) and str(error).
   */
  datatype Error = Error(code: int, message: Option<string>, text: string)

  /** handle_error's error_message: `.message`, or str(error) when there is none. */
  function ErrorText(e: Error): (r: string)
    ensures e.message.Some? ==> r == e.message.value
    ensures e.message.None? ==> r == e.text
  {
    if e.message.Some? then e.message.value else e.text
  }

  /** Where handle_error sends the message. */
  datatype ErrorRoute = ErrorDialog | InfoErrorCallback

  /** Which of the two cleanup callbacks a finished transaction calls. */
  datatype Cleanup = ErrorCleanup | FinishedCleanup

  /** The cleanup choice of both backends' on_transaction_finished: an error message selects the error cleanup. */
  function CleanupFor(errorMessage: Option<string>): (r: Cleanup)
    ensures r == ErrorCleanup <==> Truthy(errorMessage)
  {
    if Truthy(errorMessage) then ErrorCleanup else FinishedCleanup
  }

  /** The PackageKit info kind of a simulated package, as do_simulate_question sorts them. */
  datatype SackInfo = Installing | Updating | Removing | OtherInfo

  /**
   * A package from a PackageKit simulation: its info kind, name and arch, and what the
   * apt cache says of "name:arch" — candidate installed size, the installed size of the
   * first installed version (None when no version is installed), the priority of its
   * first version (None when it has none) and its apt name.
   */
  datatype SackPkg = SackPkg(info: SackInfo, name: string, arch: string, candidateSize: int,
                             installedSize: Option<int>, priority: Option<string>, aptName: string)

  /** An entry of to_install / to_remove / to_update: a PackageKit package or a Flatpak ref. */
  datatype Change = PkChange(pkg: SackPkg) | RefChange(ref: FlatpakRef)

  /** Gio.Cancellable */
  class Cancellable {
    var cancelled: bool

    constructor()
      ensures !cancelled
    {
      cancelled := false;
    }

    method Cancel()
      modifies this
      ensures cancelled
    {
      cancelled := true;
    }
  }

  class InstallerTask {
    var taskType: TaskType
    var pkginfo: Option<Entry>
    var name: Option<string>
    /** arch, branch and remote: None where the attribute is never set (a task without pkginfo). */
    var arch: Option<string>
    var branch: Option<string>
    var remote: Option<string>
    var initialRefsToUpdate: seq<string>
    var hasInfoErrorCallback: bool
    var infoReadyStatus: Status
    var handlers: Handlers
    var cancellable: Cancellable
    var errorMessage: Option<string>
    var pkitRequestId: int
    var toInstall: seq<Change>
    var toRemove: seq<Change>
    var toUpdate: seq<Change>
    var downloadSize: int
    var installSize: int
    var freedSize: int
    var version: Option<string>

    /**
     * InstallerTask(pkginfo, ...): an install task with nothing calculated yet. With a
     * pkginfo it copies its name; an apt hash ("a…") gives empty arch, branch and remote,
     * any other hash copies them from the pkginfo.
     */
    constructor(pkginfo: Option<Entry>, hasInfoErrorCallback: bool)
      requires pkginfo.Some? ==> pkginfo.value.PkgHash().Some?
      ensures taskType == Install && this.pkginfo == pkginfo && this.hasInfoErrorCallback == hasInfoErrorCallback
      ensures infoReadyStatus == StatusNone && handlers == Defaults && errorMessage.None? && pkitRequestId == 0
      ensures toInstall == [] && toRemove == [] && toUpdate == [] && initialRefsToUpdate == []
      ensures downloadSize == 0 && installSize == 0 && freedSize == 0 && version.None?
      ensures fresh(cancellable) && !cancellable.cancelled
      ensures pkginfo.None? ==> name.None? && arch.None? && branch.None? && remote.None?
      ensures pkginfo.Some? ==> name == pkginfo.value.Name()
      ensures pkginfo.Some? && StartsWith(pkginfo.value.PkgHash().value, "a") ==>
                arch == Some("") && branch == Some("") && remote == Some("")
      ensures pkginfo.Some? && !StartsWith(pkginfo.value.PkgHash().value, "a") ==>
                arch == pkginfo.value.Arch() && branch == pkginfo.value.Branch() && remote == pkginfo.value.Remote()
    {
      taskType := Install;
      this.pkginfo := pkginfo;
      this.hasInfoErrorCallback := hasInfoErrorCallback;
      initialRefsToUpdate := [];
      infoReadyStatus := StatusNone;
      handlers := Defaults;
      cancellable := new Cancellable();
      errorMessage := None;
      pkitRequestId := 0;
      toInstall := [];
      toRemove := [];
      toUpdate := [];
      downloadSize := 0;
      installSize := 0;
      freedSize := 0;
      version := None;
      name := None;
      arch := None;
      branch := None;
      remote := None;
      if pkginfo.Some? {
        var p := pkginfo.value;
        name := p.Name();
        if StartsWith(p.PkgHash().value, "a") {
          arch := Some("");
          branch := Some("");
          remote := Some("");
        } else {
          arch := p.Arch();
          remote := p.Remote();
          branch := p.Branch();
        }
      }
    }

    /**
     * set_version: an install task shows the pending version, any other task the
     * version currently deployed (both looked up by the Installer and given here).
     */
    method SetVersion(pending: Option<string>, deployed: Option<string>)
      modifies this`version
      ensures taskType == Install ==> version == pending
      ensures taskType != Install ==> version == deployed
    {
      if taskType == Install {
        version := pending;
      } else {
        version := deployed;
      }
    }

    /**
     * handle_error: records the message and says where it is shown — the info-error
     * callback only at the information stage and when one was given, a dialog otherwise.
     */
    method HandleError(e: Error, infoStage: bool) returns (route: ErrorRoute)
      modifies this`errorMessage
      ensures errorMessage == Some(ErrorText(e))
      ensures route == InfoErrorCallback <==> infoStage && hasInfoErrorCallback
    {
      errorMessage := Some(ErrorText(e));
      if infoStage {
        if !hasInfoErrorCallback {
          return ErrorDialog;
        }
        return InfoErrorCallback;
      } else {
        return ErrorDialog;
      }
    }

    /** The change lists' total length, as both backends count work. */
    function ChangeCount(): (r: nat)
      reads this
      ensures r == 0 <==> toInstall == [] && toRemove == [] && toUpdate == []
    {
      |toInstall + toRemove + toUpdate|
    }
  }
}
