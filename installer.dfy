/**
 * The Installer of installer.py: the table of running tasks, the choice a
 * package selection makes, the installed-state guard, and the check of the
 * Flatpak remote list against the one stored in the settings.
 */
module Installer {
  import opened Wrappers
  import opened Strings
  import opened PkgInfo
  import opened Tasks
  import opened Flatpak
  import Apt

  // ---------------------------------------------------------------------------
  // The stored remote list

  /** `"%s" % x` for a None-or-string attribute. */
  function PyStr(o: Option<string>): (r: string)
    ensures o.Some? ==> r == o.value
    ensures o.None? ==> r == "None"
  {
    if o.Some? then o.value else "None"
  }

  /** `str(b)` for a bool. */
  function BoolStr(b: bool): (r: string)
    ensures b ==> r == "True"
    ensures !b ==> r == "False"
  {
    if b then "True" else "False"
  }

  /** The settings item of one remote: "name::url::disabled". */
  function RemoteItem(ri: RemoteInfo): (r: string)
    ensures StartsWith(r, PyStr(ri.name) + "::" + PyStr(ri.url) + "::")
    ensures EndsWith(r, "::True") <==> ri.disabled
  {
    var r := PyStr(ri.name) + "::" + PyStr(ri.url) + "::" + BoolStr(ri.disabled);
    assert r[..|PyStr(ri.name) + "::" + PyStr(ri.url) + "::"|] == PyStr(ri.name) + "::" + PyStr(ri.url) + "::";
    assert ri.disabled ==> r[|r| - 6..] == "::True";
    assert !ri.disabled ==> r[|r| - 7..] == "::False";
    assert !ri.disabled ==> r[|r| - 6..] != "::True" by {
      if !ri.disabled {
        assert r[|r| - 1] == 'e' && r[|r| - 2] == 's';
      }
    }
    r
  }

  /** One settings item per remote, in the remotes' order. */
  function RemoteItems(rs: seq<RemoteInfo>): (r: seq<string>)
    ensures |r| == |rs| && forall i :: 0 <= i < |rs| ==> r[i] == RemoteItem(rs[i])
  {
    seq(|rs|, i requires 0 <= i < |rs| => RemoteItem(rs[i]))
  }

  /**
   * list_flatpak_remotes: nothing without Flatpak support; otherwise one
   * FlatpakRemoteInfo per remote libflatpak lists, and nothing when listing raises.
   */
  function ListFlatpakRemotes(haveFlatpak: bool, listed: Result<seq<Remote>>): (r: seq<RemoteInfo>)
    ensures !haveFlatpak || listed.Err? ==> r == []
    ensures haveFlatpak && listed.Ok? ==>
      |r| == |listed.value| && forall i :: 0 <= i < |r| ==> r[i] == FromRemote(listed.value[i])
  {
    if !haveFlatpak then []
    else match listed
      case Err(_) => []
      case Ok(rs) => seq(|rs|, i requires 0 <= i < |rs| => FromRemote(rs[i]))
  }

  /**
   * The remotes count as changed when an item of the current list is missing
   * from the saved one, or the two lists differ in length.
   */
  predicate RemotesChanged(saved: seq<string>, current: seq<string>) {
    (exists i :: 0 <= i < |current| && current[i] !in saved) || |saved| != |current|
  }

  predicate Distinct(s: seq<string>) {
    forall i, j :: 0 <= i < j < |s| ==> s[i] != s[j]
  }

  lemma {:induction false} CardinalityAtMostLength(s: seq<string>)
    ensures |set x | x in s| <= |s|
    ensures Distinct(s) ==> |set x | x in s| == |s|
  {
    if |s| > 0 {
      var tail := s[1..];
      CardinalityAtMostLength(tail);
      assert (set x | x in s) == (set x | x in tail) + {s[0]};
      if Distinct(s) {
        assert forall j :: 0 <= j < |tail| ==> tail[j] == s[j + 1];
        assert s[0] !in tail;
        assert Distinct(tail) by {
          forall i, j | 0 <= i < j < |tail| ensures tail[i] != tail[j] {
            assert tail[i] == s[i + 1] && tail[j] == s[j + 1];
          }
        }
      }
    }
  }

  lemma SubsetOfEqualSize(a: set<string>, b: set<string>)
    requires a <= b && |b| <= |a|
    ensures a == b
  {
    assert b == a + (b - a);
    assert |b - a| == 0;
  }

  /**
   * With distinct current items (remote names are unique), the remotes are
   * unchanged exactly when both lists hold the same items and are equally long.
   */
  lemma UnchangedMeansSameItems(saved: seq<string>, current: seq<string>)
    requires Distinct(current)
    ensures !RemotesChanged(saved, current) <==>
      (set x | x in saved) == (set x | x in current) && |saved| == |current|
  {
    var a := set x | x in current;
    var b := set x | x in saved;
    if !RemotesChanged(saved, current) {
      assert a <= b by {
        forall x | x in a ensures x in b {
          var i :| 0 <= i < |current| && current[i] == x;
        }
      }
      CardinalityAtMostLength(saved);
      CardinalityAtMostLength(current);
      SubsetOfEqualSize(a, b);
    }
    if b == a && |saved| == |current| {
      forall i | 0 <= i < |current| ensures current[i] in saved {
        assert current[i] in a;
      }
    }
  }

  /** A list just stored registers as unchanged against the same remotes. */
  lemma StoredRemotesUnchanged(rs: seq<RemoteInfo>)
    ensures !RemotesChanged(RemoteItems(rs), RemoteItems(rs))
  {
    var items := RemoteItems(rs);
    forall i | 0 <= i < |items| ensures items[i] in items {
    }
  }

  /** Disabling or enabling a remote changes its item. */
  lemma DisabledChangesItem(ri: RemoteInfo)
    ensures RemoteItem(ri) != RemoteItem(ri.(disabled := !ri.disabled))
  {
  }

  /** A remote whose item is not saved, such as one newly disabled, counts as a change. */
  lemma NewItemIsChange(saved: seq<string>, rs: seq<RemoteInfo>, k: nat)
    requires k < |rs| && RemoteItem(rs[k]) !in saved
    ensures RemotesChanged(saved, RemoteItems(rs))
  {
    assert RemoteItems(rs)[k] == RemoteItem(rs[k]);
  }

  // ---------------------------------------------------------------------------
  // Tasks

  /** The key execute_task stores a task under: the pkginfo's hash, or "updates" without a pkginfo. */
  function ExecuteKey(task: InstallerTask): (r: Option<string>)
    reads task, if task.pkginfo.Some? then {task.pkginfo.value.Obj()} else {}
  {
    if task.pkginfo.None? then Some("updates") else task.pkginfo.value.PkgHash()
  }

  /**
   * The key _task_finished and _task_error delete: "updates" without a pkginfo,
   * the pkginfo's hash when it is non-empty, and none otherwise.
   */
  function FinishKey(task: InstallerTask): (r: Option<string>)
    reads task, if task.pkginfo.Some? then {task.pkginfo.value.Obj()} else {}
    ensures r.Some? ==> r == ExecuteKey(task) && r.value != ""
    ensures r.None? <==> task.pkginfo.Some? && !Truthy(task.pkginfo.value.PkgHash())
  {
    if task.pkginfo.None? then Some("updates")
    else if Truthy(task.pkginfo.value.PkgHash()) then task.pkginfo.value.PkgHash()
    else None
  }

  /** The task table after a task is stored under `key`. */
  function Tracked(tasks: map<Option<string>, InstallerTask>, key: Option<string>, task: InstallerTask):
    (r: map<Option<string>, InstallerTask>)
    ensures key in r && r[key] == task && r.Keys == tasks.Keys + {key}
    ensures forall k :: k in tasks && k != key ==> k in r && r[k] == tasks[k]
  {
    tasks[key := task]
  }

  /** The task table after the key, if any, is deleted; a key that is not there is ignored. */
  function Forgotten(tasks: map<Option<string>, InstallerTask>, key: Option<string>):
    (r: map<Option<string>, InstallerTask>)
    ensures key.Some? ==> r.Keys == tasks.Keys - {key}
    ensures key.None? ==> r == tasks
    ensures forall k :: k in r ==> k in tasks && r[k] == tasks[k]
  {
    if key.Some? then tasks - {key} else tasks
  }

  /** Storing a task under a new key and then finishing it gives the table back. */
  lemma TrackThenForget(tasks: map<Option<string>, InstallerTask>, key: Option<string>, task: InstallerTask)
    requires key.Some? && key !in tasks
    ensures Forgotten(Tracked(tasks, key, task), key) == tasks
  {
    var r := Forgotten(Tracked(tasks, key, task), key);
    assert r.Keys == tasks.Keys;
  }

  /** What _post_task_update does next: an apt task reloads the apt cache in a thread first. */
  datatype PostUpdate = SyncAptThenNotify | Notify

  function PostUpdateFor(task: InstallerTask): (r: PostUpdate)
    reads task, if task.pkginfo.Some? then {task.pkginfo.value.Obj()} else {}
    requires task.pkginfo.Some? ==> task.pkginfo.value.PkgHash().Some?
    ensures r == SyncAptThenNotify <==> task.pkginfo.Some? && StartsWith(task.pkginfo.value.PkgHash().value, "a")
  {
    if task.pkginfo.Some? && StartsWith(task.pkginfo.value.PkgHash().value, "a") then SyncAptThenNotify else Notify
  }

  /** Where select_pkginfo sends a new task: _apt.select_packages for an apt hash, _flatpak otherwise. */
  datatype Backend = AptBackend | FlatpakBackend

  /** What select_pkginfo did: found the task already tracked, or started a new one. */
  datatype Selection = Existing(task: InstallerTask) | Started(task: InstallerTask, backend: Backend)

  class Installer {
    /** pkg_type: None for all packages, "a" or "f" for one backend. */
    const pkgType: Option<string>
    /** cache_path: a temporary file name, or None for the default cache. */
    const cachePath: Option<string>
    const haveFlatpak: bool
    var tasks: map<Option<string>, InstallerTask>
    var remotesChanged: bool
    var inited: bool
    /** The "flatpak-remotes" key of the com.linuxmint.install settings. */
    var savedRemotes: seq<string>

    /** Installer(pkg_type, temp): nothing tracked, not inited, remotes not yet compared. */
    constructor(pkgType: Option<string>, tempPath: Option<string>, haveFlatpak: bool, savedRemotes: seq<string>)
      ensures this.pkgType == pkgType && cachePath == tempPath && this.haveFlatpak == haveFlatpak
      ensures tasks == map[] && !remotesChanged && !inited && this.savedRemotes == savedRemotes
    {
      this.pkgType := pkgType;
      cachePath := tempPath;
      this.haveFlatpak := haveFlatpak;
      tasks := map[];
      remotesChanged := false;
      inited := false;
      this.savedRemotes := savedRemotes;
    }

    /** is_busy */
    function IsBusy(): (r: bool)
      reads this
      ensures r <==> GetTaskCount() > 0
    {
      tasks != map[]
    }

    /** get_task_count */
    function GetTaskCount(): (r: nat)
      reads this
      ensures r == 0 <==> tasks == map[]
    {
      |tasks.Keys|
    }

    /** execute_task: the task is tracked under its key, replacing a task already there. */
    method ExecuteTask(task: InstallerTask)
      modifies this
      ensures tasks == Tracked(old(tasks), ExecuteKey(task), task)
      ensures GetTaskCount() == old(GetTaskCount()) + (if ExecuteKey(task) in old(tasks) then 0 else 1)
      ensures IsBusy()
      ensures unchanged(this`savedRemotes) && unchanged(this`inited) && unchanged(this`remotesChanged)
    {
      var key := ExecuteKey(task);
      tasks := tasks[key := task];
      assert tasks.Keys == old(tasks).Keys + {key};
      assert key in tasks;
    }

    /** The common part of _task_finished and _task_error. */
    method ForgetTask(task: InstallerTask) returns (next: PostUpdate)
      requires task.pkginfo.Some? ==> task.pkginfo.value.PkgHash().Some?
      modifies this
      ensures tasks == Forgotten(old(tasks), FinishKey(task))
      ensures next == PostUpdateFor(task)
      ensures unchanged(this`savedRemotes) && unchanged(this`inited) && unchanged(this`remotesChanged)
    {
      var key := FinishKey(task);
      if key.Some? {
        tasks := tasks - {key};
      }
      next := PostUpdateFor(task);
    }

    /** _task_finished */
    method TaskFinished(task: InstallerTask) returns (next: PostUpdate)
      requires task.pkginfo.Some? ==> task.pkginfo.value.PkgHash().Some?
      modifies this
      ensures tasks == Forgotten(old(tasks), FinishKey(task))
      ensures next == PostUpdateFor(task)
      ensures unchanged(this`savedRemotes) && unchanged(this`inited) && unchanged(this`remotesChanged)
    {
      next := ForgetTask(task);
    }

    /** _task_error: the same bookkeeping as a finished task. */
    method TaskError(task: InstallerTask) returns (next: PostUpdate)
      requires task.pkginfo.Some? ==> task.pkginfo.value.PkgHash().Some?
      modifies this
      ensures tasks == Forgotten(old(tasks), FinishKey(task))
      ensures next == PostUpdateFor(task)
      ensures unchanged(this`savedRemotes) && unchanged(this`inited) && unchanged(this`remotesChanged)
    {
      next := ForgetTask(task);
    }

    /**
     * pkginfo_is_installed: never before the installer is inited; then the apt
     * cache decides for an apt hash and, with Flatpak support, the installed
     * ref (`refInstalled`, what get_installed_ref answers) for a Flatpak hash.
     */
    function PkginfoIsInstalled(p: Entry, aptPackages: seq<AptPackage>, refInstalled: bool): (r: bool)
      reads this, p.Obj()
      requires inited ==> p.PkgHash().Some?
      ensures r ==> inited
      ensures inited && StartsWith(p.PkgHash().value, "a") ==> (r <==> Apt.AptIsInstalled(aptPackages, p.Name()))
      ensures inited && !StartsWith(p.PkgHash().value, "a") ==>
        (r <==> haveFlatpak && StartsWith(p.PkgHash().value, "f") && refInstalled)
    {
      if inited then
        if StartsWith(p.PkgHash().value, "a") then Apt.AptIsInstalled(aptPackages, p.Name())
        else if haveFlatpak && StartsWith(p.PkgHash().value, "f") then refInstalled
        else false
      else false
    }

    /**
     * select_pkginfo: a package already tracked hands back its task's
     * cancellable; otherwise a new task removes an installed package and
     * installs any other, shows the pending version (install) or the deployed
     * one (removal: for apt the same pending version), and goes to the backend
     * of its hash. `pending` is get_version's answer and `deployed` what
     * _get_deployed_version answers for a Flatpak.
     */
    method SelectPkginfo(p: Entry, aptPackages: seq<AptPackage>, refInstalled: bool,
                         pending: Option<string>, deployed: Option<string>, hasInfoErrorCallback: bool)
      returns (cancellable: Cancellable, selection: Selection)
      requires p.PkgHash().Some?
      modifies {}
      ensures p.PkgHash() in tasks ==>
        selection == Existing(tasks[p.PkgHash()]) && cancellable == tasks[p.PkgHash()].cancellable
      ensures p.PkgHash() !in tasks ==> selection.Started? && fresh(selection.task)
      ensures selection.Started? ==>
        var t := selection.task;
        cancellable == t.cancellable && t.pkginfo == Some(p) && t.hasInfoErrorCallback == hasInfoErrorCallback
        && (t.taskType == Uninstall <==> PkginfoIsInstalled(p, aptPackages, refInstalled))
        && (t.taskType == Install <==> !PkginfoIsInstalled(p, aptPackages, refInstalled))
        && t.taskType != Update
        && t.version == (if t.taskType == Install || StartsWith(p.PkgHash().value, "a") then pending else deployed)
        && t.infoReadyStatus == StatusNone && t.toInstall == [] && t.toRemove == [] && t.toUpdate == []
        && (selection.backend == AptBackend <==> StartsWith(p.PkgHash().value, "a"))
    {
      var key := p.PkgHash();
      if key in tasks {
        var t := tasks[key];
        return t.cancellable, Existing(t);
      }
      var t := new InstallerTask(Some(p), hasInfoErrorCallback);
      var installed := PkginfoIsInstalled(p, aptPackages, refInstalled);
      if installed {
        t.taskType := Uninstall;
      } else {
        t.taskType := Install;
      }
      var current := if StartsWith(key.value, "a") then pending else deployed;
      t.SetVersion(pending, current);
      var backend := if StartsWith(key.value, "a") then AptBackend else FlatpakBackend;
      cancellable := t.cancellable;
      selection := Started(t, backend);
    }

    /**
     * _fp_remotes_have_changed, given what list_flatpak_remotes answers: the
     * scan stops at the first item that is not saved; otherwise the saved list
     * must be as long as the current one.
     */
    method FpRemotesHaveChanged(current: seq<RemoteInfo>) returns (changed: bool)
      ensures changed == RemotesChanged(savedRemotes, RemoteItems(current))
    {
      changed := false;
      var realRemoteCount := 0;
      var i := 0;
      while i < |current|
        invariant 0 <= i <= |current|
        invariant realRemoteCount == i
        invariant forall j :: 0 <= j < i ==> RemoteItem(current[j]) in savedRemotes
      {
        realRemoteCount := realRemoteCount + 1;
        var item := RemoteItem(current[i]);
        if item !in savedRemotes {
          changed := true;
          assert RemoteItems(current)[i] == item;
          return;
        }
        i := i + 1;
      }
      if |savedRemotes| != realRemoteCount {
        changed := true;
      }
    }

    /** _store_remotes: the settings key is set to the items of the current remotes, in order. */
    method StoreRemotes(current: seq<RemoteInfo>)
      modifies this
      ensures savedRemotes == RemoteItems(current)
      ensures tasks == old(tasks) && inited == old(inited) && remotesChanged == old(remotesChanged)
    {
      var newRemotes: seq<string> := [];
      var i := 0;
      while i < |current|
        invariant 0 <= i <= |current|
        invariant newRemotes == RemoteItems(current[..i])
      {
        assert current[..i + 1] == current[..i] + [current[i]];
        newRemotes := newRemotes + [RemoteItem(current[i])];
        i := i + 1;
      }
      assert current[..|current|] == current;
      savedRemotes := newRemotes;
    }

    /**
     * init_sync, given whether the package cache it builds has STATUS_OK: a
     * Flatpak-only installer without Flatpak support has nothing to load;
     * otherwise changed remotes are remembered, and the installer is inited
     * only when the cache loaded and the remotes did not change.
     */
    method InitSync(current: seq<RemoteInfo>, cacheOk: bool) returns (ok: bool)
      modifies this
      ensures pkgType == Some("f") && !haveFlatpak ==> ok && remotesChanged == old(remotesChanged) && inited == old(inited)
      ensures !(pkgType == Some("f") && !haveFlatpak) ==>
        remotesChanged == (old(remotesChanged) || RemotesChanged(savedRemotes, RemoteItems(current)))
        && (ok <==> cacheOk && !remotesChanged)
        && inited == (old(inited) || ok)
      ensures tasks == old(tasks) && savedRemotes == old(savedRemotes)
    {
      if pkgType == Some("f") && !haveFlatpak {
        return true;
      }
      var changed := FpRemotesHaveChanged(current);
      if changed {
        remotesChanged := true;
      }
      if cacheOk && !remotesChanged {
        inited := true;
        return true;
      }
      return false;
    }

    /**
     * _idle_cache_load_done: the installer is inited, and remotes that had
     * changed are stored, after which they register as unchanged.
     */
    method CacheLoadDone(current: seq<RemoteInfo>)
      modifies this
      ensures inited && !remotesChanged && tasks == old(tasks)
      ensures old(remotesChanged) ==> savedRemotes == RemoteItems(current) && !RemotesChanged(savedRemotes, RemoteItems(current))
      ensures !old(remotesChanged) ==> savedRemotes == old(savedRemotes)
    {
      inited := true;
      if remotesChanged {
        StoreRemotes(current);
        StoredRemotesUnchanged(current);
        remotesChanged := false;
      }
    }
  }
}
