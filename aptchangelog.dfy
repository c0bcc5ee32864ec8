/**
 * The string logic of the changelog retriever: package selectors, Debian
 * version epochs, the pool prefix of a source package, apt's
 * `@CHANGEPATH@` template, the choice of a changelog inside a file list,
 * the origin of a package, the y/n answer parser, and the text extracted
 * from `.changes`, `.diff.gz` and `.dsc` downloads. The downloads themselves
 * are inputs: a fetched document is its text, a checked URL is a Response.
 */
module AptChangelog {
  import opened Wrappers
  import opened Strings

  // ---------------------------------------------------------------------
  // Package selectors: `name=version` and `name/release`

  datatype Selector = Selector(name: string, version: Option<string>, release: Option<string>)

  /** The selector split of parse_package_metadata: `=` is looked for before `/`. */
  function ParseSelector(s: string): (r: Selector)
    ensures '=' in s ==> r.release.None? && r.version.Some? && r.name + "=" + r.version.value == s && '=' !in r.name
    ensures '=' !in s && '/' in s ==>
      r.version.None? && r.release.Some? && r.name + "/" + r.release.value == s && '/' !in r.name
    ensures '=' !in s && '/' !in s ==> r == Selector(s, None, None)
  {
    CharContains(s, '=');
    CharContains(s, '/');
    match SplitOnce(s, "=")
    case Some((n, v)) =>
      CharContains(n, '=');
      Selector(n, Some(v), None)
    case None =>
      match SplitOnce(s, "/")
      case Some((n, rel)) =>
        CharContains(n, '/');
        Selector(n, None, Some(rel))
      case None => Selector(s, None, None)
  }

  /** The selector written back as `name=version`, `name/release` or `name`. */
  function FormatSelector(sel: Selector): string {
    match (sel.version, sel.release)
    case (Some(v), _) => sel.name + "=" + v
    case (None, Some(rel)) => sel.name + "/" + rel
    case (None, None) => sel.name
  }

  /** Parsing a written selector gives it back when its parts are free of the separators. */
  lemma ParseFormatSelector(sel: Selector)
    requires '=' !in sel.name && '/' !in sel.name
    requires !(sel.version.Some? && sel.release.Some?)
    requires sel.release.Some? ==> '=' !in sel.release.value
    ensures ParseSelector(FormatSelector(sel)) == sel
  {
    var s := FormatSelector(sel);
    match (sel.version, sel.release)
    case (Some(v), _) =>
      SplitCons(sel.name, v, '=');
      assert s == sel.name + ['='] + v;
      CharContains(s, '=');
      assert '=' in s by { assert s[|sel.name|] == '='; }
    case (None, Some(rel)) =>
      assert s == sel.name + ['/'] + rel;
      assert s[|sel.name|] == '/';
      assert '=' !in s;
    case (None, None) =>
  }

  // ---------------------------------------------------------------------
  // Debian version epochs (Debian Policy section 5.6.12, "Version")

  /** The version with its `epoch:` removed (everything after the first ':'). */
  function StripEpoch(v: string): (r: string)
    ensures ':' !in v ==> r == v
    ensures ':' in v ==> |r| < |v| && r == v[|v| - |r|..] && v[|v| - |r| - 1] == ':' && ':' !in v[..|v| - |r| - 1]
  {
    CharContains(v, ':');
    match SplitOnce(v, ":")
    case None => v
    case Some((e, u)) =>
      CharContains(e, ':');
      assert v == e + ":" + u;
      assert v[..|v| - |u| - 1] == e;
      u
  }

  /** Stripping undoes prefixing an epoch. */
  lemma StripEpochOfEpoch(epoch: string, upstream: string)
    requires ':' !in epoch
    ensures StripEpoch(epoch + ":" + upstream) == upstream
  {
    ghost var v := epoch + ":" + upstream;
    assert v[|epoch|] == ':';
    assert forall k :: 0 <= k < |epoch| ==> v[k] == epoch[k];
    var r := StripEpoch(v);
    assert |r| == |upstream|;
    assert r == v[|epoch| + 1..];
  }

  // ---------------------------------------------------------------------
  // Pool prefix and apt's @CHANGEPATH@

  /** source_prefix: the pool directory of a source package; indexing an empty name raises. */
  function SourcePrefix(s: string): (r: Result<string>)
    ensures r.Err? <==> s == ""
    ensures r.Ok? ==> r.value <= s
    ensures r.Ok? && StartsWith(s, "lib") ==> |r.value| == if |s| < 4 then |s| else 4
    ensures r.Ok? && !StartsWith(s, "lib") ==> |r.value| == 1
  {
    if s == "" then Err("IndexError: string index out of range")
    else if StartsWith(s, "lib") then Ok(if |s| < 4 then s else s[..4])
    else Ok(s[..1])
  }

  /** The kernel work-arounds of get_apt_changelog_uri: the (source name, source version) the path is built from. */
  function KernelWorkaround(origin: string, sourceName: string, sourceVersion: string, kernelVersion: Option<string>)
    : (r: (string, string))
    ensures origin != "Ubuntu" ==> r == (sourceName, sourceVersion)
    ensures r.0 == sourceName || r.0 == "linux"
    ensures r.0 != "linux-signed" || origin != "Ubuntu"
    ensures r.1 == sourceVersion || (kernelVersion.Some? && r.1 == kernelVersion.value != "")
    ensures origin == "Ubuntu" && StartsWith(sourceName, "linux-meta") && Truthy(kernelVersion)
            ==> r == ("linux", kernelVersion.value)
    ensures origin == "Ubuntu" && !(StartsWith(sourceName, "linux-meta") && Truthy(kernelVersion))
            ==> r == (if sourceName == "linux-signed" then "linux" else sourceName, sourceVersion)
  {
    var (name, version) :=
      if origin == "Ubuntu" && StartsWith(sourceName, "linux-meta") && kernelVersion.Some? && kernelVersion.value != ""
      then ("linux", kernelVersion.value)
      else (sourceName, sourceVersion);
    if origin == "Ubuntu" && name == "linux-signed" then ("linux", version) else (name, version)
  }

  const ChangePathMarker: string := "@CHANGEPATH@"

  /** The value of @CHANGEPATH@: `COMPONENT/PREFIX/SRC/SRC_VER`, without `COMPONENT/` when the component is empty. */
  function ChangePath(component: string, sourceName: string, sourceVersion: string): Result<string> {
    match SourcePrefix(sourceName)
    case Err(e) => Err(e)
    case Ok(prefix) =>
      Ok((if component != "" then component + "/" else "")
        + prefix + "/" + sourceName + "/" + (sourceName + "_" + StripEpoch(sourceVersion)))
  }

  /** The URI apt's changelog template expands to. */
  function ExpandTemplate(uriTemplate: string, component: string, sourceName: string, sourceVersion: string)
    : Result<string>
  {
    match ChangePath(component, sourceName, sourceVersion)
    case Err(e) => Err(e)
    case Ok(path) => Ok(Replace(uriTemplate, ChangePathMarker, path))
  }

  lemma NoSlashInPrefix(s: string)
    requires SourcePrefix(s).Ok? && '/' !in s
    ensures '/' !in SourcePrefix(s).value
  {
    var p := SourcePrefix(s).value;
    assert p == s[..|p|];
  }

  /** The segments of the change path, in order. */
  function ChangePathSegments(component: string, prefix: string, sourceName: string, sourceVersion: string)
    : seq<string>
  {
    (if component != "" then [component] else []) + [prefix, sourceName, sourceName + "_" + StripEpoch(sourceVersion)]
  }

  lemma JoinThree(x: string, y: string, z: string, sep: string)
    ensures Join([x, y, z], sep) == x + sep + y + sep + z
  {
    assert [x, y, z][1..] == [y, z];
    assert [y, z][1..] == [z];
    assert Join([z], sep) == z;
    assert Join([y, z], sep) == y + sep + z;
  }

  lemma JoinFront(x: string, parts: seq<string>, sep: string)
    requires |parts| >= 1
    ensures Join([x] + parts, sep) == x + sep + Join(parts, sep)
  {
    assert ([x] + parts)[1..] == parts;
  }

  lemma PathShape(component: string, prefix: string, name: string, last: string)
    ensures (if component != "" then component + "/" else "") + prefix + "/" + name + "/" + last
      == Join((if component != "" then [component] else []) + [prefix, name, last], "/")
  {
    var three := [prefix, name, last];
    JoinThree(prefix, name, last, "/");
    if component != "" {
      JoinFront(component, three, "/");
    } else {
      assert [] + three == three;
    }
  }

  lemma ChangePathIsJoin(component: string, sourceName: string, sourceVersion: string)
    requires sourceName != ""
    ensures ChangePath(component, sourceName, sourceVersion)
      == Ok(Join(ChangePathSegments(component, SourcePrefix(sourceName).value, sourceName, sourceVersion), "/"))
  {
    PathShape(component, SourcePrefix(sourceName).value, sourceName, sourceName + "_" + StripEpoch(sourceVersion));
  }

  lemma NoSlashInEpochless(v: string)
    requires '/' !in v
    ensures '/' !in StripEpoch(v)
  {
    var u := StripEpoch(v);
    assert u == v[|v| - |u|..];
  }

  /**
   * Split on "/", the path gives back the component (only when it is
   * non-empty), the prefix, the source name and `name_version` without the
   * epoch.
   */
  lemma ChangePathSplits(component: string, sourceName: string, sourceVersion: string)
    requires sourceName != ""
    requires '/' !in component && '/' !in sourceName && '/' !in sourceVersion
    ensures ChangePath(component, sourceName, sourceVersion).Ok?
    ensures Split(ChangePath(component, sourceName, sourceVersion).value, "/") ==
      (if component == "" then [] else [component])
      + [SourcePrefix(sourceName).value, sourceName, sourceName + "_" + StripEpoch(sourceVersion)]
  {
    var prefix := SourcePrefix(sourceName).value;
    NoSlashInPrefix(sourceName);
    NoSlashInEpochless(sourceVersion);
    var segs := ChangePathSegments(component, prefix, sourceName, sourceVersion);
    assert '/' !in sourceName + "_" + StripEpoch(sourceVersion);
    ChangePathIsJoin(component, sourceName, sourceVersion);
    SplitJoin(segs, '/');
  }

  /** A template `X@CHANGEPATH@Y` expands to `X`, the change path and `Y`. */
  lemma ExpandTemplateOnce(x: string, y: string, component: string, sourceName: string, sourceVersion: string)
    requires '@' !in x && '@' !in y
    requires ChangePath(component, sourceName, sourceVersion).Ok?
    ensures ExpandTemplate(x + ChangePathMarker + y, component, sourceName, sourceVersion)
      == Ok(x + ChangePath(component, sourceName, sourceVersion).value + y)
  {
    ReplaceOnce(x, ChangePathMarker, y, ChangePath(component, sourceName, sourceVersion).value);
  }

  /** A template without the marker is used as it is. */
  lemma ExpandTemplateWithoutMarker(uriTemplate: string, component: string, sourceName: string, sourceVersion: string)
    requires !Contains(uriTemplate, ChangePathMarker) && sourceName != ""
    ensures ExpandTemplate(uriTemplate, component, sourceName, sourceVersion) == Ok(uriTemplate)
  {
    ReplaceAbsent(uriTemplate, ChangePathMarker, ChangePath(component, sourceName, sourceVersion).value);
  }

  // ---------------------------------------------------------------------
  // The candidate package and the retriever around it

  /** The `_Package` record of the candidate version; get_apt_changelog_uri renames its source. */
  class Package {
    var name: string
    var version: string
    var sourceName: string
    var sourceVersion: string
    var sourceVersionRaw: string
    var uri: string
    var filename: string
    var origin: string
    var component: string
    var downloadable: bool
    var isInstalled: bool
    var installedFiles: seq<string>

    /**
     * The tail of parse_package_metadata: the candidate's fields, the file
     * name reduced to its basename, the installed files only for an installed
     * package, and the epoch stripped off the source version, keeping the
     * original in sourceVersionRaw.
     */
    constructor (name: string, version: string, sourceName: string, sourceVersion: string, uri: string,
                 filename: string, origin: string, component: string, downloadable: bool,
                 isInstalled: bool, installedFiles: seq<string>)
      ensures this.name == name && this.version == version && this.sourceName == sourceName
      ensures this.sourceVersionRaw == sourceVersion && this.sourceVersion == StripEpoch(sourceVersion)
      ensures this.uri == uri && this.filename == Basename(filename) && this.origin == origin
      ensures this.component == component && this.downloadable == downloadable && this.isInstalled == isInstalled
      ensures this.installedFiles == if isInstalled then installedFiles else []
    {
      var base, bare := Basename(filename), StripEpoch(sourceVersion);
      this.name := name;
      this.version := version;
      this.sourceName := sourceName;
      this.uri := uri;
      this.filename := base;
      this.origin := origin;
      this.component := component;
      this.downloadable := downloadable;
      this.isInstalled := isInstalled;
      this.installedFiles := if isInstalled then installedFiles else [];
      this.sourceVersionRaw := sourceVersion;
      this.sourceVersion := bare;
    }
  }

  class Retriever {
    var candidate: Package

    constructor (candidate: Package)
      ensures this.candidate == candidate
    {
      this.candidate := candidate;
    }

    /** source_prefix(source_name): an empty or missing argument means the candidate's source name. */
    function SourcePrefixOf(sourceName: Option<string>): (r: Result<string>)
      reads this, candidate
      ensures sourceName.Some? && sourceName.value != "" ==> r.Ok? && r.value <= sourceName.value
      ensures (sourceName.None? || sourceName.value == "") ==> (r.Ok? <==> candidate.sourceName != "")
    {
      match sourceName
      case Some(s) => if s != "" then SourcePrefix(s) else SourcePrefix(candidate.sourceName)
      case None => SourcePrefix(candidate.sourceName)
    }

    /**
     * get_apt_changelog_uri. `kernelVersion` is what the walk over the meta
     * package's dependencies found, the source version of the kernel it
     * depends on.
     */
    method GetAptChangelogUri(uriTemplate: string, kernelVersion: Option<string>) returns (r: Result<string>)
      modifies candidate`sourceName
      ensures var (name, version) :=
        KernelWorkaround(old(candidate.origin), old(candidate.sourceName), old(candidate.sourceVersion), kernelVersion);
        candidate.sourceName == name && r == ExpandTemplate(uriTemplate, candidate.component, name, version)
      ensures candidate.origin == old(candidate.origin) && candidate.component == old(candidate.component)
      ensures candidate.sourceVersion == old(candidate.sourceVersion) && candidate.name == old(candidate.name)
      ensures candidate.sourceVersionRaw == old(candidate.sourceVersionRaw)
    {
      ghost var kw := KernelWorkaround(candidate.origin, candidate.sourceName, candidate.sourceVersion, kernelVersion);
      var sourceVersion := candidate.sourceVersion;
      if candidate.origin == "Ubuntu" && StartsWith(candidate.sourceName, "linux-meta") {
        if kernelVersion.Some? && kernelVersion.value != "" {
          sourceVersion := kernelVersion.value;
          candidate.sourceName := "linux";
        }
      }
      if candidate.origin == "Ubuntu" && candidate.sourceName == "linux-signed" {
        candidate.sourceName := "linux";
      }
      assert candidate.sourceName == kw.0 && sourceVersion == kw.1;
      if ':' in sourceVersion {
        sourceVersion := StripEpoch(sourceVersion);
      }
      assert sourceVersion == StripEpoch(kw.1);
      var prefix := SourcePrefix(candidate.sourceName);
      if prefix.Err? {
        return Err(prefix.reason);
      }
      var component := if candidate.component != "" then candidate.component + "/" else "";
      r := Ok(Replace(uriTemplate, ChangePathMarker,
        component + prefix.value + "/" + candidate.sourceName + "/" + (candidate.sourceName + "_" + sourceVersion)));
    }
  }

  // ---------------------------------------------------------------------
  // Origins

  datatype Origin = LocalPackage | LinuxMint | LaunchpadPpa | AptOrigin | Unsupported

  /** The origin classification at the start of get_changelog; `aptOrigins` is apt's Acquire::Changelogs::URI::Origin list. */
  function ClassifyOrigin(downloadable: bool, origin: string, aptOrigins: Option<seq<string>>): (r: Origin)
    ensures r == LocalPackage <==> !downloadable
    ensures r == LinuxMint <==> downloadable && origin == "linuxmint"
    ensures r == LaunchpadPpa <==> downloadable && origin != "linuxmint" && StartsWith(origin, "LP-PPA-")
    ensures r == AptOrigin <==> (downloadable && origin != "linuxmint" && !StartsWith(origin, "LP-PPA-")
      && aptOrigins.Some? && origin in aptOrigins.value)
  {
    if !downloadable then LocalPackage
    else if origin == "linuxmint" then LinuxMint
    else if StartsWith(origin, "LP-PPA-") then LaunchpadPpa
    else if aptOrigins.Some? && origin in aptOrigins.value then AptOrigin
    else Unsupported
  }

  /**
   * Owner and archive name of a Launchpad PPA download URI: the first two `/`-separated
   * segments after `ppa.launchpad.net/`. Python's unpacking raises unless a third follows.
   */
  function PpaOwnerAndName(uri: string): (r: Result<(string, string)>)
    ensures r.Ok? <==> |Split(uri, "ppa.launchpad.net/")| >= 2
                       && |Split(Split(uri, "ppa.launchpad.net/")[1], "/")| >= 3
    ensures r.Ok? ==> var segments := Split(Split(uri, "ppa.launchpad.net/")[1], "/");
                      r.value == (segments[0], segments[1])
    ensures r.Ok? ==> '/' !in r.value.0 && '/' !in r.value.1
  {
    var parts := Split(uri, "ppa.launchpad.net/");
    if |parts| < 2 then Err("IndexError: list index out of range")
    else match SplitOnce(parts[1], "/")
      case None => Err("ValueError: not enough values to unpack")
      case Some((owner, rest)) =>
        match SplitOnce(rest, "/")
        case None => Err("ValueError: not enough values to unpack")
        case Some((ppa, _)) =>
          assert !Contains(owner, "/") && !Contains(ppa, "/");
          CharContains(owner, '/');
          CharContains(ppa, '/');
          Ok((owner, ppa))
  }

  const PpaPlaceholder: string := "{self.source_prefix()}"

  /** The PPA pool directory as the source writes it: a `%` format string, so the braces stay literal. */
  function PpaBaseUriAsWritten(owner: string, ppa: string, sourceName: string): string {
    "http://ppa.launchpad.net/" + owner + "/" + ppa + "/ubuntu/pool/main/" + PpaPlaceholder + "/" + sourceName
  }

  /** The PPA pool directory with the source prefix filled in, as the pool layout has it. */
  function PpaBaseUri(owner: string, ppa: string, sourceName: string): Result<string> {
    match SourcePrefix(sourceName)
    case Err(e) => Err(e)
    case Ok(prefix) =>
      Ok("http://ppa.launchpad.net/" + owner + "/" + ppa + "/ubuntu/pool/main/" + prefix + "/" + sourceName)
  }

  /** Whatever the package, the written PPA URI carries the unexpanded placeholder. */
  lemma PpaBaseUriKeepsPlaceholder(owner: string, ppa: string, sourceName: string)
    ensures Contains(PpaBaseUriAsWritten(owner, ppa, sourceName), PpaPlaceholder)
  {
    var u := PpaBaseUriAsWritten(owner, ppa, sourceName);
    var at := |"http://ppa.launchpad.net/" + owner + "/" + ppa + "/ubuntu/pool/main/"|;
    assert u == ("http://ppa.launchpad.net/" + owner + "/" + ppa + "/ubuntu/pool/main/") + PpaPlaceholder + ("/" + sourceName);
    assert u[at..at + |PpaPlaceholder|] == PpaPlaceholder;
    ContainsAt(u, PpaPlaceholder, at);
  }

  /** The pool prefix of `apt` is its first letter. */
  lemma AptSourcePrefix()
    ensures SourcePrefix("apt") == Ok("a")
  {
    assert !StartsWith("apt", "lib") by { assert "apt"[0] != "lib"[0]; }
    assert "apt"[..1] == "a";
  }

  /** For the package `apt` the written URI and the pool directory differ. */
  lemma PpaBaseUriCounterexample()
    ensures PpaBaseUri("team", "stable", "apt").Ok?
    ensures PpaBaseUriAsWritten("team", "stable", "apt") != PpaBaseUri("team", "stable", "apt").value
  {
    AptSourcePrefix();
    PpaBaseUriKeepsPlaceholder("team", "stable", "apt");
    PpaBaseUriFillsPlaceholder("team", "stable", "apt");
  }

  /** The corrected URI is the written one with the placeholder filled with the pool prefix. */
  lemma PpaBaseUriFillsPlaceholder(owner: string, ppa: string, sourceName: string)
    requires sourceName != "" && '{' !in owner && '{' !in ppa && '{' !in sourceName
    ensures PpaBaseUri(owner, ppa, sourceName).Ok?
    ensures Replace(PpaBaseUriAsWritten(owner, ppa, sourceName), PpaPlaceholder, SourcePrefix(sourceName).value)
      == PpaBaseUri(owner, ppa, sourceName).value
    ensures !Contains(PpaBaseUri(owner, ppa, sourceName).value, PpaPlaceholder)
  {
    var head := "http://ppa.launchpad.net/" + owner + "/" + ppa + "/ubuntu/pool/main/";
    var tail := "/" + sourceName;
    var prefix := SourcePrefix(sourceName).value;
    assert '{' !in "http://ppa.launchpad.net/" && '{' !in "/ubuntu/pool/main/";
    assert '{' !in head;
    assert PpaBaseUriAsWritten(owner, ppa, sourceName) == head + PpaPlaceholder + tail;
    ReplaceOnce(head, PpaPlaceholder, tail, prefix);
    assert PpaBaseUri(owner, ppa, sourceName).value == head + prefix + tail;
    assert '{' !in prefix by { assert prefix == sourceName[..|prefix|]; }
    var u := head + prefix + tail;
    assert '{' !in u;
    MissingHead(u, PpaPlaceholder);
  }

  /** The last-change fallbacks for Linux Mint (per architecture) and Launchpad PPAs. */
  function MintChangesUri(sourceName: string, sourceVersion: string, arch: string): string {
    "http://packages.linuxmint.com/dev/" + sourceName + "_" + sourceVersion + "_" + arch + ".changes"
  }

  function LaunchpadChangesUri(owner: string, ppa: string, sourceName: string, sourceVersion: string): string {
    "https://launchpad.net/~" + owner + "/+archive/ubuntu/" + ppa + "/+files/" + sourceName + "_" + sourceVersion
      + "_source.changes"
  }

  /** Both fallbacks are `.changes` documents, so the `.changes` extraction handles what they return. */
  lemma FallbacksAreChanges(owner: string, ppa: string, sourceName: string, sourceVersion: string, arch: string)
    ensures EndsWith(MintChangesUri(sourceName, sourceVersion, arch), ".changes")
    ensures EndsWith(LaunchpadChangesUri(owner, ppa, sourceName, sourceVersion), ".changes")
  {
    var m := MintChangesUri(sourceName, sourceVersion, arch);
    assert m == ("http://packages.linuxmint.com/dev/" + sourceName + "_" + sourceVersion + "_" + arch) + ".changes";
    var l := LaunchpadChangesUri(owner, ppa, sourceName, sourceVersion);
    assert l == ("https://launchpad.net/~" + owner + "/+archive/ubuntu/" + ppa + "/+files/" + sourceName + "_"
      + sourceVersion + "_source") + ".changes";
  }

  // ---------------------------------------------------------------------
  // y/n answers

  /** strtobool: y/yes and n/no in any letter case; anything else raises ValueError. */
  function StrToBool(val: string): (r: Result<bool>)
    ensures r == Ok(true) <==> Lower(val) == "y" || Lower(val) == "yes"
    ensures r == Ok(false) <==> Lower(val) == "n" || Lower(val) == "no"
    ensures r.Err? <==> Lower(val) !in ["y", "yes", "n", "no"]
  {
    var v := Lower(val);
    if v == "y" || v == "yes" then Ok(true)
    else if v == "n" || v == "no" then Ok(false)
    else Err("ValueError: Invalid response value " + v)
  }

  /** The answer does not depend on letter case. */
  lemma StrToBoolIgnoresCase(val: string)
    ensures StrToBool(Upper(val)) == StrToBool(val)
  {
    LowerUpper(val);
  }

  // ---------------------------------------------------------------------
  // Choosing the changelog file of a package's file list

  function ChangelogCandidates(filelist: seq<string>): (r: seq<string>)
    ensures forall x :: x in r ==> x in filelist && Contains(Lower(x), "changelog")
    ensures forall x :: x in filelist && Contains(Lower(x), "changelog") ==> x in r
  {
    if |filelist| == 0 then []
    else (if Contains(Lower(filelist[0]), "changelog") then [filelist[0]] else []) + ChangelogCandidates(filelist[1..])
  }

  /** The first item whose lower-case form starts with `p`. */
  function FirstWithPrefix(files: seq<string>, p: string): (r: Option<string>)
    ensures r.Some? ==> r.value in files && StartsWith(Lower(r.value), p)
    ensures r.None? <==> forall x :: x in files ==> !StartsWith(Lower(x), p)
  {
    if |files| == 0 then None
    else if StartsWith(Lower(files[0]), p) then Some(files[0])
    else FirstWithPrefix(files[1..], p)
  }

  /** The item found is the first one that matches: no earlier item starts with `p`. */
  lemma {:induction false} FirstWithPrefixIsFirst(files: seq<string>, p: string) returns (i: nat)
    requires FirstWithPrefix(files, p).Some?
    ensures i < |files| && files[i] == FirstWithPrefix(files, p).value
    ensures forall j :: 0 <= j < i ==> !StartsWith(Lower(files[j]), p)
  {
    if StartsWith(Lower(files[0]), p) {
      i := 0;
    } else {
      var k := FirstWithPrefixIsFirst(files[1..], p);
      i := k + 1;
      assert files[i] == files[1..][k];
      forall j | 0 <= j < i
        ensures !StartsWith(Lower(files[j]), p)
      {
        if j > 0 {
          assert files[j] == files[1..][j - 1];
        }
      }
    }
  }

  /** The lower-case basename starts with "changelog". */
  predicate ChangelogBasename(x: string) {
    StartsWith(Lower(Basename(x)), "changelog")
  }

  /** The first item whose lower-case basename starts with "changelog". */
  function FirstChangelogBasename(files: seq<string>): (r: Option<string>)
    ensures r.Some? ==> r.value in files && ChangelogBasename(r.value)
    ensures r.None? <==> forall x :: x in files ==> !ChangelogBasename(x)
  {
    if |files| == 0 then None
    else if ChangelogBasename(files[0]) then Some(files[0])
    else FirstChangelogBasename(files[1..])
  }

  /**
   * The item found is the first one that matches: searching the items before it
   * finds nothing, so no earlier item has a "changelog" basename.
   */
  lemma FirstChangelogBasenameIsFirst(files: seq<string>) returns (i: nat)
    requires FirstChangelogBasename(files).Some?
    ensures i < |files| && files[i] == FirstChangelogBasename(files).value
    ensures FirstChangelogBasename(files[..i]) == None
  {
    FirstWhereIsChangelog(files);
    i := FirstWhereAt(files, ChangelogBasename);
    FirstWhereIsChangelog(files[..i]);
  }

  /** The first item that satisfies `f`: FirstChangelogBasename's search for any test. */
  function FirstWhere(files: seq<string>, f: string -> bool): Option<string> {
    if |files| == 0 then None
    else if f(files[0]) then Some(files[0])
    else FirstWhere(files[1..], f)
  }

  lemma {:induction false} FirstWhereIsChangelog(files: seq<string>)
    ensures FirstWhere(files, ChangelogBasename) == FirstChangelogBasename(files)
  {
    if |files| > 0 {
      FirstWhereIsChangelog(files[1..]);
    }
  }

  lemma {:induction false} FirstWhereAt(files: seq<string>, f: string -> bool) returns (i: nat)
    requires FirstWhere(files, f).Some?
    ensures i < |files| && files[i] == FirstWhere(files, f).value
    ensures FirstWhere(files[..i], f) == None
  {
    if f(files[0]) {
      i := 0;
    } else {
      var k := FirstWhereAt(files[1..], f);
      i := k + 1;
      assert files[i] == files[1..][k];
      var before := files[..i];
      assert before[0] == files[0] && before[1..] == files[1..][..k];
      assert FirstWhere(before, f) == FirstWhere(before[1..], f);
    }
  }

  /**
   * The candidate filter keeps the list's order: searching the candidates for a
   * documentation changelog path finds what searching the whole list finds.
   */
  lemma {:induction false} CandidatesFirstWithPrefix(filelist: seq<string>, p: string)
    requires StartsWith(p, "/usr/share/doc/") || StartsWith(p, "usr/share/doc/")
    requires EndsWith(p, "/changelog")
    ensures FirstWithPrefix(ChangelogCandidates(filelist), p) == FirstWithPrefix(filelist, p)
  {
    if |filelist| > 0 {
      var x, rest := filelist[0], filelist[1..];
      CandidatesFirstWithPrefix(rest, p);
      var c, cr := ChangelogCandidates(filelist), ChangelogCandidates(rest);
      if StartsWith(Lower(x), p) {
        PrefixWord(x, p);
        assert c == [x] + cr && c[0] == x;
        assert FirstWithPrefix(filelist, p) == Some(x);
      } else if Contains(Lower(x), "changelog") {
        assert c == [x] + cr && c[0] == x && c[1..] == cr;
        assert FirstWithPrefix(c, p) == FirstWithPrefix(cr, p);
      } else {
        assert c == cr;
      }
      assert FirstWithPrefix(filelist, p) == if StartsWith(Lower(x), p) then Some(x) else FirstWithPrefix(rest, p);
    }
  }

  /** The same for the basename search of the last step. */
  lemma CandidatesFirstBasename(filelist: seq<string>)
    ensures FirstChangelogBasename(ChangelogCandidates(filelist)) == FirstChangelogBasename(filelist)
  {
    forall x | ChangelogBasename(x)
      ensures Contains(Lower(x), "changelog")
    {
      ChangelogWord(x);
    }
    CandidatesFirstWhere(filelist, ChangelogBasename);
    FirstWhereIsChangelog(filelist);
    FirstWhereIsChangelog(ChangelogCandidates(filelist));
  }

  /** A search for files whose names hold "changelog" finds the same file among the candidates. */
  lemma {:induction false} CandidatesFirstWhere(filelist: seq<string>, f: string -> bool)
    requires forall x :: f(x) ==> Contains(Lower(x), "changelog")
    ensures FirstWhere(ChangelogCandidates(filelist), f) == FirstWhere(filelist, f)
  {
    if |filelist| > 0 {
      var x, rest := filelist[0], filelist[1..];
      CandidatesFirstWhere(rest, f);
      var c, cr := ChangelogCandidates(filelist), ChangelogCandidates(rest);
      if Contains(Lower(x), "changelog") {
        assert c == [x] + cr && c[0] == x && c[1..] == cr;
        assert FirstWhere(c, f) == if f(x) then Some(x) else FirstWhere(cr, f);
      } else {
        assert c == cr && !f(x);
      }
      assert FirstWhere(filelist, f) == if f(x) then Some(x) else FirstWhere(rest, f);
    }
  }

  /** get_changelog_from_filelist; `packageName` is the candidate's name. */
  function ChangelogFromFilelist(filelist: seq<string>, local: bool, packageName: string): (r: Option<string>)
    ensures r.Some? ==> r.value in filelist && Contains(Lower(r.value), "changelog")
  {
    var files := ChangelogCandidates(filelist);
    if local then FirstWithPrefix(files, "/usr/share/doc/" + packageName + "/changelog")
    else if "debian/changelog" in files then Some("debian/changelog")
    else if "recipe/debian/changelog" in files then Some("recipe/debian/changelog")
    else match FirstWithPrefix(files, "usr/share/doc/" + packageName + "/changelog")
      case Some(x) => Some(x)
      case None => FirstChangelogBasename(files)
  }

  lemma ChangelogWord(x: string)
    ensures ChangelogBasename(x) ==> Contains(Lower(x), "changelog")
  {
    if ChangelogBasename(x) {
      var b := Basename(x);
      var at := |x| - |b|;
      assert Lower(x)[at..at + 9] == Lower(b)[..9];
      ContainsAt(Lower(x), "changelog", at);
    }
  }

  lemma PrefixWord(x: string, p: string)
    requires StartsWith(p, "/usr/share/doc/") || StartsWith(p, "usr/share/doc/")
    requires EndsWith(p, "/changelog") && StartsWith(Lower(x), p)
    ensures Contains(Lower(x), "changelog")
  {
    var at := |p| - 9;
    assert p[|p| - 10..] == "/changelog";
    assert p[at..at + 9] == p[|p| - 10..][1..];
    assert "/changelog"[1..] == "changelog";
    assert Lower(x)[at..at + 9] == p[at..at + 9];
    ContainsAt(Lower(x), "changelog", at);
  }

  /** The packaging location of section 4.4 of Debian Policy wins outright when present. */
  lemma FilelistDebianFirst(filelist: seq<string>, packageName: string)
    requires "debian/changelog" in filelist
    ensures ChangelogFromFilelist(filelist, false, packageName) == Some("debian/changelog")
  {
    assert Lower("debian/changelog") == "debian/changelog";
    ContainsAt("debian/changelog", "changelog", 7);
  }

  /** Then `recipe/debian/changelog`. */
  lemma FilelistRecipeSecond(filelist: seq<string>, packageName: string)
    requires "debian/changelog" !in filelist && "recipe/debian/changelog" in filelist
    ensures ChangelogFromFilelist(filelist, false, packageName) == Some("recipe/debian/changelog")
  {
    assert Lower("recipe/debian/changelog") == "recipe/debian/changelog";
    ContainsAt("recipe/debian/changelog", "changelog", 14);
  }

  lemma DocPathEnds(packageName: string, lead: string)
    ensures EndsWith(lead + packageName + "/changelog", "/changelog")
  {
    assert lead + packageName + "/changelog" == (lead + packageName) + "/changelog";
  }

  /** Then the first file under `usr/share/doc/<name>/changelog`. */
  lemma FilelistDocThird(filelist: seq<string>, packageName: string, x: string)
    requires "debian/changelog" !in filelist && "recipe/debian/changelog" !in filelist
    requires x in filelist && StartsWith(Lower(x), "usr/share/doc/" + packageName + "/changelog")
    ensures var r := ChangelogFromFilelist(filelist, false, packageName);
      r.Some? && StartsWith(Lower(r.value), "usr/share/doc/" + packageName + "/changelog")
    ensures ChangelogFromFilelist(filelist, false, packageName)
            == FirstWithPrefix(ChangelogCandidates(filelist), "usr/share/doc/" + packageName + "/changelog")
  {
    var doc := "usr/share/doc/" + packageName + "/changelog";
    DocPathEnds(packageName, "usr/share/doc/");
    PrefixWord(x, doc);
    assert x in ChangelogCandidates(filelist);
    assert "debian/changelog" !in ChangelogCandidates(filelist);
    assert "recipe/debian/changelog" !in ChangelogCandidates(filelist);
  }

  /** A file the non-local search accepts at its last two steps. */
  predicate ChangelogLike(x: string, packageName: string) {
    StartsWith(Lower(x), "usr/share/doc/" + packageName + "/changelog")
    || ChangelogBasename(x)
  }

  /**
   * Without a file in any of those places, the first file whose basename
   * starts with "changelog" is taken, and there is no choice exactly when
   * no file has such a basename or lies under the documentation path.
   */
  lemma FilelistNone(filelist: seq<string>, packageName: string)
    ensures ChangelogFromFilelist(filelist, false, packageName).None? <==>
      forall x :: x in filelist ==> !ChangelogLike(x, packageName)
  {
    if ChangelogFromFilelist(filelist, false, packageName).None? {
      FilelistNoneOnly(filelist, packageName);
    } else {
      FilelistSomeOnly(filelist, packageName);
    }
  }

  lemma FilelistNoneOnly(filelist: seq<string>, packageName: string)
    requires ChangelogFromFilelist(filelist, false, packageName).None?
    ensures forall x :: x in filelist ==> !ChangelogLike(x, packageName)
  {
    var files := ChangelogCandidates(filelist);
    var doc := "usr/share/doc/" + packageName + "/changelog";
    DocPathEnds(packageName, "usr/share/doc/");
    assert FirstWithPrefix(files, doc).None? && FirstChangelogBasename(files).None?;
    forall x | x in filelist
      ensures !ChangelogLike(x, packageName)
    {
      if StartsWith(Lower(x), doc) {
        PrefixWord(x, doc);
      }
      ChangelogWord(x);
    }
  }

  lemma LowerChangelog()
    ensures Lower("changelog") == "changelog"
  {
  }

  /** Any path ending in `/changelog` has a basename that starts with "changelog". */
  lemma EndsInChangelog(a: string, packageName: string)
    ensures ChangelogLike(a + "/changelog", packageName)
  {
    BasenameAfterSlash(a, "changelog");
    assert a + "/" + "changelog" == a + "/changelog";
    LowerChangelog();
    assert Basename(a + "/changelog") == "changelog";
  }

  lemma KnownPathLike(filelist: seq<string>, packageName: string, a: string)
    requires a + "/changelog" in filelist
    ensures exists x :: x in filelist && ChangelogLike(x, packageName)
  {
    EndsInChangelog(a, packageName);
  }

  lemma FilelistSomeOnly(filelist: seq<string>, packageName: string)
    requires ChangelogFromFilelist(filelist, false, packageName).Some?
    ensures exists x :: x in filelist && ChangelogLike(x, packageName)
  {
    var files := ChangelogCandidates(filelist);
    var doc := "usr/share/doc/" + packageName + "/changelog";
    var r := ChangelogFromFilelist(filelist, false, packageName);
    if r == Some("debian/changelog") {
      assert "debian" + "/changelog" == "debian/changelog";
      KnownPathLike(filelist, packageName, "debian");
    } else if r == Some("recipe/debian/changelog") {
      assert "recipe/debian" + "/changelog" == "recipe/debian/changelog";
      KnownPathLike(filelist, packageName, "recipe/debian");
    } else {
      var w := r.value;
      assert w in filelist && ChangelogLike(w, packageName);
    }
  }

  /** For installed files only `/usr/share/doc/<name>/changelog*` is accepted, and the first one wins. */
  lemma FilelistLocal(filelist: seq<string>, packageName: string)
    ensures var r := ChangelogFromFilelist(filelist, true, packageName);
      var doc := "/usr/share/doc/" + packageName + "/changelog";
      (r.Some? ==> StartsWith(Lower(r.value), doc))
      && (r.None? <==> forall x :: x in filelist ==> !StartsWith(Lower(x), doc))
  {
    var doc := "/usr/share/doc/" + packageName + "/changelog";
    DocPathEnds(packageName, "/usr/share/doc/");
    forall x | x in filelist && StartsWith(Lower(x), doc) ensures x in ChangelogCandidates(filelist) {
      PrefixWord(x, doc);
    }
  }

  // ---------------------------------------------------------------------
  // Text of a `.changes` document

  /** One line of the "Changes:" block as written out: stripped, dropped when empty, "" for a lone ".". */
  function ChangeLine(change: string): Option<string> {
    var c := Strip(change);
    if c == "" then None else if c == "." then Some("") else Some(c)
  }

  function ChangeLines(changes: seq<string>): seq<string> {
    if |changes| == 0 then []
    else
      ChangeLines(changes[..|changes| - 1])
        + (match ChangeLine(changes[|changes| - 1]) case None => [] case Some(l) => [l])
  }

  /** The lines between "Changes:" and "Checksums"; Python's `[1]` raises when there is no "Changes:". */
  function ChangesBlock(text: string): Result<seq<string>> {
    var parts := Split(text, "Changes:");
    if |parts| < 2 then Err("IndexError: list index out of range")
    else Ok(Split(Split(parts[1], "Checksums")[0], "\n"))
  }

  lemma ChangeLinesStep(changes: seq<string>, i: nat)
    requires i < |changes|
    ensures ChangeLines(changes[..i + 1]) == ChangeLines(changes[..i])
      + (match ChangeLine(changes[i]) case None => [] case Some(l) => [l])
  {
    assert changes[..i + 1][..i] == changes[..i];
  }

  /** The loop of get_changes_changelog over the block's lines. */
  method RenderChanges(changes: seq<string>) returns (changelog: string)
    ensures changelog == Terminated(ChangeLines(changes))
  {
    changelog := "";
    var i := 0;
    while i < |changes|
      invariant 0 <= i <= |changes|
      invariant changelog == Terminated(ChangeLines(changes[..i]))
    {
      ChangeLinesStep(changes, i);
      ghost var prev := ChangeLines(changes[..i]);
      var change := Strip(changes[i]);
      if change != "" {
        if change == "." {
          change := "";
        }
        assert ChangeLines(changes[..i + 1]) == prev + [change];
        TerminatedAppend(prev, change);
        changelog := changelog + change + "\n";
      } else {
        assert ChangeLines(changes[..i + 1]) == prev;
      }
      i := i + 1;
    }
    assert changes[..|changes|] == changes;
  }

  /** The changelog taken from a `.changes` document. */
  method ExtractChanges(text: string) returns (r: Result<string>)
    ensures r == match ChangesBlock(text) case Err(e) => Err(e) case Ok(changes) => Ok(Terminated(ChangeLines(changes)))
  {
    var parts := Split(text, "Changes:");
    if |parts| < 2 {
      return Err("IndexError: list index out of range");
    }
    var changes := Split(Split(parts[1], "Checksums")[0], "\n");
    var changelog := RenderChanges(changes);
    r := Ok(changelog);
  }

  lemma SplitTwoParts(s: string, sep: string)
    requires sep != []
    ensures |Split(s, sep)| >= 2 <==> Contains(s, sep)
  {
  }

  lemma ChangeLinesClean(changes: seq<string>)
    requires forall k :: 0 <= k < |changes| ==> '\n' !in changes[k]
    ensures forall k :: 0 <= k < |ChangeLines(changes)| ==>
      var l := ChangeLines(changes)[k]; '\n' !in l && l != "." && Strip(l) == l
  {
    if |changes| > 0 {
      ChangeLinesClean(changes[..|changes| - 1]);
      var c := Strip(changes[|changes| - 1]);
      StripIdempotent(changes[|changes| - 1]);
      assert Strip("") == "";
    }
  }

  /**
   * The `.changes` extraction fails exactly when the document has no
   * "Changes:"; otherwise its output is a list of newline-terminated lines,
   * none with surrounding white space and none a lone ".".
   */
  lemma ChangesOutput(text: string)
    ensures ChangesBlock(text).Err? <==> !Contains(text, "Changes:")
    ensures ChangesBlock(text).Ok? ==>
      var lines := ChangeLines(ChangesBlock(text).value);
      Split(Terminated(lines), "\n") == lines + [""]
      && forall k :: 0 <= k < |lines| ==> lines[k] != "." && Strip(lines[k]) == lines[k]
  {
    SplitTwoParts(text, "Changes:");
    if ChangesBlock(text).Ok? {
      var parts := Split(text, "Changes:");
      var block := Split(parts[1], "Checksums")[0];
      SplitPartsNoSep(block, '\n');
      ChangeLinesClean(ChangesBlock(text).value);
      SplitTerminated(ChangeLines(ChangesBlock(text).value));
    }
  }

  /** No part of a split on a character contains that character. */
  lemma {:induction false} SplitPartsNoSep(s: string, c: char)
    ensures forall k :: 0 <= k < |Split(s, [c])| ==> c !in Split(s, [c])[k]
    decreases |s|
  {
    match SplitOnce(s, [c])
    case None =>
      CharContains(s, c);
    case Some((a, b)) =>
      CharContains(a, c);
      SplitPartsNoSep(b, c);
      assert Split(s, [c]) == [a] + Split(b, [c]);
  }

  // ---------------------------------------------------------------------
  // Text of a `.diff.gz` patch

  /** A patch section for the packaging changelog: "/debian/changelog" on its first line. */
  predicate IsChangelogAddition(addition: string) {
    Contains(Split(addition, "\n")[0], "/debian/changelog")
  }

  /** The run of added lines, without their "+", from the start of `lines` up to the first other line. */
  function PlusRun(lines: seq<string>): seq<string> {
    if |lines| == 0 || !StartsWith(lines[0], "+") then [] else [Unplus(lines[0])] + PlusRun(lines[1..])
  }

  /** `line[1:]` */
  function Unplus(line: string): string {
    if |line| > 0 then line[1..] else line
  }

  /** The changelog lines one patch section contributes: the added lines after its two header lines. */
  function AdditionLines(addition: string): seq<string> {
    if IsChangelogAddition(addition) then
      var lines := Split(addition, "\n");
      PlusRun(if |lines| < 2 then [] else lines[2..])
    else []
  }

  function DiffLines(additions: seq<string>): seq<string> {
    if |additions| == 0 then [] else DiffLines(additions[..|additions| - 1]) + AdditionLines(additions[|additions| - 1])
  }

  /** The changelog taken from a `.diff.gz` patch; none found raises ValueError. */
  function DiffChangelog(data: string): Result<string> {
    var out := Terminated(DiffLines(Split(data, "+++")));
    if out == "" then Err("ValueError: No changelog in .diff.gz") else Ok(out)
  }

  /** Each line without its leading character. */
  function Unplussed(lines: seq<string>): (r: seq<string>)
    ensures |r| == |lines| && forall k :: 0 <= k < |lines| ==> r[k] == Unplus(lines[k])
  {
    seq(|lines|, k requires 0 <= k < |lines| => Unplus(lines[k]))
  }

  /** A leading run of added lines contributes its lines, and the rest of the run follows. */
  lemma {:induction false} PlusRunSplit(lines: seq<string>, j: nat)
    requires j <= |lines| && forall k :: 0 <= k < j ==> StartsWith(lines[k], "+")
    ensures PlusRun(lines) == Unplussed(lines[..j]) + PlusRun(lines[j..])
  {
    if j > 0 {
      PlusRunSplit(lines[1..], j - 1);
      assert lines[1..][j - 1..] == lines[j..];
      assert [Unplus(lines[0])] + Unplussed(lines[1..][..j - 1]) == Unplussed(lines[..j]);
    } else {
      assert lines[0..] == lines;
    }
  }

  /** The inner loop of the `.diff.gz` branch: added lines up to the first other one. */
  method AddedLines(tail: seq<string>) returns (added: string)
    ensures added == Terminated(PlusRun(tail))
  {
    added := "";
    var j := 0;
    while j < |tail|
      invariant 0 <= j <= |tail|
      invariant forall k :: 0 <= k < j ==> StartsWith(tail[k], "+")
      invariant added == Terminated(Unplussed(tail[..j]))
    {
      if !StartsWith(tail[j], "+") {
        break;
      }
      assert Unplussed(tail[..j + 1]) == Unplussed(tail[..j]) + [tail[j][1..]];
      TerminatedAppend(Unplussed(tail[..j]), tail[j][1..]);
      added := added + tail[j][1..] + "\n";
      j := j + 1;
    }
    PlusRunSplit(tail, j);
    assert PlusRun(tail[j..]) == [];
    assert Unplussed(tail[..j]) + [] == Unplussed(tail[..j]);
  }

  /** The outer loop of the `.diff.gz` branch of get_changelog. */
  method ExtractDiff(data: string) returns (r: Result<string>)
    ensures r == DiffChangelog(data)
  {
    var additions := Split(data, "+++");
    var changelog := "";
    var i := 0;
    while i < |additions|
      invariant 0 <= i <= |additions|
      invariant changelog == Terminated(DiffLines(additions[..i]))
    {
      assert additions[..i + 1][..i] == additions[..i];
      ghost var prev, add := DiffLines(additions[..i]), AdditionLines(additions[i]);
      assert DiffLines(additions[..i + 1]) == prev + add;
      TerminatedConcat(prev, add);
      var lines := Split(additions[i], "\n");
      if Contains(lines[0], "/debian/changelog") {
        var added := AddedLines(if |lines| < 2 then [] else lines[2..]);
        assert added == Terminated(add);
        changelog := changelog + added;
      } else {
        assert add == [];
        TerminatedEmpty(add);
      }
      assert changelog == Terminated(prev + add);
      i := i + 1;
    }
    assert additions[..|additions|] == additions;
    if changelog == "" {
      return Err("ValueError: No changelog in .diff.gz");
    }
    r := Ok(changelog);
  }

  lemma {:induction false} PlusRunFrom(lines: seq<string>, l: string)
    requires l in PlusRun(lines)
    ensures "+" + l in lines
  {
    if |lines| > 0 && StartsWith(lines[0], "+") {
      if l == Unplus(lines[0]) {
        assert lines[0] == "+" + l;
      } else {
        PlusRunFrom(lines[1..], l);
      }
    }
  }

  /** Every changelog line taken from a patch was an added line of a "/debian/changelog" section. */
  lemma {:induction false} DiffLinesFromChangelog(additions: seq<string>, l: string)
    requires l in DiffLines(additions)
    ensures exists i :: 0 <= i < |additions| && IsChangelogAddition(additions[i]) && "+" + l in Split(additions[i], "\n")
  {
    var n := |additions|;
    if l in DiffLines(additions[..n - 1]) {
      DiffLinesFromChangelog(additions[..n - 1], l);
      var i :| 0 <= i < n - 1 && IsChangelogAddition(additions[..n - 1][i]) && "+" + l in Split(additions[..n - 1][i], "\n");
      assert additions[..n - 1][i] == additions[i];
    } else {
      var a := additions[n - 1];
      assert l in AdditionLines(a);
      var lines := Split(a, "\n");
      PlusRunFrom(if |lines| < 2 then [] else lines[2..], l);
    }
  }

  /** A patch without a "/debian/changelog" section gives no changelog. */
  lemma {:induction false} DiffWithoutChangelog(additions: seq<string>)
    requires forall i :: 0 <= i < |additions| ==> !IsChangelogAddition(additions[i])
    ensures DiffLines(additions) == []
  {
    if |additions| > 0 {
      DiffWithoutChangelog(additions[..|additions| - 1]);
    }
  }

  // ---------------------------------------------------------------------
  // The `.dsc` "Files:" block

  /** The lines parse_dsc looks at; Python's `[1]` raises when there is no "Files:". */
  function DscLines(text: string): Result<seq<string>> {
    match SplitOnce(text, "Files:")
    case None => Err("IndexError: list index out of range")
    case Some((_, rest)) => Ok(Split(Before(Before(rest, ":"), "-----BEGIN"), "\n"))
  }

  /** Whether a line of the block, stripped and lower-cased, ends with `suffix`. */
  predicate LineEnds(line: string, suffix: string) {
    EndsWith(Lower(Strip(line)), suffix)
  }

  /** The index of the first line from `i` on that ends with `suffix`. */
  function FirstEndingFrom(lines: seq<string>, suffix: string, i: nat): (r: Option<nat>)
    requires i <= |lines|
    ensures r.Some? ==> i <= r.value < |lines| && LineEnds(lines[r.value], suffix)
    ensures r.None? <==> forall k :: i <= k < |lines| ==> !LineEnds(lines[k], suffix)
    decreases |lines| - i
  {
    if i == |lines| then None
    else if LineEnds(lines[i], suffix) then Some(i)
    else FirstEndingFrom(lines, suffix, i + 1)
  }

  /** The first stripped line whose lower-case form ends with `suffix`. */
  function FirstEnding(lines: seq<string>, suffix: string): (r: Option<string>)
    ensures r.Some? ==> EndsWith(Lower(r.value), suffix) && exists k :: 0 <= k < |lines| && r.value == Strip(lines[k])
    ensures r.None? <==> forall k :: 0 <= k < |lines| ==> !EndsWith(Lower(Strip(lines[k])), suffix)
  {
    match FirstEndingFrom(lines, suffix, 0)
    case None => None
    case Some(k) => Some(Strip(lines[k]))
  }

  /** The line found is the first from `i` on that ends with `suffix`. */
  lemma {:induction false} FirstEndingFromIsFirst(lines: seq<string>, suffix: string, i: nat)
    requires i <= |lines| && FirstEndingFrom(lines, suffix, i).Some?
    ensures forall k :: i <= k < FirstEndingFrom(lines, suffix, i).value ==> !LineEnds(lines[k], suffix)
    decreases |lines| - i
  {
    if LineEnds(lines[i], suffix) {
      assert FirstEndingFrom(lines, suffix, i) == Some(i);
    } else {
      var next := FirstEndingFrom(lines, suffix, i + 1);
      assert FirstEndingFrom(lines, suffix, i) == next;
      FirstEndingFromIsFirst(lines, suffix, i + 1);
      forall k | i <= k < next.value
        ensures !LineEnds(lines[k], suffix)
      {
        if k > i {
          assert i + 1 <= k < next.value;
        }
      }
    }
  }

  /** The stripped line found is that of the first line ending with `suffix`. */
  lemma FirstEndingIsFirst(lines: seq<string>, suffix: string) returns (k: nat)
    requires FirstEnding(lines, suffix).Some?
    ensures k < |lines| && FirstEnding(lines, suffix).value == Strip(lines[k])
    ensures forall j :: 0 <= j < k ==> !LineEnds(lines[j], suffix)
  {
    k := FirstEndingFrom(lines, suffix, 0).value;
    FirstEndingFromIsFirst(lines, suffix, 0);
  }

  /** The target of parse_dsc: its last word of the first `.debian.tar.xz` line, else `.diff.gz`, else `.tar.xz`. */
  function DscTarget(lines: seq<string>): Option<string> {
    match FirstEnding(lines, ".debian.tar.xz")
    case Some(t) => Some(LastWord(t))
    case None =>
      match FirstEnding(lines, ".diff.gz")
      case Some(t) => Some(LastWord(t))
      case None =>
        match FirstEnding(lines, ".tar.xz")
        case Some(t) => Some(LastWord(t))
        case None => None
  }

  /** parse_dsc on the text of a downloaded `.dsc`. */
  function ParseDsc(text: string): (r: Result<Option<string>>)
    ensures r.Err? <==> !Contains(text, "Files:")
  {
    match DscLines(text)
    case Err(e) => Err(e)
    case Ok(lines) => Ok(DscTarget(lines))
  }

  lemma LowerNotSpace(c: char)
    requires !IsSpace(ToLower(c))
    ensures !IsSpace(c)
  {
  }

  /** A line ending in a space-free suffix keeps that suffix in its last word. */
  lemma LastWordKeepsSuffix(t: string, suffix: string)
    requires EndsWith(Lower(t), suffix) && forall i :: 0 <= i < |suffix| ==> !IsSpace(suffix[i])
    ensures EndsWith(Lower(LastWord(t)), suffix)
  {
    var n := |suffix|;
    SuffixHasNoSpace(t, suffix);
    LastWordCovers(t, n);
    var a := |t| - |LastWord(t)|;
    LowerTail(t, a);
    EndsWithTail(Lower(t), a, suffix);
  }

  /** The characters under a space-free suffix of the lower-case line are not spaces. */
  lemma SuffixHasNoSpace(t: string, suffix: string)
    requires EndsWith(Lower(t), suffix) && forall i :: 0 <= i < |suffix| ==> !IsSpace(suffix[i])
    ensures forall i :: |t| - |suffix| <= i < |t| ==> !IsSpace(t[i])
  {
    var n := |suffix|;
    forall i | |t| - n <= i < |t| ensures !IsSpace(t[i]) {
      assert Lower(t)[i] == suffix[i - (|t| - n)];
      LowerNotSpace(t[i]);
    }
  }

  /** Lower-casing commutes with taking a tail. */
  lemma LowerTail(t: string, a: nat)
    requires a <= |t|
    ensures Lower(t[a..]) == Lower(t)[a..]
  {
  }

  /** A tail at least as long as the suffix still ends with it. */
  lemma EndsWithTail(s: string, a: nat, p: string)
    requires EndsWith(s, p) && a <= |s| - |p|
    ensures EndsWith(s[a..], p)
  {
    assert s[a..][|s[a..]| - |p|..] == s[|s| - |p|..];
  }

  lemma SuffixEnds(x: string)
    ensures EndsWith(x, ".debian.tar.xz") ==> EndsWith(x, ".tar.xz")
  {
    if EndsWith(x, ".debian.tar.xz") {
      assert x[|x| - 7..] == x[|x| - 14..][7..];
    }
  }

  /** Some line of the block, stripped and lower-cased, ends with `suffix`. */
  predicate Offers(lines: seq<string>, suffix: string) {
    exists k :: 0 <= k < |lines| && EndsWith(Lower(Strip(lines[k])), suffix)
  }

  lemma NoSpaceSuffixes()
    ensures forall i :: 0 <= i < |".debian.tar.xz"| ==> !IsSpace(".debian.tar.xz"[i])
    ensures forall i :: 0 <= i < |".diff.gz"| ==> !IsSpace(".diff.gz"[i])
    ensures forall i :: 0 <= i < |".tar.xz"| ==> !IsSpace(".tar.xz"[i])
  {
  }

  /** parse_dsc takes a `.debian.tar.xz` whenever the block lists one. */
  lemma DscPrefersDebianTar(lines: seq<string>)
    requires Offers(lines, ".debian.tar.xz")
    ensures DscTarget(lines).Some? && EndsWith(Lower(DscTarget(lines).value), ".debian.tar.xz")
  {
    var t := FirstEnding(lines, ".debian.tar.xz");
    assert t.Some?;
    assert DscTarget(lines) == Some(LastWord(t.value));
    NoSpaceSuffixes();
    LastWordKeepsSuffix(t.value, ".debian.tar.xz");
  }

  /** Otherwise a `.diff.gz`. */
  lemma DscThenDiff(lines: seq<string>)
    requires !Offers(lines, ".debian.tar.xz") && Offers(lines, ".diff.gz")
    ensures DscTarget(lines).Some? && EndsWith(Lower(DscTarget(lines).value), ".diff.gz")
  {
    assert FirstEnding(lines, ".debian.tar.xz").None?;
    var t := FirstEnding(lines, ".diff.gz");
    assert t.Some?;
    assert DscTarget(lines) == Some(LastWord(t.value));
    NoSpaceSuffixes();
    LastWordKeepsSuffix(t.value, ".diff.gz");
  }

  /** Otherwise a `.tar.xz`. */
  lemma DscThenTar(lines: seq<string>)
    requires !Offers(lines, ".diff.gz") && Offers(lines, ".tar.xz")
    ensures DscTarget(lines).Some? && EndsWith(Lower(DscTarget(lines).value), ".tar.xz")
  {
    NoSpaceSuffixes();
    var d := FirstEnding(lines, ".debian.tar.xz");
    if d.Some? {
      assert DscTarget(lines) == Some(LastWord(d.value));
      LastWordKeepsSuffix(d.value, ".debian.tar.xz");
      SuffixEnds(Lower(LastWord(d.value)));
    } else {
      assert FirstEnding(lines, ".diff.gz").None?;
      var t := FirstEnding(lines, ".tar.xz");
      assert t.Some?;
      assert DscTarget(lines) == Some(LastWord(t.value));
      LastWordKeepsSuffix(t.value, ".tar.xz");
    }
  }

  /** There is no target exactly when no line names a `.diff.gz` or a `.tar.xz`. */
  lemma DscNone(lines: seq<string>)
    ensures DscTarget(lines).None? <==> !Offers(lines, ".diff.gz") && !Offers(lines, ".tar.xz")
  {
    OffersFound(lines, ".debian.tar.xz");
    OffersFound(lines, ".diff.gz");
    OffersFound(lines, ".tar.xz");
    DebianTarOffersTar(lines);
    assert DscTarget(lines).None? <==>
      FirstEnding(lines, ".debian.tar.xz").None? && FirstEnding(lines, ".diff.gz").None?
      && FirstEnding(lines, ".tar.xz").None?;
  }

  /** The search for a suffix finds a line exactly when some line offers it. */
  lemma OffersFound(lines: seq<string>, suffix: string)
    ensures FirstEnding(lines, suffix).None? <==> !Offers(lines, suffix)
  {
  }

  /** A line that offers a `.debian.tar.xz` also offers a `.tar.xz`. */
  lemma DebianTarOffersTar(lines: seq<string>)
    ensures Offers(lines, ".debian.tar.xz") ==> Offers(lines, ".tar.xz")
  {
    if Offers(lines, ".debian.tar.xz") {
      var k :| 0 <= k < |lines| && EndsWith(Lower(Strip(lines[k])), ".debian.tar.xz");
      SuffixEnds(Lower(Strip(lines[k])));
    }
  }

  // ---------------------------------------------------------------------
  // .deb or source tarball

  /** A URL that check_url accepted: its final URL and its Content-Length (0 when absent). */
  datatype Response = Response(url: string, length: int)

  const ComparisonTriggerSize: int := 50000

  /** The default max_download_size: 1.5 MB, apt's decimal megabytes. */
  const MaxDownloadSizeDefault: int := 1500000

  /**
   * get_deb_or_tar. `deb` and `tar` are what check_url returned for the `.deb`
   * and for the source tarball (`tar` is only asked for when a tarball URI is
   * known and the `.deb` is over the trigger size); `confirmed` is the user's
   * answer when the choice exceeds `maxSize`.
   */
  function DebOrTar(deb: Option<Response>, hasTarUri: bool, tar: Option<Response>, maxSize: int, confirmed: bool)
    : (r: Option<Response>)
    ensures r.Some? ==> deb.Some?
    ensures r.Some? ==> r.value.length <= maxSize || confirmed
    ensures r.Some? && r != deb ==>
      hasTarUri && deb.value.length > ComparisonTriggerSize && r == tar && tar.value.length < deb.value.length
    ensures (deb.Some? && (deb.value.length <= ComparisonTriggerSize || !hasTarUri)
      && (deb.value.length <= maxSize || confirmed)) ==> r == deb
  {
    match deb
    case None => None
    case Some(d) =>
      var chosen :=
        if hasTarUri && d.length > ComparisonTriggerSize && tar.Some? && tar.value.length < d.length then tar.value
        else d;
      if !(chosen.length > maxSize) || confirmed then Some(chosen) else None
  }

  /** A smaller tarball is taken over a large `.deb` when both fit the size limit. */
  lemma DebOrTarPrefersSmallerTar(d: Response, t: Response, maxSize: int, confirmed: bool)
    requires d.length > ComparisonTriggerSize && t.length < d.length && t.length <= maxSize
    ensures DebOrTar(Some(d), true, Some(t), maxSize, confirmed) == Some(t)
  {
  }
}
