/**
 * Package records (pkgInfo.py): the apt and Flatpak package-info objects the
 * installer caches, their JSON form, and their memoizing display getters.
 *
 * The apt package, the AppStream component and the icon theme are inputs:
 * `AptPackage`, `Component`, and the sets of theme icon names and of existing files.
 */
module PkgInfo {
  import opened Wrappers
  import opened Strings
  import opened Tables
  import opened Json

  const FlathubMediaBaseUrl := "https://dl.flathub.org/media/"

  // ---------------------------------------------------------------------------
  // Capitalisation

  /** The module's capitalize(): upper-cases the first character of a string longer than one character. */
  function Capitalize(s: Option<string>): (r: Option<string>)
    ensures r.None? <==> s.None?
    ensures s.Some? ==> |r.value| == |s.value| && forall i :: 0 < i < |s.value| ==> r.value[i] == s.value[i]
    ensures s.Some? && |s.value| > 1 ==> r.value[0] == ToUpper(s.value[0])
    ensures s.Some? && |s.value| <= 1 ==> r == s
  {
    match s
    case None => None
    case Some(x) => if |x| > 1 then Some([ToUpper(x[0])] + x[1..]) else s
  }

  lemma CapitalizeIdempotent(s: Option<string>)
    ensures Capitalize(Capitalize(s)) == Capitalize(s)
  {
  }

  /** Python's str.capitalize(): the first character upper-cased, the rest lower-cased. */
  function PyCapitalize(s: string): (r: string)
    ensures |r| == |s|
    ensures |s| > 0 ==> r[0] == ToUpper(s[0]) && r[1..] == Lower(s[1..])
  {
    if |s| == 0 then "" else [ToUpper(s[0])] + Lower(s[1..])
  }

  /**
   * The str method and the module helper agree on lower-case text longer than one
   * character; on a single character only the str method upper-cases.
   */
  lemma CapitalizeAgainstStrMethod(s: string)
    ensures |s| > 1 ==> Some(PyCapitalize(s)) == Capitalize(Some(Lower(s)))
    ensures |s| == 1 ==> Capitalize(Some(s)) == Some(s) && PyCapitalize(s) == [ToUpper(s[0])]
  {
    if |s| > 1 {
      var l := Lower(s);
      assert ToUpper(l[0]) == ToUpper(s[0]);
      assert l[1..] == Lower(s[1..]);
    }
  }

  // ---------------------------------------------------------------------------
  // Memoized attributes

  /**
   * The common shape of the getters: a truthy cached value is kept; otherwise a
   * freshly found value (None when nothing was found) replaces it.
   */
  function Memo(current: Option<string>, found: Option<string>): (r: Option<string>)
    ensures Truthy(current) ==> r == current
    ensures !Truthy(current) ==> r == (if found.Some? then found else current)
  {
    if Truthy(current) then current else if found.Some? then found else current
  }

  /** What a Flatpak getter returns: the memoized value, or `fallback` when there is none. */
  function Recall(current: Option<string>, found: Option<string>, fallback: Option<string>): (r: Option<string>)
    ensures Memo(current, found).Some? ==> r == Memo(current, found)
    ensures Memo(current, found).None? ==> r == fallback
  {
    var m := Memo(current, found);
    if m.Some? then m else fallback
  }

  /** Asking a second time with the same inputs changes nothing and answers the same. */
  lemma {:induction false} MemoStable(current: Option<string>, found: Option<string>, fallback: Option<string>)
    ensures Memo(Memo(current, found), found) == Memo(current, found)
    ensures Recall(Memo(current, found), found, fallback) == Recall(current, found, fallback)
  {
  }

  /** What an apt getter returns (and stores): the memoized value, or "". */
  function AptRecall(current: Option<string>, found: Option<string>): (r: string)
    ensures Memo(current, found).Some? ==> r == Memo(current, found).value
    ensures Memo(current, found).None? ==> r == ""
  {
    var m := Memo(current, found);
    if m.Some? then m.value else ""
  }

  // ---------------------------------------------------------------------------
  // apt inputs

  /** An apt package version: version string, summary, description, homepage and archive section. */
  datatype AptVersion = AptVersion(version: string, summary: Option<string>, description: Option<string>,
                                   homepage: string, section: string)

  /** An apt package: its name, candidate version and installed version. */
  datatype AptPackage = AptPackage(name: string, candidate: Option<AptVersion>, installed: Option<AptVersion>)

  /** AptPkgInfo.get_display_name */
  function AptDisplayName(current: Option<string>, pkg: Option<AptPackage>, name: Option<string>): (r: Result<string>)
    ensures Truthy(current) ==> r == Ok(current.value)
    ensures r.Err? <==> !Truthy(current) && name.None? && (pkg.None? || pkg.value.name == "")
  {
    if Truthy(current) then Ok(current.value)
    else
      var d := if pkg.Some? then Some(PyCapitalize(pkg.value.name)) else current;
      if Truthy(d) then Ok(Replace(d.value, ":i386", ""))
      else if name.None? then Err("AttributeError")
      else Ok(Replace(PyCapitalize(name.value), ":i386", ""))
  }

  /** A freshly computed apt display name is the package name, str-capitalized, without ":i386". */
  lemma AptDisplayNameFresh(current: Option<string>, pkg: AptPackage, name: Option<string>)
    requires !Truthy(current) && pkg.name != ""
    ensures AptDisplayName(current, Some(pkg), name) == Ok(Replace(PyCapitalize(pkg.name), ":i386", ""))
  {
  }

  /** Without the apt package, a name with no ":i386" in it (in any case) becomes its str-capitalized self. */
  lemma {:induction false} AptDisplayNameFromName(n: string)
    requires !Contains(Lower(n), ":i386")
    ensures AptDisplayName(None, None, Some(n)) == Ok(PyCapitalize(n))
  {
    CapitalizeKeepsColon(n);
    ReplaceAbsent(PyCapitalize(n), ":i386", "");
  }

  /** str.capitalize() only changes the case of letters, so it cannot create ":i386" */
  lemma CapitalizeKeepsColon(n: string)
    requires !Contains(Lower(n), ":i386")
    ensures !Contains(PyCapitalize(n), ":i386")
  {
    var c := PyCapitalize(n);
    if Contains(c, ":i386") {
      var j := IndexOf(c, ":i386").value;
      assert c[j..j + 5] == ":i386";
      var l := Lower(n);
      forall m | j <= m < j + 5
        ensures l[m] == c[m]
      {
        assert c[m] == c[j..j + 5][m - j];
        if m > 0 {
          assert c[m] == Lower(n[1..])[m - 1];
        } else {
          assert c[0] == ':' && c[0] == ToUpper(n[0]);
        }
      }
      assert l[j..j + 5] == c[j..j + 5];
      ContainsAt(l, ":i386", j);
    }
  }

  /** The getters' found value for the summary: the candidate's summary, capitalized. */
  function AptSummaryFound(pkg: Option<AptPackage>): (r: Option<string>)
    ensures r.Some? <==> pkg.Some? && pkg.value.candidate.Some? && pkg.value.candidate.value.summary.Some?
  {
    if pkg.Some? && pkg.value.candidate.Some? then Capitalize(pkg.value.candidate.value.summary) else None
  }

  /** The description clean-up of AptPkgInfo.get_description, before capitalisation. */
  function CleanDescription(d: string): string {
    var a := Replace(Replace(d, "<p>", ""), "</p>", "\n");
    Replace(Replace(Replace(Replace(a, "<ul>", ""), "</ul>", ""), "<li>", ""), "</li>", "")
  }

  /** Text with no '<' has none of the tags: the clean-up leaves it as it is. */
  lemma CleanDescriptionPlain(d: string)
    requires '<' !in d
    ensures CleanDescription(d) == d
  {
    MissingHead(d, "<p>");
    ReplaceAbsent(d, "<p>", "");
    MissingHead(d, "</p>");
    ReplaceAbsent(d, "</p>", "\n");
    MissingHead(d, "<ul>");
    ReplaceAbsent(d, "<ul>", "");
    MissingHead(d, "</ul>");
    ReplaceAbsent(d, "</ul>", "");
    MissingHead(d, "<li>");
    ReplaceAbsent(d, "<li>", "");
    MissingHead(d, "</li>");
    ReplaceAbsent(d, "</li>", "");
  }

  function AptDescriptionFound(pkg: Option<AptPackage>): (r: Option<string>)
    ensures r.Some? <==> pkg.Some? && pkg.value.candidate.Some? && pkg.value.candidate.value.description.Some?
  {
    if pkg.Some? && pkg.value.candidate.Some? && pkg.value.candidate.value.description.Some? then
      Capitalize(Some(CleanDescription(pkg.value.candidate.value.description.value)))
    else None
  }

  /** An uncached description of plain text is the candidate's description, capitalized; "" without a candidate. */
  lemma AptDescriptionPlain(current: Option<string>, pkg: Option<AptPackage>)
    requires !Truthy(current)
    ensures pkg.None? || pkg.value.candidate.None? ==> AptRecall(current, AptDescriptionFound(pkg)) == ""
    ensures pkg.Some? && pkg.value.candidate.Some? && pkg.value.candidate.value.description.Some?
            && '<' !in pkg.value.candidate.value.description.value
            ==> AptRecall(current, AptDescriptionFound(pkg)) == Capitalize(pkg.value.candidate.value.description).value
  {
    if pkg.Some? && pkg.value.candidate.Some? && pkg.value.candidate.value.description.Some? {
      var d := pkg.value.candidate.value.description.value;
      if '<' !in d {
        CleanDescriptionPlain(d);
      }
    }
  }

  /** The version (or, with `homepage`, the homepage) of the installed version, else of the candidate. */
  function AptVersionFound(pkg: Option<AptPackage>, homepage: bool): (r: Result<Option<string>>)
    ensures r.Err? <==> pkg.Some? && pkg.value.installed.None? && pkg.value.candidate.None?
  {
    match pkg
    case None => Ok(None)
    case Some(p) =>
      var v :- if p.installed.Some? then Ok(p.installed.value)
               else if p.candidate.Some? then Ok(p.candidate.value)
               else Err("AttributeError");
      Ok(Some(if homepage then v.homepage else v.version))
  }

  /** get_version / get_homepage_url: the memo first, else installed over candidate, else "". */
  function AptVersionOf(current: Option<string>, pkg: Option<AptPackage>, homepage: bool): (r: Result<string>)
    ensures Truthy(current) ==> r == Ok(current.value)
    ensures r.Err? <==> !Truthy(current) && pkg.Some? && pkg.value.installed.None? && pkg.value.candidate.None?
    ensures r.Ok? && !Truthy(current) && pkg.Some? ==>
              r.value == (if pkg.value.installed.Some? then
                            (if homepage then pkg.value.installed.value.homepage else pkg.value.installed.value.version)
                          else if homepage then pkg.value.candidate.value.homepage else pkg.value.candidate.value.version)
  {
    if Truthy(current) then Ok(current.value)
    else
      var found :- AptVersionFound(pkg, homepage);
      Ok(AptRecall(current, found))
  }

  // ---------------------------------------------------------------------------
  // apt icons

  /** The icon-theme names tried for an apt package, in order. */
  function ThemeNames(n: string): seq<string> {
    var dotted := Split(n, ".");
    [n, Split(n, ":")[0], Split(n, "-")[0], Lower(dotted[|dotted| - 1])]
  }

  function AppInstallIcon(n: string, suffix: string, ext: string): string {
    "/usr/share/app-install/icons/" + n + suffix + "." + ext
  }

  function PixmapIcon(n: string, ext: string): string {
    "/usr/share/pixmaps/" + n + "." + ext
  }

  /** The file paths tried, in the order of the nested extension/suffix loops. */
  function IconPathsFor(n: string, exts: seq<string>): seq<string> {
    if |exts| == 0 then []
    else
      var x := exts[0];
      [AppInstallIcon(n, "", x), PixmapIcon(n, x), AppInstallIcon(n, "-icon", x), PixmapIcon(n, x)]
        + IconPathsFor(n, exts[1..])
  }

  function AptIconPaths(n: string): seq<string> {
    IconPathsFor(n, ["svg", "png", "xpm"])
  }

  /** The first candidate that is in `s`. */
  function FirstIn(cands: seq<string>, s: set<string>): (r: Option<string>)
    ensures r.Some? ==> r.value in cands && r.value in s
    ensures r.None? <==> forall i :: 0 <= i < |cands| ==> cands[i] !in s
  {
    if |cands| == 0 then None
    else if cands[0] in s then Some(cands[0])
    else
      var r := FirstIn(cands[1..], s);
      assert forall i :: 0 < i < |cands| ==> cands[i] == cands[1..][i - 1];
      r
  }

  /** What FirstIn finds is preceded only by candidates outside the set. */
  lemma {:induction false} FirstInIsFirst(cands: seq<string>, s: set<string>)
    ensures FirstIn(cands, s).Some? ==>
              exists i :: 0 <= i < |cands| && cands[i] == FirstIn(cands, s).value
                          && forall j :: 0 <= j < i ==> cands[j] !in s
  {
    if |cands| > 0 && cands[0] !in s {
      FirstInIsFirst(cands[1..], s);
      var r := FirstIn(cands, s);
      if r.Some? {
        var i :| 0 <= i < |cands[1..]| && cands[1..][i] == r.value && forall j :: 0 <= j < i ==> cands[1..][j] !in s;
        assert cands[i + 1] == r.value;
        assert forall j :: 0 < j < i + 1 ==> cands[j] == cands[1..][j - 1];
      }
    }
  }

  /** AptPkgInfo.get_icon: the cached entry, else the first theme name, else the first existing file. */
  function AptIcon(icon: Table<int, Option<string>>, size: int, name: Option<string>, theme: set<string>,
                   files: set<string>): (r: Result<Option<string>>)
    ensures r.Err? <==> !HasKey(icon, size) && name.None?
  {
    match Get(icon, size)
    case Some(v) => Ok(v)
    case None =>
      if name.None? then Err("AttributeError")
      else
        var t := FirstIn(ThemeNames(name.value), theme);
        if t.Some? then Ok(t) else Ok(FirstIn(AptIconPaths(name.value), files))
  }

  /** The icon table after get_icon(size) on a package called `n`. */
  function IconsFound(icon: Table<int, Option<string>>, size: int, n: string, theme: set<string>,
                      files: set<string>): Table<int, Option<string>>
  {
    var r := AptIcon(icon, size, Some(n), theme, files);
    if !HasKey(icon, size) && r.Ok? && r.value.Some? then Set(icon, size, r.value) else icon
  }

  /** An uncached apt icon is a theme name when one exists, otherwise an existing file. */
  lemma AptIconChoice(icon: Table<int, Option<string>>, size: int, n: string, theme: set<string>, files: set<string>)
    requires !HasKey(icon, size)
    ensures var r := AptIcon(icon, size, Some(n), theme, files);
            r.Ok? && (r.value.Some? ==>
              (r.value.value in theme && r.value.value in ThemeNames(n))
              || (r.value.value in files && r.value.value in AptIconPaths(n)
                  && forall t :: t in ThemeNames(n) ==> t !in theme))
    ensures var r := AptIcon(icon, size, Some(n), theme, files);
            r == Ok(None) <==> (forall t :: t in ThemeNames(n) ==> t !in theme)
                               && (forall p :: p in AptIconPaths(n) ==> p !in files)
  {
    var t := FirstIn(ThemeNames(n), theme);
    var p := FirstIn(AptIconPaths(n), files);
    assert t.None? <==> forall x :: x in ThemeNames(n) ==> x !in theme;
    assert p.None? <==> forall x :: x in AptIconPaths(n) ==> x !in files;
  }

  // ---------------------------------------------------------------------------
  // Flatpak inputs

  datatype RefKind = App | Runtime

  function KindCode(k: RefKind): int {
    match k
    case App => 0
    case Runtime => 1
  }

  function KindName(k: RefKind): string {
    match k
    case App => "app"
    case Runtime => "runtime"
  }

  /**
   * Where a Flatpak ref comes from: an installed ref answers get_origin(),
   * a ref listed from a remote answers get_remote_name(); neither answers both.
   */
  datatype RefSource = Installed(origin: string) | Listed(remoteName: string)

  /** A Flatpak ref: kind, name, arch, branch, commit, source and end-of-life reason. */
  datatype FlatpakRef = FlatpakRef(kind: RefKind, name: string, arch: string, branch: string, commit: string,
                                   source: RefSource, eol: Option<string>)

  /** ref.format_ref(): kind/name/arch/branch */
  function FormatRef(r: FlatpakRef): string {
    KindName(r.kind) + "/" + r.name + "/" + r.arch + "/" + r.branch
  }

  datatype IconKind = Stock | Cached | Local | Remote | Unknown

  /** An AppStream icon: kind, file name, height, path prefix and URL. */
  datatype FpIcon = FpIcon(kind: IconKind, filename: Option<string>, height: int, prefix: string, url: Option<string>)

  datatype Release = Release(timestamp: int, version: Option<string>)

  /**
   * The AppStream component of a Flatpak. `markup` is what AppStream.markup_convert
   * makes of the description (Err where it raises GLib.Error).
   */
  datatype Component = Component(name: Option<string>, summary: Option<string>, description: Option<string>,
                                 markup: Result<string>, icons: seq<FpIcon>, releases: seq<Release>,
                                 homepage: Option<string>, help: Option<string>, projectGroup: Option<string>)

  // ---------------------------------------------------------------------------
  // Flatpak getters

  function FpDisplayNameFound(comp: Option<Component>): (r: Option<string>)
    ensures r.Some? <==> comp.Some? && comp.value.name.Some?
  {
    if comp.Some? then Capitalize(comp.value.name) else None
  }

  /** Once a record has a display name it is returned untouched; without one the cached name or the bare name stands in. */
  lemma FpDisplayNameFallback(current: Option<string>, comp: Option<Component>, cached: Option<string>, name: Option<string>)
    ensures Truthy(current) ==> Recall(current, FpDisplayNameFound(comp), if cached.Some? then cached else name) == current
    ensures current.None? && FpDisplayNameFound(comp).None? ==>
              Recall(current, FpDisplayNameFound(comp), if cached.Some? then cached else name)
              == (if cached.Some? then cached else name)
  {
  }

  function FpSummaryFound(comp: Option<Component>): Option<string> {
    if comp.Some? then comp.value.summary else None
  }

  /**
   * FlatpakPkgInfo.get_description as written: the except clause names GLib, which
   * pkgInfo.py never imports, so a conversion error ends in a NameError.
   */
  function FpDescriptionFoundAsWritten(comp: Option<Component>): (r: Result<Option<string>>)
    ensures r.Err? <==> comp.Some? && comp.value.description.Some? && comp.value.markup.Err?
  {
    if comp.None? || comp.value.description.None? then Ok(None)
    else match comp.value.markup
      case Ok(t) => Ok(Some(t))
      case Err(_) => Err("NameError")
  }

  lemma DescriptionConversionErrorAsWritten()
    ensures FpDescriptionFoundAsWritten(Some(Component(None, None, Some("<p>x"), Err("GLib.Error"), [], [],
                                                        None, None, None))).Err?
  {
  }

  /** get_description as intended: the converted text, or the raw description when conversion fails. */
  function FpDescriptionFound(comp: Option<Component>): (r: Option<string>)
    ensures r.Some? <==> comp.Some? && comp.value.description.Some?
    ensures r.Some? && comp.value.markup.Ok? ==> r.value == comp.value.markup.value
    ensures r.Some? && comp.value.markup.Err? ==> r == comp.value.description
  {
    if comp.None? || comp.value.description.None? then None
    else match comp.value.markup
      case Ok(t) => Some(t)
      case Err(_) => comp.value.description
  }

  /** The corrected getter agrees with the written one wherever that one does not fail. */
  lemma DescriptionCorrection(comp: Option<Component>)
    ensures FpDescriptionFoundAsWritten(comp).Ok? ==> FpDescriptionFoundAsWritten(comp).value == FpDescriptionFound(comp)
  {
  }

  /** The index of the newest release, the first of them when several share the newest timestamp. */
  function NewestRelease(rs: seq<Release>): (i: nat)
    requires |rs| > 0
    ensures i < |rs|
    ensures forall j :: 0 <= j < |rs| ==> rs[j].timestamp <= rs[i].timestamp
    ensures forall j :: 0 <= j < i ==> rs[j].timestamp < rs[i].timestamp
  {
    if |rs| == 1 then 0
    else
      var k := NewestRelease(rs[1..]);
      assert forall j :: 1 <= j < |rs| ==> rs[j] == rs[1..][j - 1];
      if rs[1..][k].timestamp > rs[0].timestamp then k + 1 else 0
  }

  /** get_version's found value: the newest release's version when it is truthy. */
  function FpVersionFound(comp: Option<Component>): (r: Option<string>)
    ensures r.Some? ==> Truthy(r) && comp.Some? && exists i :: 0 <= i < |comp.value.releases| && r == comp.value.releases[i].version
  {
    if comp.None? || |comp.value.releases| == 0 then None
    else
      var v := comp.value.releases[NewestRelease(comp.value.releases)].version;
      if Truthy(v) then v else None
  }

  // ---------------------------------------------------------------------------
  // Flatpak icons

  predicate LocalKind(k: IconKind) {
    k == Local || k == Cached || k == Stock
  }

  /** A local, cached or stock icon whose file exists. */
  predicate Usable(ic: FpIcon, files: set<string>) {
    LocalKind(ic.kind) && ic.filename.Some? && ic.filename.value in files
  }

  /** The "%dx%d" directory name of a size. */
  function SizeDir(size: int): string {
    IntToString(size) + "x" + IntToString(size)
  }

  predicate GoodSize(ic: FpIcon, size: int) {
    size <= ic.height || Contains(ic.prefix, SizeDir(size))
  }

  predicate Good(ic: FpIcon, size: int, files: set<string>) {
    Usable(ic, files) && GoodSize(ic, size)
  }

  /** The loop of FlatpakPkgInfo.get_icon from a given state: (good size, last local, last remote). */
  function FpScan(icons: seq<FpIcon>, size: int, files: set<string>, local: Option<FpIcon>,
                  remote: Option<FpIcon>): (Option<FpIcon>, Option<FpIcon>, Option<FpIcon>)
    decreases |icons|
  {
    if |icons| == 0 then (None, local, remote)
    else
      var ic := icons[0];
      if ic.kind == Remote then FpScan(icons[1..], size, files, local, Some(ic))
      else if !Usable(ic, files) then FpScan(icons[1..], size, files, local, remote)
      else if GoodSize(ic, size) then (Some(ic), Some(ic), remote)
      else FpScan(icons[1..], size, files, Some(ic), remote)
  }

  /** `good_size_icon or local_exists_icon or remote_icon` */
  function FpPick(scan: (Option<FpIcon>, Option<FpIcon>, Option<FpIcon>)): Option<FpIcon> {
    if scan.0.Some? then scan.0 else if scan.1.Some? then scan.1 else scan.2
  }

  /** Reference definitions of the preference: the first good icon, the last usable one, the last remote one. */
  function FirstGood(icons: seq<FpIcon>, size: int, files: set<string>): Option<FpIcon> {
    if |icons| == 0 then None
    else if Good(icons[0], size, files) then Some(icons[0])
    else FirstGood(icons[1..], size, files)
  }

  function LastUsable(icons: seq<FpIcon>, files: set<string>): Option<FpIcon> {
    if |icons| == 0 then None
    else if Usable(icons[|icons| - 1], files) then Some(icons[|icons| - 1])
    else LastUsable(icons[..|icons| - 1], files)
  }

  function LastRemote(icons: seq<FpIcon>): Option<FpIcon> {
    if |icons| == 0 then None
    else if icons[|icons| - 1].kind == Remote then Some(icons[|icons| - 1])
    else LastRemote(icons[..|icons| - 1])
  }

  function Preferred(icons: seq<FpIcon>, size: int, files: set<string>): Option<FpIcon> {
    var g := FirstGood(icons, size, files);
    if g.Some? then g
    else
      var l := LastUsable(icons, files);
      if l.Some? then l else LastRemote(icons)
  }

  lemma {:induction false} LastUsableCons(ic: FpIcon, rest: seq<FpIcon>, files: set<string>)
    ensures LastUsable([ic] + rest, files)
            == if LastUsable(rest, files).Some? then LastUsable(rest, files)
               else if Usable(ic, files) then Some(ic) else None
    decreases |rest|
  {
    var s := [ic] + rest;
    if |rest| > 0 {
      assert s[..|s| - 1] == [ic] + rest[..|rest| - 1];
      assert s[|s| - 1] == rest[|rest| - 1];
      LastUsableCons(ic, rest[..|rest| - 1], files);
    } else {
      assert s[..|s| - 1] == [];
    }
  }

  lemma {:induction false} LastRemoteCons(ic: FpIcon, rest: seq<FpIcon>)
    ensures LastRemote([ic] + rest)
            == if LastRemote(rest).Some? then LastRemote(rest)
               else if ic.kind == Remote then Some(ic) else None
    decreases |rest|
  {
    var s := [ic] + rest;
    if |rest| > 0 {
      assert s[..|s| - 1] == [ic] + rest[..|rest| - 1];
      assert s[|s| - 1] == rest[|rest| - 1];
      LastRemoteCons(ic, rest[..|rest| - 1]);
    } else {
      assert s[..|s| - 1] == [];
    }
  }

  /** The scan from any state, related to the reference definitions. */
  lemma {:induction false} FpScanMeaning(icons: seq<FpIcon>, size: int, files: set<string>, local: Option<FpIcon>,
                                         remote: Option<FpIcon>)
    ensures var s := FpScan(icons, size, files, local, remote);
            s.0 == FirstGood(icons, size, files)
            && (s.0.Some? ==> s.1 == s.0)
            && (s.0.None? ==> s.1 == (if LastUsable(icons, files).Some? then LastUsable(icons, files) else local))
            && (s.0.None? ==> s.2 == (if LastRemote(icons).Some? then LastRemote(icons) else remote))
    decreases |icons|
  {
    if |icons| > 0 {
      var ic := icons[0];
      var rest := icons[1..];
      assert icons == [ic] + rest;
      LastUsableCons(ic, rest, files);
      LastRemoteCons(ic, rest);
      if ic.kind == Remote {
        FpScanMeaning(rest, size, files, local, Some(ic));
      } else if !Usable(ic, files) {
        FpScanMeaning(rest, size, files, local, remote);
      } else if !GoodSize(ic, size) {
        FpScanMeaning(rest, size, files, Some(ic), remote);
      }
    }
  }

  /**
   * get_icon's choice: a good-size local icon (the first), else the last existing local
   * icon, else the last remote icon.
   */
  lemma FpPickPreferred(icons: seq<FpIcon>, size: int, files: set<string>)
    ensures FpPick(FpScan(icons, size, files, None, None)) == Preferred(icons, size, files)
  {
    FpScanMeaning(icons, size, files, None, None);
  }

  /** The URL stored for a remote icon: a relative flathub URL gets the media base prefix. */
  function FlathubUrl(url: string, remote: Option<string>): (r: string)
    ensures StartsWith(url, "http") || remote != Some("flathub") ==> r == url
  {
    if !StartsWith(url, "http") && remote == Some("flathub") then FlathubMediaBaseUrl + url else url
  }

  /** Every remote icon URL of a flathub package is absolute. */
  lemma FlathubUrlAbsolute(url: string)
    ensures StartsWith(FlathubUrl(url, Some("flathub")), "http")
  {
    if !StartsWith(url, "http") {
      assert (FlathubMediaBaseUrl + url)[..4] == "http";
    }
  }

  /** What get_icon stores for `size` from the component: None when it stores nothing. */
  function FpIconStored(comp: Option<Component>, size: int, files: set<string>, name: Option<string>,
                        remote: Option<string>): (r: Result<Option<Option<string>>>)
    ensures r.Ok? && r.value.Some? ==> comp.Some? && |comp.value.icons| > 0
  {
    if comp.None? || |comp.value.icons| == 0 then Ok(None)
    else
      var use := FpPick(FpScan(comp.value.icons, size, files, None, None));
      if use.None? then Ok(Some(name))
      else if use.value.kind != Remote then Ok(Some(use.value.filename))
      else if use.value.url.None? then Err("AttributeError")
      else Ok(Some(Some(FlathubUrl(use.value.url.value, remote))))
  }

  /**
   * The three values cached_icon takes: None, the one-entry table from_json restores, and the
   * 48px icon (a string) that add_cached_ascomp_data stores.
   */
  datatype CachedIcon = NoCachedIcon | IconDict(t: Table<int, Option<string>>) | IconText(s: string)

  /**
   * `cached_icon[size]`, None when cached_icon is None or the lookup raises. A stored string
   * is indexed as Python indexes a str: the character at `size`, counted from the end when negative.
   */
  function CachedLookup(cached: CachedIcon, size: int): (r: Option<string>)
    ensures cached.NoCachedIcon? ==> r.None?
    ensures cached.IconDict? ==> r == (if HasKey(cached.t, size) then Get(cached.t, size).value else None)
    ensures cached.IconText? ==> (r.Some? <==> -|cached.s| <= size < |cached.s|)
    ensures cached.IconText? && r.Some? ==> |r.value| == 1 && r.value[0] in cached.s
  {
    match cached
    case NoCachedIcon => None
    case IconDict(t) =>
      (match Get(t, size)
       case None => None
       case Some(v) => v)
    case IconText(s) =>
      if 0 <= size < |s| then Some([s[size]])
      else if -|s| <= size < 0 then Some([s[|s| + size]])
      else None
  }

  /**
   * Once add_cached_ascomp_data has stored a string icon, a later get_icon that misses
   * returns one character of it, and never the stored path itself when it is longer.
   */
  lemma CachedTextIndexed(s: string, files: set<string>, name: Option<string>, remote: Option<string>)
    requires |s| > 64
    ensures FpIconOf([], 64, None, files, name, remote, IconText(s)) == Ok(Some([s[64]]))
    ensures FpIconOf([], 64, None, files, name, remote, IconText(s)) != Ok(Some(s))
  {
  }

  /** FlatpakPkgInfo.get_icon */
  function FpIconOf(icon: Table<int, Option<string>>, size: int, comp: Option<Component>, files: set<string>,
                    name: Option<string>, remote: Option<string>, cached: CachedIcon)
    : (r: Result<Option<string>>)
    ensures HasKey(icon, size) ==> r == Ok(Get(icon, size).value)
    ensures !HasKey(icon, size) && (comp.None? || |comp.value.icons| == 0) ==> r == Ok(CachedLookup(cached, size))
  {
    match Get(icon, size)
    case Some(v) => Ok(v)
    case None =>
      var stored :- FpIconStored(comp, size, files, name, remote);
      if stored.Some? then Ok(stored.value) else Ok(CachedLookup(cached, size))
  }

  /** The icon table after get_icon: the stored size added when it was missing and the component gave one. */
  function FpIconAfter(icon: Table<int, Option<string>>, size: int, comp: Option<Component>, files: set<string>,
                       name: Option<string>, remote: Option<string>): Table<int, Option<string>>
  {
    var stored := FpIconStored(comp, size, files, name, remote);
    if !HasKey(icon, size) && stored.Ok? && stored.value.Some? then Set(icon, size, stored.value.value)
    else icon
  }

  /** What add_cached_ascomp_data stores as cached_icon: the icon string, or None. */
  function AsCachedIcon(i: Option<string>): (c: CachedIcon)
    ensures c.NoCachedIcon? <==> i.None?
    ensures c.IconText? ==> c.s == i.value
  {
    if i.Some? then IconText(i.value) else NoCachedIcon
  }

  /** An uncached icon comes from the preferred icon of the component, or is the package name. */
  lemma FpIconPreferred(size: int, comp: Component, files: set<string>, name: Option<string>, remote: Option<string>)
    requires |comp.icons| > 0
    ensures var p := Preferred(comp.icons, size, files);
            var r := FpIconOf([], size, Some(comp), files, name, remote, NoCachedIcon);
            (p.None? ==> r == Ok(name))
            && (p.Some? && p.value.kind != Remote ==> r == Ok(p.value.filename) && Usable(p.value, files))
            && (p.Some? && p.value.kind == Remote && p.value.url.Some? ==> r == Ok(Some(FlathubUrl(p.value.url.value, remote))))
  {
    FpPickPreferred(comp.icons, size, files);
    PreferredKinds(comp.icons, size, files);
  }

  lemma {:induction false} PreferredKinds(icons: seq<FpIcon>, size: int, files: set<string>)
    ensures var p := Preferred(icons, size, files);
            p.Some? && p.value.kind != Remote ==> Usable(p.value, files)
  {
    FirstGoodIsGood(icons, size, files);
    LastUsableIsUsable(icons, files);
    LastRemoteIsRemote(icons);
  }

  lemma {:induction false} FirstGoodIsGood(icons: seq<FpIcon>, size: int, files: set<string>)
    ensures FirstGood(icons, size, files).Some? ==> Good(FirstGood(icons, size, files).value, size, files)
    decreases |icons|
  {
    if |icons| > 0 && !Good(icons[0], size, files) {
      FirstGoodIsGood(icons[1..], size, files);
    }
  }

  lemma {:induction false} LastUsableIsUsable(icons: seq<FpIcon>, files: set<string>)
    ensures LastUsable(icons, files).Some? ==> Usable(LastUsable(icons, files).value, files)
    decreases |icons|
  {
    if |icons| > 0 && !Usable(icons[|icons| - 1], files) {
      LastUsableIsUsable(icons[..|icons| - 1], files);
    }
  }

  lemma {:induction false} LastRemoteIsRemote(icons: seq<FpIcon>)
    ensures LastRemote(icons).Some? ==> LastRemote(icons).value.kind == Remote
    decreases |icons|
  {
    if |icons| > 0 && icons[|icons| - 1].kind != Remote {
      LastRemoteIsRemote(icons[..|icons| - 1]);
    }
  }

  // ---------------------------------------------------------------------------
  // JSON forms

  /** The icon table as json.dump writes it: int keys become their decimal text. */
  function IconsToJson(t: Table<int, Option<string>>): (r: Table<string, Json>)
    ensures |r| == |t|
    ensures forall i :: 0 <= i < |t| ==> r[i] == (IntToString(t[i].0), Text(t[i].1))
  {
    if |t| == 0 then [] else IconsToJson(t[..|t| - 1]) + [(IntToString(t[|t| - 1].0), Text(t[|t| - 1].1))]
  }

  /**
   * The `popitem()` loop of AptPkgInfo.from_json: members leave from the end and are
   * stored under int(size) until popping or int() raises.
   */
  function PopIcons(ms: Table<string, Json>, acc: Table<int, Option<string>>): Table<int, Option<string>>
    decreases |ms|
  {
    if |ms| == 0 then acc
    else
      var last := ms[|ms| - 1];
      match (ParseInt(last.0), AsText(last.1))
      case (Some(k), Ok(v)) => PopIcons(ms[..|ms| - 1], Set(acc, k, v))
      case _ => acc
  }

  function KeysOf<V>(t: Table<string, V>): seq<string> {
    seq(|t|, i requires 0 <= i < |t| => t[i].0)
  }

  /** The attributes AptPkgInfo.from_json restores. */
  datatype AptRecord = AptRecord(pkgHash: Option<string>, name: Option<string>, displayName: Option<string>,
                                 summary: Option<string>, icon: Table<int, Option<string>>)

  /** AptPkgInfo.to_json, after json.dump. */
  function AptJson(a: AptRecord): Json
  {
    JObj([("pkg_hash", Text(a.pkgHash)), ("name", Text(a.name)), ("display_name", Text(a.displayName)),
          ("summary", Text(a.summary)), ("icon", JObj(IconsToJson(a.icon)))])
  }

  /** The icon table of from_json: empty without an "icon" object. */
  function IconsFromJson(j: Json, key: string): Table<int, Option<string>> {
    match Field(j, key)
    case Ok(JObj(ms)) => PopIcons(ms, [])
    case _ => []
  }

  /** AptPkgInfo.from_json, on attributes that are null or strings. */
  function AptFromJson(j: Json): (r: Result<AptRecord>)
    ensures r.Ok? ==> j.JObj?
  {
    var pkgHash :- TextField(j, "pkg_hash");
    var name :- TextField(j, "name");
    var displayName :- TextField(j, "display_name");
    var summary :- TextField(j, "summary");
    Ok(AptRecord(pkgHash, name, displayName, summary, IconsFromJson(j, "icon")))
  }

  lemma AptFromJsonIcons(j: Json)
    ensures AptFromJson(j).Ok? ==> AptFromJson(j).value.icon == IconsFromJson(j, "icon")
  {
  }

  predicate DisjointKeys(t: Table<int, Option<string>>, u: Table<int, Option<string>>) {
    forall i, j :: 0 <= i < |t| && 0 <= j < |u| ==> t[i].0 != u[j].0
  }

  /** One pop: the last member is an encoded item whose key the accumulator lacks. */
  lemma PopEncodedLast(ms: Table<string, Json>, acc: Table<int, Option<string>>, k: int, v: Option<string>)
    requires |ms| > 0 && ms[|ms| - 1] == (IntToString(k), Text(v)) && !HasKey(acc, k)
    ensures PopIcons(ms, acc) == PopIcons(ms[..|ms| - 1], acc + [(k, v)])
  {
    ParseIntToString(k);
    TextRoundTrip(v);
  }

  /** Moving the last item of `t` to `acc` keeps the keys disjoint. */
  lemma DisjointAfterMove(t: Table<int, Option<string>>, acc: Table<int, Option<string>>)
    requires |t| > 0 && UniqueKeys(t) && DisjointKeys(t, acc)
    ensures DisjointKeys(t[..|t| - 1], acc + [t[|t| - 1]])
  {
    var init, acc' := t[..|t| - 1], acc + [t[|t| - 1]];
    forall i, j | 0 <= i < |init| && 0 <= j < |acc'|
      ensures init[i].0 != acc'[j].0
    {
      assert init[i] == t[i];
      if j < |acc| {
        assert acc'[j] == acc[j];
      } else {
        assert acc'[j] == t[|t| - 1];
      }
    }
  }

  /** Popping an encoded table with distinct keys appends its items in reverse order. */
  lemma {:induction false} PopEncoded(t: Table<int, Option<string>>, acc: Table<int, Option<string>>)
    requires UniqueKeys(t) && DisjointKeys(t, acc)
    ensures PopIcons(IconsToJson(t), acc) == acc + Reversed(t)
    decreases |t|
  {
    if |t| > 0 {
      var ms := IconsToJson(t);
      var (k, v) := t[|t| - 1];
      assert !HasKey(acc, k);
      PopEncodedLast(ms, acc, k, v);
      var init := t[..|t| - 1];
      assert ms[..|ms| - 1] == IconsToJson(init);
      DisjointAfterMove(t, acc);
      PopEncoded(init, acc + [(k, v)]);
      assert Reversed(t) == [(k, v)] + Reversed(init);
      assert acc + [(k, v)] + Reversed(init) == acc + Reversed(t);
    }
  }

  /** from_json(to_json()) restores every saved attribute; the icon table comes back in reverse order. */
  lemma AptJsonRoundTrip(a: AptRecord)
    requires UniqueKeys(a.icon)
    ensures AptFromJson(AptJson(a)) == Ok(a.(icon := Reversed(a.icon)))
  {
    PopEncoded(a.icon, []);
    assert [] + Reversed(a.icon) == Reversed(a.icon);
    AptFields(a);
    AptMoreFields(a);
    AptIconField(a);
    TextRoundTrip(a.pkgHash);
    TextRoundTrip(a.name);
    TextRoundTrip(a.displayName);
    TextRoundTrip(a.summary);
  }

  lemma AptFields(a: AptRecord)
    ensures Field(AptJson(a), "pkg_hash") == Ok(Text(a.pkgHash))
    ensures Field(AptJson(a), "name") == Ok(Text(a.name))
  {
    var ms := AptJson(a).members;
    GetAt(ms, 0);
    GetAt(ms, 1);
  }

  lemma AptMoreFields(a: AptRecord)
    ensures Field(AptJson(a), "display_name") == Ok(Text(a.displayName))
    ensures Field(AptJson(a), "summary") == Ok(Text(a.summary))
  {
    var ms := AptJson(a).members;
    GetAt(ms, 2);
    GetAt(ms, 3);
  }

  lemma AptIconField(a: AptRecord)
    ensures Field(AptJson(a), "icon") == Ok(JObj(IconsToJson(a.icon)))
  {
    GetAt(AptJson(a).members, 4);
  }

  /** A reversed table maps every key as the original does. */
  lemma {:induction false} ReversedLookup(t: Table<int, Option<string>>, k: int)
    requires UniqueKeys(t)
    ensures UniqueKeys(Reversed(t)) && Get(Reversed(t), k) == Get(t, k)
  {
    var r := Reversed(t);
    assert UniqueKeys(r) by {
      forall i, j | 0 <= i < j < |r|
        ensures r[i].0 != r[j].0
      {
        assert r[i] == t[|t| - 1 - i] && r[j] == t[|t| - 1 - j];
      }
    }
    var a := Get(t, k);
    if a.Some? {
      var i :| 0 <= i < |t| && t[i] == (k, a.value);
      assert r[|t| - 1 - i] == (k, a.value);
      GetUnique(r, k, a.value);
    }
  }

  /** The eleven attributes FlatpakPkgInfo.to_json always writes. */
  datatype FlatpakSaved = FlatpakSaved(pkgHash: Option<string>, name: Option<string>, refid: Option<string>,
                                       remote: Option<string>, kind: int, arch: Option<string>,
                                       branch: Option<string>, commit: Option<string>, remoteUrl: Option<string>,
                                       verified: Json, developer: Json)

  /** What FlatpakPkgInfo.from_json restores: the saved attributes and the three cached_* ones. */
  datatype FlatpakLoaded = FlatpakLoaded(saved: FlatpakSaved, cachedDisplayName: Option<string>,
                                         cachedSummary: Option<string>,
                                         cachedIcon: CachedIcon)

  const FlatpakFixedKeys: seq<string> := ["pkg_hash", "name", "refid", "remote", "kind", "arch", "branch",
                                          "commit", "remote_url", "verified", "developer"]

  /** FlatpakPkgInfo.to_json, after json.dump. */
  function FlatpakJson(s: FlatpakSaved, displayName: Option<string>, summary: Option<string>,
                       icon: Table<int, Option<string>>): (j: Json)
    ensures j.JObj?
  {
    JObj(FlatpakFixed(s) + FlatpakExtra(displayName, summary, icon))
  }

  function FlatpakFixed(s: FlatpakSaved): Table<string, Json> {
    FixedIdMembers(s) + FixedRestMembers(s)
  }

  function FixedIdMembers(s: FlatpakSaved): Table<string, Json> {
    [("pkg_hash", Text(s.pkgHash)), ("name", Text(s.name)), ("refid", Text(s.refid)),
     ("remote", Text(s.remote)), ("kind", JInt(s.kind))]
  }

  function FixedRestMembers(s: FlatpakSaved): Table<string, Json> {
    [("arch", Text(s.arch)), ("branch", Text(s.branch)), ("commit", Text(s.commit)),
     ("remote_url", Text(s.remoteUrl)), ("verified", s.verified), ("developer", s.developer)]
  }

  /** The cached_* members: each only when there is something to cache. */
  function FlatpakExtra(displayName: Option<string>, summary: Option<string>,
                        icon: Table<int, Option<string>>): Table<string, Json>
  {
    (if displayName.Some? then [("cached_display_name", JStr(displayName.value))] else [])
      + (if summary.Some? then [("cached_summary", JStr(summary.value))] else [])
      + (if |icon| > 0 then [("cached_icon", JObj(IconsToJson(icon)))] else [])
  }

  function AsInt(j: Json): (r: Result<int>)
    ensures r.Ok? <==> j.JInt?
  {
    if j.JInt? then Ok(j.i) else Err("type")
  }

  /** An optional attribute: its text when the key is there, else the default None. */
  function OptionalText(j: Json, key: string): Result<Option<string>> {
    match Field(j, key)
    case Err(_) => Ok(None)
    case Ok(v) => AsText(v)
  }

  /** from_json's cached_icon: one popitem() of the saved icon table. */
  function OneIcon(j: Json): CachedIcon {
    match Field(j, "cached_icon")
    case Ok(JObj(ms)) =>
      if |ms| == 0 then NoCachedIcon
      else
        (match (ParseInt(ms[|ms| - 1].0), AsText(ms[|ms| - 1].1))
         case (Some(k), Ok(v)) => IconDict([(k, v)])
         case _ => NoCachedIcon)
    case _ => NoCachedIcon
  }

  /** The identity attributes from_json reads first: pkg_hash, name, refid, remote and kind. */
  datatype FlatpakId = FlatpakId(pkgHash: Option<string>, name: Option<string>, refid: Option<string>,
                                 remote: Option<string>, kind: int)

  /** The first five reads of from_json. */
  function FlatpakIdFromJson(j: Json): Result<FlatpakId> {
    var pkgHash :- TextField(j, "pkg_hash");
    var name :- TextField(j, "name");
    var refid :- TextField(j, "refid");
    var remote :- TextField(j, "remote");
    var kind :- Field(j, "kind");
    var kind :- AsInt(kind);
    Ok(FlatpakId(pkgHash, name, refid, remote, kind))
  }

  /** The eleven reads of from_json that always take place. */
  function FlatpakSavedFromJson(j: Json): Result<FlatpakSaved> {
    var id :- FlatpakIdFromJson(j);
    var arch :- TextField(j, "arch");
    var branch :- TextField(j, "branch");
    var commit :- TextField(j, "commit");
    var remoteUrl :- TextField(j, "remote_url");
    var verified :- Field(j, "verified");
    var developer :- Field(j, "developer");
    Ok(FlatpakSaved(id.pkgHash, id.name, id.refid, id.remote, id.kind, arch, branch, commit, remoteUrl,
                    verified, developer))
  }

  /** FlatpakPkgInfo.from_json */
  function FlatpakFromJson(j: Json): (r: Result<FlatpakLoaded>)
    ensures r.Ok? ==> j.JObj?
  {
    var saved :- FlatpakSavedFromJson(j);
    var cachedDisplayName :- OptionalText(j, "cached_display_name");
    var cachedSummary :- OptionalText(j, "cached_summary");
    Ok(FlatpakLoaded(saved, cachedDisplayName, cachedSummary, OneIcon(j)))
  }

  /**
   * from_json(to_json()) restores the eleven attributes; the display name and summary
   * come back as cached_display_name and cached_summary, and one icon (the last) as cached_icon.
   */
  lemma FlatpakJsonRoundTrip(s: FlatpakSaved, displayName: Option<string>, summary: Option<string>,
                             icon: Table<int, Option<string>>)
    ensures FlatpakFromJson(FlatpakJson(s, displayName, summary, icon))
            == Ok(FlatpakLoaded(s, displayName, summary,
                               if |icon| > 0 then IconDict([icon[|icon| - 1]]) else NoCachedIcon))
  {
    SavedRoundTrip(s, displayName, summary, icon);
    OptionalFields(s, displayName, summary, icon);
    if |icon| > 0 {
      var t := IconsToJson(icon);
      ParseIntToString(icon[|icon| - 1].0);
      TextRoundTrip(icon[|icon| - 1].1);
      assert t[|t| - 1] == (IntToString(icon[|icon| - 1].0), Text(icon[|icon| - 1].1));
    }
  }

  /** The eleven always-written attributes read back unchanged. */
  lemma SavedRoundTrip(s: FlatpakSaved, displayName: Option<string>, summary: Option<string>,
                       icon: Table<int, Option<string>>)
    ensures FlatpakSavedFromJson(FlatpakJson(s, displayName, summary, icon)) == Ok(s)
  {
    IdRoundTrip(s, displayName, summary, icon);
    FixedRestFields(s, displayName, summary, icon);
    SavedFromFields(FlatpakJson(s, displayName, summary, icon), s);
  }

  /** Any document with the identity attributes and these six members yields `s`. */
  lemma SavedFromFields(j: Json, s: FlatpakSaved)
    requires FlatpakIdFromJson(j) == Ok(FlatpakId(s.pkgHash, s.name, s.refid, s.remote, s.kind))
    requires Field(j, "arch") == Ok(Text(s.arch)) && Field(j, "branch") == Ok(Text(s.branch))
    requires Field(j, "commit") == Ok(Text(s.commit)) && Field(j, "remote_url") == Ok(Text(s.remoteUrl))
    requires Field(j, "verified") == Ok(s.verified) && Field(j, "developer") == Ok(s.developer)
    ensures FlatpakSavedFromJson(j) == Ok(s)
  {
    TextRoundTrip(s.arch);
    TextRoundTrip(s.branch);
    TextRoundTrip(s.commit);
    TextRoundTrip(s.remoteUrl);
  }

  /** pkg_hash, name, refid, remote and kind read back unchanged. */
  lemma IdRoundTrip(s: FlatpakSaved, displayName: Option<string>, summary: Option<string>,
                    icon: Table<int, Option<string>>)
    ensures FlatpakIdFromJson(FlatpakJson(s, displayName, summary, icon))
            == Ok(FlatpakId(s.pkgHash, s.name, s.refid, s.remote, s.kind))
  {
    FixedIdFields(s, displayName, summary, icon);
    IdFromFields(FlatpakJson(s, displayName, summary, icon), s);
  }

  /** Any document with these five members yields these identity attributes. */
  lemma IdFromFields(j: Json, s: FlatpakSaved)
    requires Field(j, "pkg_hash") == Ok(Text(s.pkgHash)) && Field(j, "name") == Ok(Text(s.name))
    requires Field(j, "refid") == Ok(Text(s.refid)) && Field(j, "remote") == Ok(Text(s.remote))
    requires Field(j, "kind") == Ok(JInt(s.kind))
    ensures FlatpakIdFromJson(j) == Ok(FlatpakId(s.pkgHash, s.name, s.refid, s.remote, s.kind))
  {
    TextRoundTrip(s.pkgHash);
    TextRoundTrip(s.name);
    TextRoundTrip(s.refid);
    TextRoundTrip(s.remote);
  }

  /** Each always-written member is found under its key, ahead of the cached_* ones. */
  lemma FixedField(s: FlatpakSaved, displayName: Option<string>, summary: Option<string>,
                   icon: Table<int, Option<string>>, i: nat)
    requires i < 11
    ensures Field(FlatpakJson(s, displayName, summary, icon), FlatpakFixed(s)[i].0) == Ok(FlatpakFixed(s)[i].1)
  {
    var f := FlatpakFixed(s);
    FixedKeys(s);
    GetAt(f, i);
    GetAppend(f, FlatpakExtra(displayName, summary, icon), f[i].0);
  }

  /** The identity members of to_json, by key. */
  lemma FixedIdFields(s: FlatpakSaved, displayName: Option<string>, summary: Option<string>,
                      icon: Table<int, Option<string>>)
    ensures var j := FlatpakJson(s, displayName, summary, icon);
            Field(j, "pkg_hash") == Ok(Text(s.pkgHash)) && Field(j, "name") == Ok(Text(s.name))
            && Field(j, "refid") == Ok(Text(s.refid)) && Field(j, "remote") == Ok(Text(s.remote))
            && Field(j, "kind") == Ok(JInt(s.kind))
  {
    var f, a := FlatpakFixed(s), FixedIdMembers(s);
    assert f[0] == a[0] == ("pkg_hash", Text(s.pkgHash));
    assert f[1] == a[1] == ("name", Text(s.name));
    assert f[2] == a[2] == ("refid", Text(s.refid));
    assert f[3] == a[3] == ("remote", Text(s.remote));
    assert f[4] == a[4] == ("kind", JInt(s.kind));
    FixedField(s, displayName, summary, icon, 0);
    FixedField(s, displayName, summary, icon, 1);
    FixedField(s, displayName, summary, icon, 2);
    FixedField(s, displayName, summary, icon, 3);
    FixedField(s, displayName, summary, icon, 4);
  }

  /** The other always-written members of to_json, by key. */
  lemma FixedRestFields(s: FlatpakSaved, displayName: Option<string>, summary: Option<string>,
                        icon: Table<int, Option<string>>)
    ensures var j := FlatpakJson(s, displayName, summary, icon);
            Field(j, "arch") == Ok(Text(s.arch)) && Field(j, "branch") == Ok(Text(s.branch))
            && Field(j, "commit") == Ok(Text(s.commit)) && Field(j, "remote_url") == Ok(Text(s.remoteUrl))
            && Field(j, "verified") == Ok(s.verified) && Field(j, "developer") == Ok(s.developer)
  {
    var f, b := FlatpakFixed(s), FixedRestMembers(s);
    assert f[5] == b[0] == ("arch", Text(s.arch));
    assert f[6] == b[1] == ("branch", Text(s.branch));
    assert f[7] == b[2] == ("commit", Text(s.commit));
    assert f[8] == b[3] == ("remote_url", Text(s.remoteUrl));
    assert f[9] == b[4] == ("verified", s.verified);
    assert f[10] == b[5] == ("developer", s.developer);
    FixedField(s, displayName, summary, icon, 5);
    FixedField(s, displayName, summary, icon, 6);
    FixedField(s, displayName, summary, icon, 7);
    FixedField(s, displayName, summary, icon, 8);
    FixedField(s, displayName, summary, icon, 9);
    FixedField(s, displayName, summary, icon, 10);
  }

  lemma OptionalFields(s: FlatpakSaved, displayName: Option<string>, summary: Option<string>,
                       icon: Table<int, Option<string>>)
    ensures var j := FlatpakJson(s, displayName, summary, icon);
            OptionalText(j, "cached_display_name") == Ok(displayName)
            && OptionalText(j, "cached_summary") == Ok(summary)
            && (|icon| > 0 ==> Field(j, "cached_icon") == Ok(JObj(IconsToJson(icon))))
            && (|icon| == 0 ==> Field(j, "cached_icon").Err?)
  {
    var f := FlatpakFixed(s);
    var e := FlatpakExtra(displayName, summary, icon);
    FixedLacksCached(s);
    ExtraFields(displayName, summary, icon);
    GetAppend(f, e, "cached_display_name");
    GetAppend(f, e, "cached_summary");
    GetAppend(f, e, "cached_icon");
  }

  /** The keys of the always-written members, in order. */
  lemma FixedKeys(s: FlatpakSaved)
    ensures KeysOf(FlatpakFixed(s)) == FlatpakFixedKeys
  {
  }

  lemma FixedLacksCached(s: FlatpakSaved)
    ensures !HasKey(FlatpakFixed(s), "cached_display_name")
    ensures !HasKey(FlatpakFixed(s), "cached_summary")
    ensures !HasKey(FlatpakFixed(s), "cached_icon")
  {
    FixedKeys(s);
    Unlisted(FlatpakFixed(s), "cached_display_name");
    Unlisted(FlatpakFixed(s), "cached_summary");
    Unlisted(FlatpakFixed(s), "cached_icon");
  }

  lemma ExtraFields(displayName: Option<string>, summary: Option<string>, icon: Table<int, Option<string>>)
    ensures Get(FlatpakExtra(displayName, summary, icon), "cached_display_name")
            == if displayName.Some? then Some(JStr(displayName.value)) else None
    ensures Get(FlatpakExtra(displayName, summary, icon), "cached_summary")
            == if summary.Some? then Some(JStr(summary.value)) else None
    ensures Get(FlatpakExtra(displayName, summary, icon), "cached_icon")
            == if |icon| > 0 then Some(JObj(IconsToJson(icon))) else None
  {
    var d: Table<string, Json> := if displayName.Some? then [("cached_display_name", JStr(displayName.value))] else [];
    var u: Table<string, Json> := if summary.Some? then [("cached_summary", JStr(summary.value))] else [];
    var c: Table<string, Json> := if |icon| > 0 then [("cached_icon", JObj(IconsToJson(icon)))] else [];
    assert FlatpakExtra(displayName, summary, icon) == d + u + c;
    GetAppend(d + u, c, "cached_display_name");
    GetAppend(d + u, c, "cached_summary");
    GetAppend(d + u, c, "cached_icon");
    GetAppend(d, u, "cached_display_name");
    GetAppend(d, u, "cached_summary");
    GetAppend(d, u, "cached_icon");
  }

  lemma Unlisted(t: Table<string, Json>, k: string)
    requires k !in KeysOf(t)
    ensures !HasKey(t, k)
  {
    assert forall i :: 0 <= i < |t| ==> KeysOf(t)[i] == t[i].0;
  }

  /**
   * After a to_json / from_json round trip, get_display_name without a component gives
   * the saved display name, or the name when none was saved.
   */
  lemma FlatpakRoundTripDisplayName(s: FlatpakSaved, displayName: Option<string>, summary: Option<string>,
                                    icon: Table<int, Option<string>>)
    ensures FlatpakFromJson(FlatpakJson(s, displayName, summary, icon)).Ok?
    ensures var l := FlatpakFromJson(FlatpakJson(s, displayName, summary, icon)).value;
            Recall(None, FpDisplayNameFound(None), if l.cachedDisplayName.Some? then l.cachedDisplayName else l.saved.name)
            == if displayName.Some? then displayName else s.name
  {
    FlatpakJsonRoundTrip(s, displayName, summary, icon);
  }

  // ---------------------------------------------------------------------------
  // The records

  class AptPkgInfo {
    var pkgHash: Option<string>
    var name: Option<string>
    var displayName: Option<string>
    var summary: Option<string>
    var description: Option<string>
    var version: Option<string>
    var homepageUrl: Option<string>
    var icon: Table<int, Option<string>>
    var verified: bool

    /** AptPkgInfo(pkg_hash, apt_pkg): the defaults, then the name, display name, summary and two icons. */
    constructor(pkgHash: Option<string>, pkg: Option<AptPackage>, theme: set<string>, files: set<string>)
      ensures this.pkgHash == (if Truthy(pkgHash) then pkgHash else None)
      ensures verified && description.None? && version.None? && homepageUrl.None?
      ensures pkg.None? ==> name.None? && displayName.None? && summary.None? && icon == []
      ensures pkg.Some? ==> name == Some(pkg.value.name)
                            && displayName == Some(AptDisplayName(None, pkg, Some(pkg.value.name)).value)
                            && summary == Some(AptRecall(None, AptSummaryFound(pkg)))
                            && icon == IconsFound(IconsFound([], 48, pkg.value.name, theme, files), 64,
                                                  pkg.value.name, theme, files)
    {
      this.pkgHash := if Truthy(pkgHash) then pkgHash else None;
      name := None;
      displayName := None;
      summary := None;
      description := None;
      version := None;
      homepageUrl := None;
      icon := [];
      verified := true;
      new;
      if pkg.Some? {
        Load(pkg.value, theme, files);
      }
    }

    /** The apt_pkg part of the constructor. */
    method Load(pkg: AptPackage, theme: set<string>, files: set<string>)
      requires icon == [] && displayName.None? && summary.None?
      modifies this`name, this`displayName, this`summary, this`icon
      ensures name == Some(pkg.name)
      ensures displayName == Some(AptDisplayName(None, Some(pkg), Some(pkg.name)).value)
      ensures summary == Some(AptRecall(None, AptSummaryFound(Some(pkg))))
      ensures icon == IconsFound(IconsFound([], 48, pkg.name, theme, files), 64, pkg.name, theme, files)
    {
      name := Some(pkg.name);
      var d := GetDisplayName(Some(pkg));
      displayName := Some(d.value);
      var s := GetSummary(Some(pkg));
      summary := Some(s);
      var i48 := GetIcon(48, theme, files);
      var i64 := GetIcon(64, theme, files);
    }

    /** The attributes to_json writes. */
    function Saved(): AptRecord
      reads this
    {
      AptRecord(pkgHash, name, displayName, summary, icon)
    }

    /** AptPkgInfo.from_json: the defaults, the four attributes, then the popitem() loop over "icon". */
    static method FromJson(j: Json) returns (r: Result<AptPkgInfo>)
      ensures r.Err? <==> AptFromJson(j).Err?
      ensures r.Ok? ==> fresh(r.value) && r.value.Saved() == AptFromJson(j).value && r.value.verified
                        && r.value.description.None? && r.value.version.None? && r.value.homepageUrl.None?
    {
      var a := AptFromJson(j);
      if a.Err? {
        return Err(a.reason);
      }
      var icons: Table<int, Option<string>> := [];
      var f := Field(j, "icon");
      if f.Ok? && f.value.JObj? {
        icons := PopAll(f.value.members);
      }
      AptFromJsonIcons(j);
      var inst := Restored(a.value.(icon := icons));
      return Ok(inst);
    }

    /** `inst = cls()` and the attribute assignments of from_json. */
    static method Restored(a: AptRecord) returns (inst: AptPkgInfo)
      ensures fresh(inst) && inst.Saved() == a && inst.verified
      ensures inst.description.None? && inst.version.None? && inst.homepageUrl.None?
    {
      inst := new AptPkgInfo(None, None, {}, {});
      inst.pkgHash := a.pkgHash;
      inst.name := a.name;
      inst.displayName := a.displayName;
      inst.summary := a.summary;
      inst.icon := a.icon;
    }

    /** The popitem() loop of from_json: pops until the table is empty or a member cannot be stored. */
    static method PopAll(ms: Table<string, Json>) returns (icons: Table<int, Option<string>>)
      ensures icons == PopIcons(ms, [])
    {
      icons := [];
      var cached := ms;
      while |cached| > 0
        invariant PopIcons(ms, []) == PopIcons(cached, icons)
        decreases |cached|
      {
        ghost var before := cached;
        var (size, ic) := cached[|cached| - 1];
        cached := cached[..|cached| - 1];
        var k := ParseInt(size);
        var v := AsText(ic);
        if k.None? || v.Err? {
          assert PopIcons(before, icons) == icons;
          break;
        }
        icons := Set(icons, k.value, v.value);
      }
    }

    method GetDisplayName(pkg: Option<AptPackage>) returns (r: Result<string>)
      modifies this`displayName
      ensures r == AptDisplayName(old(displayName), pkg, name)
      ensures r.Ok? ==> displayName == Some(r.value)
      ensures r.Err? ==> displayName == (if pkg.Some? then Some("") else old(displayName))
    {
      if Truthy(displayName) {
        return Ok(displayName.value);
      }
      if pkg.Some? {
        displayName := Some(PyCapitalize(pkg.value.name));
      }
      if !Truthy(displayName) {
        if name.None? {
          return Err("AttributeError");
        }
        displayName := Some(PyCapitalize(name.value));
      }
      displayName := Some(Replace(displayName.value, ":i386", ""));
      return Ok(displayName.value);
    }

    method GetSummary(pkg: Option<AptPackage>) returns (r: string)
      modifies this`summary
      ensures r == AptRecall(old(summary), AptSummaryFound(pkg)) && summary == Some(r)
    {
      if Truthy(summary) {
        return summary.value;
      }
      var found := AptSummaryFound(pkg);
      if found.Some? {
        summary := found;
      }
      if summary.None? {
        summary := Some("");
      }
      return summary.value;
    }

    method GetDescription(pkg: Option<AptPackage>) returns (r: string)
      modifies this`description
      ensures r == AptRecall(old(description), AptDescriptionFound(pkg)) && description == Some(r)
    {
      if Truthy(description) {
        return description.value;
      }
      var found := AptDescriptionFound(pkg);
      if found.Some? {
        description := found;
      }
      if description.None? {
        description := Some("");
      }
      return description.value;
    }

    method GetVersion(pkg: Option<AptPackage>) returns (r: Result<string>)
      modifies this`version
      ensures r == AptVersionOf(old(version), pkg, false)
      ensures r.Ok? ==> version == Some(r.value)
      ensures r.Err? ==> version == old(version)
    {
      if Truthy(version) {
        return Ok(version.value);
      }
      var found := AptVersionFound(pkg, false);
      if found.Err? {
        return Err(found.reason);
      }
      if found.value.Some? {
        version := found.value;
      }
      if version.None? {
        version := Some("");
      }
      return Ok(version.value);
    }

    method GetHomepageUrl(pkg: Option<AptPackage>) returns (r: Result<string>)
      modifies this`homepageUrl
      ensures r == AptVersionOf(old(homepageUrl), pkg, true)
      ensures r.Ok? ==> homepageUrl == Some(r.value)
      ensures r.Err? ==> homepageUrl == old(homepageUrl)
    {
      if Truthy(homepageUrl) {
        return Ok(homepageUrl.value);
      }
      var found := AptVersionFound(pkg, true);
      if found.Err? {
        return Err(found.reason);
      }
      if found.value.Some? {
        homepageUrl := found.value;
      }
      if homepageUrl.None? {
        homepageUrl := Some("");
      }
      return Ok(homepageUrl.value);
    }

    /** get_icon: the cached entry, else the theme names, else the icon files, storing what it finds. */
    method GetIcon(size: int, theme: set<string>, files: set<string>) returns (r: Result<Option<string>>)
      modifies this`icon
      ensures r == AptIcon(old(icon), size, name, theme, files)
      ensures icon == (if !HasKey(old(icon), size) && r.Ok? && r.value.Some? then Set(old(icon), size, r.value)
                       else old(icon))
    {
      var cachedIcon := Get(icon, size);
      if cachedIcon.Some? {
        return Ok(cachedIcon.value);
      }
      if name.None? {
        return Err("AttributeError");
      }
      var names := ThemeNames(name.value);
      var i := 0;
      while i < |names|
        invariant 0 <= i <= |names|
        invariant FirstIn(names, theme) == FirstIn(names[i..], theme)
      {
        assert names[i..][1..] == names[i + 1..];
        if names[i] in theme {
          icon := Set(icon, size, Some(names[i]));
          return Ok(Some(names[i]));
        }
        i := i + 1;
      }
      var paths := AptIconPaths(name.value);
      i := 0;
      while i < |paths|
        invariant 0 <= i <= |paths|
        invariant FirstIn(paths, files) == FirstIn(paths[i..], files)
      {
        assert paths[i..][1..] == paths[i + 1..];
        if paths[i] in files {
          icon := Set(icon, size, Some(paths[i]));
          return Ok(Some(paths[i]));
        }
        i := i + 1;
      }
      return Ok(None);
    }
  }

  /** The icon loop of FlatpakPkgInfo.get_icon: the good-size, last usable local and last remote icons. */
  method ScanIcons(icons: seq<FpIcon>, size: int, files: set<string>)
    returns (scan: (Option<FpIcon>, Option<FpIcon>, Option<FpIcon>))
    ensures scan == FpScan(icons, size, files, None, None)
  {
    var remoteIcon: Option<FpIcon> := None;
    var localExistsIcon: Option<FpIcon> := None;
    var goodSizeIcon: Option<FpIcon> := None;
    var i := 0;
    while i < |icons|
      invariant 0 <= i <= |icons|
      invariant goodSizeIcon.None?
      invariant FpScan(icons, size, files, None, None) == FpScan(icons[i..], size, files, localExistsIcon, remoteIcon)
    {
      var ic := icons[i];
      assert icons[i..][1..] == icons[i + 1..];
      if ic.kind == Remote {
        remoteIcon := Some(ic);
        i := i + 1;
        continue;
      }
      if LocalKind(ic.kind) {
        if ic.filename.None? || ic.filename.value !in files {
          i := i + 1;
          continue;
        }
        localExistsIcon := Some(ic);
        if size <= ic.height || Contains(ic.prefix, SizeDir(size)) {
          goodSizeIcon := Some(ic);
          break;
        }
      }
      i := i + 1;
    }
    scan := (goodSizeIcon, localExistsIcon, remoteIcon);
  }

  class FlatpakPkgInfo {
    var pkgHash: Option<string>
    var name: Option<string>
    var refid: Option<string>
    var remote: Option<string>
    var kind: int
    var arch: Option<string>
    var branch: Option<string>
    var commit: Option<string>
    var remoteUrl: Option<string>
    var verified: Json
    var developer: Json
    var installed: bool
    var cachedDisplayName: Option<string>
    var cachedSummary: Option<string>
    var cachedIcon: CachedIcon
    var displayName: Option<string>
    var summary: Option<string>
    var description: Option<string>
    var version: Option<string>
    var homepageUrl: Option<string>
    var helpUrl: Option<string>
    var icon: Table<int, Option<string>>

    /**
     * FlatpakPkgInfo(pkg_hash, remote, ref, remote_url, installed): the defaults, and the
     * ref's attributes when a hash is given. Attributes never set read as None (null).
     */
    constructor(pkgHash: Option<string>, remote: Option<string>, ref: FlatpakRef, remoteUrl: Option<string>,
                installed: bool)
      ensures this.pkgHash == (if Truthy(pkgHash) then pkgHash else None)
      ensures Truthy(pkgHash) ==> name == Some(ref.name) && this.remote == remote && this.remoteUrl == remoteUrl
                                  && this.installed == installed && refid == Some(FormatRef(ref))
                                  && kind == KindCode(ref.kind) && arch == Some(ref.arch)
                                  && branch == Some(ref.branch) && commit == Some(ref.commit)
      ensures !Truthy(pkgHash) ==> name.None? && this.remote == Some("") && refid == Some("") && kind == 0
                                   && !this.installed
      ensures verified == JNull && developer == JNull && icon == []
      ensures cachedDisplayName.None? && cachedSummary.None? && cachedIcon == NoCachedIcon
      ensures displayName.None? && summary.None? && description.None? && version.None?
      ensures homepageUrl.None? && helpUrl.None?
    {
      this.pkgHash := if Truthy(pkgHash) then pkgHash else None;
      if Truthy(pkgHash) {
        name := Some(ref.name);
        this.remote := remote;
        this.remoteUrl := remoteUrl;
        this.installed := installed;
        refid := Some(FormatRef(ref));
        kind := KindCode(ref.kind);
        arch := Some(ref.arch);
        branch := Some(ref.branch);
        commit := Some(ref.commit);
      } else {
        name := None;
        this.remote := Some("");
        this.remoteUrl := Some("");
        this.installed := false;
        refid := Some("");
        kind := 0;
        arch := Some("");
        branch := Some("");
        commit := Some("");
      }
      verified := JNull;
      developer := JNull;
      cachedDisplayName := None;
      cachedSummary := None;
      cachedIcon := NoCachedIcon;
      displayName := None;
      summary := None;
      description := None;
      version := None;
      homepageUrl := None;
      helpUrl := None;
      icon := [];
    }

    function Saved(): FlatpakSaved
      reads this
    {
      FlatpakSaved(pkgHash, name, refid, remote, kind, arch, branch, commit, remoteUrl, verified, developer)
    }

    function Loaded(): FlatpakLoaded
      reads this
    {
      FlatpakLoaded(Saved(), cachedDisplayName, cachedSummary, cachedIcon)
    }

    /** to_json: what from_json reads back is the saved record, the memoized texts and the last icon. */
    function ToJson(): (r: Json)
      reads this
      ensures FlatpakFromJson(r)
              == Ok(FlatpakLoaded(Saved(), displayName, summary,
                                  if |icon| > 0 then IconDict([icon[|icon| - 1]]) else NoCachedIcon))
    {
      FlatpakJsonRoundTrip(Saved(), displayName, summary, icon);
      FlatpakJson(Saved(), displayName, summary, icon)
    }

    /** FlatpakPkgInfo.from_json */
    static method FromJson(j: Json) returns (r: Result<FlatpakPkgInfo>)
      ensures r.Err? <==> FlatpakFromJson(j).Err?
      ensures r.Ok? ==> fresh(r.value) && r.value.Loaded() == FlatpakFromJson(j).value
                        && r.value.displayName.None? && r.value.summary.None? && r.value.icon == []
    {
      var l := FlatpakFromJson(j);
      if l.Err? {
        return Err(l.reason);
      }
      var inst := Restored(l.value);
      return Ok(inst);
    }

    /** `inst = cls()` and the attribute assignments of from_json. */
    static method Restored(l: FlatpakLoaded) returns (inst: FlatpakPkgInfo)
      ensures fresh(inst) && inst.Loaded() == l
      ensures inst.displayName.None? && inst.summary.None? && inst.icon == []
    {
      inst := new FlatpakPkgInfo(None, None, FlatpakRef(App, "", "", "", "", Listed(""), None), None, false);
      inst.RestoreSaved(l.saved);
      inst.RestoreCached(l);
    }

    /** The attribute assignments of from_json: the three cached_* ones. */
    method RestoreCached(l: FlatpakLoaded)
      modifies this`cachedDisplayName, this`cachedSummary, this`cachedIcon
      ensures Loaded() == l.(saved := Saved())
    {
      cachedDisplayName := l.cachedDisplayName;
      cachedSummary := l.cachedSummary;
      cachedIcon := l.cachedIcon;
    }

    /** The attribute assignments of from_json: the eleven saved ones. */
    method RestoreSaved(s: FlatpakSaved)
      modifies this`pkgHash, this`name, this`refid, this`remote, this`kind, this`arch, this`branch, this`commit
      modifies this`remoteUrl, this`verified, this`developer
      ensures Saved() == s
    {
      pkgHash := s.pkgHash;
      name := s.name;
      refid := s.refid;
      remote := s.remote;
      kind := s.kind;
      arch := s.arch;
      branch := s.branch;
      commit := s.commit;
      remoteUrl := s.remoteUrl;
      verified := s.verified;
      developer := s.developer;
    }

    method GetDisplayName(comp: Option<Component>) returns (r: Option<string>)
      modifies this`displayName
      ensures displayName == Memo(old(displayName), FpDisplayNameFound(comp))
      ensures r == Recall(old(displayName), FpDisplayNameFound(comp),
                          if cachedDisplayName.Some? then cachedDisplayName else name)
    {
      if Truthy(displayName) {
        return displayName;
      }
      if comp.Some? && comp.value.name.Some? {
        displayName := Capitalize(comp.value.name);
      }
      if displayName.None? {
        if cachedDisplayName.Some? {
          return cachedDisplayName;
        }
        return name;
      }
      return displayName;
    }

    method GetSummary(comp: Option<Component>) returns (r: string)
      modifies this`summary
      ensures summary == Memo(old(summary), FpSummaryFound(comp))
      ensures Some(r) == Recall(old(summary), FpSummaryFound(comp), Some(if cachedSummary.Some? then cachedSummary.value else ""))
    {
      if Truthy(summary) {
        return summary.value;
      }
      if comp.Some? && comp.value.summary.Some? {
        summary := comp.value.summary;
      }
      if summary.None? {
        if cachedSummary.Some? {
          return cachedSummary.value;
        }
        return "";
      }
      return summary.value;
    }

    method GetDescription(comp: Option<Component>) returns (r: string)
      modifies this`description
      ensures description == Memo(old(description), FpDescriptionFound(comp))
      ensures Some(r) == Recall(old(description), FpDescriptionFound(comp), Some(""))
    {
      if Truthy(description) {
        return description.value;
      }
      var found := FpDescriptionFound(comp);
      if found.Some? {
        description := found;
      }
      if description.None? {
        return "";
      }
      return description.value;
    }

    method GetVersion(comp: Option<Component>) returns (r: string)
      modifies this`version
      ensures version == Memo(old(version), FpVersionFound(comp))
      ensures Some(r) == Recall(old(version), FpVersionFound(comp), Some(""))
    {
      if Truthy(version) {
        return version.value;
      }
      var found := FpVersionFound(comp);
      if found.Some? {
        version := found;
      }
      if version.None? {
        return "";
      }
      return version.value;
    }

    method GetHomepageUrl(comp: Option<Component>) returns (r: string)
      modifies this`homepageUrl
      ensures homepageUrl == Memo(old(homepageUrl), if comp.Some? then comp.value.homepage else None)
      ensures Some(r) == Recall(old(homepageUrl), if comp.Some? then comp.value.homepage else None, Some(""))
    {
      if Truthy(homepageUrl) {
        return homepageUrl.value;
      }
      if comp.Some? && comp.value.homepage.Some? {
        homepageUrl := comp.value.homepage;
      }
      if homepageUrl.None? {
        return "";
      }
      return homepageUrl.value;
    }

    method GetHelpUrl(comp: Option<Component>) returns (r: string)
      modifies this`helpUrl
      ensures helpUrl == Memo(old(helpUrl), if comp.Some? then comp.value.help else None)
      ensures Some(r) == Recall(old(helpUrl), if comp.Some? then comp.value.help else None, Some(""))
    {
      if Truthy(helpUrl) {
        return helpUrl.value;
      }
      if comp.Some? && comp.value.help.Some? {
        helpUrl := comp.value.help;
      }
      if helpUrl.None? {
        return "";
      }
      return helpUrl.value;
    }

    /** get_icon: the cached entry, else the component's preferred icon, else the cached_icon entry. */
    method GetIcon(comp: Option<Component>, size: int, files: set<string>) returns (r: Result<Option<string>>)
      modifies this`icon
      ensures r == FpIconOf(old(icon), size, comp, files, name, remote, cachedIcon)
      ensures icon == FpIconAfter(old(icon), size, comp, files, name, remote)
    {
      var hit := Get(icon, size);
      if hit.Some? {
        return Ok(hit.value);
      }
      if comp.Some? && |comp.value.icons| > 0 {
        var scan := ScanIcons(comp.value.icons, size, files);
        var iconToUse := FpPick(scan);
        if iconToUse.Some? {
          if iconToUse.value.kind != Remote {
            icon := Set(icon, size, iconToUse.value.filename);
          } else {
            var url := iconToUse.value.url;
            if url.None? {
              return Err("AttributeError");
            }
            icon := Set(icon, size, Some(FlathubUrl(url.value, remote)));
          }
        } else {
          icon := Set(icon, size, name);
        }
        GetSet(old(icon), size, Get(icon, size).value);
      }
      var stored := Get(icon, size);
      if stored.Some? {
        return Ok(stored.value);
      }
      return Ok(CachedLookup(cachedIcon, size));
    }

    /** add_cached_ascomp_data: the display name, summary and 48px icon become the cached_* attributes. */
    method AddCachedAscompData(comp: Component, files: set<string>) returns (r: Result<()>)
      modifies this`displayName, this`cachedDisplayName, this`summary, this`cachedSummary, this`icon
      modifies this`cachedIcon, this`developer
      ensures displayName == Memo(old(displayName), FpDisplayNameFound(Some(comp)))
      ensures cachedDisplayName == Recall(old(displayName), FpDisplayNameFound(Some(comp)),
                                          if old(cachedDisplayName).Some? then old(cachedDisplayName) else old(name))
      ensures summary == Memo(old(summary), FpSummaryFound(Some(comp)))
      ensures cachedSummary == Recall(old(summary), FpSummaryFound(Some(comp)),
                                      Some(if old(cachedSummary).Some? then old(cachedSummary).value else ""))
      ensures icon == FpIconAfter(old(icon), 48, Some(comp), files, old(name), old(remote))
      ensures r.Err? <==> FpIconOf(old(icon), 48, Some(comp), files, old(name), old(remote), old(cachedIcon)).Err?
      ensures r.Ok? ==> cachedIcon == AsCachedIcon(FpIconOf(old(icon), 48, Some(comp), files, old(name), old(remote),
                                                            old(cachedIcon)).value)
                        && developer == Text(comp.projectGroup)
      ensures r.Err? ==> cachedIcon == old(cachedIcon) && developer == old(developer)
    {
      CacheTexts(comp);
      r := CacheIcon(comp, files);
    }

    /** The display name and summary half of add_cached_ascomp_data. */
    method CacheTexts(comp: Component)
      modifies this`displayName, this`cachedDisplayName, this`summary, this`cachedSummary
      ensures displayName == Memo(old(displayName), FpDisplayNameFound(Some(comp)))
      ensures cachedDisplayName == Recall(old(displayName), FpDisplayNameFound(Some(comp)),
                                          if old(cachedDisplayName).Some? then old(cachedDisplayName) else name)
      ensures summary == Memo(old(summary), FpSummaryFound(Some(comp)))
      ensures cachedSummary == Recall(old(summary), FpSummaryFound(Some(comp)),
                                      Some(if old(cachedSummary).Some? then old(cachedSummary).value else ""))
    {
      var d := GetDisplayName(Some(comp));
      cachedDisplayName := d;
      var s := GetSummary(Some(comp));
      cachedSummary := Some(s);
    }

    /** The icon half of add_cached_ascomp_data, which also records the developer. */
    method CacheIcon(comp: Component, files: set<string>) returns (r: Result<()>)
      modifies this`icon, this`cachedIcon, this`developer
      ensures icon == FpIconAfter(old(icon), 48, Some(comp), files, name, remote)
      ensures r.Err? <==> FpIconOf(old(icon), 48, Some(comp), files, name, remote, old(cachedIcon)).Err?
      ensures r.Ok? ==> cachedIcon == AsCachedIcon(FpIconOf(old(icon), 48, Some(comp), files, name, remote,
                                                            old(cachedIcon)).value)
                        && developer == Text(comp.projectGroup)
      ensures r.Err? ==> cachedIcon == old(cachedIcon) && developer == old(developer)
    {
      var i := GetIcon(Some(comp), 48, files);
      if i.Err? {
        return Err(i.reason);
      }
      // the 48px icon itself, a string or None, becomes cached_icon
      cachedIcon := AsCachedIcon(i.value);
      developer := Text(comp.projectGroup);
      return Ok(());
    }
  }

  /** A cache entry: the pkg_hash prefix decides which of the two record classes it is. */
  datatype Entry = AptEntry(apt: AptPkgInfo) | FlatpakEntry(fp: FlatpakPkgInfo) {
    function Obj(): object {
      if AptEntry? then apt else fp
    }

    function PkgHash(): Option<string>
      reads Obj()
    {
      if AptEntry? then apt.pkgHash else fp.pkgHash
    }

    function Name(): Option<string>
      reads Obj()
    {
      if AptEntry? then apt.name else fp.name
    }

    /** The remote attribute; an AptPkgInfo keeps the base-class default "". */
    function Remote(): Option<string>
      reads Obj()
    {
      if AptEntry? then Some("") else fp.remote
    }

    /** The arch attribute; an AptPkgInfo keeps the base-class default "". */
    function Arch(): Option<string>
      reads Obj()
    {
      if AptEntry? then Some("") else fp.arch
    }

    /** The branch attribute; an AptPkgInfo keeps the base-class default "". */
    function Branch(): Option<string>
      reads Obj()
    {
      if AptEntry? then Some("") else fp.branch
    }
  }

  /** The AptPkgInfo records a table refers to. */
  function AptObjs(t: Table<string, Entry>): set<AptPkgInfo> {
    set p | p in t && p.1.AptEntry? :: p.1.apt
  }

  /** The FlatpakPkgInfo records a table refers to. */
  function FpObjs(t: Table<string, Entry>): set<FlatpakPkgInfo> {
    set p | p in t && p.1.FlatpakEntry? :: p.1.fp
  }
}
