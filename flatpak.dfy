/**
 * The Flatpak backend of the installer (_flatpak.py): remote descriptions and their
 * JSON form, package hashes, the full scan of the remotes and installed refs into the
 * package cache, and the callbacks of a FlatpakTransaction.
 */
module Flatpak {
  import opened Wrappers
  import opened Strings
  import opened Tables
  import opened Json
  import opened PkgInfo
  import opened Tasks

  // ---------------------------------------------------------------------------
  // Remotes

  /**
   * A Flatpak.Remote as libflatpak reports it, together with what
   * list_remote_refs_sync answers for it (Err when that call raises).
   */
  datatype Remote = Remote(name: string, title: Option<string>, comment: Option<string>, url: string,
                           disabled: bool, noenumerate: bool, refs: Result<seq<FlatpakRef>>)

  /** FlatpakRemoteInfo: what the cache keeps of a remote. */
  datatype RemoteInfo = RemoteInfo(name: Option<string>, title: Option<string>, summary: Option<string>,
                                   url: Option<string>, disabled: bool, noenumerate: bool)

  /** FlatpakRemoteInfo() without a remote. */
  const NoRemoteInfo := RemoteInfo(None, None, None, None, false, false)

  /** str.title() at index `i`: a letter is upper-cased at the start of a word and lower-cased inside one. */
  function TitleChar(s: string, i: nat): char
    requires i < |s|
  {
    if !IsLetter(s[i]) then s[i]
    else if i > 0 && IsLetter(s[i - 1]) then ToLower(s[i])
    else ToUpper(s[i])
  }

  /** str.title() */
  function Title(s: string): (r: string)
    ensures |r| == |s|
  {
    seq(|s|, i requires 0 <= i < |s| => TitleChar(s, i))
  }

  lemma TitleLetters(s: string)
    ensures forall i :: 0 <= i < |s| ==> (IsLetter(Title(s)[i]) <==> IsLetter(s[i]))
    ensures forall i :: 0 <= i < |s| && !IsLetter(s[i]) ==> Title(s)[i] == s[i]
  {
  }

  /** Title-casing a title-cased text changes nothing. */
  lemma TitleIdempotent(s: string)
    ensures Title(Title(s)) == Title(s)
  {
    var t := Title(s);
    TitleLetters(s);
    forall i | 0 <= i < |s|
      ensures Title(t)[i] == t[i]
    {
      assert Title(t)[i] == TitleChar(t, i);
    }
  }

  /** Title-casing goes word by word: a non-letter separates two independently title-cased parts. */
  lemma TitleWords(a: string, c: char, b: string)
    requires !IsLetter(c)
    ensures Title(a + [c] + b) == Title(a) + [c] + Title(b)
  {
    var s := a + [c] + b;
    forall i | 0 <= i < |s|
      ensures Title(s)[i] == (Title(a) + [c] + Title(b))[i]
    {
      if i < |a| {
        assert TitleChar(s, i) == TitleChar(a, i);
      } else if i > |a| {
        var j := i - |a| - 1;
        assert s[i] == b[j];
        assert j > 0 ==> s[i - 1] == b[j - 1];
        assert TitleChar(s, i) == TitleChar(b, j);
      }
    }
  }

  /** The title of a remote: its own title, or its name with "-" turned into spaces, then title-cased. */
  function RemoteTitle(name: string, title: Option<string>): string {
    Title(if Truthy(title) then title.value else Join(Split(name, "-"), " "))
  }

  /** A remote without a title gets one in which no "-" is left. */
  lemma UntitledHasNoDash(name: string, title: Option<string>)
    requires !Truthy(title)
    ensures '-' !in RemoteTitle(name, title)
  {
    var joined := Join(Split(name, "-"), " ");
    ReplaceIsJoinSplit(name, "-", " ");
    ReplaceRemovesChar(name, '-', " ");
    TitleLetters(joined);
  }

  /** A given title decides the remote's title whatever its name. */
  lemma TitledIgnoresName(a: string, b: string, title: Option<string>)
    requires Truthy(title)
    ensures RemoteTitle(a, title) == RemoteTitle(b, title) == Title(title.value)
  {
  }

  /** FlatpakRemoteInfo(remote) */
  function FromRemote(r: Remote): (ri: RemoteInfo)
    ensures ri.name == Some(r.name) && ri.url == Some(r.url) && ri.summary == r.comment
    ensures ri.disabled == r.disabled && ri.noenumerate == r.noenumerate
    ensures ri.title == Some(RemoteTitle(r.name, r.title))
  {
    RemoteInfo(Some(r.name), Some(RemoteTitle(r.name, r.title)), r.comment, Some(r.url), r.disabled, r.noenumerate)
  }

  /** to_json: the attribute dict, in the order the constructor sets the attributes. */
  function RemoteInfoToJson(ri: RemoteInfo): Json {
    JObj([("name", Text(ri.name)), ("title", Text(ri.title)), ("summary", Text(ri.summary)),
          ("url", Text(ri.url)), ("disabled", JBool(ri.disabled)), ("noenumerate", JBool(ri.noenumerate))])
  }

  /** `data[key]` read as a boolean; other value types are refused. */
  function BoolField(j: Json, key: string): (r: Result<bool>)
    ensures r.Ok? <==> Field(j, key).Ok? && Field(j, key).value.JBool?
    ensures r.Ok? ==> Field(j, key) == Ok(JBool(r.value))
  {
    var v :- Field(j, key);
    if v.JBool? then Ok(v.b) else Err("type")
  }

  /** from_json: name, title, url and the two flags are read back; the summary is not. */
  function RemoteInfoFromJson(j: Json): (r: Result<RemoteInfo>)
    ensures r.Ok? ==> r.value.summary.None?
    ensures r.Ok? ==> Field(j, "name") == Ok(Text(r.value.name)) && Field(j, "title") == Ok(Text(r.value.title))
                      && Field(j, "url") == Ok(Text(r.value.url))
                      && Field(j, "disabled") == Ok(JBool(r.value.disabled))
                      && Field(j, "noenumerate") == Ok(JBool(r.value.noenumerate))
  {
    var name :- TextField(j, "name");
    var title :- TextField(j, "title");
    var url :- TextField(j, "url");
    var disabled :- BoolField(j, "disabled");
    var noenumerate :- BoolField(j, "noenumerate");
    Ok(RemoteInfo(name, title, None, url, disabled, noenumerate))
  }

  /** The `i`-th member of a saved remote is found under its key (the keys differ in length). */
  lemma RemoteInfoMember(ri: RemoteInfo, i: nat)
    requires i < 6
    ensures Field(RemoteInfoToJson(ri), RemoteInfoToJson(ri).members[i].0) == Ok(RemoteInfoToJson(ri).members[i].1)
  {
    var m := RemoteInfoToJson(ri).members;
    assert forall j :: 0 <= j < i ==> |m[j].0| != |m[i].0|;
    FieldAt(m, i);
  }

  /** Saving and loading a remote keeps everything but the summary, which comes back as None. */
  lemma RemoteInfoJsonRoundTrip(ri: RemoteInfo)
    ensures RemoteInfoFromJson(RemoteInfoToJson(ri)) == Ok(ri.(summary := None))
  {
    RemoteInfoMember(ri, 0);
    RemoteInfoMember(ri, 1);
    RemoteInfoMember(ri, 3);
    RemoteInfoMember(ri, 4);
    RemoteInfoMember(ri, 5);
    TextRoundTrip(ri.name);
    TextRoundTrip(ri.title);
    TextRoundTrip(ri.url);
  }

  // ---------------------------------------------------------------------------
  // Package hashes

  /** get_origin() of an installed ref, get_remote_name() of a listed one. */
  function SourceName(ref: FlatpakRef): string {
    match ref.source
    case Installed(origin) => origin
    case Listed(remoteName) => remoteName
  }

  /** make_pkg_hash: "fp:<remote>:<kind/name/arch/branch>". */
  function MakePkgHash(ref: FlatpakRef): string {
    "fp:" + SourceName(ref) + ":" + FormatRef(ref)
  }

  /** A Flatpak hash starts with "fp:", not with "a", so the cache files it as a Flatpak entry. */
  lemma HashIsFlatpak(ref: FlatpakRef)
    ensures StartsWith(MakePkgHash(ref), "fp:") && !StartsWith(MakePkgHash(ref), "a")
  {
    assert MakePkgHash(ref)[0] == 'f';
    assert MakePkgHash(ref)[..3] == "fp:";
  }

  /** For remote names without ":", equal hashes mean the same remote and the same ref string. */
  lemma HashInjective(a: FlatpakRef, b: FlatpakRef)
    requires ':' !in SourceName(a) && ':' !in SourceName(b)
    requires MakePkgHash(a) == MakePkgHash(b)
    ensures SourceName(a) == SourceName(b) && FormatRef(a) == FormatRef(b)
  {
    var h := MakePkgHash(a);
    assert h[3..] == SourceName(a) + [':'] + FormatRef(a);
    assert h[3..] == SourceName(b) + [':'] + FormatRef(b);
    SplitAtFirst(SourceName(a), FormatRef(a), SourceName(b), FormatRef(b), ':');
  }

  // ---------------------------------------------------------------------------
  // Looking up a remote by URL

  /** A remote URL without its one trailing "/", as flatpakref files write it. */
  function StripSlash(u: string): (r: string)
    ensures |r| <= |u| && r == u[..|r|]
  {
    if EndsWith(u, "/") then u[..|u| - 1] else u
  }

  /** The name of the last remote whose URL, less a trailing "/", is `url`. */
  function LastNamed(rs: seq<Remote>, url: string): Option<string> {
    if |rs| == 0 then None
    else if StripSlash(rs[|rs| - 1].url) == url then Some(rs[|rs| - 1].name)
    else LastNamed(rs[..|rs| - 1], url)
  }

  /** No name is found exactly when no remote's URL matches. */
  lemma {:induction false} LastNamedNone(rs: seq<Remote>, url: string)
    ensures LastNamed(rs, url).None? <==> forall i :: 0 <= i < |rs| ==> StripSlash(rs[i].url) != url
  {
    if |rs| > 0 {
      var init := rs[..|rs| - 1];
      LastNamedNone(init, url);
      if StripSlash(rs[|rs| - 1].url) != url {
        forall i | 0 <= i < |init| ensures init[i] == rs[i] {}
      }
    }
  }

  /** A found name is that of a remote whose URL matches, and no later remote's URL matches. */
  lemma {:induction false} LastNamedSome(rs: seq<Remote>, url: string) returns (i: nat)
    requires LastNamed(rs, url).Some?
    ensures i < |rs| && StripSlash(rs[i].url) == url && LastNamed(rs, url).value == rs[i].name
    ensures forall j :: i < j < |rs| ==> StripSlash(rs[j].url) != url
  {
    var init := rs[..|rs| - 1];
    if StripSlash(rs[|rs| - 1].url) == url {
      i := |rs| - 1;
    } else {
      assert LastNamed(rs, url) == LastNamed(init, url);
      i := LastNamedSome(init, url);
      forall j | i <= j < |init| ensures init[j] == rs[j] {}
    }
  }

  /** _get_remote_name_by_url, given what list_remotes answers (Err: raised, and no remote is searched). */
  method RemoteNameByUrl(remotes: Result<seq<Remote>>, url: string) returns (name: Option<string>)
    ensures remotes.Err? ==> name.None?
    ensures remotes.Ok? ==> name == LastNamed(remotes.value, url)
  {
    name := None;
    if remotes.Err? {
      return;
    }
    var rs := remotes.value;
    var i := 0;
    while i < |rs|
      invariant 0 <= i <= |rs|
      invariant name == LastNamed(rs[..i], url)
    {
      assert rs[..i + 1][..i] == rs[..i];
      var remoteUrl := rs[i].url;
      if EndsWith(remoteUrl, "/") {
        remoteUrl := remoteUrl[..|remoteUrl| - 1];
      }
      if remoteUrl == url {
        name := Some(rs[i].name);
      }
      i := i + 1;
    }
    assert rs[..|rs|] == rs;
  }

  // ---------------------------------------------------------------------------
  // The full scan

  /** The tests of _process_remote on a listed ref: apps only, no BaseApp or BaseExtension, the arch, not end-of-life. */
  predicate RefListed(ref: FlatpakRef, arch: string) {
    ref.kind != Runtime && !EndsWith(ref.name, "BaseApp") && !EndsWith(ref.name, "BaseExtension")
    && ref.arch == arch && ref.eol.None?
  }

  function FilterListed(refs: seq<FlatpakRef>, arch: string): (r: seq<FlatpakRef>)
    ensures forall x :: x in r ==> x in refs && RefListed(x, arch)
    ensures forall x :: x in refs && RefListed(x, arch) ==> x in r
  {
    if |refs| == 0 then []
    else
      var init := refs[..|refs| - 1];
      var last := refs[|refs| - 1];
      assert refs == init + [last];
      FilterListed(init, arch) + (if RefListed(last, arch) then [last] else [])
  }

  /** The refs _process_remote adds: none for a disabled or no-enumerate remote or a failed listing. */
  function ListedRefs(remote: Remote, arch: string): (r: seq<FlatpakRef>)
    ensures forall x :: x in r <==> !remote.disabled && !remote.noenumerate && remote.refs.Ok?
                                    && x in remote.refs.value && RefListed(x, arch)
  {
    if remote.disabled || remote.noenumerate || remote.refs.Err? then []
    else FilterListed(remote.refs.value, arch)
  }

  function HashesOf(refs: seq<FlatpakRef>): (r: seq<string>)
    ensures |r| == |refs|
  {
    if |refs| == 0 then [] else HashesOf(refs[..|refs| - 1]) + [MakePkgHash(refs[|refs| - 1])]
  }

  lemma {:induction false} HashesOfIn(refs: seq<FlatpakRef>, k: string)
    ensures k in HashesOf(refs) <==> exists ref :: ref in refs && MakePkgHash(ref) == k
  {
    if |refs| > 0 {
      var init, last := refs[..|refs| - 1], refs[|refs| - 1];
      assert refs == init + [last];
      HashesOfIn(init, k);
    }
  }

  /** The installed refs whose origin is the remote `name`. */
  function InstalledFrom(refs: seq<FlatpakRef>, name: string): (r: seq<FlatpakRef>)
    ensures forall x :: x in r <==> x in refs && x.source == Installed(name)
  {
    if |refs| == 0 then []
    else
      var init := refs[..|refs| - 1];
      var last := refs[|refs| - 1];
      assert refs == init + [last];
      InstalledFrom(init, name) + (if last.source == Installed(name) then [last] else [])
  }

  /** The installed refs a remote's pass adds: none when list_installed_refs raises. */
  function InstalledOf(installed: Result<seq<FlatpakRef>>, name: string): seq<FlatpakRef> {
    if installed.Err? then [] else InstalledFrom(installed.value, name)
  }

  /** The hashes one remote's pass stores: its listed refs, then the installed refs that came from it. */
  function PassHashes(remote: Remote, arch: string, installed: Result<seq<FlatpakRef>>): seq<string> {
    HashesOf(ListedRefs(remote, arch)) + HashesOf(InstalledOf(installed, remote.name))
  }

  lemma {:induction false} HashesOfConcat(a: seq<FlatpakRef>, b: seq<FlatpakRef>)
    ensures HashesOf(a + b) == HashesOf(a) + HashesOf(b)
  {
    if |b| > 0 {
      var init, last := b[..|b| - 1], b[|b| - 1];
      assert (a + b)[..|a + b| - 1] == a + init;
      HashesOfConcat(a, init);
    } else {
      assert a + b == a;
    }
  }

  /** The refs the scan of `rs` adds, remote by remote: the listed ones, then the installed ones from it. */
  function ScannedRefs(rs: seq<Remote>, arch: string, installed: Result<seq<FlatpakRef>>): seq<FlatpakRef> {
    if |rs| == 0 then []
    else ScannedRefs(rs[..|rs| - 1], arch, installed) + ListedRefs(rs[|rs| - 1], arch) + InstalledOf(installed, rs[|rs| - 1].name)
  }

  /** The installed refs the scan marks, remote by remote. */
  function MarkedRefs(rs: seq<Remote>, installed: Result<seq<FlatpakRef>>): seq<FlatpakRef> {
    if |rs| == 0 then [] else MarkedRefs(rs[..|rs| - 1], installed) + InstalledOf(installed, rs[|rs| - 1].name)
  }

  function AllHashes(rs: seq<Remote>, arch: string, installed: Result<seq<FlatpakRef>>): seq<string> {
    HashesOf(ScannedRefs(rs, arch, installed))
  }

  function AllInstalled(rs: seq<Remote>, installed: Result<seq<FlatpakRef>>): seq<string> {
    HashesOf(MarkedRefs(rs, installed))
  }

  /** The first of `refs` with hash `k`, searched from the back. */
  function FirstOf(refs: seq<FlatpakRef>, k: string): Option<FlatpakRef> {
    if |refs| == 0 then None
    else
      var f := FirstOf(refs[..|refs| - 1], k);
      if f.Some? then f
      else if MakePkgHash(refs[|refs| - 1]) == k then Some(refs[|refs| - 1])
      else None
  }

  lemma {:induction false} FirstOfMeaning(refs: seq<FlatpakRef>, k: string)
    ensures FirstOf(refs, k).Some? <==> k in HashesOf(refs)
    ensures FirstOf(refs, k).Some? ==> FirstOf(refs, k).value in refs && MakePkgHash(FirstOf(refs, k).value) == k
  {
    if |refs| > 0 {
      var init := refs[..|refs| - 1];
      FirstOfMeaning(init, k);
      assert refs == init + [refs[|refs| - 1]];
    }
  }

  /** The first of `refs` with hash `k`: the ref whose record _add_package_to_cache creates under `k`. */
  function FirstRef(refs: seq<FlatpakRef>, k: string): (r: Option<FlatpakRef>)
    ensures r.Some? <==> k in HashesOf(refs)
    ensures r.Some? ==> r.value in refs && MakePkgHash(r.value) == k
  {
    FirstOfMeaning(refs, k);
    FirstOf(refs, k)
  }

  lemma {:induction false} FirstOfConcat(a: seq<FlatpakRef>, b: seq<FlatpakRef>, k: string)
    ensures FirstOf(a, k).Some? ==> FirstOf(a + b, k) == FirstOf(a, k)
    ensures FirstOf(a, k).None? ==> FirstOf(a + b, k) == FirstOf(b, k)
    decreases |b|
  {
    if |b| == 0 {
      assert a + b == a;
    } else {
      var init := b[..|b| - 1];
      FirstOfConcat(a, init, k);
      assert (a + b)[..|a + b| - 1] == a + init;
      assert (a + b)[|a + b| - 1] == b[|b| - 1];
    }
  }

  /** One more ref: the first ref of a hash stays, or is the new ref when it is the first of its hash. */
  lemma FirstRefSnoc(refs: seq<FlatpakRef>, ref: FlatpakRef, k: string)
    ensures k in HashesOf(refs) ==> FirstRef(refs + [ref], k) == FirstRef(refs, k)
    ensures k !in HashesOf(refs) && MakePkgHash(ref) == k ==> FirstRef(refs + [ref], k) == Some(ref)
  {
    FirstOfMeaning(refs, k);
    assert (refs + [ref])[..|refs|] == refs;
  }

  /** In two lists one after the other, the first ref of a hash is in the first list when it has one. */
  lemma FirstRefConcat(a: seq<FlatpakRef>, b: seq<FlatpakRef>, k: string)
    ensures FirstRef(a, k).Some? ==> FirstRef(a + b, k) == FirstRef(a, k)
    ensures FirstRef(a, k).None? ==> FirstRef(a + b, k) == FirstRef(b, k)
  {
    FirstOfConcat(a, b, k);
  }

  /** The ref, and the URL of the remote whose pass met it, that the scan of `rs` first stores under hash `k`. */
  function Origin(rs: seq<Remote>, arch: string, installed: Result<seq<FlatpakRef>>, k: string)
    : (r: Option<(FlatpakRef, string)>)
    ensures r.Some? <==> k in AllHashes(rs, arch, installed)
    ensures r.Some? ==> MakePkgHash(r.value.0) == k
  {
    if |rs| == 0 then None
    else
      var init, last := rs[..|rs| - 1], rs[|rs| - 1];
      var l, i := ListedRefs(last, arch), InstalledOf(installed, last.name);
      HashesOfConcat(ScannedRefs(init, arch, installed) + l, i);
      HashesOfConcat(ScannedRefs(init, arch, installed), l);
      HashesOfConcat(l, i);
      var o := Origin(init, arch, installed, k);
      if o.Some? then o
      else match FirstRef(l + i, k) case Some(f) => Some((f, last.url)) case None => None
  }

  /** The refs of the passes, one after the other. */
  function Concat<T>(ss: seq<seq<T>>): seq<T> {
    if |ss| == 0 then [] else Concat(ss[..|ss| - 1]) + ss[|ss| - 1]
  }

  lemma {:induction false} ConcatIn<T>(ss: seq<seq<T>>, x: T)
    ensures x in Concat(ss) <==> exists i :: 0 <= i < |ss| && x in ss[i]
  {
    if |ss| > 0 {
      var init := ss[..|ss| - 1];
      ConcatIn(init, x);
      assert forall i :: 0 <= i < |init| ==> init[i] == ss[i];
      if x in ss[|ss| - 1] {
        assert 0 <= |ss| - 1 < |ss| && x in ss[|ss| - 1];
      }
    }
  }

  /** The refs the pass over each remote adds: the listed ones, then the installed ones from it. */
  function Passes(rs: seq<Remote>, arch: string, installed: Result<seq<FlatpakRef>>): (r: seq<seq<FlatpakRef>>)
    ensures |r| == |rs| && forall i :: 0 <= i < |rs| ==> r[i] == ListedRefs(rs[i], arch) + InstalledOf(installed, rs[i].name)
  {
    seq(|rs|, i requires 0 <= i < |rs| => ListedRefs(rs[i], arch) + InstalledOf(installed, rs[i].name))
  }

  lemma {:induction false} ScannedIsConcat(rs: seq<Remote>, arch: string, installed: Result<seq<FlatpakRef>>)
    ensures ScannedRefs(rs, arch, installed) == Concat(Passes(rs, arch, installed))
  {
    if |rs| > 0 {
      var init := rs[..|rs| - 1];
      ScannedIsConcat(init, arch, installed);
      var ps := Passes(rs, arch, installed);
      assert ps[..|rs| - 1] == Passes(init, arch, installed);
      var a, l, i := ScannedRefs(init, arch, installed), ListedRefs(rs[|rs| - 1], arch), InstalledOf(installed, rs[|rs| - 1].name);
      assert (a + l) + i == a + (l + i);
    }
  }

  /** The ref is one the pass over remote `r` adds: listed by it, or installed from it. */
  predicate FromPass(r: Remote, arch: string, installed: Result<seq<FlatpakRef>>, ref: FlatpakRef) {
    ref in ListedRefs(r, arch) || ref in InstalledOf(installed, r.name)
  }

  /** The scan adds a ref exactly when some remote lists it or it is installed from some remote. */
  lemma ScannedRefsMeaning(rs: seq<Remote>, arch: string, installed: Result<seq<FlatpakRef>>, ref: FlatpakRef)
    ensures ref in ScannedRefs(rs, arch, installed) <==> exists i :: 0 <= i < |rs| && FromPass(rs[i], arch, installed, ref)
  {
    var ps := Passes(rs, arch, installed);
    ScannedIsConcat(rs, arch, installed);
    ConcatIn(ps, ref);
    assert forall i :: 0 <= i < |rs| ==> (ref in ps[i] <==> FromPass(rs[i], arch, installed, ref));
  }

  /** The ref's origin is one of the remotes. */
  predicate OriginAmong(rs: seq<Remote>, ref: FlatpakRef) {
    exists i :: 0 <= i < |rs| && ref.source == Installed(rs[i].name)
  }

  lemma OriginAmongSnoc(rs: seq<Remote>, ref: FlatpakRef)
    requires |rs| > 0
    ensures OriginAmong(rs, ref) <==> OriginAmong(rs[..|rs| - 1], ref) || ref.source == Installed(rs[|rs| - 1].name)
  {
    var init := rs[..|rs| - 1];
    if OriginAmong(rs, ref) && ref.source != Installed(rs[|rs| - 1].name) {
      var i :| 0 <= i < |rs| && ref.source == Installed(rs[i].name);
      assert i < |init| && init[i] == rs[i];
    }
    if OriginAmong(init, ref) {
      var i :| 0 <= i < |init| && ref.source == Installed(init[i].name);
      assert rs[i] == init[i];
    }
  }

  /** The scan marks an installed ref exactly when its origin is one of the remotes. */
  lemma {:induction false} MarkedRefsMeaning(rs: seq<Remote>, installed: Result<seq<FlatpakRef>>, ref: FlatpakRef)
    ensures ref in MarkedRefs(rs, installed) <==> installed.Ok? && ref in installed.value && OriginAmong(rs, ref)
  {
    if |rs| > 0 {
      MarkedRefsMeaning(rs[..|rs| - 1], installed, ref);
      OriginAmongSnoc(rs, ref);
    }
  }

  /** flatpak_remote_infos: one FlatpakRemoteInfo per remote name, a later remote replacing an earlier one. */
  function InfosOf(rs: seq<Remote>): Table<string, RemoteInfo> {
    if |rs| == 0 then [] else Set(InfosOf(rs[..|rs| - 1]), rs[|rs| - 1].name, FromRemote(rs[|rs| - 1]))
  }

  /** Every remote, and only a remote, has a description under its name. */
  lemma {:induction false} InfosOfKeys(rs: seq<Remote>, name: string)
    ensures HasKey(InfosOf(rs), name) <==> exists i :: 0 <= i < |rs| && rs[i].name == name
  {
    if |rs| > 0 {
      var init := rs[..|rs| - 1];
      InfosOfKeys(init, name);
      if rs[|rs| - 1].name == name {
        assert HasKey(InfosOf(rs), name);
      } else {
        if HasKey(InfosOf(init), name) {
          var i :| 0 <= i < |init| && init[i].name == name;
          assert rs[i] == init[i];
        }
        if exists i :: 0 <= i < |rs| && rs[i].name == name {
          var i :| 0 <= i < |rs| && rs[i].name == name;
          assert init[i] == rs[i];
        }
      }
    }
  }

  /** The description under a name is that of the last remote with that name. */
  lemma {:induction false} InfosOfLast(rs: seq<Remote>, i: nat)
    requires i < |rs| && forall j :: i < j < |rs| ==> rs[j].name != rs[i].name
    ensures Get(InfosOf(rs), rs[i].name) == Some(FromRemote(rs[i]))
  {
    var init := rs[..|rs| - 1];
    if i == |rs| - 1 {
      GetSet(InfosOf(init), rs[i].name, FromRemote(rs[i]));
    } else {
      assert init[i] == rs[i];
      assert forall j :: i < j < |init| ==> init[j] == rs[j];
      InfosOfLast(init, i);
      GetSetOther(InfosOf(init), rs[|rs| - 1].name, FromRemote(rs[|rs| - 1]), rs[i].name);
    }
  }

  /** The Flatpak record stored under `k`, if there is one. */
  function Record(t: Table<string, Entry>, k: string): set<FlatpakPkgInfo> {
    if Get(t, k).Some? && Get(t, k).value.FlatpakEntry? then {Get(t, k).value.fp} else {}
  }

  /** The cache entry under `k` is a Flatpak record made for that hash. */
  ghost predicate FpEntry(t: Table<string, Entry>, k: string)
    reads Record(t, k)`pkgHash
  {
    Get(t, k).Some? && Get(t, k).value.FlatpakEntry? && Get(t, k).value.fp.pkgHash == Some(k)
  }

  /** `o` is the record FlatpakPkgInfo builds under hash `k` for `ref`, from a remote at `url`. */
  ghost predicate Made(o: FlatpakPkgInfo, k: string, ref: FlatpakRef, url: string)
    reads o`pkgHash, o`name, o`remote, o`remoteUrl, o`refid
  {
    o.pkgHash == Some(k) && o.name == Some(ref.name) && o.remote == Some(SourceName(ref))
    && o.remoteUrl == Some(url) && o.refid == Some(FormatRef(ref))
  }

  /** The cache entry under `k` is the record built for `ref` from a remote at `url`. */
  ghost predicate MadeFor(t: Table<string, Entry>, k: string, ref: FlatpakRef, url: string)
    reads Record(t, k)`pkgHash, Record(t, k)`name, Record(t, k)`remote, Record(t, k)`remoteUrl, Record(t, k)`refid
  {
    Get(t, k).Some? && Get(t, k).value.FlatpakEntry? && Made(Get(t, k).value.fp, k, ref, url)
  }

  /** The cache entry under `k` is a Flatpak record marked installed. */
  ghost predicate MarkedInstalled(t: Table<string, Entry>, k: string)
    reads Record(t, k)`installed
  {
    Get(t, k).Some? && Get(t, k).value.FlatpakEntry? && Get(t, k).value.fp.installed
  }

  /** The record whose installed flag _add_package_to_cache raises: the existing one, when installing. */
  function Marked(t: Table<string, Entry>, h: string, installed: bool): set<FlatpakPkgInfo> {
    if installed && Get(t, h).Some? && Get(t, h).value.FlatpakEntry? then {Get(t, h).value.fp} else {}
  }

  lemma FpObjsSnoc(t: Table<string, Entry>, h: string, e: Entry)
    ensures FpObjs(t + [(h, e)]) == FpObjs(t) + (if e.FlatpakEntry? then {e.fp} else {})
  {
    var t' := t + [(h, e)];
    assert t'[|t|] == (h, e);
    forall x | x in t' ensures x in t || x == (h, e) {
    }
  }

  /** FlatpakPkgInfo(pkg_hash, remote_name, ref, remote_url, installed) for a ref of the scan. */
  method NewFpInfo(ref: FlatpakRef, remoteUrl: string, installed: bool) returns (info: FlatpakPkgInfo)
    ensures fresh(info) && info.pkgHash == Some(MakePkgHash(ref)) && info.name == Some(ref.name)
    ensures info.remote == Some(SourceName(ref)) && info.remoteUrl == Some(remoteUrl) && info.installed == installed
    ensures info.refid == Some(FormatRef(ref))
  {
    info := new FlatpakPkgInfo(Some(MakePkgHash(ref)), Some(SourceName(ref)), ref, Some(remoteUrl), installed);
  }

  /**
   * _add_package_to_cache: an existing entry is kept, and only ever marked installed;
   * a missing one is created and appended.
   */
  method AddPackageToCache(t: Table<string, Entry>, ref: FlatpakRef, remoteUrl: string, installed: bool)
    returns (r: Table<string, Entry>, pkginfo: Entry)
    modifies Marked(t, MakePkgHash(ref), installed)`installed
    ensures HasKey(t, MakePkgHash(ref)) ==> r == t && pkginfo == Get(t, MakePkgHash(ref)).value
    ensures forall o :: o in Marked(t, MakePkgHash(ref), installed) ==> o.installed
    ensures !HasKey(t, MakePkgHash(ref)) ==>
              r == t + [(MakePkgHash(ref), pkginfo)] && pkginfo.FlatpakEntry? && fresh(pkginfo.fp)
              && pkginfo.fp.pkgHash == Some(MakePkgHash(ref)) && pkginfo.fp.installed == installed
              && pkginfo.fp.remote == Some(SourceName(ref)) && pkginfo.fp.remoteUrl == Some(remoteUrl)
              && pkginfo.fp.name == Some(ref.name) && pkginfo.fp.refid == Some(FormatRef(ref))
  {
    var h := MakePkgHash(ref);
    var existing := Get(t, h);
    if existing.Some? {
      pkginfo := existing.value;
      if installed && pkginfo.FlatpakEntry? {
        pkginfo.fp.installed := installed;
      }
      r := t;
    } else {
      var info := NewFpInfo(ref, remoteUrl, installed);
      pkginfo := FlatpakEntry(info);
      r := t + [(h, pkginfo)];
    }
  }

  /** Appending a pair keeps every earlier lookup and adds the new key. */
  lemma GetSnoc<V>(t: Table<string, V>, h: string, v: V)
    requires !HasKey(t, h)
    ensures forall k :: HasKey(t + [(h, v)], k) <==> HasKey(t, k) || k == h
    ensures forall k :: k != h ==> Get(t + [(h, v)], k) == Get(t, k)
    ensures Get(t + [(h, v)], h) == Some(v)
  {
    forall k ensures Get(t + [(h, v)], k) == if HasKey(t, k) then Get(t, k) else Get([(h, v)], k) {
      GetAppend(t, [(h, v)], k);
    }
    var t' := t + [(h, v)];
    assert t'[|t|] == (h, v);
    forall k | HasKey(t', k) ensures HasKey(t, k) || k == h {
      var i :| 0 <= i < |t'| && t'[i].0 == k;
      if i < |t| {
        assert t[i] == t'[i];
      }
    }
    forall k | HasKey(t, k) ensures HasKey(t', k) {
      var i :| 0 <= i < |t| && t[i].0 == k;
      assert t'[i] == t[i];
    }
  }

  /**
   * What a pass over `refs`, met at a remote with URL `url`, has stored: the keys of `t`
   * unchanged and one entry per further hash, the record built for the first ref of that hash.
   */
  ghost predicate Extends(t: Table<string, Entry>, r: Table<string, Entry>, refs: seq<FlatpakRef>, url: string)
    reads FpObjs(r)`pkgHash, FpObjs(r)`name, FpObjs(r)`remote, FpObjs(r)`remoteUrl, FpObjs(r)`refid
  {
    (forall k :: HasKey(r, k) <==> HasKey(t, k) || k in HashesOf(refs))
    && (forall k :: HasKey(t, k) ==> Get(r, k) == Get(t, k))
    && (forall k :: k in HashesOf(refs) && !HasKey(t, k) ==> MadeFor(r, k, FirstRef(refs, k).value, url))
  }

  /** The records a pass made for `hs` are not marked installed. */
  ghost predicate NewUnmarked(t: Table<string, Entry>, r: Table<string, Entry>, hs: seq<string>)
    reads FpObjs(r)`installed
  {
    forall k :: k in hs && !HasKey(t, k) ==> !MarkedInstalled(r, k)
  }

  /** Every Flatpak record stored under one of `hs` is marked installed. */
  ghost predicate AllMarked(r: Table<string, Entry>, hs: seq<string>)
    reads FpObjs(r)`installed
  {
    forall k :: k in hs && HasKey(r, k) && Get(r, k).value.FlatpakEntry? ==> Get(r, k).value.fp.installed
  }

  /** A ref whose hash is already stored adds nothing to a pass. */
  lemma ExtendsKept(t: Table<string, Entry>, r: Table<string, Entry>, done: seq<FlatpakRef>, ref: FlatpakRef, url: string)
    requires Extends(t, r, done, url) && HasKey(r, MakePkgHash(ref))
    ensures Extends(t, r, done + [ref], url)
  {
    assert (done + [ref])[..|done|] == done;
    assert HashesOf(done + [ref]) == HashesOf(done) + [MakePkgHash(ref)];
  }

  /** A ref whose hash is not stored yet adds the record built for it. */
  lemma ExtendsNew(t: Table<string, Entry>, r: Table<string, Entry>, done: seq<FlatpakRef>, ref: FlatpakRef,
                   url: string, e: Entry)
    requires Extends(t, r, done, url) && !HasKey(r, MakePkgHash(ref))
    requires e.FlatpakEntry? && Made(e.fp, MakePkgHash(ref), ref, url)
    ensures Extends(t, r + [(MakePkgHash(ref), e)], done + [ref], url)
  {
    var h := MakePkgHash(ref);
    var r', done' := r + [(h, e)], done + [ref];
    GetSnoc(r, h, e);
    FpObjsSnoc(r, h, e);
    assert done'[..|done|] == done;
    assert HashesOf(done') == HashesOf(done) + [h];
    forall k | k in HashesOf(done') && !HasKey(t, k)
      ensures MadeFor(r', k, FirstRef(done', k).value, url)
    {
      FirstRefSnoc(done, ref, k);
      if k != h {
        assert MadeFor(r, k, FirstRef(done, k).value, url);
      }
    }
  }

  /** A pass over a table of Flatpak records for their hashes leaves one. */
  lemma ExtendsAllFp(t: Table<string, Entry>, r: Table<string, Entry>, refs: seq<FlatpakRef>, url: string)
    requires AllFp(t) && Extends(t, r, refs, url)
    ensures AllFp(r)
  {
    forall k | HasKey(r, k)
      ensures FpEntry(r, k)
    {
      if HasKey(t, k) {
        assert FpEntry(t, k);
      } else {
        assert MadeFor(r, k, FirstRef(refs, k).value, url);
      }
    }
  }

  /** _process_remote: the listed refs that pass the filter are added, not installed; nothing existing changes. */
  method ProcessRemote(t: Table<string, Entry>, remote: Remote, arch: string) returns (r: Table<string, Entry>)
    ensures Extends(t, r, ListedRefs(remote, arch), remote.url)
    ensures NewUnmarked(t, r, HashesOf(ListedRefs(remote, arch)))
    ensures fresh(FpObjs(r) - FpObjs(t))
  {
    r := t;
    if remote.disabled || remote.noenumerate || remote.refs.Err? {
      return;
    }
    var refs := remote.refs.value;
    var i := 0;
    while i < |refs|
      invariant 0 <= i <= |refs|
      invariant Extends(t, r, FilterListed(refs[..i], arch), remote.url)
      invariant NewUnmarked(t, r, HashesOf(FilterListed(refs[..i], arch)))
      invariant fresh(FpObjs(r) - FpObjs(t))
    {
      r := ListStep(t, r, refs, i, arch, remote.url);
      i := i + 1;
    }
    assert refs[..|refs|] == refs;
  }

  /** One ref of _process_remote's listing: added as not installed when it passes the filter. */
  method ListStep(ghost t: Table<string, Entry>, t': Table<string, Entry>, refs: seq<FlatpakRef>, i: nat,
                  arch: string, url: string)
    returns (r: Table<string, Entry>)
    requires i < |refs|
    requires Extends(t, t', FilterListed(refs[..i], arch), url) && NewUnmarked(t, t', HashesOf(FilterListed(refs[..i], arch)))
    ensures Extends(t, r, FilterListed(refs[..i + 1], arch), url)
    ensures NewUnmarked(t, r, HashesOf(FilterListed(refs[..i + 1], arch)))
    ensures fresh(FpObjs(r) - FpObjs(t'))
  {
    assert refs[..i + 1][..i] == refs[..i];
    var ref := refs[i];
    r := t';
    if RefListed(ref, arch) {
      r := ListRef(t, t', FilterListed(refs[..i], arch), ref, url);
      assert FilterListed(refs[..i + 1], arch) == FilterListed(refs[..i], arch) + [ref];
    } else {
      assert FilterListed(refs[..i + 1], arch) == FilterListed(refs[..i], arch);
    }
  }

  /** A listed ref that passes the filter, added as not installed. */
  method ListRef(ghost t: Table<string, Entry>, t': Table<string, Entry>, ghost done: seq<FlatpakRef>,
                 ref: FlatpakRef, url: string)
    returns (r: Table<string, Entry>)
    requires Extends(t, t', done, url) && NewUnmarked(t, t', HashesOf(done))
    ensures Extends(t, r, done + [ref], url) && NewUnmarked(t, r, HashesOf(done + [ref]))
    ensures fresh(FpObjs(r) - FpObjs(t'))
  {
    var h := MakePkgHash(ref);
    var info;
    r, info := AddPackageToCache(t', ref, url, false);
    if HasKey(t', h) {
      ListedKept(t, t', done, ref, url);
    } else {
      ListedNew(t, t', done, ref, url, info);
      FpObjsSnoc(t', h, info);
    }
  }

  /** A listed ref whose hash is already stored changes nothing. */
  lemma ListedKept(t: Table<string, Entry>, t': Table<string, Entry>, done: seq<FlatpakRef>, ref: FlatpakRef, url: string)
    requires Extends(t, t', done, url) && NewUnmarked(t, t', HashesOf(done)) && HasKey(t', MakePkgHash(ref))
    ensures Extends(t, t', done + [ref], url) && NewUnmarked(t, t', HashesOf(done + [ref]))
  {
    ExtendsKept(t, t', done, ref, url);
    assert (done + [ref])[..|done|] == done;
    assert HashesOf(done + [ref]) == HashesOf(done) + [MakePkgHash(ref)];
  }

  /** A listed ref whose hash is not stored yet adds its record, not marked installed. */
  lemma ListedNew(t: Table<string, Entry>, t': Table<string, Entry>, done: seq<FlatpakRef>, ref: FlatpakRef,
                  url: string, e: Entry)
    requires Extends(t, t', done, url) && NewUnmarked(t, t', HashesOf(done)) && !HasKey(t', MakePkgHash(ref))
    requires e.FlatpakEntry? && Made(e.fp, MakePkgHash(ref), ref, url) && !e.fp.installed
    ensures Extends(t, t' + [(MakePkgHash(ref), e)], done + [ref], url)
    ensures NewUnmarked(t, t' + [(MakePkgHash(ref), e)], HashesOf(done + [ref]))
  {
    var h := MakePkgHash(ref);
    ExtendsNew(t, t', done, ref, url, e);
    GetSnoc(t', h, e);
    assert (done + [ref])[..|done|] == done;
    assert HashesOf(done + [ref]) == HashesOf(done) + [h];
  }

  /**
   * One installed ref of process_full_flatpak_installation: added, or its existing record
   * marked, as installed. In a table of Flatpak records for their hashes, no other record is marked.
   */
  method MarkRef(ghost t: Table<string, Entry>, t': Table<string, Entry>, ghost done: seq<FlatpakRef>,
                 ref: FlatpakRef, url: string)
    returns (r: Table<string, Entry>)
    requires Extends(t, t', done, url) && AllMarked(t', HashesOf(done))
    modifies FpObjs(t')`installed
    ensures Extends(t, r, done + [ref], url) && AllMarked(r, HashesOf(done + [ref]))
    ensures forall k :: HasKey(t', k) ==> Get(r, k) == Get(t', k)
    ensures forall k :: HasKey(t', k) && old(MarkedInstalled(t', k)) ==> MarkedInstalled(r, k)
    ensures AllFp(t) ==> forall k :: (HasKey(t', k) && k != MakePkgHash(ref) && !old(MarkedInstalled(t', k)))
                                       ==> !MarkedInstalled(r, k)
    ensures fresh(FpObjs(r) - FpObjs(t'))
  {
    var h := MakePkgHash(ref);
    assert (done + [ref])[..|done|] == done;
    assert HashesOf(done + [ref]) == HashesOf(done) + [h];
    if AllFp(t) {
      ExtendsAllFp(t, t', done, url);
      RecordsApart(t', h);
    }
    var info;
    r, info := AddPackageToCache(t', ref, url, true);
    if HasKey(t', h) {
      ExtendsKept(t, t', done, ref, url);
    } else {
      ExtendsNew(t, t', done, ref, url, info);
      GetSnoc(t', h, info);
      FpObjsSnoc(t', h, info);
    }
  }

  /** In a table of Flatpak records for their hashes, the record under `h` is stored under no other key. */
  lemma RecordsApart(t: Table<string, Entry>, h: string)
    requires AllFp(t)
    ensures forall k :: HasKey(t, k) && k != h ==> Record(t, k) !! Marked(t, h, true)
  {
    forall k | HasKey(t, k) && k != h
      ensures Record(t, k) !! Marked(t, h, true)
    {
      assert FpEntry(t, k);
      if HasKey(t, h) {
        assert FpEntry(t, h);
      }
    }
  }

  /** The installed pass after the first `i` refs: those from the remote are stored and marked. */
  ghost predicate MarkProgress(t: Table<string, Entry>, r: Table<string, Entry>, refs: seq<FlatpakRef>, i: nat, remote: Remote)
    reads FpObjs(r)
  {
    i <= |refs|
    && Extends(t, r, InstalledFrom(refs[..i], remote.name), remote.url)
    && AllMarked(r, HashesOf(InstalledFrom(refs[..i], remote.name)))
  }

  /**
   * The installed refs of one remote's pass, each added or marked as installed. In a table of
   * Flatpak records for their hashes, a record of any other hash keeps its installed flag.
   */
  method MarkInstalled(t: Table<string, Entry>, refs: seq<FlatpakRef>, remote: Remote) returns (r: Table<string, Entry>)
    modifies FpObjs(t)`installed
    ensures Extends(t, r, InstalledFrom(refs, remote.name), remote.url)
    ensures AllMarked(r, HashesOf(InstalledFrom(refs, remote.name)))
    ensures forall k :: HasKey(t, k) && old(MarkedInstalled(t, k)) ==> MarkedInstalled(r, k)
    ensures AllFp(t) ==> forall k :: (HasKey(t, k) && !old(MarkedInstalled(t, k))
                                       && k !in HashesOf(InstalledFrom(refs, remote.name))) ==> !MarkedInstalled(r, k)
    ensures fresh(FpObjs(r) - FpObjs(t))
  {
    ghost var kept := iset k | HasKey(t, k) && MarkedInstalled(t, k);
    ghost var cleared := iset k | HasKey(t, k) && !MarkedInstalled(t, k);
    r := t;
    assert refs[..0] == [];
    var i := 0;
    while i < |refs|
      invariant 0 <= i <= |refs| && MarkProgress(t, r, refs, i, remote)
      invariant forall k :: k in kept ==> MarkedInstalled(r, k)
      invariant AllFp(t) ==> Unmarked(r, cleared, HashesOf(InstalledFrom(refs[..i], remote.name)))
      invariant fresh(FpObjs(r) - FpObjs(t))
    {
      r := MarkStep(t, r, refs, i, remote, kept, cleared);
      i := i + 1;
    }
    assert refs[..|refs|] == refs;
  }

  /** No record under a key of `ks` outside `hs` is marked installed. */
  ghost predicate Unmarked(t: Table<string, Entry>, ks: iset<string>, hs: seq<string>)
    reads FpObjs(t)`installed
  {
    forall k :: k in ks && k !in hs ==> !MarkedInstalled(t, k)
  }

  /**
   * One ref of the installed list: added or marked as installed when its origin is the remote.
   * The records of `kept` stay marked; in a table of Flatpak records for their hashes, those of
   * `cleared` stay unmarked unless one of the refs so far has their hash.
   */
  method MarkStep(ghost t: Table<string, Entry>, t': Table<string, Entry>, refs: seq<FlatpakRef>, i: nat, remote: Remote,
                  ghost kept: iset<string>, ghost cleared: iset<string>)
    returns (r: Table<string, Entry>)
    requires i < |refs| && MarkProgress(t, t', refs, i, remote)
    requires forall k :: k in kept ==> MarkedInstalled(t', k)
    requires forall k :: k in cleared ==> HasKey(t, k)
    requires AllFp(t) ==> Unmarked(t', cleared, HashesOf(InstalledFrom(refs[..i], remote.name)))
    modifies FpObjs(t')`installed
    ensures MarkProgress(t, r, refs, i + 1, remote)
    ensures forall k :: k in kept ==> MarkedInstalled(r, k)
    ensures AllFp(t) ==> Unmarked(r, cleared, HashesOf(InstalledFrom(refs[..i + 1], remote.name)))
    ensures fresh(FpObjs(r) - FpObjs(t'))
  {
    var ref := refs[i];
    r := t';
    if ref.source == Installed(remote.name) {
      InstalledFromGrows(refs, i, remote.name);
      r := MarkFrom(t, t', InstalledFrom(refs[..i], remote.name), ref, remote.url, kept, cleared);
    } else {
      InstalledFromSkips(refs, i, remote.name);
    }
  }

  /** An installed ref from the remote: MarkRef, with the marked and unmarked keys carried along. */
  method MarkFrom(ghost t: Table<string, Entry>, t': Table<string, Entry>, ghost done: seq<FlatpakRef>,
                  ref: FlatpakRef, url: string, ghost kept: iset<string>, ghost cleared: iset<string>)
    returns (r: Table<string, Entry>)
    requires Extends(t, t', done, url) && AllMarked(t', HashesOf(done))
    requires forall k :: k in kept ==> MarkedInstalled(t', k)
    requires forall k :: k in cleared ==> HasKey(t, k)
    requires AllFp(t) ==> Unmarked(t', cleared, HashesOf(done))
    modifies FpObjs(t')`installed
    ensures Extends(t, r, done + [ref], url) && AllMarked(r, HashesOf(done + [ref]))
    ensures forall k :: k in kept ==> MarkedInstalled(r, k)
    ensures AllFp(t) ==> Unmarked(r, cleared, HashesOf(done + [ref]))
    ensures fresh(FpObjs(r) - FpObjs(t'))
  {
    assert (done + [ref])[..|done|] == done;
    assert HashesOf(done + [ref]) == HashesOf(done) + [MakePkgHash(ref)];
    r := MarkRef(t, t', done, ref, url);
    if AllFp(t) {
      forall k | k in cleared && k !in HashesOf(done + [ref])
        ensures !MarkedInstalled(r, k)
      {
        assert HasKey(t', k) && !old(MarkedInstalled(t', k));
      }
    }
  }

  /** One more ref of the installed list, from the remote: the refs from it grow by that ref. */
  lemma InstalledFromGrows(refs: seq<FlatpakRef>, i: nat, name: string)
    requires i < |refs| && refs[i].source == Installed(name)
    ensures InstalledFrom(refs[..i + 1], name) == InstalledFrom(refs[..i], name) + [refs[i]]
  {
    var pre := refs[..i + 1];
    assert pre[..|pre| - 1] == refs[..i] && pre[|pre| - 1] == refs[i];
  }

  /** One more ref of the installed list, from another remote: the refs from the remote stay as they are. */
  lemma InstalledFromSkips(refs: seq<FlatpakRef>, i: nat, name: string)
    requires i < |refs| && refs[i].source != Installed(name)
    ensures InstalledFrom(refs[..i + 1], name) == InstalledFrom(refs[..i], name)
  {
    var pre := refs[..i + 1];
    assert pre[..|pre| - 1] == refs[..i] && pre[|pre| - 1] == refs[i];
  }

  /** Every entry of the table is a Flatpak record made for its hash. */
  ghost predicate AllFp(t: Table<string, Entry>)
    reads FpObjs(t)`pkgHash
  {
    forall k :: HasKey(t, k) ==> FpEntry(t, k)
  }

  /** Every hash of `hs` has a Flatpak record marked installed. */
  ghost predicate AllMarkedIn(t: Table<string, Entry>, hs: seq<string>)
    reads FpObjs(t)`installed
  {
    forall k :: k in hs ==> MarkedInstalled(t, k)
  }

  /** No record outside the hashes `hs` is marked installed. */
  ghost predicate OnlyMarkedIn(t: Table<string, Entry>, hs: seq<string>)
    reads FpObjs(t)`installed
  {
    forall k :: HasKey(t, k) && k !in hs ==> !MarkedInstalled(t, k)
  }

  /**
   * What the scan of the remotes `done` has stored: exactly the hashes they give; under each
   * the record built for the first ref of that hash, with that remote's URL; marked installed
   * exactly when the hash is that of an installed ref from one of the remotes.
   */
  ghost predicate Scanned(t: Table<string, Entry>, done: seq<Remote>, arch: string, installed: Result<seq<FlatpakRef>>)
    reads FpObjs(t)
  {
    (forall k :: HasKey(t, k) <==> k in AllHashes(done, arch, installed))
    && Records(t, done, arch, installed)
    && AllMarkedIn(t, AllInstalled(done, installed)) && OnlyMarkedIn(t, AllInstalled(done, installed))
  }

  /** Under each key, the record built for the first ref with that hash the scan of `done` meets, with its remote's URL. */
  ghost predicate Records(t: Table<string, Entry>, done: seq<Remote>, arch: string, installed: Result<seq<FlatpakRef>>)
    reads FpObjs(t)`pkgHash, FpObjs(t)`name, FpObjs(t)`remote, FpObjs(t)`remoteUrl, FpObjs(t)`refid
  {
    forall k :: HasKey(t, k) ==> Origin(done, arch, installed, k).Some?
                                 && MadeFor(t, k, Origin(done, arch, installed, k).value.0,
                                            Origin(done, arch, installed, k).value.1)
  }

  /**
   * In a scanned cache, the record under a hash is marked installed exactly when an installed
   * ref with that hash has one of the remotes as its origin.
   */
  lemma ScannedFlag(t: Table<string, Entry>, rs: seq<Remote>, arch: string, installed: Result<seq<FlatpakRef>>, k: string)
    requires Scanned(t, rs, arch, installed) && HasKey(t, k)
    ensures MarkedInstalled(t, k) <==>
              installed.Ok? && exists ref :: ref in installed.value && OriginAmong(rs, ref) && MakePkgHash(ref) == k
  {
    HashesOfIn(MarkedRefs(rs, installed), k);
    forall ref: FlatpakRef
      ensures ref in MarkedRefs(rs, installed) <==> installed.Ok? && ref in installed.value && OriginAmong(rs, ref)
    {
      MarkedRefsMeaning(rs, installed, ref);
    }
  }

  /** A scanned table holds Flatpak records for their hashes only. */
  lemma ScannedAllFp(t: Table<string, Entry>, done: seq<Remote>, arch: string, installed: Result<seq<FlatpakRef>>)
    requires Scanned(t, done, arch, installed)
    ensures AllFp(t)
  {
    forall k | HasKey(t, k)
      ensures FpEntry(t, k)
    {
      var o := Origin(done, arch, installed, k).value;
      assert MadeFor(t, k, o.0, o.1);
    }
  }

  /** The installed pass leaves every hash it stored with a record marked installed. */
  lemma MarkedAll(r: Table<string, Entry>, m: Table<string, Entry>, refs: seq<FlatpakRef>, url: string, done: seq<string>)
    requires AllFp(r) && Extends(m, r, refs, url) && AllMarked(r, HashesOf(refs)) && AllMarkedIn(r, done)
    ensures AllMarkedIn(r, done + HashesOf(refs))
  {
    forall k | k in done + HashesOf(refs)
      ensures MarkedInstalled(r, k)
    {
      if k !in done {
        assert FpEntry(r, k);
      }
    }
  }

  /** One remote of process_full_flatpak_installation: its listed refs, then the installed refs that came from it. */
  method ScanRemote(ghost done: seq<Remote>, t: Table<string, Entry>, remote: Remote, arch: string,
                    installed: Result<seq<FlatpakRef>>)
    returns (r: Table<string, Entry>)
    requires Scanned(t, done, arch, installed)
    modifies FpObjs(t)`installed
    ensures Scanned(r, done + [remote], arch, installed)
    ensures fresh(FpObjs(r) - FpObjs(t))
  {
    var listed := ListPass(done, t, remote, arch, installed);
    r := MarkPass(listed, installed, remote, AllInstalled(done, installed));
    InstalledRecords(done, listed, r, remote, arch, installed);
    ScanKeys(done, remote, arch, installed);
  }

  /**
   * The listing half of a remote's pass: the records marked stay those of the installed refs
   * so far, and each key holds the record of its origin in the scan including this remote.
   */
  method ListPass(ghost done: seq<Remote>, t: Table<string, Entry>, remote: Remote, arch: string,
                  installed: Result<seq<FlatpakRef>>)
    returns (listed: Table<string, Entry>)
    requires Scanned(t, done, arch, installed)
    ensures AllFp(listed) && AllMarkedIn(listed, AllInstalled(done, installed))
    ensures OnlyMarkedIn(listed, AllInstalled(done, installed))
    ensures forall k :: HasKey(listed, k) <==> k in AllHashes(done, arch, installed) + HashesOf(ListedRefs(remote, arch))
    ensures Records(listed, done + [remote], arch, installed)
    ensures fresh(FpObjs(listed) - FpObjs(t))
  {
    ScannedAllFp(t, done, arch, installed);
    listed := ProcessRemote(t, remote, arch);
    ExtendsAllFp(t, listed, ListedRefs(remote, arch), remote.url);
    ListedMarks(t, listed, ListedRefs(remote, arch), remote.url, AllInstalled(done, installed));
    ListedRecords(done, t, listed, remote, arch, installed);
  }

  /** A listing pass keeps which records are marked: its own records are not. */
  lemma ListedMarks(t: Table<string, Entry>, listed: Table<string, Entry>, refs: seq<FlatpakRef>, url: string,
                    marked: seq<string>)
    requires Extends(t, listed, refs, url) && NewUnmarked(t, listed, HashesOf(refs))
    requires AllMarkedIn(t, marked) && OnlyMarkedIn(t, marked)
    ensures AllMarkedIn(listed, marked) && OnlyMarkedIn(listed, marked)
  {
    forall k | HasKey(listed, k) && k !in marked
      ensures !MarkedInstalled(listed, k)
    {
      if HasKey(t, k) {
        assert !MarkedInstalled(t, k);
      }
    }
    forall k | k in marked
      ensures MarkedInstalled(listed, k)
    {
      assert MarkedInstalled(t, k);
    }
  }

  /**
   * The installed half of a remote's pass: nothing when list_installed_refs raises, otherwise
   * the installed refs from the remote. Afterwards the records marked are those of `marked`
   * and of these refs.
   */
  method MarkPass(listed: Table<string, Entry>, installed: Result<seq<FlatpakRef>>, remote: Remote, ghost marked: seq<string>)
    returns (r: Table<string, Entry>)
    requires AllFp(listed) && AllMarkedIn(listed, marked) && OnlyMarkedIn(listed, marked)
    modifies FpObjs(listed)`installed
    ensures Extends(listed, r, InstalledOf(installed, remote.name), remote.url) && AllFp(r)
    ensures AllMarkedIn(r, marked + HashesOf(InstalledOf(installed, remote.name)))
    ensures OnlyMarkedIn(r, marked + HashesOf(InstalledOf(installed, remote.name)))
    ensures fresh(FpObjs(r) - FpObjs(listed))
  {
    ghost var hs := HashesOf(InstalledOf(installed, remote.name));
    if installed.Ok? {
      r := MarkInstalled(listed, installed.value, remote);
    } else {
      r := listed;
    }
    ExtendsAllFp(listed, r, InstalledOf(installed, remote.name), remote.url);
    forall k | k in marked
      ensures MarkedInstalled(r, k)
    {
      assert old(MarkedInstalled(listed, k));
    }
    MarkedAll(r, listed, InstalledOf(installed, remote.name), remote.url, marked);
    forall k | HasKey(r, k) && k !in marked + hs
      ensures !MarkedInstalled(r, k)
    {
      assert !old(MarkedInstalled(listed, k));
    }
  }

  /** After the listing half of a remote's pass, each key holds the record of its origin in the scan so far. */
  lemma ListedRecords(done: seq<Remote>, t: Table<string, Entry>, listed: Table<string, Entry>, remote: Remote,
                      arch: string, installed: Result<seq<FlatpakRef>>)
    requires forall k :: HasKey(t, k) <==> k in AllHashes(done, arch, installed)
    requires Records(t, done, arch, installed)
    requires Extends(t, listed, ListedRefs(remote, arch), remote.url)
    ensures forall k :: HasKey(listed, k) <==> k in AllHashes(done, arch, installed) + HashesOf(ListedRefs(remote, arch))
    ensures Records(listed, done + [remote], arch, installed)
  {
    var l, i := ListedRefs(remote, arch), InstalledOf(installed, remote.name);
    assert (done + [remote])[..|done|] == done;
    forall k | HasKey(listed, k)
      ensures Origin(done + [remote], arch, installed, k).Some?
              && MadeFor(listed, k, Origin(done + [remote], arch, installed, k).value.0,
                         Origin(done + [remote], arch, installed, k).value.1)
    {
      FirstRefConcat(l, i, k);
      if HasKey(t, k) {
        var o := Origin(done, arch, installed, k).value;
        assert MadeFor(t, k, o.0, o.1);
      }
    }
  }

  /** After the installed half, each key holds the record of its origin in the scan including this remote. */
  lemma InstalledRecords(done: seq<Remote>, listed: Table<string, Entry>, r: Table<string, Entry>, remote: Remote,
                         arch: string, installed: Result<seq<FlatpakRef>>)
    requires forall k :: HasKey(listed, k) <==> k in AllHashes(done, arch, installed) + HashesOf(ListedRefs(remote, arch))
    requires Records(listed, done + [remote], arch, installed)
    requires Extends(listed, r, InstalledOf(installed, remote.name), remote.url)
    ensures forall k :: HasKey(r, k) <==> k in AllHashes(done + [remote], arch, installed)
    ensures Records(r, done + [remote], arch, installed)
  {
    var l, i := ListedRefs(remote, arch), InstalledOf(installed, remote.name);
    ScanKeys(done, remote, arch, installed);
    assert (done + [remote])[..|done|] == done;
    forall k | HasKey(r, k) && !HasKey(listed, k)
      ensures Origin(done + [remote], arch, installed, k).Some?
              && MadeFor(r, k, Origin(done + [remote], arch, installed, k).value.0,
                         Origin(done + [remote], arch, installed, k).value.1)
    {
      FirstRefConcat(l, i, k);
      assert MadeFor(r, k, FirstRef(i, k).value, remote.url);
    }
    forall k | HasKey(listed, k)
      ensures MadeFor(r, k, Origin(done + [remote], arch, installed, k).value.0,
                      Origin(done + [remote], arch, installed, k).value.1)
    {
      assert Get(r, k) == Get(listed, k);
    }
  }

  lemma ConcatAssoc<T>(a: seq<T>, b: seq<T>, c: seq<T>)
    ensures (a + b) + c == a + (b + c)
  {
  }

  lemma ScanKeys(done: seq<Remote>, remote: Remote, arch: string, installed: Result<seq<FlatpakRef>>)
    ensures AllHashes(done + [remote], arch, installed) == AllHashes(done, arch, installed) + PassHashes(remote, arch, installed)
    ensures AllInstalled(done + [remote], installed) == AllInstalled(done, installed) + HashesOf(InstalledOf(installed, remote.name))
  {
    var a, l, i := ScannedRefs(done, arch, installed), ListedRefs(remote, arch), InstalledOf(installed, remote.name);
    assert (done + [remote])[..|done|] == done;
    assert ScannedRefs(done + [remote], arch, installed) == (a + l) + i;
    HashesOfConcat(a + l, i);
    HashesOfConcat(a, l);
    var ha, hl, hi := HashesOf(a), HashesOf(l), HashesOf(i);
    assert PassHashes(remote, arch, installed) == hl + hi;
    assert AllHashes(done + [remote], arch, installed) == (ha + hl) + hi;
    ConcatAssoc(ha, hl, hi);
    assert MarkedRefs(done + [remote], installed) == MarkedRefs(done, installed) + i;
    HashesOfConcat(MarkedRefs(done, installed), i);
  }

  /**
   * process_full_flatpak_installation, given what list_remotes and list_installed_refs
   * answer (Err: the call raises) and the default arch, from an empty cache: the cache
   * holds the hash of every ref the scan adds, under each the record built for the first
   * ref with that hash, marked installed exactly for the hashes of the installed refs
   * from the remotes, and one description per remote name.
   */
  method ProcessFullFlatpakInstallation(remotes: Result<seq<Remote>>, installed: Result<seq<FlatpakRef>>, arch: string)
    returns (cache: Table<string, Entry>, infos: Table<string, RemoteInfo>)
    ensures remotes.Err? ==> cache == [] && infos == []
    ensures remotes.Ok? ==> Scanned(cache, remotes.value, arch, installed) && infos == InfosOf(remotes.value)
    ensures fresh(FpObjs(cache))
  {
    cache := [];
    infos := [];
    if remotes.Err? {
      return;
    }
    var rs := remotes.value;
    var i := 0;
    while i < |rs|
      invariant 0 <= i <= |rs| && ScanProgress(rs, i, arch, installed, cache)
      invariant fresh(FpObjs(cache))
    {
      cache := ScanStep(rs, i, arch, installed, cache);
      i := i + 1;
    }
    assert rs[..|rs|] == rs;
    infos := RemoteInfos(rs);
  }

  /**
   * flatpak_remote_infos of the same loop, collected in a pass of its own: the
   * scan of the refs never reads it, so the result is the same.
   */
  method RemoteInfos(rs: seq<Remote>) returns (infos: Table<string, RemoteInfo>)
    ensures infos == InfosOf(rs)
  {
    infos := [];
    var i := 0;
    while i < |rs|
      invariant 0 <= i <= |rs| && infos == InfosOf(rs[..i])
    {
      infos := AddRemoteInfo(rs, i, infos);
      i := i + 1;
    }
    assert rs[..|rs|] == rs;
  }

  /** The cache after the first `i` remotes. */
  ghost predicate ScanProgress(rs: seq<Remote>, i: nat, arch: string, installed: Result<seq<FlatpakRef>>,
                               cache: Table<string, Entry>)
    reads FpObjs(cache)
  {
    i <= |rs| && Scanned(cache, rs[..i], arch, installed)
  }

  /** `flatpak_remote_infos[remote_name] = FlatpakRemoteInfo(remote)` for remote `i`. */
  method AddRemoteInfo(rs: seq<Remote>, i: nat, infos: Table<string, RemoteInfo>) returns (infos': Table<string, RemoteInfo>)
    requires i < |rs| && infos == InfosOf(rs[..i])
    ensures infos' == InfosOf(rs[..i + 1])
  {
    assert rs[..i + 1][..i] == rs[..i];
    infos' := Set(infos, rs[i].name, FromRemote(rs[i]));
  }

  /** One remote of process_full_flatpak_installation. */
  method ScanStep(rs: seq<Remote>, i: nat, arch: string, installed: Result<seq<FlatpakRef>>,
                  cache: Table<string, Entry>)
    returns (cache': Table<string, Entry>)
    requires i < |rs| && ScanProgress(rs, i, arch, installed, cache)
    modifies FpObjs(cache)`installed
    ensures ScanProgress(rs, i + 1, arch, installed, cache')
    ensures fresh(FpObjs(cache') - FpObjs(cache))
  {
    assert rs[..i + 1] == rs[..i] + [rs[i]];
    cache' := ScanRemote(rs[..i], cache, rs[i], arch, installed);
  }

  // ---------------------------------------------------------------------------
  // Transactions

  /** Whether a change list already holds a ref with the same format_ref(). */
  predicate HasRef(list: seq<Change>, ref: FlatpakRef) {
    exists i :: 0 <= i < |list| && list[i].RefChange? && FormatRef(list[i].ref) == FormatRef(ref)
  }

  /** What _add_to_list leaves in the list: the ref appended unless one with its format_ref() is there. */
  function WithRef(list: seq<Change>, ref: FlatpakRef): seq<Change> {
    if HasRef(list, ref) then list else list + [RefChange(ref)]
  }

  /** No two refs of a change list share a format_ref(). */
  predicate NoDupRefs(list: seq<Change>) {
    forall i, j :: 0 <= i < j < |list| && list[i].RefChange? && list[j].RefChange? ==>
      FormatRef(list[i].ref) != FormatRef(list[j].ref)
  }

  /** Adding a ref keeps the list free of duplicates and leaves the ref in it. */
  lemma WithRefNoDup(list: seq<Change>, ref: FlatpakRef)
    requires NoDupRefs(list)
    ensures NoDupRefs(WithRef(list, ref)) && HasRef(WithRef(list, ref), ref)
  {
    var r := WithRef(list, ref);
    if !HasRef(list, ref) {
      assert r[|list|] == RefChange(ref);
      forall i, j | 0 <= i < j < |r| && r[i].RefChange? && r[j].RefChange?
        ensures FormatRef(r[i].ref) != FormatRef(r[j].ref)
      {
        if j == |list| {
          assert r[i] == list[i];
        } else {
          assert r[i] == list[i] && r[j] == list[j];
        }
      }
    }
  }

  /** Adding the same ref twice adds it once. */
  lemma WithRefIdempotent(list: seq<Change>, ref: FlatpakRef)
    ensures WithRef(WithRef(list, ref), ref) == WithRef(list, ref)
  {
    if !HasRef(list, ref) {
      assert WithRef(list, ref)[|list|] == RefChange(ref);
    }
  }

  /** _add_to_list */
  method AddToList(list: seq<Change>, ref: FlatpakRef) returns (r: seq<Change>)
    ensures r == WithRef(list, ref)
  {
    var refStr := FormatRef(ref);
    var i := 0;
    while i < |list|
      invariant 0 <= i <= |list|
      invariant forall j :: 0 <= j < i ==> !(list[j].RefChange? && FormatRef(list[j].ref) == refStr)
    {
      if list[i].RefChange? && FormatRef(list[i].ref) == refStr {
        return list;
      }
      i := i + 1;
    }
    r := list + [RefChange(ref)];
  }

  datatype OpKind = OpInstall | OpUninstall | OpUpdate

  /** get_installed_ref(...).get_installed_size() for an operation's ref: the size, or the error it raises. */
  datatype Lookup = Found(size: int) | Failed(error: Error)

  /** A transaction operation: its type, its ref, the sizes it reports and the lookup of the installed ref. */
  datatype Operation = Operation(kind: OpKind, ref: FlatpakRef, downloadSize: int, installedSize: int, current: Lookup)

  /** The state of on_transaction_ready's loop: the three change lists, the two totals and the error that ended it. */
  datatype Gathered = Gathered(toInstall: seq<Change>, toRemove: seq<Change>, toUpdate: seq<Change>,
                               dl: int, disk: int, failure: Option<Error>)

  /** One operation: an uninstall or update whose installed ref cannot be looked up stops the loop. */
  function OpStep(g: Gathered, op: Operation): Gathered {
    match op.kind
    case OpInstall =>
      g.(dl := g.dl + op.downloadSize, disk := g.disk + op.installedSize, toInstall := WithRef(g.toInstall, op.ref))
    case OpUninstall =>
      (match op.current
       case Failed(e) => g.(failure := Some(e))
       case Found(size) => g.(disk := g.disk - size, toRemove := WithRef(g.toRemove, op.ref)))
    case OpUpdate =>
      (match op.current
       case Failed(e) => g.(failure := Some(e))
       case Found(size) =>
         g.(dl := g.dl + op.downloadSize, disk := g.disk + op.installedSize - size, toUpdate := WithRef(g.toUpdate, op.ref)))
  }

  function GatherOps(ops: seq<Operation>, g: Gathered): Gathered
    decreases |ops|
  {
    if |ops| == 0 || g.failure.Some? then g else GatherOps(ops[1..], OpStep(g, ops[0]))
  }

  /** Every uninstall and update finds its installed ref. */
  predicate LookupsFound(ops: seq<Operation>) {
    forall i :: 0 <= i < |ops| && ops[i].kind != OpInstall ==> ops[i].current.Found?
  }

  /** The download total: what the install and update operations download. */
  function DownloadTotal(ops: seq<Operation>): int {
    if |ops| == 0 then 0
    else (if ops[0].kind == OpUninstall then 0 else ops[0].downloadSize) + DownloadTotal(ops[1..])
  }

  /** The installed size of an operation's ref before it runs. */
  function CurrentSize(op: Operation): int {
    match op.current
    case Found(size) => size
    case Failed(_) => 0
  }

  /** The disk total: installs add their size, uninstalls free the current size, updates add the difference. */
  function DiskTotal(ops: seq<Operation>): int {
    if |ops| == 0 then 0
    else
      (match ops[0].kind
       case OpInstall => ops[0].installedSize
       case OpUninstall => -CurrentSize(ops[0])
       case OpUpdate => ops[0].installedSize - CurrentSize(ops[0]))
      + DiskTotal(ops[1..])
  }

  /** The loop fails exactly when a lookup fails; otherwise its totals are the download and disk totals. */
  lemma {:induction false} GatherTotals(ops: seq<Operation>, g: Gathered)
    requires g.failure.None?
    ensures GatherOps(ops, g).failure.None? <==> LookupsFound(ops)
    ensures LookupsFound(ops) ==> GatherOps(ops, g).dl == g.dl + DownloadTotal(ops)
                                  && GatherOps(ops, g).disk == g.disk + DiskTotal(ops)
    decreases |ops|
  {
    if |ops| > 0 {
      var g' := OpStep(g, ops[0]);
      if g'.failure.None? {
        GatherTotals(ops[1..], g');
        assert LookupsFound(ops) <==> LookupsFound(ops[1..]) by {
          assert forall i :: 0 < i < |ops| ==> ops[i] == ops[1..][i - 1];
        }
      } else {
        assert !LookupsFound(ops) by {
          assert ops[0].kind != OpInstall && !ops[0].current.Found?;
        }
      }
    }
  }

  lemma OpStepNoDup(g: Gathered, op: Operation)
    requires NoDupRefs(g.toInstall) && NoDupRefs(g.toRemove) && NoDupRefs(g.toUpdate)
    ensures var r := OpStep(g, op); NoDupRefs(r.toInstall) && NoDupRefs(r.toRemove) && NoDupRefs(r.toUpdate)
  {
    match op.kind {
      case OpInstall => WithRefNoDup(g.toInstall, op.ref);
      case OpUninstall => WithRefNoDup(g.toRemove, op.ref);
      case OpUpdate => WithRefNoDup(g.toUpdate, op.ref);
    }
  }

  /** The three change lists stay free of duplicate refs. */
  lemma {:induction false} GatherNoDup(ops: seq<Operation>, g: Gathered)
    requires NoDupRefs(g.toInstall) && NoDupRefs(g.toRemove) && NoDupRefs(g.toUpdate)
    ensures var r := GatherOps(ops, g); NoDupRefs(r.toInstall) && NoDupRefs(r.toRemove) && NoDupRefs(r.toUpdate)
    decreases |ops|
  {
    if |ops| > 0 && g.failure.None? {
      OpStepNoDup(g, ops[0]);
      GatherNoDup(ops[1..], OpStep(g, ops[0]));
    }
  }

  /** on_transaction_ready's loop over the operations. */
  method Collect(ops: seq<Operation>, toInstall: seq<Change>, toRemove: seq<Change>, toUpdate: seq<Change>)
    returns (g: Gathered)
    ensures g == GatherOps(ops, Gathered(toInstall, toRemove, toUpdate, 0, 0, None))
  {
    ghost var start := Gathered(toInstall, toRemove, toUpdate, 0, 0, None);
    var ins, rem, upd := toInstall, toRemove, toUpdate;
    var dl, disk := 0, 0;
    var i := 0;
    while i < |ops|
      invariant 0 <= i <= |ops|
      invariant GatherOps(ops[i..], Gathered(ins, rem, upd, dl, disk, None)) == GatherOps(ops, start)
    {
      assert ops[i..][1..] == ops[i + 1..];
      var op := ops[i];
      match op.kind {
        case OpInstall =>
          dl := dl + op.downloadSize;
          disk := disk + op.installedSize;
          ins := AddToList(ins, op.ref);
        case OpUninstall =>
          if op.current.Failed? {
            return Gathered(ins, rem, upd, dl, disk, Some(op.current.error));
          }
          disk := disk - op.current.size;
          rem := AddToList(rem, op.ref);
        case OpUpdate =>
          if op.current.Failed? {
            return Gathered(ins, rem, upd, dl, disk, Some(op.current.error));
          }
          var currentSize := op.current.size;
          dl := dl + op.downloadSize;
          disk := disk + op.installedSize - currentSize;
          upd := AddToList(upd, op.ref);
      }
      i := i + 1;
    }
    g := Gathered(ins, rem, upd, dl, disk, None);
  }

  /** The error codes on_transaction_error and _operation_error test: Flatpak.Error.ABORTED and Gio.IOErrorEnum.CANCELLED. */
  datatype FpCodes = FpCodes(aborted: int, cancelled: int)

  /**
   * _confirm_transaction's test for additional changes: an install or removal
   * touching more than one ref, or an update of everything or of more than the chosen refs.
   */
  predicate NeedsConfirmation(taskType: TaskType, total: nat, initial: nat) {
    ((taskType == Install || taskType == Uninstall) && total > 1)
    || (taskType == Update && (initial == 0 || total - initial > 0))
  }

  /** Installing or removing one app alone never asks. */
  lemma SingleChangeNeverAsks(taskType: TaskType, initial: nat)
    requires taskType != Update
    ensures !NeedsConfirmation(taskType, 1, initial)
  {
  }

  /** Updating exactly the chosen refs never asks; updating everything always does. */
  lemma UpdateConfirmation(total: nat, initial: nat)
    ensures total == initial > 0 ==> !NeedsConfirmation(Update, total, initial)
    ensures NeedsConfirmation(Update, total, 0)
  {
  }

  /** The success half of on_transaction_ready: the sizes, the OK status and the Flatpak handlers. */
  method RecordReady(task: InstallerTask, dl: int, disk: int)
    modifies task`downloadSize, task`installSize, task`freedSize, task`infoReadyStatus, task`handlers
    ensures task.downloadSize == dl
    ensures disk > 0 ==> task.installSize == disk && task.freedSize == old(task.freedSize)
    ensures disk <= 0 ==> task.freedSize == -disk && task.installSize == old(task.installSize)
    ensures task.infoReadyStatus == StatusOk && task.handlers == FlatpakHandlers
  {
    task.downloadSize := dl;
    if disk > 0 {
      task.installSize := disk;
    } else {
      task.freedSize := -disk;
    }
    task.infoReadyStatus := StatusOk;
    task.handlers := FlatpakHandlers;
  }

  class FlatpakTransaction {
    const task: InstallerTask
    var transactionReady: bool
    var opError: Option<Error>
    var itemCount: nat
    var currentCount: nat

    constructor(task: InstallerTask)
      ensures this.task == task && !transactionReady && opError.None? && itemCount == 0 && currentCount == 0
    {
      this.task := task;
      transactionReady := false;
      opError := None;
      itemCount := 0;
      currentCount := 0;
    }

    /**
     * on_transaction_error: without an operation error an abort or a cancel is ignored;
     * otherwise the status NONE becomes UNKNOWN and the operation error, once the
     * transaction is ready, or else the transaction error is reported.
     */
    method OnTransactionError(e: Error, codes: FpCodes) returns (route: Option<ErrorRoute>)
      modifies task`infoReadyStatus, task`errorMessage
      ensures opError.None? && (e.code == codes.aborted || e.code == codes.cancelled) ==>
                route.None? && unchanged(task)
      ensures !(opError.None? && (e.code == codes.aborted || e.code == codes.cancelled)) ==>
                route.Some?
                && task.infoReadyStatus == (if old(task.infoReadyStatus) == StatusNone then StatusUnknown else old(task.infoReadyStatus))
                && task.errorMessage == Some(ErrorText(if transactionReady && opError.Some? then opError.value else e))
                && (route.value == InfoErrorCallback <==> !transactionReady && task.hasInfoErrorCallback)
    {
      if opError.None? && (e.code == codes.aborted || e.code == codes.cancelled) {
        return None;
      }
      if task.infoReadyStatus == StatusNone {
        task.infoReadyStatus := StatusUnknown;
      }
      var r;
      if !transactionReady {
        r := task.HandleError(e, true);
      } else if opError.Some? {
        r := task.HandleError(opError.value, false);
      } else {
        r := task.HandleError(e, false);
      }
      route := Some(r);
    }

    /**
     * on_transaction_finished: an update whose operation failed reports that error;
     * then the error cleanup runs when there is an error message, the finished one otherwise.
     */
    method OnTransactionFinished(codes: FpCodes) returns (cleanup: Cleanup)
      modifies task`infoReadyStatus, task`errorMessage
      ensures task.taskType == Update && opError.Some? ==> task.errorMessage == Some(ErrorText(opError.value))
      ensures !(task.taskType == Update && opError.Some?) ==> unchanged(task)
      ensures cleanup == CleanupFor(task.errorMessage)
    {
      if task.taskType == Update && opError.Some? {
        var _ := OnTransactionError(opError.value, codes);
      }
      cleanup := CleanupFor(task.errorMessage);
    }

    /**
     * _operation_error: a cancelled operation stops the rest without recording anything;
     * any other error is recorded, and the rest goes on only for an update.
     */
    method OperationError(e: Error, codes: FpCodes) returns (goOn: bool)
      modifies this`opError
      ensures e.code == codes.cancelled ==> !goOn && opError == old(opError)
      ensures e.code != codes.cancelled ==> opError == Some(e) && (goOn <==> task.taskType == Update)
    {
      if e.code == codes.cancelled {
        return false;
      }
      opError := Some(e);
      goOn := task.taskType == Update;
    }

    /** _operation_done */
    method OperationDone()
      modifies this`currentCount
      ensures currentCount == old(currentCount) + 1
    {
      currentCount := currentCount + 1;
    }

    /**
     * on_transaction_ready: the operations are gathered into the task's change lists;
     * a failed lookup marks the task broken and reports the error, otherwise the sizes,
     * the item count, the OK status and the transaction's handlers are set, and the
     * transaction proceeds unless the task was cancelled meanwhile.
     */
    method OnTransactionReady(ops: seq<Operation>) returns (proceed: bool, route: Option<ErrorRoute>)
      modifies this`transactionReady, this`itemCount
      modifies task`toInstall, task`toRemove, task`toUpdate, task`downloadSize, task`installSize, task`freedSize
      modifies task`infoReadyStatus, task`handlers, task`errorMessage
      ensures transactionReady
      ensures var g := GatherOps(ops, Gathered(old(task.toInstall), old(task.toRemove), old(task.toUpdate), 0, 0, None));
              task.toInstall == g.toInstall && task.toRemove == g.toRemove && task.toUpdate == g.toUpdate
              && (g.failure.Some? ==>
                    !proceed && route.Some? && task.infoReadyStatus == Broken
                    && task.errorMessage == Some(ErrorText(g.failure.value))
                    && (route.value == InfoErrorCallback <==> task.hasInfoErrorCallback)
                    && task.downloadSize == old(task.downloadSize) && task.installSize == old(task.installSize)
                    && task.freedSize == old(task.freedSize) && task.handlers == old(task.handlers)
                    && itemCount == old(itemCount))
              && (g.failure.None? ==>
                    route.None? && task.downloadSize == g.dl
                    && (g.disk > 0 ==> task.installSize == g.disk && task.freedSize == old(task.freedSize))
                    && (g.disk <= 0 ==> task.freedSize == -g.disk && task.installSize == old(task.installSize))
                    && itemCount == task.ChangeCount() && task.infoReadyStatus == StatusOk
                    && task.handlers == FlatpakHandlers && task.errorMessage == old(task.errorMessage)
                    && (proceed <==> !task.cancellable.cancelled))
    {
      transactionReady := true;
      var g := Collect(ops, task.toInstall, task.toRemove, task.toUpdate);
      task.toInstall := g.toInstall;
      task.toRemove := g.toRemove;
      task.toUpdate := g.toUpdate;
      if g.failure.Some? {
        task.infoReadyStatus := Broken;
        var r := task.HandleError(g.failure.value, true);
        return false, Some(r);
      }
      RecordReady(task, g.dl, g.disk);
      itemCount := |task.toInstall + task.toRemove + task.toUpdate|;
      route := None;
      proceed := !task.cancellable.cancelled;
    }

    /**
     * _confirm_transaction, given the answer the changes dialog would give: nothing to do
     * refuses, additional changes take the dialog's answer, anything else goes ahead.
     */
    function ConfirmTransaction(dialogOk: bool): (ok: bool)
      reads this, task
      ensures task.ChangeCount() == 0 ==> !ok
      ensures task.ChangeCount() > 0 && !NeedsConfirmation(task.taskType, task.ChangeCount(), |task.initialRefsToUpdate|) ==> ok
      ensures task.ChangeCount() > 0 && NeedsConfirmation(task.taskType, task.ChangeCount(), |task.initialRefsToUpdate|) ==> ok == dialogOk
    {
      var total := |task.toInstall + task.toRemove + task.toUpdate|;
      if total == 0 then false
      else if NeedsConfirmation(task.taskType, total, |task.initialRefsToUpdate|) then dialogOk
      else true
    }

    /** _cancel_transaction */
    method CancelTransaction()
      modifies task.cancellable
      ensures task.cancellable.cancelled
    {
      task.cancellable.Cancel();
    }
  }

  // ---------------------------------------------------------------------------
  // Lookups

  /** find_pkginfo's test: the name matches, and so does the remote when one is given. */
  predicate Matches(e: Entry, name: string, remote: Option<string>)
    reads if e.AptEntry? then {e.apt} else {}, if e.FlatpakEntry? then {e.fp} else {}
  {
    e.Name() == Some(name) && (remote.None? || e.Remote() == remote)
  }

  /** The first entry of the Flatpak subset that matches. */
  function FirstMatch(t: Table<string, Entry>, name: string, remote: Option<string>): Option<Entry>
    reads AptObjs(t), FpObjs(t)
    decreases |t|
  {
    if |t| == 0 then None
    else if Matches(t[0].1, name, remote) then Some(t[0].1)
    else FirstMatch(t[1..], name, remote)
  }

  /** A found entry matches and no earlier one does; nothing is found only when nothing matches. */
  lemma {:induction false} FirstMatchMeaning(t: Table<string, Entry>, name: string, remote: Option<string>)
    ensures FirstMatch(t, name, remote).None? <==> forall i :: 0 <= i < |t| ==> !Matches(t[i].1, name, remote)
    ensures FirstMatch(t, name, remote).Some? ==>
              exists i :: 0 <= i < |t| && t[i].1 == FirstMatch(t, name, remote).value && Matches(t[i].1, name, remote)
                          && forall j :: 0 <= j < i ==> !Matches(t[j].1, name, remote)
    decreases |t|
  {
    if |t| > 0 && !Matches(t[0].1, name, remote) {
      FirstMatchMeaning(t[1..], name, remote);
      assert forall i :: 0 < i < |t| ==> t[i] == t[1..][i - 1];
      if FirstMatch(t[1..], name, remote).Some? {
        var i :| 0 <= i < |t[1..]| && t[1..][i].1 == FirstMatch(t[1..], name, remote).value
                 && Matches(t[1..][i].1, name, remote) && forall j :: 0 <= j < i ==> !Matches(t[1..][j].1, name, remote);
        assert t[i + 1] == t[1..][i];
      }
    }
  }

  /** find_pkginfo, over the Flatpak subset of the cache. */
  method FindPkginfo(subset: Table<string, Entry>, name: string, remote: Option<string>) returns (r: Option<Entry>)
    ensures r == FirstMatch(subset, name, remote)
  {
    var i := 0;
    while i < |subset|
      invariant 0 <= i <= |subset|
      invariant FirstMatch(subset, name, remote) == FirstMatch(subset[i..], name, remote)
    {
      assert subset[i..][1..] == subset[i + 1..];
      var candidate := subset[i].1;
      if Some(name) == candidate.Name() {
        if remote.None? {
          return Some(candidate);
        } else if candidate.Remote() == remote {
          return Some(candidate);
        }
      }
      i := i + 1;
    }
    r := None;
  }

  /** The cached entries of the refs with updates, in their order; refs the cache lacks are skipped. */
  function UpdatedOf(items: Table<string, Entry>, refs: seq<FlatpakRef>): seq<Entry> {
    if |refs| == 0 then []
    else
      UpdatedOf(items, refs[..|refs| - 1])
      + (match Get(items, MakePkgHash(refs[|refs| - 1])) case Some(e) => [e] case None => [])
  }

  /** An entry is listed exactly when it is the cache's entry for a ref with an update. */
  lemma {:induction false} UpdatedOfMeaning(items: Table<string, Entry>, refs: seq<FlatpakRef>, x: Entry)
    ensures x in UpdatedOf(items, refs) <==> exists ref :: ref in refs && Get(items, MakePkgHash(ref)) == Some(x)
    ensures |UpdatedOf(items, refs)| <= |refs|
  {
    if |refs| > 0 {
      var init, last := refs[..|refs| - 1], refs[|refs| - 1];
      assert refs == init + [last];
      UpdatedOfMeaning(items, init, x);
    }
  }

  /** list_updated_pkginfos, given what list_installed_refs_for_update answers (Err: it raises). */
  method ListUpdatedPkginfos(items: Table<string, Entry>, updates: Result<seq<FlatpakRef>>) returns (r: seq<Entry>)
    ensures updates.Err? ==> r == []
    ensures updates.Ok? ==> r == UpdatedOf(items, updates.value)
  {
    if updates.Err? {
      return [];
    }
    var refs := updates.value;
    r := [];
    var i := 0;
    while i < |refs|
      invariant 0 <= i <= |refs|
      invariant r == UpdatedOf(items, refs[..i])
    {
      assert refs[..i + 1][..i] == refs[..i];
      var pkgHash := MakePkgHash(refs[i]);
      var found := Get(items, pkgHash);
      if found.Some? {
        r := r + [found.value];
      }
      i := i + 1;
    }
    assert refs[..|refs|] == refs;
  }
}
