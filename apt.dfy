/**
 * The decision logic of the apt backend (_apt.py): package hashes, the package
 * filter and section parsing of the full cache scan, the PackageKit error-code
 * mapping, and MetaTransaction's status transitions, size accounting and
 * confirmation rule. The apt cache and the PackageKit simulation are inputs.
 */
module Apt {
  import opened Wrappers
  import opened Strings
  import opened Tables
  import opened PkgInfo
  import opened Tasks

  /** Packages that may never be removed, whatever their control files say. */
  const CriticalPackages: seq<string> :=
    ["mint-common", "mint-translations", "mint-meta-core", "mintdesktop", "python3", "perl"]

  /** _apt.capitalize: pkgInfo's rule on a string (no None case). */
  function CapitalizeText(s: string): (r: string)
    ensures Some(r) == Capitalize(Some(s))
  {
    if |s| > 1 then [ToUpper(s[0])] + s[1..] else s
  }

  // ---------------------------------------------------------------------------
  // Package hashes

  /** add_prefix */
  function AddPrefix(name: string): (r: string)
    ensures StartsWith(r, "apt:") && r[4..] == name
  {
    "apt:" + name
  }

  lemma AddPrefixInjective(a: string, b: string)
    ensures AddPrefix(a) == AddPrefix(b) <==> a == b
  {
    if AddPrefix(a) == AddPrefix(b) {
      assert AddPrefix(a)[4..] == a;
    }
  }

  /** make_pkg_hash */
  function MakePkgHash(p: AptPackage): (r: string)
    ensures StartsWith(r, "apt:") && r[4..] == p.name
  {
    AddPrefix(p.name)
  }

  // ---------------------------------------------------------------------------
  // Error codes

  /** What get_real_error returns: a PkErrorEnum or a PkClientError value. */
  datatype PkError = ErrorEnum(value: int) | ClientError(value: int)

  /** PackageKit reports a PkErrorEnum value e in a GError as 0xFF + e. */
  const GErrorOffset: int := 0xFF

  function EncodeError(e: PkError): int {
    match e
    case ErrorEnum(v) => GErrorOffset + v
    case ClientError(v) => v
  }

  /** get_real_error as written: only codes above 255 are read as 0xFF + e. */
  function GetRealErrorAsWritten(code: int): (r: PkError)
    ensures r.ErrorEnum? <==> code > 255
    ensures r.ErrorEnum? ==> r.value == code - 255
    ensures r.ClientError? ==> r.value == code
  {
    if code > 255 then ErrorEnum(code - 255) else ClientError(code)
  }

  /** The reading on_transaction_error applies: a code of 0xFF or more is 0xFF + e. */
  function RealCode(code: int): int {
    if code >= GErrorOffset then code - GErrorOffset else code
  }

  /** get_real_error with the boundary that on_transaction_error and the encoding use. */
  function GetRealError(code: int): (r: PkError)
    ensures r.ErrorEnum? <==> code >= GErrorOffset
    ensures r.value == RealCode(code)
  {
    if code >= GErrorOffset then ErrorEnum(code - GErrorOffset) else ClientError(code)
  }

  /** Decoding inverts the encoding for every PkErrorEnum value and every client error code below 0xFF. */
  lemma GetRealErrorDecodes(e: PkError)
    requires e.ErrorEnum? ==> e.value >= 0
    requires e.ClientError? ==> e.value < GErrorOffset
    ensures GetRealError(EncodeError(e)) == e
  {
  }

  /** As written, the encoding of PkErrorEnum 0 (UNKNOWN) is read back as a client error. */
  lemma GetRealErrorBoundaryAsWritten()
    ensures EncodeError(ErrorEnum(0)) == 255
    ensures GetRealErrorAsWritten(255) == ClientError(255)
    ensures GetRealError(255) == ErrorEnum(0) && RealCode(255) == 0
  {
  }

  /** Code 255 is the only code on which the two readings differ. */
  lemma GetRealErrorOnlyBoundary(code: int)
    ensures GetRealErrorAsWritten(code) != GetRealError(code) <==> code == 255
  {
  }

  // ---------------------------------------------------------------------------
  // The full cache scan

  predicate StartsWithAny(s: string, ps: seq<string>) {
    exists i :: 0 <= i < |ps| && StartsWith(s, ps[i])
  }

  predicate EndsWithAny(s: string, ps: seq<string>) {
    exists i :: 0 <= i < |ps| && EndsWith(s, ps[i])
  }

  const KeptLibPrefixes: seq<string> := ["libreoffice", "librecad", "libk3b7", "libimage-exiftool-perl"]
  const ExcludedSuffixes: seq<string> := ["-dev", "-dbg", "-doc", "-common", "-data", "-dbgsym", "l10n", "-perl"]

  /** The tests of process_full_apt_cache on the package name alone. */
  predicate NameExcluded(name: string) {
    (StartsWith(name, "lib") && !StartsWithAny(name, KeptLibPrefixes))
    || (EndsWith(name, ":i386") && name != "steam:i386")
    || EndsWithAny(name, ExcludedSuffixes)
    || Contains(name, "-locale-") || Contains(name, "-l10n-")
    || name == "snapd" || name == "pepperflashplugin-nonfree"
  }

  /**
   * Every `continue` of the scan: an excluded name, no candidate, a kernel section,
   * kernel headers and tools, an arch-qualified name whose plain name is also a key,
   * and a transitional (or missing, hence unreadable) summary.
   */
  predicate Skipped(p: AptPackage, keys: set<string>) {
    NameExcluded(p.name)
    || p.candidate.None?
    || EndsWith(p.candidate.value.section, "kernel")
    || StartsWithAny(p.name, ["linux-headers-", "linux-tools-"])
    || (':' in p.name && Split(p.name, ":")[0] in keys)
    || p.candidate.value.summary.None?
    || Contains(Lower(p.candidate.value.summary.value), "transitional")
  }

  /** A name whose last character ends none of the excluded suffixes ends with none of them. */
  lemma NoExcludedSuffix(name: string)
    requires |name| > 0 && name[|name| - 1] !in {'v', 'g', 'c', 'n', 'a', 'm', 'l'}
    ensures !EndsWithAny(name, ExcludedSuffixes)
  {
    forall i | 0 <= i < |ExcludedSuffixes| ensures !EndsWith(name, ExcludedSuffixes[i]) {
      var x := ExcludedSuffixes[i];
      assert x[|x| - 1] in {'v', 'g', 'c', 'n', 'a', 'm', 'l'};
    }
  }

  /** libk3b7 is one of the libraries the filter keeps. */
  lemma LibraryKept()
    ensures !NameExcluded("libk3b7")
  {
    MissingHead("libk3b7", "-locale-");
    MissingHead("libk3b7", "-l10n-");
    NoExcludedSuffix("libk3b7");
    assert StartsWith("libk3b7", KeptLibPrefixes[2]);
  }

  /** A plain library and a 32-bit package other than steam are excluded. */
  lemma NameExcludedExamples()
    ensures NameExcluded("libfoo") && NameExcluded("wine:i386")
  {
    assert !StartsWithAny("libfoo", KeptLibPrefixes) by {
      forall i | 0 <= i < |KeptLibPrefixes| ensures !StartsWith("libfoo", KeptLibPrefixes[i]) {
        assert KeptLibPrefixes[i][3] != 'f';
      }
    }
  }

  /** The section of a candidate: the second "/"-separated part when there is a "/", else all of it. */
  function SectionOf(s: string): string {
    if '/' in s then
      SplitCount(s, '/');
      CountPresent(s, '/');
      Split(s, "/")[1]
    else s
  }

  lemma SectionOfPlain(s: string)
    requires '/' !in s
    ensures SectionOf(s) == s
  {
  }

  /** "component/section" and "component/section/more" both give "section". */
  lemma SectionOfParts(a: string, b: string, rest: string)
    requires '/' !in a && '/' !in b
    ensures SectionOf(a + "/" + b) == b
    ensures SectionOf(a + "/" + b + "/" + rest) == b
  {
    SectionAfterSlash(a, b);
    SectionAfterSlash(a, b + "/" + rest);
    SplitCons(b, rest, '/');
    assert b + "/" + rest == b + ['/'] + rest;
    assert a + "/" + b + "/" + rest == a + "/" + (b + "/" + rest);
  }

  /** After a first "/" the section is the text up to the next "/". */
  lemma SectionAfterSlash(a: string, t: string)
    requires '/' !in a
    ensures SectionOf(a + "/" + t) == Split(t, "/")[0]
  {
    assert a + "/" + t == a + ['/'] + t;
    SplitCons(a, t, '/');
    assert (a + ['/'] + t)[|a|] == '/';
    SplitCount(t, '/');
  }

  /** sections.setdefault(section, []).append(pkg_hash) */
  function AddToSection(t: Table<string, seq<string>>, section: string, h: string): (r: Table<string, seq<string>>)
    ensures Get(r, section) == Some(Get(t, section).GetOr([]) + [h])
  {
    GetSet(t, section, Get(t, section).GetOr([]) + [h]);
    Set(t, section, Get(t, section).GetOr([]) + [h])
  }

  lemma AddToSectionOther(t: Table<string, seq<string>>, section: string, h: string, s: string)
    requires s != section
    ensures Get(AddToSection(t, section, h), s) == Get(t, s)
  {
    GetSetOther(t, section, Get(t, section).GetOr([]) + [h], s);
  }

  function NamesOf(pkgs: seq<AptPackage>): set<string> {
    set i | 0 <= i < |pkgs| :: pkgs[i].name
  }

  /** Which packages the scan keeps, one flag per package. */
  function KeptFlags(pkgs: seq<AptPackage>, keys: set<string>): (r: seq<bool>)
    ensures |r| == |pkgs|
  {
    if |pkgs| == 0 then [] else KeptFlags(pkgs[..|pkgs| - 1], keys) + [!Skipped(pkgs[|pkgs| - 1], keys)]
  }

  lemma {:induction false} KeptFlagAt(pkgs: seq<AptPackage>, keys: set<string>, i: nat)
    requires i < |pkgs|
    ensures KeptFlags(pkgs, keys)[i] == !Skipped(pkgs[i], keys)
  {
    var n := |pkgs| - 1;
    if i < n {
      KeptFlagAt(pkgs[..n], keys, i);
    }
  }

  /** What the scan records of one package: nothing when it is skipped, else its section and hash. */
  function EntryOf(p: AptPackage, kept: bool): seq<(string, string)> {
    if kept && p.candidate.Some? then [(SectionOf(p.candidate.value.section), MakePkgHash(p))] else []
  }

  /** The (section, hash) pairs of the kept packages, in scan order. */
  function Entries(pkgs: seq<AptPackage>, kept: seq<bool>): seq<(string, string)>
    requires |kept| == |pkgs|
  {
    if |pkgs| == 0 then []
    else Entries(pkgs[..|pkgs| - 1], kept[..|pkgs| - 1]) + EntryOf(pkgs[|pkgs| - 1], kept[|pkgs| - 1])
  }

  function HashesOf(es: seq<(string, string)>): (r: seq<string>)
    ensures |r| == |es| && forall j :: 0 <= j < |es| ==> r[j] == es[j].1
  {
    seq(|es|, j requires 0 <= j < |es| => es[j].1)
  }

  lemma HashesOfSnoc(es: seq<(string, string)>, e: (string, string))
    ensures HashesOf(es + [e]) == HashesOf(es) + [e.1]
  {
  }

  /** The sections table built from the recorded pairs, from `acc` onwards. */
  function SectionsFold(es: seq<(string, string)>, acc: Table<string, seq<string>>): Table<string, seq<string>> {
    if |es| == 0 then acc else SectionsFold(es[1..], AddToSection(acc, es[0].0, es[0].1))
  }

  lemma {:induction false} SectionsFoldSnoc(es: seq<(string, string)>, e: (string, string),
                                            acc: Table<string, seq<string>>)
    ensures SectionsFold(es + [e], acc) == AddToSection(SectionsFold(es, acc), e.0, e.1)
    decreases |es|
  {
    if |es| > 0 {
      assert (es + [e])[1..] == es[1..] + [e];
      SectionsFoldSnoc(es[1..], e, AddToSection(acc, es[0].0, es[0].1));
    }
  }

  /** Section `s` lists hash `h`. */
  predicate Listed(t: Table<string, seq<string>>, s: string, h: string) {
    Get(t, s).Some? && h in Get(t, s).value
  }

  /** A hash is listed under a section iff it was already or a recorded pair says so. */
  lemma {:induction false} SectionsFoldListed(es: seq<(string, string)>, acc: Table<string, seq<string>>,
                                              s: string, h: string)
    ensures Listed(SectionsFold(es, acc), s, h) <==> Listed(acc, s, h) || (s, h) in es
    decreases |es|
  {
    if |es| > 0 {
      var acc' := AddToSection(acc, es[0].0, es[0].1);
      SectionsFoldListed(es[1..], acc', s, h);
      if s != es[0].0 {
        AddToSectionOther(acc, es[0].0, es[0].1, s);
      }
      assert es == [es[0]] + es[1..];
    }
  }

  /** Some package flagged as kept has section `s` and hash `h`. */
  predicate KeptUnder(pkgs: seq<AptPackage>, kept: seq<bool>, s: string, h: string)
    requires |kept| == |pkgs|
  {
    exists i :: 0 <= i < |pkgs| && kept[i] && pkgs[i].candidate.Some?
                && SectionOf(pkgs[i].candidate.value.section) == s && MakePkgHash(pkgs[i]) == h
  }

  /** The recorded pairs are exactly the sections and hashes of the kept packages. */
  lemma {:induction false} EntriesKept(pkgs: seq<AptPackage>, kept: seq<bool>, s: string, h: string)
    requires |kept| == |pkgs|
    ensures (s, h) in Entries(pkgs, kept) <==> KeptUnder(pkgs, kept, s, h)
  {
    if |pkgs| > 0 {
      var n := |pkgs| - 1;
      var init, flags := pkgs[..n], kept[..n];
      EntriesKept(init, flags, s, h);
      if KeptUnder(pkgs, kept, s, h) {
        var i :| 0 <= i < |pkgs| && kept[i] && pkgs[i].candidate.Some?
                 && SectionOf(pkgs[i].candidate.value.section) == s && MakePkgHash(pkgs[i]) == h;
        if i < n {
          assert init[i] == pkgs[i] && flags[i] == kept[i];
          assert KeptUnder(init, flags, s, h);
        }
      }
      if KeptUnder(init, flags, s, h) {
        var i :| 0 <= i < n && flags[i] && init[i].candidate.Some?
                 && SectionOf(init[i].candidate.value.section) == s && MakePkgHash(init[i]) == h;
        assert init[i] == pkgs[i] && flags[i] == kept[i];
      }
    }
  }

  /** Every recorded hash is the hash of one of the packages. */
  lemma {:induction false} EntriesHashes(pkgs: seq<AptPackage>, kept: seq<bool>, k: string)
    requires |kept| == |pkgs|
    requires k in HashesOf(Entries(pkgs, kept))
    ensures exists m :: 0 <= m < |pkgs| && k == MakePkgHash(pkgs[m])
  {
    var n := |pkgs| - 1;
    var init, flags := pkgs[..n], kept[..n];
    var es := Entries(pkgs, kept);
    var j :| 0 <= j < |es| && HashesOf(es)[j] == k;
    if j < |Entries(init, flags)| {
      assert HashesOf(Entries(init, flags))[j] == k;
      EntriesHashes(init, flags, k);
      var m :| 0 <= m < n && k == MakePkgHash(init[m]);
      assert init[m] == pkgs[m];
    } else {
      assert k == MakePkgHash(pkgs[n]);
    }
  }

  /** The sections table the scan builds: the kept packages' pairs, in order. */
  function ScanSections(pkgs: seq<AptPackage>): Table<string, seq<string>> {
    SectionsFold(Entries(pkgs, KeptFlags(pkgs, NamesOf(pkgs))), [])
  }

  /** The hashes the scan stores, in order. */
  function ScanHashes(pkgs: seq<AptPackage>): seq<string> {
    HashesOf(Entries(pkgs, KeptFlags(pkgs, NamesOf(pkgs))))
  }

  /**
   * A hash is listed under a section iff some package that passes every filter has
   * that section and that hash; nothing else is listed.
   */
  lemma SectionsListKept(pkgs: seq<AptPackage>, s: string, h: string)
    ensures Listed(ScanSections(pkgs), s, h) <==>
            exists i :: 0 <= i < |pkgs| && !Skipped(pkgs[i], NamesOf(pkgs))
                        && SectionOf(pkgs[i].candidate.value.section) == s && MakePkgHash(pkgs[i]) == h
  {
    var kept := KeptFlags(pkgs, NamesOf(pkgs));
    SectionsFoldListed(Entries(pkgs, kept), [], s, h);
    EntriesKept(pkgs, kept, s, h);
    if KeptUnder(pkgs, kept, s, h) {
      var i :| 0 <= i < |pkgs| && kept[i] && pkgs[i].candidate.Some?
               && SectionOf(pkgs[i].candidate.value.section) == s && MakePkgHash(pkgs[i]) == h;
      KeptFlagAt(pkgs, NamesOf(pkgs), i);
    }
    if exists i :: 0 <= i < |pkgs| && !Skipped(pkgs[i], NamesOf(pkgs))
                   && SectionOf(pkgs[i].candidate.value.section) == s && MakePkgHash(pkgs[i]) == h {
      var i :| 0 <= i < |pkgs| && !Skipped(pkgs[i], NamesOf(pkgs))
               && SectionOf(pkgs[i].candidate.value.section) == s && MakePkgHash(pkgs[i]) == h;
      KeptFlagAt(pkgs, NamesOf(pkgs), i);
      assert KeptUnder(pkgs, kept, s, h);
    }
  }

  /** Whether `pkgs` has packages of distinct names, as the keys of apt's cache are. */
  predicate DistinctNames(pkgs: seq<AptPackage>) {
    forall i, j :: 0 <= i < j < |pkgs| ==> pkgs[i].name != pkgs[j].name
  }

  /** The cache entry stored under `k` is an AptPkgInfo made for that hash and the name after "apt:". */
  predicate StoredApt(t: Table<string, Entry>, k: string)
    requires |k| >= 4
    reads if Get(t, k).Some? && Get(t, k).value.AptEntry? then {Get(t, k).value.apt} else {}
  {
    Get(t, k).Some? && Get(t, k).value.AptEntry?
    && Get(t, k).value.apt.pkgHash == Some(k) && Get(t, k).value.apt.name == Some(k[4..])
  }

  /** The scan's pairs grow by one package's pair at a time. */
  lemma EntriesStep(pkgs: seq<AptPackage>, kept: seq<bool>, i: nat)
    requires |kept| == |pkgs| && i < |pkgs|
    ensures Entries(pkgs[..i + 1], kept[..i + 1]) == Entries(pkgs[..i], kept[..i]) + EntryOf(pkgs[i], kept[i])
  {
    assert pkgs[..i + 1][..i] == pkgs[..i] && kept[..i + 1][..i] == kept[..i];
  }

  /** With distinct names, the hash of package `i` is not among those recorded before it. */
  lemma HashNotYetRecorded(pkgs: seq<AptPackage>, kept: seq<bool>, i: nat)
    requires |kept| == |pkgs| && i < |pkgs| && DistinctNames(pkgs)
    ensures MakePkgHash(pkgs[i]) !in HashesOf(Entries(pkgs[..i], kept[..i]))
  {
    var h := MakePkgHash(pkgs[i]);
    if h in HashesOf(Entries(pkgs[..i], kept[..i])) {
      EntriesHashes(pkgs[..i], kept[..i], h);
    }
  }

  /** What the scan has stored so far: the hashes `hs` hold new entries, every other key is as in `cache`. */
  ghost predicate ScanStored(cache: Table<string, Entry>, t: Table<string, Entry>, hs: seq<string>)
    reads AptObjs(t), FpObjs(t)
  {
    (forall k :: HasKey(t, k) <==> HasKey(cache, k) || k in hs)
    && (forall k :: k !in hs ==> Get(t, k) == Get(cache, k))
    && (forall k :: k in hs ==> |k| >= 4 && StoredApt(t, k))
  }

  /** AptPkgInfo(pkg_hash, pkg, ...) for a package of the scan: its hash and name recorded. */
  method NewAptInfo(p: AptPackage, theme: set<string>, files: set<string>) returns (info: AptPkgInfo)
    ensures fresh(info) && info.pkgHash == Some(MakePkgHash(p)) && info.name == Some(p.name)
  {
    info := new AptPkgInfo(Some(MakePkgHash(p)), Some(p), theme, files);
  }

  /** `cache[h] = AptPkgInfo(h, p, ...)`: a fresh entry under `h`, every other key as it was. */
  method StoreApt(ghost cache: Table<string, Entry>, ghost hs: seq<string>, t: Table<string, Entry>,
                  p: AptPackage, theme: set<string>, files: set<string>)
    returns (r: Table<string, Entry>)
    requires ScanStored(cache, t, hs)
    ensures ScanStored(cache, r, hs + [MakePkgHash(p)])
  {
    var h := MakePkgHash(p);
    var info := NewAptInfo(p, theme, files);
    StoredAfterSet(cache, hs, t, h, info);
    r := Set(t, h, AptEntry(info));
  }

  /** Storing an AptPkgInfo made for `h` under `h` extends what the scan has stored by `h`. */
  lemma StoredAfterSet(cache: Table<string, Entry>, hs: seq<string>, t: Table<string, Entry>,
                       h: string, info: AptPkgInfo)
    requires ScanStored(cache, t, hs) && |h| >= 4 && info.pkgHash == Some(h) && info.name == Some(h[4..])
    ensures ScanStored(cache, Set(t, h, AptEntry(info)), hs + [h])
  {
    var r := Set(t, h, AptEntry(info));
    var hs' := hs + [h];
    GetSet(t, h, AptEntry(info));
    forall k | k != h ensures Get(r, k) == Get(t, k) {
      GetSetOther(t, h, AptEntry(info), k);
    }
    forall k ensures HasKey(r, k) <==> HasKey(cache, k) || k in hs' {
      assert k in hs' <==> k in hs || k == h;
    }
    forall k | k in hs' ensures |k| >= 4 && StoredApt(r, k) {
      if k != h {
        assert k in hs;
        assert Get(r, k) == Get(t, k);
      }
    }
  }

  lemma TakeAll<T>(s: seq<T>)
    ensures s[..|s|] == s
  {
  }

  /** The scan after the first `i` packages: the sections and the stored hashes of the packages kept so far. */
  ghost predicate ScanProgress(cache: Table<string, Entry>, pkgs: seq<AptPackage>, i: nat,
                               t: Table<string, Entry>, sections: Table<string, seq<string>>)
    reads AptObjs(t), FpObjs(t)
  {
    i <= |pkgs|
    && var kept := KeptFlags(pkgs, NamesOf(pkgs));
    sections == SectionsFold(Entries(pkgs[..i], kept[..i]), [])
    && ScanStored(cache, t, HashesOf(Entries(pkgs[..i], kept[..i])))
  }

  lemma ScanStart(cache: Table<string, Entry>, pkgs: seq<AptPackage>)
    ensures ScanProgress(cache, pkgs, 0, cache, [])
  {
    var kept := KeptFlags(pkgs, NamesOf(pkgs));
    assert Entries(pkgs[..0], kept[..0]) == [];
  }

  lemma ScanDone(cache: Table<string, Entry>, pkgs: seq<AptPackage>, t: Table<string, Entry>,
                 sections: Table<string, seq<string>>)
    requires ScanProgress(cache, pkgs, |pkgs|, t, sections)
    ensures sections == ScanSections(pkgs) && ScanStored(cache, t, ScanHashes(pkgs))
  {
    TakeAll(pkgs);
    TakeAll(KeptFlags(pkgs, NamesOf(pkgs)));
  }

  /** One package of the scan: the filter, then the pair recorded and the entry stored. */
  method ScanStep(ghost cache: Table<string, Entry>, pkgs: seq<AptPackage>, keys: set<string>,
                  i: nat, t: Table<string, Entry>, sections: Table<string, seq<string>>,
                  theme: set<string>, files: set<string>)
    returns (r: Table<string, Entry>, sections': Table<string, seq<string>>)
    requires i < |pkgs| && DistinctNames(pkgs) && keys == NamesOf(pkgs)
    requires ScanProgress(cache, pkgs, i, t, sections)
    ensures ScanProgress(cache, pkgs, i + 1, r, sections')
  {
    var p := pkgs[i];
    ghost var kept := KeptFlags(pkgs, keys);
    KeptFlagAt(pkgs, keys, i);
    ghost var es := Entries(pkgs[..i], kept[..i]);
    EntriesStep(pkgs, kept, i);
    var skip := Skipped(p, keys);
    assert skip == !kept[i];
    if !skip {
      var section := SectionOf(p.candidate.value.section);
      assert EntryOf(p, kept[i]) == [(section, MakePkgHash(p))];
      HashNotYetRecorded(pkgs, kept, i);
      SectionsFoldSnoc(es, (section, MakePkgHash(p)), []);
      sections' := AddToSection(sections, section, MakePkgHash(p));
      r := StoreApt(cache, HashesOf(es), t, p, theme, files);
      HashesOfSnoc(es, (section, MakePkgHash(p)));
    } else {
      assert es + EntryOf(p, kept[i]) == es;
      r, sections' := t, sections;
    }
  }

  /**
   * process_full_apt_cache: every package the filter keeps is stored under "apt:<name>"
   * as an AptPkgInfo of that name and listed under its section; other keys are left as they were.
   */
  method ProcessFullAptCache(cache: Table<string, Entry>, pkgs: seq<AptPackage>, theme: set<string>, files: set<string>)
    returns (r: Table<string, Entry>, sections: Table<string, seq<string>>)
    requires DistinctNames(pkgs)
    ensures sections == ScanSections(pkgs)
    ensures ScanStored(cache, r, ScanHashes(pkgs))
  {
    var keys := NamesOf(pkgs);
    r := cache;
    sections := [];
    ScanStart(cache, pkgs);
    var i := 0;
    while i < |pkgs|
      invariant 0 <= i <= |pkgs| && ScanProgress(cache, pkgs, i, r, sections)
    {
      r, sections := ScanStep(cache, pkgs, keys, i, r, sections, theme, files);
      i := i + 1;
    }
    ScanDone(cache, pkgs, r, sections);
  }

  /** pkginfo_is_installed: the package of that name has an installed version; a missing one is not installed. */
  function AptIsInstalled(pkgs: seq<AptPackage>, name: Option<string>): bool {
    if |pkgs| == 0 then false
    else if Some(pkgs[0].name) == name then pkgs[0].installed.Some?
    else AptIsInstalled(pkgs[1..], name)
  }

  /** The first package of that name decides; with none, the package is not installed. */
  lemma {:induction false} AptIsInstalledFirst(pkgs: seq<AptPackage>, name: Option<string>)
    ensures AptIsInstalled(pkgs, name) <==>
            exists i :: 0 <= i < |pkgs| && Some(pkgs[i].name) == name && pkgs[i].installed.Some?
                        && forall j :: 0 <= j < i ==> Some(pkgs[j].name) != name
  {
    if |pkgs| > 0 && Some(pkgs[0].name) != name {
      AptIsInstalledFirst(pkgs[1..], name);
      assert forall i :: 0 < i < |pkgs| ==> pkgs[i] == pkgs[1..][i - 1];
      if AptIsInstalled(pkgs, name) {
        var i :| 0 <= i < |pkgs[1..]| && Some(pkgs[1..][i].name) == name && pkgs[1..][i].installed.Some?
                 && forall j :: 0 <= j < i ==> Some(pkgs[1..][j].name) != name;
        assert pkgs[i + 1] == pkgs[1..][i];
      }
    }
  }

  // ---------------------------------------------------------------------------
  // MetaTransaction

  /** The PackageKit enum values on_transaction_error compares against. */
  datatype PkCodes = PkCodes(declinedSimulation: int, notAuthorized: int, cannotRemoveSystemPackage: int,
                             depResolutionFailed: int)

  /** The errors on_transaction_error ignores: a declined simulation, an authorization failure, a cancelled task. */
  predicate Silenced(code: int, cancelled: bool, codes: PkCodes) {
    code == codes.declinedSimulation
    || (code >= GErrorOffset && RealCode(code) == codes.notAuthorized)
    || cancelled
  }

  predicate IsCriticalName(name: Option<string>) {
    name.Some? && name.value in CriticalPackages
  }

  /**
   * The status on_transaction_error leaves: a system package or a critical name forbids
   * the task; otherwise a status still NONE becomes BROKEN on a failed dependency
   * resolution and UNKNOWN on anything else.
   */
  function ErrorStatus(status: Status, realCode: int, name: Option<string>, codes: PkCodes): (r: Status)
    ensures realCode == codes.cannotRemoveSystemPackage || IsCriticalName(name) ==> r == Forbidden
    ensures r != StatusNone
    ensures status != StatusNone && r != Forbidden ==> r == status
    ensures status == StatusNone && r != Forbidden ==> (r == Broken <==> realCode == codes.depResolutionFailed)
    ensures r == Broken ==> status == Broken || realCode == codes.depResolutionFailed
    ensures r == StatusUnknown ==> status == StatusUnknown || status == StatusNone
  {
    var s := if realCode == codes.cannotRemoveSystemPackage || IsCriticalName(name) then Forbidden else status;
    if s == StatusNone then
      if realCode == codes.depResolutionFailed then Broken else StatusUnknown
    else s
  }

  /** calc_space: the candidate's installed size, less the first installed version's for an update. */
  function CalcSpace(p: SackPkg, isUpdate: bool): int {
    if isUpdate && p.installedSize.Some? then p.candidateSize - p.installedSize.value else p.candidateSize
  }

  /** The sack packages of one info kind, as change-list entries, in sack order. */
  function OfInfo(sack: seq<SackPkg>, info: SackInfo): (r: seq<Change>)
    ensures |r| <= |sack|
    ensures forall c :: c in r ==> c.PkChange? && c.pkg in sack && c.pkg.info == info
  {
    if |sack| == 0 then []
    else
      var init := sack[..|sack| - 1];
      var p := sack[|sack| - 1];
      assert forall q :: q in init ==> q in sack;
      OfInfo(init, info) + (if p.info == info then [PkChange(p)] else [])
  }

  /** added_size: installs and updates. */
  function Added(sack: seq<SackPkg>): int {
    if |sack| == 0 then 0
    else
      var p := sack[|sack| - 1];
      Added(sack[..|sack| - 1]) + (match p.info
                                   case Installing => CalcSpace(p, false)
                                   case Updating => CalcSpace(p, true)
                                   case _ => 0)
  }

  /** freed_size: removals. */
  function Freed(sack: seq<SackPkg>): int {
    if |sack| == 0 then 0
    else
      var p := sack[|sack| - 1];
      Freed(sack[..|sack| - 1]) + (if p.info == Removing then CalcSpace(p, false) else 0)
  }

  /** The two sizes of a net space change: what is installed and what is freed, one of them zero. */
  function SplitSpace(space: int): (r: (int, int))
    ensures r.0 >= 0 && r.1 >= 0
    ensures r.0 - r.1 == space
    ensures r.0 == 0 || r.1 == 0
  {
    if space < 0 then (0, -space) else (space, 0)
  }

  /** _is_critical_package: a required first version or a critical name; a package without versions is not. */
  predicate IsCritical(p: SackPkg) {
    p.priority.Some? && (p.priority.value == "required" || p.aptName in CriticalPackages)
  }

  /** Some PackageKit entry of the list is a critical package. */
  predicate AnyCritical(list: seq<Change>) {
    exists i :: 0 <= i < |list| && list[i].PkChange? && IsCritical(list[i].pkg)
  }

  /** The sack loop of do_simulate_question: changes by kind and the two running sizes. */
  method Tally(sack: seq<SackPkg>) returns (ins: seq<Change>, upd: seq<Change>, rem: seq<Change>,
                                           added: int, freed: int)
    ensures ins == OfInfo(sack, Installing) && upd == OfInfo(sack, Updating) && rem == OfInfo(sack, Removing)
    ensures added == Added(sack) && freed == Freed(sack)
  {
    ins, upd, rem := [], [], [];
    added, freed := 0, 0;
    var i := 0;
    while i < |sack|
      invariant 0 <= i <= |sack|
      invariant ins == OfInfo(sack[..i], Installing) && upd == OfInfo(sack[..i], Updating)
      invariant rem == OfInfo(sack[..i], Removing)
      invariant added == Added(sack[..i]) && freed == Freed(sack[..i])
    {
      var p := sack[i];
      assert sack[..i + 1][..i] == sack[..i];
      if p.info == Installing {
        ins := ins + [PkChange(p)];
        added := added + CalcSpace(p, false);
      } else if p.info == Updating {
        upd := upd + [PkChange(p)];
        added := added + CalcSpace(p, true);
      } else if p.info == Removing {
        rem := rem + [PkChange(p)];
        freed := freed + CalcSpace(p, false);
      }
      i := i + 1;
    }
    assert sack[..|sack|] == sack;
  }

  /** The to_remove loop of do_simulate_question. */
  method FindCritical(list: seq<Change>) returns (found: bool)
    ensures found <==> AnyCritical(list)
  {
    found := false;
    var i := 0;
    while i < |list|
      invariant 0 <= i <= |list|
      invariant found <==> exists m :: 0 <= m < i && list[m].PkChange? && IsCritical(list[m].pkg)
    {
      if list[i].PkChange? && IsCritical(list[i].pkg) {
        found := true;
      }
      i := i + 1;
    }
  }

  /** _confirm_transaction: a dialog for more than one install or removal, or any update. */
  predicate NeedsDialog(installs: nat, removals: nat, updates: nat) {
    installs > 1 || removals > 1 || updates > 0
  }

  /** The bookkeeping part of do_simulate_question: the request id, the change lists and the sizes. */
  method RecordSimulation(task: InstallerTask, request: int, sack: seq<SackPkg>, downloadSize: int)
    modifies task`pkitRequestId, task`toInstall, task`toUpdate, task`toRemove
    modifies task`downloadSize, task`installSize, task`freedSize
    ensures task.pkitRequestId == request
    ensures task.toInstall == old(task.toInstall) + OfInfo(sack, Installing)
    ensures task.toUpdate == old(task.toUpdate) + OfInfo(sack, Updating)
    ensures task.toRemove == old(task.toRemove) + OfInfo(sack, Removing)
    ensures task.downloadSize == downloadSize
    ensures (task.installSize, task.freedSize) == SplitSpace(Added(sack) - Freed(sack))
  {
    task.pkitRequestId := request;
    var ins, upd, rem, added, freed := Tally(sack);
    task.toInstall := task.toInstall + ins;
    task.toUpdate := task.toUpdate + upd;
    task.toRemove := task.toRemove + rem;
    task.downloadSize := downloadSize;
    var space := added - freed;
    if space < 0 {
      task.freedSize := space * -1;
      task.installSize := 0;
    } else {
      task.freedSize := 0;
      task.installSize := space;
    }
  }

  /**
   * The verdict of do_simulate_question: FORBIDDEN when a package to remove is
   * critical, otherwise OK with the apt handlers unless already FORBIDDEN or BROKEN.
   */
  method SettleStatus(task: InstallerTask)
    modifies task`infoReadyStatus, task`handlers
    ensures task.infoReadyStatus ==
              (if AnyCritical(task.toRemove) || old(task.infoReadyStatus) in {Forbidden, Broken}
               then (if AnyCritical(task.toRemove) then Forbidden else old(task.infoReadyStatus))
               else StatusOk)
    ensures task.handlers == (if task.infoReadyStatus == StatusOk then AptHandlers else old(task.handlers))
  {
    var critical := FindCritical(task.toRemove);
    if critical {
      task.infoReadyStatus := Forbidden;
    }
    if task.infoReadyStatus != Forbidden && task.infoReadyStatus != Broken {
      task.infoReadyStatus := StatusOk;
      task.handlers := AptHandlers;
    }
  }

  class MetaTransaction {
    var task: InstallerTask
    var simulatedDownloadSize: int
    /** packagekit.Task's simulate flag; the worker sets it before asking PackageKit. */
    var simulate: bool
    /** The arguments of the user_declined calls made, None for a call without one. */
    var declined: seq<Option<int>>

    constructor(task: InstallerTask)
      ensures this.task == task && simulatedDownloadSize == 0 && simulate && declined == []
    {
      this.task := task;
      simulatedDownloadSize := 0;
      simulate := true;
      declined := [];
    }

    /**
     * on_transaction_error: ignored errors change nothing; any other error sets the
     * status by ErrorStatus and is handled, at the information stage while simulating.
     */
    method OnTransactionError(e: Error, codes: PkCodes) returns (route: Option<ErrorRoute>)
      requires task.pkginfo.Some?
      modifies task`infoReadyStatus, task`errorMessage
      ensures Silenced(e.code, task.cancellable.cancelled, codes) ==>
                route.None? && task.infoReadyStatus == old(task.infoReadyStatus)
                && task.errorMessage == old(task.errorMessage)
      ensures !Silenced(e.code, task.cancellable.cancelled, codes) ==>
                task.infoReadyStatus == ErrorStatus(old(task.infoReadyStatus), RealCode(e.code),
                                                    task.pkginfo.value.Name(), codes)
                && task.errorMessage == Some(ErrorText(e))
                && route.Some? && (route.value == InfoErrorCallback <==> simulate && task.hasInfoErrorCallback)
    {
      if e.code == codes.declinedSimulation {
        return None;
      }
      var realCode := e.code;
      if e.code >= GErrorOffset {
        realCode := e.code - GErrorOffset;
        if realCode == codes.notAuthorized {
          return None;
        }
      }
      if task.cancellable.cancelled {
        return None;
      }
      if realCode == codes.cannotRemoveSystemPackage || IsCriticalName(task.pkginfo.value.Name()) {
        task.infoReadyStatus := Forbidden;
      }
      if task.infoReadyStatus == StatusNone {
        if realCode == codes.depResolutionFailed {
          task.infoReadyStatus := Broken;
        } else {
          task.infoReadyStatus := StatusUnknown;
        }
      }
      var r := task.HandleError(e, simulate);
      return Some(r);
    }

    /** on_transaction_finished: which cleanup callback runs. */
    method OnTransactionFinished() returns (c: Cleanup)
      ensures c == ErrorCleanup <==> Truthy(task.errorMessage)
    {
      if Truthy(task.errorMessage) {
        c := ErrorCleanup;
      } else {
        c := FinishedCleanup;
      }
    }

    /**
     * on_transaction_progress: while simulating, a download-size-remaining report raises
     * the simulated download size to its maximum; an UNKNOWN status is ignored.
     */
    method OnTransactionProgress(statusUnknown: bool, sizeRemaining: Option<int>)
      modifies this`simulatedDownloadSize
      ensures simulatedDownloadSize >= old(simulatedDownloadSize)
      ensures !statusUnknown && simulate && sizeRemaining.Some? ==>
                simulatedDownloadSize == if sizeRemaining.value > old(simulatedDownloadSize)
                                         then sizeRemaining.value else old(simulatedDownloadSize)
      ensures statusUnknown || !simulate || sizeRemaining.None? ==> simulatedDownloadSize == old(simulatedDownloadSize)
    {
      if statusUnknown {
        return;
      }
      if simulate {
        if sizeRemaining.Some? {
          var newSize := sizeRemaining.value;
          if newSize > simulatedDownloadSize {
            simulatedDownloadSize := newSize;
          }
        }
        return;
      }
    }

    /**
     * do_simulate_question: unless the task was cancelled (then the request is declined),
     * appends the simulated changes to the task, sets its sizes from the net space change,
     * forbids it when a package to remove is critical, and makes it OK unless it is
     * FORBIDDEN or BROKEN.
     */
    method DoSimulateQuestion(request: int, sack: seq<SackPkg>)
      modifies this`declined, task`pkitRequestId, task`toInstall, task`toUpdate, task`toRemove
      modifies task`downloadSize, task`installSize, task`freedSize, task`infoReadyStatus, task`handlers
      ensures old(task.cancellable.cancelled) ==>
                declined == old(declined) + [None] && task.pkitRequestId == old(task.pkitRequestId)
                && task.toInstall == old(task.toInstall) && task.toUpdate == old(task.toUpdate)
                && task.toRemove == old(task.toRemove) && task.infoReadyStatus == old(task.infoReadyStatus)
                && task.handlers == old(task.handlers) && task.downloadSize == old(task.downloadSize)
                && task.installSize == old(task.installSize) && task.freedSize == old(task.freedSize)
      ensures !old(task.cancellable.cancelled) ==>
                declined == old(declined) && task.pkitRequestId == request
                && task.toInstall == old(task.toInstall) + OfInfo(sack, Installing)
                && task.toUpdate == old(task.toUpdate) + OfInfo(sack, Updating)
                && task.toRemove == old(task.toRemove) + OfInfo(sack, Removing)
                && task.downloadSize == simulatedDownloadSize
                && (task.installSize, task.freedSize) == SplitSpace(Added(sack) - Freed(sack))
                && task.infoReadyStatus ==
                     (if AnyCritical(task.toRemove) || old(task.infoReadyStatus) in {Forbidden, Broken}
                      then (if AnyCritical(task.toRemove) then Forbidden else old(task.infoReadyStatus))
                      else StatusOk)
                && task.handlers == (if task.infoReadyStatus == StatusOk then AptHandlers else old(task.handlers))
    {
      if task.cancellable.cancelled {
        declined := declined + [None];
        return;
      }
      RecordSimulation(task, request, sack, simulatedDownloadSize);
      SettleStatus(task);
    }

    /** _confirm_transaction, given the dialog's answer. */
    method ConfirmTransaction(dialogOk: bool) returns (r: bool)
      ensures r == if NeedsDialog(|task.toInstall|, |task.toRemove|, |task.toUpdate|) then dialogOk else true
    {
      if |task.toInstall| > 1 || |task.toRemove| > 1 || |task.toUpdate| > 0 {
        return dialogOk;
      }
      return true;
    }

    /** _cancel_transaction: cancels the task and declines a pending request once. */
    method CancelTransaction()
      modifies task.cancellable, task`pkitRequestId, this`declined
      ensures task.cancellable.cancelled && task.pkitRequestId == (if old(task.pkitRequestId) > 0 then 0 else old(task.pkitRequestId))
      ensures declined == old(declined) + (if old(task.pkitRequestId) > 0 then [Some(old(task.pkitRequestId))] else [])
    {
      task.cancellable.Cancel();
      if task.pkitRequestId > 0 {
        declined := declined + [Some(task.pkitRequestId)];
        task.pkitRequestId := 0;
      }
    }
  }
}
