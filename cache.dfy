/**
 * cache.py: the package cache. A table of package records keyed by pkg_hash,
 * the apt section lists and the Flatpak remote records; loaded from the newer of
 * the system and user cache files, or regenerated from the two backends.
 */
module Cache {
  import opened Wrappers
  import opened Strings
  import opened Tables
  import opened Json
  import opened PkgInfo
  import Apt
  import Flatpak

  /** MAX_AGE: a cache file more than a week old is not loaded. */
  const MaxAge := 7 * (60 * 60 * 24)

  /** CACHE_SCHEMA_VERSION */
  const CacheSchemaVersion := 3

  /** PkgCache.STATUS_EMPTY / STATUS_OK */
  datatype CacheStatus = StatusEmpty | StatusOk

  /** SYS_CACHE_PATH / USER_CACHE_PATH */
  datatype CachePath = SysCachePath | UserCachePath

  // ---------------------------------------------------------------------------
  // Choosing the file to load

  /**
   * A cache file's modification time as _get_best_load_path counts it: 0 for a
   * missing file, one older than MAX_AGE, or (the system file) one not readable.
   */
  function UsableMtime(mtime: Option<int>, readable: bool, now: int): (r: int)
    ensures r == 0 || (mtime.Some? && readable && r == mtime.value && mtime.value >= now - MaxAge)
    ensures mtime.Some? && readable && mtime.value >= now - MaxAge ==> r == mtime.value
  {
    if mtime.None? || now - MaxAge > mtime.value || !readable then 0 else mtime.value
  }

  /**
   * _get_best_load_path, given the two files' modification times (None: getmtime
   * raises), whether the system file is readable and the current time.
   */
  function BestLoadPath(custom: bool, sysMtime: Option<int>, sysReadable: bool, userMtime: Option<int>, now: int)
    : (r: Option<CachePath>)
    ensures custom ==> r.None?
    ensures ((sysMtime.None? || sysMtime.value < now - MaxAge || !sysReadable)
             && (userMtime.None? || userMtime.value < now - MaxAge)) ==> r.None?
    ensures r == Some(SysCachePath) && (userMtime.Some? ==> userMtime.value >= 0) ==>
              sysMtime.Some? && sysReadable && sysMtime.value >= now - MaxAge
              && (userMtime.Some? && userMtime.value >= now - MaxAge ==> sysMtime.value > userMtime.value)
    ensures r == Some(UserCachePath) && sysMtime.Some? && sysReadable && sysMtime.value >= now - MaxAge
            && sysMtime.value > 0 ==>
              userMtime.Some? && userMtime.value >= now - MaxAge && userMtime.value >= sysMtime.value
    ensures !custom && sysMtime.Some? && sysMtime.value > 0 && sysReadable && sysMtime.value >= now - MaxAge ==> r.Some?
    ensures !custom && userMtime.Some? && userMtime.value > 0 && userMtime.value >= now - MaxAge ==> r.Some?
  {
    if custom then None
    else
      var s := UsableMtime(sysMtime, sysReadable, now);
      var u := UsableMtime(userMtime, true, now);
      if s == 0 && u == 0 then None
      else if s > u then Some(SysCachePath)
      else Some(UserCachePath)
  }

  // ---------------------------------------------------------------------------
  // JsonObject.from_json

  /** What a loaded cache file holds: the records, the section lists as loaded, the remote records. */
  datatype Loaded = Loaded(items: Table<string, Entry>, sections: Json, remotes: Table<string, Flatpak.RemoteInfo>)

  /** The empty cache of a failed load: `{}`, `{}`, `{}`. */
  const Nothing := Loaded([], JObj([]), [])

  /** `json_data.get("schema_version", 0) == CACHE_SCHEMA_VERSION` */
  predicate SchemaMatches(j: Json)
    requires j.JObj?
  {
    Get(j.members, "schema_version") == Some(JInt(CacheSchemaVersion))
  }

  /** A record's pkg_hash when it is a string. */
  function HashOf(d: Json): (r: Option<string>)
    ensures r.Some? ==> TextField(d, "pkg_hash") == Ok(Some(r.value))
    ensures r.None? ==> TextField(d, "pkg_hash").Err? || TextField(d, "pkg_hash") == Ok(None)
  {
    match TextField(d, "pkg_hash")
    case Ok(Some(h)) => Some(h)
    case _ => None
  }

  /** What a cache record restores: the attributes of an AptPkgInfo or of a FlatpakPkgInfo. */
  datatype Record = AptRec(a: AptRecord) | FlatpakRec(f: FlatpakLoaded)

  /**
   * `AptPkgInfo.from_json(d)` for an "a…" pkg_hash, `FlatpakPkgInfo.from_json(d)` for
   * any other; a pkg_hash that is missing or not a string raises.
   */
  function DecodeRecord(d: Json): (r: Result<Record>)
    ensures r.Ok? ==> HashOf(d).Some? && (r.value.AptRec? <==> StartsWith(HashOf(d).value, "a"))
    ensures r.Ok? && r.value.AptRec? ==> AptFromJson(d) == Ok(r.value.a)
    ensures r.Ok? && r.value.FlatpakRec? ==> FlatpakFromJson(d) == Ok(r.value.f)
    ensures r.Err? <==> HashOf(d).None?
                        || (StartsWith(HashOf(d).value, "a") && AptFromJson(d).Err?)
                        || (!StartsWith(HashOf(d).value, "a") && FlatpakFromJson(d).Err?)
  {
    if HashOf(d).None? then Err("AttributeError")
    else if StartsWith(HashOf(d).value, "a") then
      var a :- AptFromJson(d);
      Ok(AptRec(a))
    else
      var f :- FlatpakFromJson(d);
      Ok(FlatpakRec(f))
  }

  /** The attributes an entry's record holds now. */
  function RecordOf(e: Entry): (r: Record)
    reads if e.AptEntry? then {e.apt} else {}, if e.FlatpakEntry? then {e.fp} else {}
    ensures r.AptRec? <==> e.AptEntry?
  {
    if e.AptEntry? then AptRec(e.apt.Saved()) else FlatpakRec(e.fp.Loaded())
  }

  /** The record objects a table refers to. */
  function EntryObjs(t: Table<string, Entry>): set<object> {
    AptObjs(t) + FpObjs(t)
  }

  /** A table of records seen as the attributes each holds, key by key. */
  function Snapshot(t: Table<string, Entry>): (r: Table<string, Record>)
    reads EntryObjs(t)
    ensures |r| == |t| && forall i :: 0 <= i < |t| ==> r[i] == (t[i].0, RecordOf(t[i].1))
    decreases |t|
  {
    if |t| == 0 then []
    else
      assert t[0] in t;
      assert forall p :: p in t[1..] ==> p in t;
      [(t[0].0, RecordOf(t[0].1))] + Snapshot(t[1..])
  }

  /** The attributes are those of before when none of the records changed. */
  twostate lemma SnapshotUnchanged(t: Table<string, Entry>)
    requires unchanged(EntryObjs(t))
    ensures Snapshot(t) == old(Snapshot(t))
  {
  }

  /** Storing an entry stores its attributes. */
  lemma {:induction false} SnapshotSet(t: Table<string, Entry>, k: string, e: Entry)
    ensures Snapshot(Set(t, k, e)) == Set(Snapshot(t), k, RecordOf(e))
    decreases |t|
  {
    if |t| > 0 && t[0].0 != k {
      SnapshotSet(t[1..], k, e);
    }
  }

  /**
   * A JSON object read member by member into a dict from `acc` on, each value through
   * `f` and stored under its key (a repeated key keeps its first place and its last
   * value); the first value `f` refuses ends the read.
   */
  function DictFold<T>(ms: Table<string, Json>, f: Json -> Result<T>, acc: Table<string, T>): Result<Table<string, T>>
    decreases |ms|
  {
    if |ms| == 0 then Ok(acc)
    else
      var v :- f(ms[0].1);
      DictFold(ms[1..], f, Set(acc, ms[0].0, v))
  }

  /** The read succeeds exactly when each value is accepted; then the keys are those read and those there before. */
  lemma {:induction false} DictFoldMeaning<T>(ms: Table<string, Json>, f: Json -> Result<T>, acc: Table<string, T>)
    ensures DictFold(ms, f, acc).Ok? <==> forall i :: 0 <= i < |ms| ==> f(ms[i].1).Ok?
    ensures DictFold(ms, f, acc).Ok? ==>
              forall k :: HasKey(DictFold(ms, f, acc).value, k) <==> HasKey(acc, k) || HasKey(ms, k)
    decreases |ms|
  {
    if |ms| > 0 {
      var first := f(ms[0].1);
      assert forall i :: 0 < i < |ms| ==> ms[1..][i - 1] == ms[i];
      if first.Ok? {
        HasKeyCons(ms);
        DictFoldMeaning(ms[1..], f, Set(acc, ms[0].0, first.value));
      }
    }
  }

  /** A key the object does not mention keeps the value it had. */
  lemma {:induction false} DictFoldKeep<T>(ms: Table<string, Json>, f: Json -> Result<T>, acc: Table<string, T>, k: string)
    requires DictFold(ms, f, acc).Ok? && !HasKey(ms, k)
    ensures Get(DictFold(ms, f, acc).value, k) == Get(acc, k)
    decreases |ms|
  {
    if |ms| > 0 {
      HasKeyCons(ms);
      var v := f(ms[0].1).value;
      DictFoldKeep(ms[1..], f, Set(acc, ms[0].0, v), k);
      GetSetOther(acc, ms[0].0, v, k);
    }
  }

  /** The value read for a key is what `f` makes of the last member under it. */
  lemma {:induction false} DictFoldLast<T>(ms: Table<string, Json>, f: Json -> Result<T>, acc: Table<string, T>, i: nat)
    requires i < |ms| && DictFold(ms, f, acc).Ok?
    requires forall j :: i < j < |ms| ==> ms[j].0 != ms[i].0
    ensures f(ms[i].1).Ok?
    ensures Get(DictFold(ms, f, acc).value, ms[i].0) == Some(f(ms[i].1).value)
    decreases |ms|
  {
    var v := f(ms[0].1).value;
    assert forall j :: 0 < j < |ms| ==> ms[1..][j - 1] == ms[j];
    if i == 0 {
      assert !HasKey(ms[1..], ms[0].0);
      DictFoldKeep(ms[1..], f, Set(acc, ms[0].0, v), ms[0].0);
      GetSet(acc, ms[0].0, v);
    } else {
      DictFoldLast(ms[1..], f, Set(acc, ms[0].0, v), i - 1);
    }
  }

  /** The attributes the "pkginfo_cache" loop of from_json restores. */
  function RecordsFromJson(ms: Table<string, Json>): Result<Table<string, Record>> {
    DictFold(ms, DecodeRecord, [])
  }

  /** The records the "flatpak_remote_infos" loop of from_json restores. */
  function RemoteInfosFromJson(ms: Table<string, Json>): Result<Table<string, Flatpak.RemoteInfo>> {
    DictFold(ms, Flatpak.RemoteInfoFromJson, [])
  }

  /** `AptPkgInfo.from_json(d)` or `FlatpakPkgInfo.from_json(d)`, as the pkg_hash says. */
  method LoadRecord(d: Json) returns (r: Result<Entry>)
    ensures r.Ok? <==> DecodeRecord(d).Ok?
    ensures r.Ok? ==> DecodeRecord(d) == Ok(RecordOf(r.value))
  {
    var h := TextField(d, "pkg_hash");
    if h.Err? {
      return Err(h.reason);
    }
    if h.value.None? {
      // None.startswith raises
      return Err("AttributeError");
    }
    if StartsWith(h.value.value, "a") {
      var a := AptPkgInfo.FromJson(d);
      if a.Err? {
        return Err(a.reason);
      }
      return Ok(AptEntry(a.value));
    } else {
      var f := FlatpakPkgInfo.FromJson(d);
      if f.Err? {
        return Err(f.reason);
      }
      return Ok(FlatpakEntry(f.value));
    }
  }

  /** The "pkginfo_cache" loop of from_json: `pkgcache_dict[key] = ...`; an exception from any record ends the load. */
  method LoadItems(ms: Table<string, Json>) returns (r: Result<Table<string, Entry>>)
    ensures r.Err? <==> RecordsFromJson(ms).Err?
    ensures r.Ok? ==> RecordsFromJson(ms) == Ok(Snapshot(r.value))
  {
    var items: Table<string, Entry> := [];
    var i := 0;
    while i < |ms|
      invariant 0 <= i <= |ms|
      invariant DictFold(ms[i..], DecodeRecord, Snapshot(items)) == RecordsFromJson(ms)
    {
      assert ms[i..][0] == ms[i] && ms[i..][1..] == ms[i + 1..];
      var (key, d) := ms[i];
      label before:
      var e := LoadRecord(d);
      if e.Err? {
        return Err(e.reason);
      }
      SnapshotUnchanged@before(items);
      SnapshotSet(items, key, e.value);
      items := Set(items, key, e.value);
      i := i + 1;
    }
    return Ok(items);
  }

  /** The "flatpak_remote_infos" loop of from_json. */
  method LoadRemotes(ms: Table<string, Json>) returns (r: Result<Table<string, Flatpak.RemoteInfo>>)
    ensures r == RemoteInfosFromJson(ms)
  {
    var remotes: Table<string, Flatpak.RemoteInfo> := [];
    var i := 0;
    while i < |ms|
      invariant 0 <= i <= |ms|
      invariant DictFold(ms[i..], Flatpak.RemoteInfoFromJson, remotes) == RemoteInfosFromJson(ms)
    {
      assert ms[i..][0] == ms[i] && ms[i..][1..] == ms[i + 1..];
      var (key, d) := ms[i];
      var info := Flatpak.RemoteInfoFromJson(d);
      if info.Err? {
        return Err(info.reason);
      }
      remotes := Set(remotes, key, info.value);
      i := i + 1;
    }
    return Ok(remotes);
  }

  /** A file document from_json turns into a cache: the right schema, and every record and remote record loads. */
  predicate Loadable(j: Json) {
    j.JObj? && SchemaMatches(j)
    && Field(j, "pkginfo_cache").Ok? && Field(j, "pkginfo_cache").value.JObj?
    && RecordsFromJson(Field(j, "pkginfo_cache").value.members).Ok?
    && Field(j, "flatpak_remote_infos").Ok? && Field(j, "flatpak_remote_infos").value.JObj?
    && RemoteInfosFromJson(Field(j, "flatpak_remote_infos").value.members).Ok?
    && Field(j, "section_lists").Ok?
  }

  /** What a loaded cache holds, seen as values: the records' attributes, the section lists, the remote records. */
  datatype Restored = Restored(records: Table<string, Record>, sections: Json, remotes: Table<string, Flatpak.RemoteInfo>)

  function ViewOf(l: Loaded): Restored
    reads EntryObjs(l.items)
  {
    Restored(Snapshot(l.items), l.sections, l.remotes)
  }

  /** What from_json builds from a loadable document. */
  predicate LoadedFrom(j: Json, v: Restored) {
    Loadable(j)
    && v.records == RecordsFromJson(Field(j, "pkginfo_cache").value.members).value
    && v.remotes == RemoteInfosFromJson(Field(j, "flatpak_remote_infos").value.members).value
    && v.sections == Field(j, "section_lists").value
  }

  /**
   * JsonObject.from_json: None for another schema version; an exception (Err) for a
   * document that is not an object or a record that does not load.
   */
  method LoadJson(j: Json) returns (r: Result<Option<Loaded>>)
    ensures !j.JObj? ==> r.Err?
    ensures j.JObj? && !SchemaMatches(j) ==> r == Ok(None)
    ensures r.Ok? && r.value.Some? <==> Loadable(j)
    ensures r.Ok? && r.value.Some? ==> LoadedFrom(j, ViewOf(r.value.value))
  {
    if !j.JObj? {
      return Err("AttributeError");
    }
    if !SchemaMatches(j) {
      return Ok(None);
    }
    var pc := Field(j, "pkginfo_cache");
    if pc.Err? {
      return Err(pc.reason);
    }
    if !pc.value.JObj? {
      return Err("AttributeError");
    }
    var items := LoadItems(pc.value.members);
    if items.Err? {
      return Err(items.reason);
    }
    label loaded:
    var fr := Field(j, "flatpak_remote_infos");
    if fr.Err? {
      return Err(fr.reason);
    }
    if !fr.value.JObj? {
      return Err("AttributeError");
    }
    var remotes := LoadRemotes(fr.value.members);
    if remotes.Err? {
      return Err(remotes.reason);
    }
    var sections := Field(j, "section_lists");
    if sections.Err? {
      return Err(sections.reason);
    }
    SnapshotUnchanged@loaded(items.value);
    return Ok(Some(Loaded(items.value, sections.value, remotes.value)));
  }

  /** What the cache files hold: their modification times, readability, and what json.load gives for each (Err: open or parse fails). */
  datatype CacheFiles = CacheFiles(now: int, sysMtime: Option<int>, sysReadable: bool, userMtime: Option<int>,
                                   sysDoc: Result<Json>, userDoc: Result<Json>)

  /** The document _load_cache reads, if it reads one. */
  function DocOf(custom: bool, files: CacheFiles): Option<Result<Json>> {
    match BestLoadPath(custom, files.sysMtime, files.sysReadable, files.userMtime, files.now)
    case None => None
    case Some(SysCachePath) => Some(files.sysDoc)
    case Some(UserCachePath) => Some(files.userDoc)
  }

  /** What the cache starts with: the document's contents when one is read and loads, nothing otherwise. */
  predicate LoadOutcome(custom: bool, files: CacheFiles, v: Restored) {
    var doc := DocOf(custom, files);
    if doc.Some? && doc.value.Ok? && Loadable(doc.value.value) then LoadedFrom(doc.value.value, v)
    else v == Restored([], JObj([]), [])
  }

  /** _load_cache and the constructor's handling of CacheLoadingError. */
  method LoadCache(custom: bool, files: CacheFiles) returns (l: Loaded)
    ensures LoadOutcome(custom, files, ViewOf(l))
  {
    var doc := DocOf(custom, files);
    if doc.None? || doc.value.Err? {
      return Nothing;
    }
    var r := LoadJson(doc.value.value);
    if r.Err? || r.value.None? {
      return Nothing;
    }
    return r.value.value;
  }

  // ---------------------------------------------------------------------------
  // Regeneration

  /** The section lists of process_full_apt_cache as the JSON-shaped dict the cache keeps. */
  function SectionsJson(t: Table<string, seq<string>>): (r: Json)
    ensures r.JObj? && |r.members| == |t|
    ensures forall i :: 0 <= i < |t| ==> r.members[i].0 == t[i].0 && r.members[i].1.JArr? && |r.members[i].1.items| == |t[i].1|
    ensures forall i, j :: 0 <= i < |t| && 0 <= j < |t[i].1| ==> r.members[i].1.items[j] == JStr(t[i].1[j])
  {
    JObj(seq(|t|, i requires 0 <= i < |t| => (t[i].0, JArr(seq(|t[i].1|, j requires 0 <= j < |t[i].1| => JStr(t[i].1[j]))))))
  }

  /** What libflatpak and apt report, for a regeneration. */
  datatype Backends = Backends(remotes: Result<seq<Flatpak.Remote>>, installed: Result<seq<FlatpakRef>>, arch: string,
                               pkgs: seq<AptPackage>, theme: set<string>, files: set<string>)

  /** `r` is `cache` with the keys of `prev` that start with `prefix` copied over from `prev`. */
  ghost predicate Merged(cache: Table<string, Entry>, prev: Table<string, Entry>, prefix: string, r: Table<string, Entry>) {
    (forall k :: HasKey(r, k) <==> HasKey(cache, k) || (HasKey(prev, k) && StartsWith(k, prefix)))
    && (forall k :: HasKey(prev, k) && StartsWith(k, prefix) ==> Get(r, k) == Get(prev, k))
    && (forall k :: !(HasKey(prev, k) && StartsWith(k, prefix)) ==> Get(r, k) == Get(cache, k))
  }

  /** The loop body of the copy: `cache[key] = self._items[key]` when the key has the prefix. */
  function CopyOne(r: Table<string, Entry>, prev: Table<string, Entry>, prefix: string, i: nat): Table<string, Entry>
    requires i < |prev|
  {
    var key := prev[i].0;
    if StartsWith(key, prefix) then
      assert (key, prev[i].1) in prev;
      Set(r, key, Get(prev, key).value)
    else r
  }

  lemma MergedStep(cache: Table<string, Entry>, prev: Table<string, Entry>, prefix: string, i: nat, r: Table<string, Entry>)
    requires i < |prev| && Merged(cache, prev[..i], prefix, r)
    ensures Merged(cache, prev[..i + 1], prefix, CopyOne(r, prev, prefix, i))
  {
    PrefixGrow(prev, i);
    if StartsWith(prev[i].0, prefix) {
      MergedCopy(cache, prev, prefix, i, r);
    }
  }

  /** One more pair of `prev`: one more key, and the earlier keys keep their first values. */
  lemma PrefixGrow(prev: Table<string, Entry>, i: nat)
    requires i < |prev|
    ensures forall k :: HasKey(prev[..i + 1], k) <==> HasKey(prev[..i], k) || k == prev[i].0
    ensures forall k :: HasKey(prev[..i], k) ==> Get(prev[..i + 1], k) == Get(prev[..i], k)
    ensures HasKey(prev[..i + 1], prev[i].0) && Get(prev, prev[i].0) == Get(prev[..i + 1], prev[i].0)
  {
    var a, b := prev[..i], prev[..i + 1];
    assert b == a + [prev[i]];
    HasKeySnoc(a, prev[i]);
    PrefixLookup(prev, i);
    forall k | HasKey(a, k) ensures Get(b, k) == Get(a, k) {
      GetAppend(a, [prev[i]], k);
    }
  }

  lemma PrefixLookup(prev: Table<string, Entry>, i: nat)
    requires i < |prev|
    ensures HasKey(prev[..i + 1], prev[i].0) && Get(prev, prev[i].0) == Get(prev[..i + 1], prev[i].0)
  {
    var b := prev[..i + 1];
    assert prev == b + prev[i + 1..];
    assert b[i].0 == prev[i].0;
    GetAppend(b, prev[i + 1..], prev[i].0);
  }

  /** A key with the prefix is copied: the merge now covers it as well. */
  lemma MergedCopy(cache: Table<string, Entry>, prev: Table<string, Entry>, prefix: string, i: nat, r: Table<string, Entry>)
    requires i < |prev| && Merged(cache, prev[..i], prefix, r) && StartsWith(prev[i].0, prefix)
    requires forall k :: HasKey(prev[..i + 1], k) <==> HasKey(prev[..i], k) || k == prev[i].0
    requires forall k :: HasKey(prev[..i], k) ==> Get(prev[..i + 1], k) == Get(prev[..i], k)
    requires HasKey(prev[..i + 1], prev[i].0) && Get(prev, prev[i].0) == Get(prev[..i + 1], prev[i].0)
    ensures Merged(cache, prev[..i + 1], prefix, Set(r, prev[i].0, Get(prev, prev[i].0).value))
  {
    var key := prev[i].0;
    var v := Get(prev, key).value;
    GetSet(r, key, v);
    forall k | k != key ensures Get(Set(r, key, v), k) == Get(r, k) {
      GetSetOther(r, key, v, k);
    }
  }

  /** The copy loop of _new_cache_common: `cache[key] = self._items[key]` for each key with the prefix. */
  method MergeType(cache: Table<string, Entry>, prev: Table<string, Entry>, prefix: string) returns (r: Table<string, Entry>)
    ensures Merged(cache, prev, prefix, r)
  {
    r := cache;
    var i := 0;
    while i < |prev|
      invariant 0 <= i <= |prev|
      invariant Merged(cache, prev[..i], prefix, r)
    {
      MergedStep(cache, prev, prefix, i, r);
      r := CopyOne(r, prev, prefix, i);
      i := i + 1;
    }
    assert prev[..i] == prev;
  }

  /** Keeping the other type: a key that survives gets its entry back; every other key comes from the regeneration. */
  lemma MergedKeeps(cache: Table<string, Entry>, prev: Table<string, Entry>, prefix: string, r: Table<string, Entry>, k: string)
    requires Merged(cache, prev, prefix, r)
    ensures HasKey(prev, k) && StartsWith(k, prefix) ==> HasKey(r, k) && Get(r, k) == Get(prev, k)
    ensures !StartsWith(k, prefix) ==> Get(r, k) == Get(cache, k)
  {
  }

  /**
   * The cache after a regeneration that gave `generated`, `genSections` and `infos`, for
   * the package type `content`: a cache for "f" keeps the apt records and the section
   * lists it had, one for "a" keeps the Flatpak records, one for both takes the new table;
   * the status is OK exactly when there are records.
   */
  ghost predicate Replaced(content: Option<string>, generated: Table<string, Entry>, genSections: Json,
                           infos: Table<string, Flatpak.RemoteInfo>, prevItems: Table<string, Entry>, prevSections: Json,
                           items: Table<string, Entry>, sections: Json, remotes: Table<string, Flatpak.RemoteInfo>,
                           status: CacheStatus)
  {
    (content == Some("f") ==> Merged(generated, prevItems, "a", items) && sections == prevSections)
    && (content == Some("a") ==> Merged(generated, prevItems, "f", items) && sections == genSections)
    && (content != Some("f") && content != Some("a") ==> items == generated && sections == genSections)
    && remotes == infos
    && (status == StatusOk <==> |items| > 0)
  }

  /** get_subset_of_type: the pairs whose key starts with the prefix, in table order. */
  function OfType(t: Table<string, Entry>, prefix: string): (r: Table<string, Entry>)
    ensures forall i :: 0 <= i < |r| ==> r[i] in t && StartsWith(r[i].0, prefix)
    ensures forall i :: 0 <= i < |t| && StartsWith(t[i].0, prefix) ==> t[i] in r
  {
    if |t| == 0 then []
    else
      var init := OfType(t[..|t| - 1], prefix);
      assert t == t[..|t| - 1] + [t[|t| - 1]];
      if StartsWith(t[|t| - 1].0, prefix) then init + [t[|t| - 1]] else init
  }

  /** find_pkginfo's key: "apt:" is put in front of an apt name that lacks it. */
  function LookupKey(name: string, pkgType: Option<string>): (r: string)
    ensures pkgType == Some("a") ==> StartsWith(r, "apt:")
    ensures pkgType != Some("a") ==> r == name
    ensures StartsWith(name, "apt:") ==> r == name
  {
    if pkgType == Some("a") && !StartsWith(name, "apt:") then "apt:" + name else name
  }

  /** Looking the key up again finds the same key. */
  lemma LookupKeyIdempotent(name: string, pkgType: Option<string>)
    ensures LookupKey(LookupKey(name, pkgType), pkgType) == LookupKey(name, pkgType)
  {
  }

  /**
   * One regeneration: what the backends report, whether the Flatpak and the apt scan
   * ran, the Flatpak scan's table `fpCache` (empty when it did not run or libflatpak
   * has no remotes), the table `cache` after the apt scan, the section lists and the
   * remote records.
   */
  datatype Regeneration = Regeneration(b: Backends, flatpak: bool, apt: bool, fpCache: Table<string, Entry>,
                                       cache: Table<string, Entry>, sections: Json,
                                       infos: Table<string, Flatpak.RemoteInfo>)

  /** The Flatpak half of _generate_cache: the scan of every remote when it runs and libflatpak lists them, nothing otherwise. */
  ghost predicate FlatpakGenerated(b: Backends, flatpak: bool, fpCache: Table<string, Entry>,
                                   infos: Table<string, Flatpak.RemoteInfo>)
    reads FpObjs(fpCache)
  {
    (flatpak && b.remotes.Ok? ==>
       Flatpak.Scanned(fpCache, b.remotes.value, b.arch, b.installed) && infos == Flatpak.InfosOf(b.remotes.value))
    && (!(flatpak && b.remotes.Ok?) ==> fpCache == [] && infos == [])
  }

  /** The apt half of _generate_cache: the apt scan on top of the Flatpak table when it runs, that table otherwise. */
  ghost predicate AptGenerated(b: Backends, apt: bool, fpCache: Table<string, Entry>, cache: Table<string, Entry>, sections: Json)
    reads AptObjs(cache), FpObjs(cache)
  {
    (apt ==> Apt.ScanStored(fpCache, cache, Apt.ScanHashes(b.pkgs)) && sections == SectionsJson(Apt.ScanSections(b.pkgs)))
    && (!apt ==> cache == fpCache && sections == JObj([]))
  }

  /** The records a regeneration's tables refer to. */
  function GenObjs(g: Regeneration): set<object> {
    FpObjs(g.fpCache) + AptObjs(g.cache) + FpObjs(g.cache)
  }

  /** What _generate_cache returns: the scans that ran, each over what the backends report. */
  ghost predicate Generated(g: Regeneration)
    reads GenObjs(g)
  {
    FlatpakGenerated(g.b, g.flatpak, g.fpCache, g.infos) && AptGenerated(g.b, g.apt, g.fpCache, g.cache, g.sections)
  }

  /** The Flatpak half of _generate_cache. */
  method GenerateFlatpak(b: Backends, runs: bool) returns (cache: Table<string, Entry>, infos: Table<string, Flatpak.RemoteInfo>)
    ensures FlatpakGenerated(b, runs, cache, infos)
  {
    cache, infos := [], [];
    if runs {
      cache, infos := Flatpak.ProcessFullFlatpakInstallation(b.remotes, b.installed, b.arch);
    }
  }

  /** The apt half of _generate_cache. */
  method GenerateApt(b: Backends, runs: bool, fpCache: Table<string, Entry>) returns (cache: Table<string, Entry>, sections: Json)
    requires Apt.DistinctNames(b.pkgs)
    ensures AptGenerated(b, runs, fpCache, cache, sections)
  {
    cache, sections := fpCache, JObj([]);
    if runs {
      var s;
      cache, s := Apt.ProcessFullAptCache(cache, b.pkgs, b.theme, b.files);
      sections := SectionsJson(s);
    }
  }

  /** The regeneration's outcome still holds when none of the attributes it speaks of changed. */
  twostate lemma GeneratedUnchanged(g: Regeneration)
    requires old(Generated(g))
    requires unchanged(GenObjs(g))
    ensures Generated(g)
  {
  }

  class PkgCache {
    var status: CacheStatus
    /** cache_content: the package type ("a", "f") the cache was made for, None for both. */
    const cacheContent: Option<string>
    const customCachePath: Option<string>
    const haveFlatpak: bool
    var items: Table<string, Entry>
    var sections: Json
    var remoteInfos: Table<string, Flatpak.RemoteInfo>

    /**
     * PkgCache(pkg_type, cache_path, have_flatpak): the cache file is loaded when one
     * qualifies and from_json accepts it, otherwise the cache starts empty; the status
     * is OK exactly when there are records.
     */
    constructor(pkgType: Option<string>, cachePath: Option<string>, haveFlatpak: bool, files: CacheFiles)
      ensures cacheContent == pkgType && customCachePath == cachePath
      ensures this.haveFlatpak <==> haveFlatpak && (pkgType == Some("f") || pkgType.None?)
      ensures status == StatusOk <==> |items| > 0
      ensures LoadOutcome(cachePath.Some?, files, Restored(Snapshot(items), sections, remoteInfos))
    {
      cacheContent := pkgType;
      customCachePath := cachePath;
      this.haveFlatpak := haveFlatpak && (pkgType == Some("f") || pkgType.None?);
      new;
      var l := LoadCache(cachePath.Some?, files);
      label loaded:
      Install(l);
      SnapshotUnchanged@loaded(l.items);
    }

    /** The constructor's assignment of what was loaded. */
    method Install(l: Loaded)
      modifies this`items, this`sections, this`remoteInfos, this`status
      ensures items == l.items && sections == l.sections && remoteInfos == l.remotes
      ensures status == StatusOk <==> |items| > 0
      ensures unchanged(EntryObjs(l.items))
    {
      items, sections, remoteInfos := l.items, l.sections, l.remotes;
      status := if |l.items| > 0 then StatusOk else StatusEmpty;
    }

    /** `cache[key] = value` (__setitem__); the status is left alone. */
    method SetItem(key: string, value: Entry)
      modifies this`items
      ensures items == Set(old(items), key, value)
    {
      items := Set(items, key, value);
    }

    /** `del cache[key]` (__delitem__): a KeyError for a missing key. */
    method DelItem(key: string) returns (r: Result<()>)
      modifies this`items
      ensures r.Ok? <==> HasKey(old(items), key)
      ensures r.Ok? ==> items == Remove(old(items), key)
      ensures r.Err? ==> items == old(items)
    {
      if !HasKey(items, key) {
        return Err("KeyError");
      }
      items := Remove(items, key);
      return Ok(());
    }

    /** _generate_cache runs the Flatpak scan: Flatpak is available and wanted, or the cache is empty. */
    predicate FlatpakRuns()
      reads this
    {
      haveFlatpak && (cacheContent == Some("f") || cacheContent.None? || status == StatusEmpty)
    }

    /** _generate_cache runs the apt scan: apt is wanted or the cache is empty. */
    predicate AptRuns()
      reads this
    {
      cacheContent == Some("a") || cacheContent.None? || status == StatusEmpty
    }

    /** With no cache loaded both package types are generated. */
    lemma EmptyGeneratesBoth()
      requires status == StatusEmpty
      ensures AptRuns() && (haveFlatpak <==> FlatpakRuns())
    {
    }

    /** _generate_cache: the Flatpak scan into an empty table, then the apt scan on top. */
    method GenerateCache(b: Backends)
      returns (cache: Table<string, Entry>, sections: Json, infos: Table<string, Flatpak.RemoteInfo>,
               ghost fpCache: Table<string, Entry>)
      requires Apt.DistinctNames(b.pkgs)
      ensures Generated(Regeneration(b, FlatpakRuns(), AptRuns(), fpCache, cache, sections, infos))
    {
      var scanned;
      scanned, infos := GenerateFlatpak(b, FlatpakRuns());
      fpCache := scanned;
      cache, sections := GenerateApt(b, AptRuns(), scanned);
    }

    /**
     * The second half of _new_cache_common: a regeneration for one package type keeps
     * the other type's records (and, for "f", the old section lists); the status follows
     * the new table.
     */
    method ReplaceContents(generated: Table<string, Entry>, genSections: Json, infos: Table<string, Flatpak.RemoteInfo>,
                           ghost g: Regeneration)
      modifies this`items, this`sections, this`remoteInfos, this`status
      ensures unchanged(GenObjs(g))
      ensures Replaced(cacheContent, generated, genSections, infos, old(items), old(sections), items, sections, remoteInfos, status)
    {
      var cache, s := generated, genSections;
      if cacheContent == Some("f") {
        cache := MergeType(cache, items, "a");
        s := sections;
      } else if cacheContent == Some("a") {
        cache := MergeType(cache, items, "f");
      }
      items, sections, remoteInfos, status := cache, s, infos, if |cache| == 0 then StatusEmpty else StatusOk;
    }

    /** _new_cache_common: _generate_cache, then the records and lists it keeps. */
    method NewCacheCommon(b: Backends) returns (ghost g: Regeneration)
      requires Apt.DistinctNames(b.pkgs)
      modifies this`items, this`sections, this`remoteInfos, this`status
      ensures Generated(g) && g.b == b && g.flatpak == old(FlatpakRuns()) && g.apt == old(AptRuns())
      ensures Replaced(cacheContent, g.cache, g.sections, g.infos, old(items), old(sections), items, sections, remoteInfos, status)
    {
      ghost var flatpakRuns, aptRuns := FlatpakRuns(), AptRuns();
      var cache, s, infos, fp := GenerateCache(b);
      g := Regeneration(b, flatpakRuns, aptRuns, fp, cache, s, infos);
      label scanned:
      ReplaceContents(cache, s, infos, g);
      GeneratedUnchanged@scanned(g);
    }

    /** get_subset_of_type */
    function SubsetOfType(prefix: string): (r: Table<string, Entry>)
      reads this
      ensures forall i :: 0 <= i < |r| ==> r[i] in items && StartsWith(r[i].0, prefix)
      ensures forall i :: 0 <= i < |items| && StartsWith(items[i].0, prefix) ==> items[i] in r
    {
      OfType(items, prefix)
    }

    /**
     * find_pkginfo: a record stored under the key wins; a missing "apt:" key gives None;
     * any other name is looked up among the Flatpak records when Flatpak is available.
     */
    method FindPkginfo(name: string, pkgType: Option<string>, remote: Option<string>) returns (r: Option<Entry>)
      ensures var key := LookupKey(name, pkgType);
              (HasKey(items, key) ==> r == Get(items, key))
              && (!HasKey(items, key) && StartsWith(key, "apt:") ==> r.None?)
              && (!HasKey(items, key) && !StartsWith(key, "apt:") ==>
                    r == if haveFlatpak then Flatpak.FirstMatch(OfType(items, "f"), key, remote) else None)
      ensures pkgType == Some("a") ==> r == Get(items, LookupKey(name, pkgType))
    {
      var key := name;
      if pkgType == Some("a") && !StartsWith(key, "apt:") {
        key := "apt:" + key;
      }
      var hit := Get(items, key);
      if hit.Some? {
        return hit;
      }
      if key[..if |key| < 4 then |key| else 4] == "apt:" {
        return None;
      }
      if haveFlatpak {
        var found := Flatpak.FindPkginfo(SubsetOfType("f"), key, remote);
        if found.Some? {
          return found;
        }
      }
      return None;
    }
  }
}
