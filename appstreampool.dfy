/**
 * The decision logic of the AppStream helpers: locale names turned into
 * BCP 47 tags, the locale list handed to the Xmlb builder, the screenshot
 * image table and its nearest-width lookup, the newest release, the icon
 * choice and the memoized lookup of a package's component.
 *
 * Xmlb nodes are given as records of what the queries return: an attribute
 * is `None` when missing, a query that raises is `None` at the level of the
 * node list. `os.path.exists` is the set of paths that exist.
 */
module AppstreamPool {
  import opened Wrappers
  import opened Strings
  import opened Tables

  const KindApp: int := 0
  const KindRuntime: int := 1

  // ---------------------------------------------------------------------
  // Locales

  /**
   * The script subtag of section 2.2.3 of RFC 5646 for the glibc locale
   * modifiers AppStream knows, including a dash; "euro" names no script and
   * is dropped; any other modifier is kept as a subtag of its own.
   */
  function ScriptSuffix(variant: string): (r: string)
    ensures r == "" <==> variant == "euro"
    ensures r != "" ==> r[0] == '-'
    ensures '@' !in variant ==> '@' !in r
  {
    if variant == "cyrillic" then "-Cyrl"
    else if variant == "devanagari" then "-Deva"
    else if variant == "latin" then "-Latn"
    else if variant == "shaw" then "-Shaw"
    else if variant != "euro" then "-" + variant
    else ""
  }

  /**
   * locale_to_bcp47 on a present locale. Python's two-name unpacking of
   * `split("@")` raises for a locale with two or more '@'.
   */
  function Bcp47(locale: string): Result<string> {
    if '@' !in locale then Ok(locale)
    else
      var parts := Split(locale, "@");
      if |parts| != 2 then Err("ValueError: too many values to unpack")
      else Ok(parts[0] + ScriptSuffix(parts[1]))
  }

  function LocaleToBcp47(locale: Option<string>): (r: Result<Option<string>>)
    ensures locale.None? <==> r == Ok(None)
    ensures locale.Some? && '@' !in locale.value ==> r == Ok(locale)
  {
    match locale
    case None => Ok(None)
    case Some(l) =>
      match Bcp47(l)
      case Err(e) => Err(e)
      case Ok(t) => Ok(Some(t))
  }

  /** `base@variant` becomes the base followed by the subtag of the variant. */
  lemma Bcp47Variant(base: string, variant: string)
    requires '@' !in base && '@' !in variant
    ensures Bcp47(base + "@" + variant) == Ok(base + ScriptSuffix(variant))
  {
    var s := base + "@" + variant;
    assert s == base + ['@'] + variant;
    assert s[|base|] == '@';
    SplitCons(base, variant, '@');
    SplitNone(variant, '@');
    assert Split(s, "@") == [base, variant];
  }

  /** Two or more '@' make the conversion raise. */
  lemma Bcp47TooMany(locale: string)
    requires Count(locale, '@') >= 2
    ensures Bcp47(locale).Err?
  {
    SplitCount(locale, '@');
    CountPresent(locale, '@');
  }

  /** A converted tag has no '@' left, so converting it again changes nothing. */
  lemma Bcp47Idempotent(locale: string)
    requires Bcp47(locale).Ok?
    ensures '@' !in Bcp47(locale).value
    ensures Bcp47(Bcp47(locale).value) == Bcp47(locale)
  {
    if '@' in locale {
      var parts := Split(locale, "@");
      SplitPartsFree(locale, '@');
      assert '@' !in parts[0] && '@' !in parts[1];
    }
  }

  /** Names GLib lists that the pool keeps: no codeset and not the C locale. */
  predicate Accepted(name: string) {
    '.' !in name && name != "C"
  }

  /** The five spellings added for a kept name: as is, with dashes, with underscores, and lower-cased. */
  function Spellings(name: string): set<string> {
    var dashed := Replace(name, "_", "-");
    var underscored := Replace(name, "-", "_");
    {name, dashed, Lower(dashed), underscored, Lower(underscored)}
  }

  /** The set `tmp` after the loop over `names`. */
  function LocaleSet(names: seq<string>): set<string> {
    if |names| == 0 then {}
    else
      var last := names[|names| - 1];
      LocaleSet(names[..|names| - 1]) + (if Accepted(last) then Spellings(last) else {})
  }

  /** What a live session with only C.UTF-8 gets. */
  const EnUsFallback: set<string> := {"en-us", "en", "en_US", "en_us", "en-US"}

  /** A spelling is in the set exactly when some kept name has it. */
  predicate SpelledBy(x: string, names: seq<string>, k: int) {
    0 <= k < |names| && Accepted(names[k]) && x in Spellings(names[k])
  }

  /** Every spelling in the set comes from a kept name. */
  lemma {:induction false} LocaleSetFrom(names: seq<string>, x: string)
    requires x in LocaleSet(names)
    ensures exists k :: SpelledBy(x, names, k)
  {
    var init := names[..|names| - 1];
    if x in LocaleSet(init) {
      LocaleSetFrom(init, x);
      var k :| SpelledBy(x, init, k);
      assert names[k] == init[k];
      assert SpelledBy(x, names, k);
    } else {
      assert SpelledBy(x, names, |names| - 1);
    }
  }

  /** Every kept name brings all its spellings. */
  lemma {:induction false} LocaleSetHas(names: seq<string>, k: nat)
    requires k < |names| && Accepted(names[k])
    ensures Spellings(names[k]) <= LocaleSet(names)
  {
    var init := names[..|names| - 1];
    if k < |init| {
      LocaleSetHas(init, k);
      assert init[k] == names[k];
    }
  }

  /** A spelling is in the set exactly when some kept name has it. */
  lemma LocaleSetMembers(names: seq<string>, x: string)
    ensures x in LocaleSet(names) <==> exists k :: SpelledBy(x, names, k)
  {
    if x in LocaleSet(names) {
      LocaleSetFrom(names, x);
    }
    if exists k :: SpelledBy(x, names, k) {
      var k :| SpelledBy(x, names, k);
      LocaleSetHas(names, k);
    }
  }

  /** The loop of Pool's constructor building `tmp`. */
  method CollectLocales(names: seq<string>) returns (tmp: set<string>)
    ensures tmp == LocaleSet(names)
  {
    tmp := {};
    var i := 0;
    while i < |names|
      invariant 0 <= i <= |names|
      invariant tmp == LocaleSet(names[..i])
    {
      assert names[..i + 1][..i] == names[..i];
      var name := names[i];
      if '.' !in name && name != "C" {
        var dashed := Replace(name, "_", "-");
        var underscored := Replace(name, "-", "_");
        tmp := tmp + {name} + {dashed} + {Lower(dashed)} + {underscored} + {Lower(underscored)};
      }
      i := i + 1;
    }
    assert names[..|names|] == names;
  }

  /** The list comprehension applying locale_to_bcp47; the first failing name makes it raise. */
  function Bcp47All(tmp: set<string>): (r: Result<set<string>>)
    ensures r.Ok? <==> forall v :: v in tmp ==> Bcp47(v).Ok?
    ensures r.Ok? ==> forall v :: v in tmp ==> Bcp47(v).value in r.value
    ensures r.Ok? ==> forall t :: t in r.value ==> exists v :: v in tmp && Bcp47(v) == Ok(t)
  {
    if exists v :: v in tmp && Bcp47(v).Err? then Err("ValueError: too many values to unpack")
    else Ok(set v | v in tmp :: Bcp47(v).value)
  }

  /** `locale_variants` of a new Pool, for the names GLib reports. */
  function LocaleVariants(languageNames: seq<string>): Result<set<string>> {
    var tmp := LocaleSet(languageNames);
    Bcp47All(if tmp == {} then EnUsFallback else tmp)
  }

  lemma FallbackUnchanged()
    ensures Bcp47All(EnUsFallback) == Ok(EnUsFallback)
  {
    assert Bcp47("en-us") == Ok("en-us") && Bcp47("en") == Ok("en") && Bcp47("en_US") == Ok("en_US");
    assert Bcp47("en_us") == Ok("en_us") && Bcp47("en-US") == Ok("en-US");
    assert forall v :: v in EnUsFallback ==> Bcp47(v) == Ok(v);
    var r := Bcp47All(EnUsFallback);
    assert r.Ok?;
    assert r.value == EnUsFallback;
  }

  /**
   * The builder is never left without a locale: without any kept name the
   * fallback is used as it is, and otherwise every kept name contributes.
   */
  lemma LocaleVariantsNonEmpty(languageNames: seq<string>)
    requires LocaleVariants(languageNames).Ok?
    ensures LocaleVariants(languageNames).value != {}
    ensures (forall k :: 0 <= k < |languageNames| ==> !Accepted(languageNames[k]))
      ==> LocaleVariants(languageNames) == Ok(EnUsFallback)
  {
    var tmp := LocaleSet(languageNames);
    if tmp != {} {
      var v :| v in tmp;
      assert Bcp47(v).value in LocaleVariants(languageNames).value;
      LocaleSetFrom(languageNames, v);
    } else {
      FallbackUnchanged();
      assert "en" in EnUsFallback;
    }
  }

  /** A kept name's own spelling reaches the builder, converted. */
  lemma LocaleVariantsKeepName(languageNames: seq<string>, k: nat)
    requires k < |languageNames| && Accepted(languageNames[k])
    requires LocaleVariants(languageNames).Ok?
    ensures Bcp47(languageNames[k]).Ok? && Bcp47(languageNames[k]).value in LocaleVariants(languageNames).value
  {
    var name := languageNames[k];
    assert name in Spellings(name);
    LocaleSetHas(languageNames, k);
  }

  // ---------------------------------------------------------------------
  // Screenshots

  /** An `<image>` node: its attributes and text. */
  datatype ImageNode = ImageNode(height: Option<string>, width: Option<string>, scale: Option<string>,
                                 kind: Option<string>, text: Option<string>)

  datatype Image = Image(width: int, height: int, scale: int, url: Option<string>, isSource: bool)

  /**
   * Image's constructor. A missing height or width is a TypeError, caught,
   * leaving both sizes 0; a size that is not a number is a ValueError the
   * constructor does not catch. Any failure to read the scale leaves 1.
   */
  function ParseImage(n: ImageNode): (r: Result<Image>)
    ensures r.Err? <==> (n.height.Some? &&
      (ParseInt(n.height.value).None? || (n.width.Some? && ParseInt(n.width.value).None?)))
    ensures r.Ok? && (n.height.None? || n.width.None?) ==> r.value.width == 0 && r.value.height == 0
    ensures r.Ok? && n.height.Some? && n.width.Some? ==>
      Some(r.value.height) == ParseInt(n.height.value) && Some(r.value.width) == ParseInt(n.width.value)
    ensures r.Ok? ==> (r.value.isSource <==> n.kind == Some("source")) && r.value.url == n.text
    ensures r.Ok? && (n.scale.None? || ParseInt(n.scale.value).None?) ==> r.value.scale == 1
  {
    var scale := match n.scale case None => 1 case Some(s) => ParseInt(s).GetOr(1);
    var sizes: Result<(int, int)> :=
      match n.height
      case None => Ok((0, 0))
      case Some(h) =>
        match ParseInt(h)
        case None => Err("ValueError: invalid literal for int()")
        case Some(hv) =>
          match n.width
          case None => Ok((0, 0))
          case Some(w) =>
            match ParseInt(w)
            case None => Err("ValueError: invalid literal for int()")
            case Some(wv) => Ok((hv, wv));
    match sizes
    case Err(e) => Err(e)
    case Ok((hv, wv)) => Ok(Image(wv, hv, scale, n.text, n.kind == Some("source")))
  }

  /** make_key */
  function MakeKey(width: int, scale: int): string {
    IntToString(width) + "x" + IntToString(scale)
  }

  /** Keys of different sizes differ: neither number is written with an 'x'. */
  lemma MakeKeyInjective(w1: int, s1: int, w2: int, s2: int)
    requires MakeKey(w1, s1) == MakeKey(w2, s2)
    ensures w1 == w2 && s1 == s2
  {
    SplitAtFirst(IntToString(w1), IntToString(s1), IntToString(w2), IntToString(s2), 'x');
    IntToStringInjective(w1, w2);
    IntToStringInjective(s1, s2);
  }

  /** The images table after the constructor's loop. */
  function ImageTable(imgs: seq<Image>): Table<string, Image> {
    if |imgs| == 0 then []
    else
      var t := ImageTable(imgs[..|imgs| - 1]);
      var img := imgs[|imgs| - 1];
      if img.isSource then t else Set(t, MakeKey(img.width, img.scale), img)
  }

  /** The source image after the loop: the last one marked as source. */
  function LastSource(imgs: seq<Image>): (r: Option<Image>)
    ensures r.Some? ==> r.value in imgs && r.value.isSource
    ensures r.None? <==> forall i :: 0 <= i < |imgs| ==> !imgs[i].isSource
  {
    if |imgs| == 0 then None
    else if imgs[|imgs| - 1].isSource then Some(imgs[|imgs| - 1])
    else
      var r := LastSource(imgs[..|imgs| - 1]);
      assert forall i :: 0 <= i < |imgs| - 1 ==> imgs[..|imgs| - 1][i] == imgs[i];
      r
  }

  /** The source image kept is the last one: no later image is a source. */
  lemma {:induction false} LastSourceIsLast(imgs: seq<Image>) returns (i: nat)
    requires LastSource(imgs).Some?
    ensures i < |imgs| && imgs[i] == LastSource(imgs).value
    ensures forall j :: i < j < |imgs| ==> !imgs[j].isSource
  {
    if imgs[|imgs| - 1].isSource {
      i := |imgs| - 1;
    } else {
      var init := imgs[..|imgs| - 1];
      assert LastSource(imgs) == LastSource(init);
      i := LastSourceIsLast(init);
      assert init[i] == imgs[i];
      forall j | i < j < |imgs|
        ensures !imgs[j].isSource
      {
        if j < |init| {
          assert init[j] == imgs[j];
        }
      }
    }
  }

  /** The table holds no source image, files each image under its own key, and never repeats a key. */
  lemma {:induction false} ImageTableWellFormed(imgs: seq<Image>)
    ensures UniqueKeys(ImageTable(imgs))
    ensures forall p :: p in ImageTable(imgs) ==> !p.1.isSource && p.0 == MakeKey(p.1.width, p.1.scale) && p.1 in imgs
  {
    if |imgs| > 0 {
      var init := imgs[..|imgs| - 1];
      var img := imgs[|imgs| - 1];
      ImageTableWellFormed(init);
      assert forall x :: x in init ==> x in imgs;
      if !img.isSource {
        SetUnique(ImageTable(init), MakeKey(img.width, img.scale), img);
        SetMembers(ImageTable(init), MakeKey(img.width, img.scale), img);
      }
    }
  }

  /** The last non-source image of a width and scale, the one a dict keeps under their key. */
  function LastSized(imgs: seq<Image>, width: int, scale: int): Option<Image> {
    if |imgs| == 0 then None
    else
      var img := imgs[|imgs| - 1];
      if !img.isSource && img.width == width && img.scale == scale then Some(img)
      else LastSized(imgs[..|imgs| - 1], width, scale)
  }

  /** Looking a key up in the table finds the last non-source image of that width and scale. */
  lemma {:induction false} ImageTableLookup(imgs: seq<Image>, width: int, scale: int)
    ensures Get(ImageTable(imgs), MakeKey(width, scale)) == LastSized(imgs, width, scale)
  {
    if |imgs| > 0 {
      var init := imgs[..|imgs| - 1];
      var img := imgs[|imgs| - 1];
      var key := MakeKey(width, scale);
      var t := ImageTable(init);
      ImageTableLookup(init, width, scale);
      if !img.isSource {
        var k := MakeKey(img.width, img.scale);
        if img.width == width && img.scale == scale {
          GetSet(t, k, img);
        } else {
          if k == key {
            MakeKeyInjective(img.width, img.scale, width, scale);
          }
          GetSetOther(t, k, img, key);
        }
      }
    }
  }

  function Abs(x: int): nat {
    if x < 0 then -x else x
  }

  /** The initial `closest_diff`; a width farther than this is never chosen. */
  const NoDiff: int := 999999

  /** `closest` and `closest_diff` after the loop of _get_closest_image. */
  function ClosestScan(t: Table<string, Image>, width: int): (Option<Image>, int) {
    if |t| == 0 then (None, NoDiff)
    else
      var (c, d) := ClosestScan(t[..|t| - 1], width);
      var img := t[|t| - 1].1;
      if Abs(img.width - width) < d then (Some(img), Abs(img.width - width)) else (c, d)
  }

  /**
   * Entry `k` differs from `width` by `d`, below the initial bound; every
   * earlier entry differs by more and no entry by less.
   */
  predicate FirstClosest(t: Table<string, Image>, width: int, k: int, d: int) {
    0 <= k < |t| && d == Abs(t[k].1.width - width) < NoDiff
    && (forall j :: 0 <= j < k ==> Abs(t[j].1.width - width) > d)
    && (forall j :: 0 <= j < |t| ==> Abs(t[j].1.width - width) >= d)
  }

  /** The scan finds nothing, and keeps the initial bound, exactly when no width is within the bound. */
  lemma {:induction false} ClosestScanNone(t: Table<string, Image>, width: int)
    ensures ClosestScan(t, width).0.None? <==> forall i :: 0 <= i < |t| ==> Abs(t[i].1.width - width) >= NoDiff
    ensures ClosestScan(t, width).0.None? ==> ClosestScan(t, width).1 == NoDiff
    ensures ClosestScan(t, width).1 <= NoDiff
  {
    if |t| > 0 {
      var init := t[..|t| - 1];
      ClosestScanNone(init, width);
      assert forall i :: 0 <= i < |init| ==> init[i] == t[i];
    }
  }

  /** The position ClosestScan takes its image from, found by the same scan. */
  function ClosestIndex(t: Table<string, Image>, width: int): (r: Option<nat>)
    ensures r.Some? ==> r.value < |t|
  {
    if |t| == 0 then None
    else if Abs(t[|t| - 1].1.width - width) < ClosestScan(t[..|t| - 1], width).1 then Some(|t| - 1)
    else ClosestIndex(t[..|t| - 1], width)
  }

  /** No entry differs from `width` by less than the difference the scan ends with. */
  lemma {:induction false} ClosestScanBound(t: Table<string, Image>, width: int)
    ensures forall j :: 0 <= j < |t| ==> Abs(t[j].1.width - width) >= ClosestScan(t, width).1
  {
    if |t| > 0 {
      var init := t[..|t| - 1];
      ClosestScanBound(init, width);
      assert forall i :: 0 <= i < |init| ==> init[i] == t[i];
    }
  }

  /** When the last entry beats the scan of the others, it is the first closest one. */
  lemma ClosestLastWins(t: Table<string, Image>, width: int)
    requires |t| > 0
    requires Abs(t[|t| - 1].1.width - width) < ClosestScan(t[..|t| - 1], width).1
    ensures FirstClosest(t, width, |t| - 1, Abs(t[|t| - 1].1.width - width))
  {
    var init := t[..|t| - 1];
    ClosestScanBound(init, width);
    ClosestScanNone(init, width);
    assert forall i :: 0 <= i < |init| ==> init[i] == t[i];
  }

  /** When the last entry does not beat the scan of the others, the earlier choice stands. */
  lemma ClosestEarlierStays(t: Table<string, Image>, width: int, k: int)
    requires |t| > 0
    requires Abs(t[|t| - 1].1.width - width) >= ClosestScan(t[..|t| - 1], width).1
    requires FirstClosest(t[..|t| - 1], width, k, ClosestScan(t[..|t| - 1], width).1)
    ensures FirstClosest(t, width, k, ClosestScan(t[..|t| - 1], width).1)
  {
    var init := t[..|t| - 1];
    assert forall i :: 0 <= i < |init| ==> init[i] == t[i];
  }

  /** The scan's image sits at ClosestIndex, which is the first entry of least difference below the bound. */
  lemma {:induction false} ClosestIndexMeaning(t: Table<string, Image>, width: int)
    ensures ClosestScan(t, width).0.None? <==> ClosestIndex(t, width).None?
    ensures ClosestIndex(t, width).Some? ==>
      var k := ClosestIndex(t, width).value;
      FirstClosest(t, width, k, ClosestScan(t, width).1) && t[k].1 == ClosestScan(t, width).0.value
  {
    if |t| > 0 {
      var init := t[..|t| - 1];
      ClosestIndexMeaning(init, width);
      var d := ClosestScan(init, width).1;
      if Abs(t[|t| - 1].1.width - width) < d {
        ClosestLastWins(t, width);
      } else if ClosestIndex(init, width).Some? {
        var k := ClosestIndex(init, width).value;
        ClosestEarlierStays(t, width, k);
        assert t[k] == init[k];
      }
    }
  }

  /**
   * The scan picks the first image of least width difference, provided that
   * difference is below the initial bound.
   */
  lemma ClosestScanMeaning(t: Table<string, Image>, width: int)
    ensures ClosestScan(t, width).0.Some? ==>
      exists k :: FirstClosest(t, width, k, ClosestScan(t, width).1) && t[k].1 == ClosestScan(t, width).0.value
  {
    ClosestIndexMeaning(t, width);
    if ClosestScan(t, width).0.Some? {
      var k := ClosestIndex(t, width).value;
      assert FirstClosest(t, width, k, ClosestScan(t, width).1);
    }
  }

  /** Screenshot: a caption, the sized images by key and the source image. */
  class Screenshot {
    var caption: Option<string>
    var images: Table<string, Image>
    var sourceImage: Option<Image>

    /**
     * The constructor over the images already read from the node's
     * `<image>` children (ParseImage gives each).
     */
    constructor (caption: Option<string>, imgs: seq<Image>)
      ensures this.caption == caption
      ensures images == ImageTable(imgs) && sourceImage == LastSource(imgs)
    {
      this.caption := caption;
      var table: Table<string, Image> := [];
      var source: Option<Image> := None;
      var i := 0;
      while i < |imgs|
        invariant 0 <= i <= |imgs|
        invariant table == ImageTable(imgs[..i]) && source == LastSource(imgs[..i])
      {
        assert imgs[..i + 1][..i] == imgs[..i];
        var img := imgs[i];
        if img.isSource {
          source := Some(img);
        } else {
          var key := MakeKey(img.width, img.scale);
          table := Set(table, key, img);
        }
        i := i + 1;
      }
      assert imgs[..|imgs|] == imgs;
      images := table;
      sourceImage := source;
    }

    /** _get_closest_image: the running minimum, then the source image when nothing was close. */
    method GetClosestImage(width: int, height: int, scale: int) returns (r: Option<Image>)
      ensures var c := ClosestScan(images, width).0; r == if c.Some? then c else sourceImage
    {
      var closest: Option<Image> := None;
      var closestDiff := NoDiff;
      var i := 0;
      while i < |images|
        invariant 0 <= i <= |images|
        invariant (closest, closestDiff) == ClosestScan(images[..i], width)
      {
        assert images[..i + 1][..i] == images[..i];
        var img := images[i].1;
        var wDiff := Abs(img.width - width);
        if wDiff < closestDiff {
          closest := Some(img);
          closestDiff := wDiff;
        }
        i := i + 1;
      }
      assert images[..|images|] == images;
      r := if closest.Some? then closest else sourceImage;
    }

    /** get_image: the image filed under the exact key, else the closest one. */
    method GetImage(width: int, height: int, scale: int) returns (r: Option<Image>)
      ensures Get(images, MakeKey(width, scale)).Some? ==> r == Get(images, MakeKey(width, scale))
      ensures Get(images, MakeKey(width, scale)).None? ==>
        var c := ClosestScan(images, width).0; r == if c.Some? then c else sourceImage
    {
      var key := MakeKey(width, scale);
      var found := Get(images, key);
      if found.Some? {
        return found;
      }
      r := GetClosestImage(width, height, scale);
    }
  }

  /**
   * For a screenshot built from `imgs`, get_image returns the last sized
   * image of exactly that width and scale when there is one; otherwise the
   * first sized image of least width difference below the bound, otherwise
   * the source image.
   */
  lemma GetImageMeaning(imgs: seq<Image>, width: int, scale: int)
    ensures var t := ImageTable(imgs);
      Get(t, MakeKey(width, scale)) == LastSized(imgs, width, scale)
      && (forall p :: p in t ==> !p.1.isSource && p.1 in imgs)
      && (ClosestScan(t, width).0.Some? ==> ClosestScan(t, width).0.value in imgs)
  {
    ImageTableLookup(imgs, width, scale);
    ImageTableWellFormed(imgs);
    var t := ImageTable(imgs);
    ClosestIndexMeaning(t, width);
    if ClosestScan(t, width).0.Some? {
      var k := ClosestIndex(t, width).value;
      assert t[k] in t;
    }
  }

  // ---------------------------------------------------------------------
  // Components

  /** A `<release>`: its timestamp and version attributes. */
  datatype ReleaseNode = ReleaseNode(timestamp: Option<string>, version: Option<string>)

  /** An `<icon>`: its height and type attributes and its text. */
  datatype IconNode = IconNode(height: Option<string>, kind: Option<string>, text: Option<string>)

  /**
   * What the queries on a `<component>` node return: the name text, the
   * `<release>` children of `<releases>` (None without that node; an empty
   * sequence for a `<releases>` node without children, which Xmlb's query
   * reports by raising), and the `<icon>` children (None when the query
   * raises, as Xmlb does for no match).
   */
  datatype ComponentNode = ComponentNode(nameText: Option<string>, releases: Option<seq<ReleaseNode>>,
                                         icons: Option<seq<IconNode>>)

  /** appstream_pool.Package: the package name, the remote's appstream directory, the node. */
  datatype AsPackage = AsPackage(name: string, appstreamDir: string, node: ComponentNode)

  /** get_display_name: the `<name>` text, or the package's own name without one. */
  function DisplayName(p: AsPackage): (r: string)
    ensures p.node.nameText.None? ==> r == p.name
    ensures p.node.nameText.Some? ==> r == p.node.nameText.value
  {
    match p.node.nameText
    case Some(n) => n
    case None => p.name
  }

  /** `int(release.get_attr("timestamp"))`: a TypeError without the attribute, a ValueError for a non-number. */
  function Timestamp(r: ReleaseNode): Result<int> {
    match r.timestamp
    case None => Err("TypeError: int() argument must be a string")
    case Some(t) =>
      match ParseInt(t)
      case None => Err("ValueError: invalid literal for int()")
      case Some(v) => Ok(v)
  }

  /** `(newest_timestamp, newest_version)` after the loop of get_version, or the first exception. */
  function NewestScan(rs: seq<ReleaseNode>): Result<(int, Option<string>)> {
    if |rs| == 0 then Ok((0, None))
    else
      match NewestScan(rs[..|rs| - 1])
      case Err(e) => Err(e)
      case Ok((t, v)) =>
        match Timestamp(rs[|rs| - 1])
        case Err(e) => Err(e)
        case Ok(ts) => if ts > t then Ok((ts, rs[|rs| - 1].version)) else Ok((t, v))
  }

  /**
   * get_version keeps the version of the first release with the greatest
   * positive timestamp, keeps None when no timestamp is positive, and raises
   * exactly when some timestamp does not read as a number.
   */
  lemma {:induction false} NewestScanMeaning(rs: seq<ReleaseNode>)
    ensures NewestScan(rs).Ok? <==> forall i :: 0 <= i < |rs| ==> Timestamp(rs[i]).Ok?
    ensures NewestScan(rs).Ok? ==> var (t, v) := NewestScan(rs).value;
      ((forall i :: 0 <= i < |rs| ==> Timestamp(rs[i]).value <= 0) ==> t == 0 && v.None?)
      && (t > 0 ==> exists k :: (0 <= k < |rs| && Timestamp(rs[k]).value == t && rs[k].version == v
            && (forall j :: 0 <= j < k ==> Timestamp(rs[j]).value < t)))
      && (forall i :: 0 <= i < |rs| ==> Timestamp(rs[i]).value <= t)
      && t >= 0
  {
    if |rs| > 0 {
      var init := rs[..|rs| - 1];
      NewestScanMeaning(init);
      assert forall i :: 0 <= i < |init| ==> init[i] == rs[i];
      if NewestScan(init).Ok? && Timestamp(rs[|rs| - 1]).Ok? {
        var (t, v) := NewestScan(init).value;
        var ts := Timestamp(rs[|rs| - 1]).value;
        if ts <= t && t > 0 {
          var k :| 0 <= k < |init| && Timestamp(init[k]).value == t && init[k].version == v
            && (forall j :: 0 <= j < k ==> Timestamp(init[j]).value < t);
          assert rs[k] == init[k];
        }
      }
    }
  }

  /**
   * get_version: None without a `<releases>` node, an error when that node has no
   * `<release>` child (the query raises), else the running maximum over its releases.
   */
  method GetVersion(p: AsPackage) returns (r: Result<Option<string>>)
    ensures p.node.releases.None? ==> r == Ok(None)
    ensures p.node.releases == Some([]) ==> r.Err?
    ensures p.node.releases.Some? && |p.node.releases.value| > 0 ==>
      r == match NewestScan(p.node.releases.value) case Err(e) => Err(e) case Ok((_, v)) => Ok(v)
  {
    if p.node.releases.None? {
      return Ok(None);
    }
    var releases := p.node.releases.value;
    if |releases| == 0 {
      return Err("GLib.Error: no results for XPath query");
    }
    var newestTimestamp := 0;
    var newestVersion: Option<string> := None;
    var i := 0;
    while i < |releases|
      invariant 0 <= i <= |releases|
      invariant NewestScan(releases[..i]) == Ok((newestTimestamp, newestVersion))
    {
      assert releases[..i + 1][..i] == releases[..i];
      var timestamp := Timestamp(releases[i]);
      if timestamp.Err? {
        NewestScanFails(releases, i + 1);
        return Err(timestamp.reason);
      }
      if timestamp.value > newestTimestamp {
        newestTimestamp := timestamp.value;
        newestVersion := releases[i].version;
      }
      i := i + 1;
    }
    assert releases[..|releases|] == releases;
    r := Ok(newestVersion);
  }

  /** Once a prefix of the releases raises, the whole scan raises the same way. */
  lemma {:induction false} NewestScanFails(rs: seq<ReleaseNode>, n: nat)
    requires n <= |rs| && NewestScan(rs[..n]).Err?
    ensures NewestScan(rs) == NewestScan(rs[..n])
    decreases |rs| - n
  {
    if n < |rs| {
      assert rs[..n + 1][..n] == rs[..n];
      NewestScanFails(rs, n + 1);
    } else {
      assert rs[..n] == rs;
    }
  }

  // ---------------------------------------------------------------------
  // Icons

  /** get_height, the sort key: the height attribute as a number, 999 without one. */
  function HeightKey(icon: IconNode): Result<int> {
    match icon.height
    case None => Ok(999)
    case Some(h) =>
      match ParseInt(h)
      case None => Err("ValueError: invalid literal for int()")
      case Some(v) => Ok(v)
  }

  type Keyed = seq<(int, IconNode)>

  /** The keys `sorted` computes first; the first that raises aborts the sort. */
  function KeyIcons(icons: seq<IconNode>): (r: Result<Keyed>)
    ensures r.Ok? <==> forall i :: 0 <= i < |icons| ==> HeightKey(icons[i]).Ok?
    ensures r.Ok? ==> (|r.value| == |icons|
      && forall i :: 0 <= i < |icons| ==> r.value[i] == (HeightKey(icons[i]).value, icons[i]))
  {
    if |icons| == 0 then Ok([])
    else
      match HeightKey(icons[0])
      case Err(e) => Err(e)
      case Ok(k) =>
        match KeyIcons(icons[1..])
        case Err(e) =>
          assert forall i :: 1 <= i < |icons| ==> icons[i] == icons[1..][i - 1];
          Err(e)
        case Ok(rest) =>
          assert forall i :: 1 <= i < |icons| ==> icons[i] == icons[1..][i - 1];
          Ok([(k, icons[0])] + rest)
  }

  predicate SortedByKey(s: Keyed) {
    forall i, j :: 0 <= i < j < |s| ==> s[i].0 <= s[j].0
  }

  /** Insertion before the first element whose key is not smaller, which keeps equal keys in order. */
  function InsertByKey(x: (int, IconNode), s: Keyed): (r: Keyed)
    ensures multiset(r) == multiset(s) + multiset{x}
  {
    if |s| == 0 || x.0 <= s[0].0 then [x] + s
    else
      assert s == [s[0]] + s[1..];
      [s[0]] + InsertByKey(x, s[1..])
  }

  /** Inserting into a sorted list keeps it sorted. */
  lemma {:induction false} InsertByKeySorted(x: (int, IconNode), s: Keyed)
    requires SortedByKey(s)
    ensures SortedByKey(InsertByKey(x, s))
  {
    var r := InsertByKey(x, s);
    if |s| == 0 || x.0 <= s[0].0 {
      assert forall j :: 0 < j < |r| ==> r[j] == s[j - 1];
    } else {
      var rest := InsertByKey(x, s[1..]);
      InsertByKeySorted(x, s[1..]);
      forall y | y in rest ensures y == x || y in s[1..] {
        assert y in multiset(rest);
      }
      HeadKeyBelow(x, s, rest);
      assert forall j :: 0 < j < |r| ==> r[j] == rest[j - 1];
    }
  }

  /** What is inserted behind the head of a sorted list keeps keys no smaller than the head's. */
  lemma HeadKeyBelow(x: (int, IconNode), s: Keyed, rest: Keyed)
    requires |s| > 0 && SortedByKey(s) && s[0].0 < x.0
    requires forall y :: y in rest ==> y == x || y in s[1..]
    ensures forall j :: 0 <= j < |rest| ==> s[0].0 <= rest[j].0
  {
    forall j | 0 <= j < |rest| ensures s[0].0 <= rest[j].0 {
      assert rest[j] in rest;
      if rest[j] != x {
        var i :| 0 <= i < |s[1..]| && s[1..][i] == rest[j];
        assert s[i + 1] == rest[j];
      }
    }
  }

  /** Python's `sorted(..., key=get_height)`, a stable sort by the key. */
  function SortByKey(s: Keyed): (r: Keyed)
    ensures multiset(r) == multiset(s)
    ensures SortedByKey(r)
  {
    if |s| == 0 then []
    else
      assert s == [s[0]] + s[1..];
      InsertByKeySorted(s[0], SortByKey(s[1..]));
      InsertByKey(s[0], SortByKey(s[1..]))
  }

  /** The running candidates of get_icon's loop. */
  datatype IconState = IconState(theme: Option<string>, local: Option<string>, remote: Option<string>,
                                 toUse: Option<string>)

  /** `a or b or c` */
  function FirstTruthy(a: Option<string>, b: Option<string>, c: Option<string>): (r: Option<string>)
    ensures Truthy(r) <==> Truthy(a) || Truthy(b) || Truthy(c)
    ensures r == a || r == b || r == c
  {
    if Truthy(a) then a else if Truthy(b) then b else c
  }

  /** `test_height`: the height attribute as written, else 64, as a string and as the number compared with the size. */
  function TestHeightText(icon: IconNode): string {
    match icon.height case Some(h) => h case None => "64"
  }

  function TestHeight(key: int, icon: IconNode): int {
    if icon.height.Some? then key else 64
  }

  /** Where a cached icon of a theme size lies in the remote's appstream directory. */
  function ThemeIconPath(dir: string, icon: IconNode, text: string): string {
    dir + "/icons/" + TestHeightText(icon) + "x" + TestHeightText(icon) + "/" + text
  }

  /**
   * One icon's effect on the candidates. A cached or local icon without
   * text makes `startswith` raise AttributeError.
   */
  function IconStep(st: IconState, icon: IconNode, dir: string, existing: set<string>): (r: Result<IconState>)
    ensures r.Ok? ==> r.value.toUse == FirstTruthy(r.value.theme, r.value.local, r.value.remote)
  {
    var next: Result<IconState> :=
      if icon.kind == Some("remote") then Ok(st.(remote := icon.text))
      else if icon.kind == Some("cached") || icon.kind == Some("local") then
        match icon.text
        case None => Err("AttributeError: 'NoneType' object has no attribute 'startswith'")
        case Some(text) =>
          if StartsWith(text, "/") then
            Ok(if text in existing then st.(local := Some(text)) else st)
          else
            var path := ThemeIconPath(dir, icon, text);
            Ok(if path in existing then st.(theme := Some(path)) else st)
      else if icon.kind == Some("stock") then Ok(st.(theme := icon.text))
      else Ok(st);
    match next
    case Err(e) => Err(e)
    case Ok(s) => Ok(s.(toUse := FirstTruthy(s.theme, s.local, s.remote)))
  }

  /** The rest of get_icon's loop from state `st`: a large enough usable icon returns at once. */
  function IconWalk(icons: Keyed, size: int, dir: string, existing: set<string>, name: string, st: IconState)
    : Result<string>
  {
    if |icons| == 0 then Ok(if Truthy(st.toUse) then st.toUse.value else name)
    else
      match IconStep(st, icons[0].1, dir, existing)
      case Err(e) => Err(e)
      case Ok(st') =>
        if Truthy(st'.toUse) && TestHeight(icons[0].0, icons[0].1) >= size then Ok(st'.toUse.value)
        else IconWalk(icons[1..], size, dir, existing, name, st')
  }

  const NoIcon: IconState := IconState(None, None, None, None)

  /** get_icon, with `existing` the paths for which os.path.exists holds. */
  function Icon(p: AsPackage, size: int, existing: set<string>): Result<Option<string>> {
    match p.node.icons
    case None => Ok(None)
    case Some(icons) =>
      match KeyIcons(icons)
      case Err(e) => Err(e)
      case Ok(keyed) =>
        match IconWalk(SortByKey(keyed), size, p.appstreamDir, existing, p.name, NoIcon)
        case Err(e) => Err(e)
        case Ok(icon) => Ok(Some(icon))
  }

  /** get_icon's loop over the icons sorted by height. */
  method GetIcon(p: AsPackage, size: int, existing: set<string>) returns (r: Result<Option<string>>)
    ensures r == Icon(p, size, existing)
  {
    if p.node.icons.None? {
      return Ok(None);
    }
    var keyed := KeyIcons(p.node.icons.value);
    if keyed.Err? {
      return Err(keyed.reason);
    }
    var icons := SortByKey(keyed.value);
    var st := NoIcon;
    var i := 0;
    while i < |icons|
      invariant 0 <= i <= |icons|
      invariant IconWalk(icons, size, p.appstreamDir, existing, p.name, NoIcon)
        == IconWalk(icons[i..], size, p.appstreamDir, existing, p.name, st)
    {
      var next := IconStep(st, icons[i].1, p.appstreamDir, existing);
      if next.Err? {
        return Err(next.reason);
      }
      st := next.value;
      if Truthy(st.toUse) && TestHeight(icons[i].0, icons[i].1) >= size {
        return Ok(Some(st.toUse.value));
      }
      assert icons[i..][1..] == icons[i + 1..];
      i := i + 1;
    }
    r := Ok(Some(if Truthy(st.toUse) then st.toUse.value else p.name));
  }

  /** What an icon can contribute to the candidates: its own text, or the theme path built from it. */
  predicate FromIcon(x: string, icon: IconNode, dir: string) {
    icon.text == Some(x) || (icon.text.Some? && x == ThemeIconPath(dir, icon, icon.text.value))
  }

  predicate StateFrom(st: IconState, icons: Keyed, dir: string) {
    forall o :: o in {st.theme, st.local, st.remote, st.toUse} && o.Some? ==>
      exists i :: 0 <= i < |icons| && FromIcon(o.value, icons[i].1, dir)
  }

  lemma IconStepFrom(st: IconState, icons: Keyed, dir: string, existing: set<string>, prior: Keyed)
    requires |icons| > 0 && StateFrom(st, prior, dir)
    requires IconStep(st, icons[0].1, dir, existing).Ok?
    ensures StateFrom(IconStep(st, icons[0].1, dir, existing).value, prior + icons[..1], dir)
  {
    var all := prior + icons[..1];
    assert all[|prior|] == icons[0];
    forall i | 0 <= i < |prior| ensures all[i] == prior[i] { }
  }

  /**
   * get_icon returns the package's name or a name an icon offered: a
   * remote or stock icon's text, an existing local path, or the theme path
   * built from a cached icon, and never a falsy value.
   */
  lemma {:induction false} IconWalkFrom(icons: Keyed, size: int, dir: string, existing: set<string>, name: string,
                                        st: IconState, prior: Keyed)
    requires StateFrom(st, prior, dir)
    requires IconWalk(icons, size, dir, existing, name, st).Ok?
    ensures var r := IconWalk(icons, size, dir, existing, name, st).value;
      r == name || (r != "" && exists i :: 0 <= i < |prior + icons| && FromIcon(r, (prior + icons)[i].1, dir))
    decreases |icons|
  {
    var r := IconWalk(icons, size, dir, existing, name, st).value;
    if |icons| == 0 {
      assert prior + icons == prior;
      if Truthy(st.toUse) {
        assert st.toUse in {st.theme, st.local, st.remote, st.toUse};
      }
    } else {
      var st' := IconStep(st, icons[0].1, dir, existing).value;
      IconStepFrom(st, icons, dir, existing, prior);
      var prior' := prior + icons[..1];
      assert prior' + icons[1..] == prior + icons;
      if Truthy(st'.toUse) && TestHeight(icons[0].0, icons[0].1) >= size {
        assert st'.toUse in {st'.theme, st'.local, st'.remote, st'.toUse};
        var i :| 0 <= i < |prior'| && FromIcon(r, prior'[i].1, dir);
        assert (prior + icons)[i] == prior'[i];
      } else {
        IconWalkFrom(icons[1..], size, dir, existing, name, st', prior');
      }
    }
  }

  lemma IconFromIcons(p: AsPackage, size: int, existing: set<string>)
    requires Icon(p, size, existing).Ok? && p.node.icons.Some?
    ensures var r := Icon(p, size, existing).value;
      r.Some? && (r.value == p.name || (r.value != "" && exists i :: (0 <= i < |p.node.icons.value|
        && FromIcon(r.value, p.node.icons.value[i], p.appstreamDir))))
  {
    var ns := p.node.icons.value;
    var keyed := KeyIcons(ns).value;
    var sorted := SortByKey(keyed);
    var walk := IconWalk(sorted, size, p.appstreamDir, existing, p.name, NoIcon);
    assert Icon(p, size, existing) == Ok(Some(walk.value));
    assert StateFrom(NoIcon, [], p.appstreamDir);
    IconWalkFrom(sorted, size, p.appstreamDir, existing, p.name, NoIcon, []);
    assert [] + sorted == sorted;
    var r := walk.value;
    if r != p.name {
      var i :| 0 <= i < |sorted| && FromIcon(r, sorted[i].1, p.appstreamDir);
      SortedMember(keyed, sorted[i]);
      var j :| 0 <= j < |keyed| && keyed[j] == sorted[i];
      assert keyed[j].1 == ns[j];
      assert 0 <= j < |ns| && FromIcon(r, ns[j], p.appstreamDir);
    }
  }

  lemma SortedMember(keyed: Keyed, y: (int, IconNode))
    requires y in SortByKey(keyed)
    ensures exists j :: 0 <= j < |keyed| && keyed[j] == y
  {
    assert y in multiset(SortByKey(keyed));
    assert y in multiset(keyed);
  }

  /** Without any usable icon the package's name is the answer. */
  lemma {:induction false} IconWalkNothingUsable(icons: Keyed, size: int, dir: string, existing: set<string>,
                                                 name: string)
    requires forall i :: 0 <= i < |icons| ==> icons[i].1.kind.None?
    ensures IconWalk(icons, size, dir, existing, name, NoIcon) == Ok(name)
  {
    if |icons| > 0 {
      assert IconStep(NoIcon, icons[0].1, dir, existing) == Ok(NoIcon);
      IconWalkNothingUsable(icons[1..], size, dir, existing, name);
    }
  }

  // ---------------------------------------------------------------------
  // The pool's memo of components

  /** What the search for a runtime's component sees of a node: whether the bundle query raised, and the bundle text. */
  datatype BundleNode = NoBundle | Bundle(text: Option<string>)

  /**
   * The runtime search: the first node whose flatpak bundle text is the
   * ref. A node without a bundle makes `query_first` raise GLib.Error, which
   * ends the whole search with nothing.
   */
  function FindByBundle(nodes: seq<(ComponentNode, BundleNode)>, refid: string): (r: Option<ComponentNode>)
    ensures r.Some? ==> exists k :: (0 <= k < |nodes| && nodes[k] == (r.value, Bundle(Some(refid)))
      && forall j :: 0 <= j < k ==> nodes[j].1.Bundle? && nodes[j].1.text != Some(refid))
    ensures r.None? ==> forall k :: 0 <= k < |nodes| && nodes[k].1 == Bundle(Some(refid)) ==>
      exists j :: 0 <= j < k && nodes[j].1.NoBundle?
  {
    if |nodes| == 0 then None
    else if nodes[0].1.NoBundle? then None
    else if nodes[0].1.text == Some(refid) then Some(nodes[0].0)
    else
      var r := FindByBundle(nodes[1..], refid);
      assert forall k :: 1 <= k < |nodes| ==> nodes[k] == nodes[1..][k - 1];
      if r.Some? then
        var k :| 0 <= k < |nodes[1..]| && nodes[1..][k] == (r.value, Bundle(Some(refid)))
          && forall j :: 0 <= j < k ==> nodes[1..][j].1.Bundle? && nodes[1..][j].1.text != Some(refid);
        assert nodes[k + 1] == (r.value, Bundle(Some(refid)));
        r
      else r
  }

  /**
   * The silo queries as the lookup sees them. An application is looked up
   * by id, then, when that query raises, by id with ".desktop"; a runtime
   * by id prefix, the candidate nodes being None when the query raises.
   */
  datatype SiloAnswer =
    | AppAnswer(byId: Option<ComponentNode>, byDesktopId: Option<ComponentNode>)
    | RuntimeAnswer(candidates: Option<seq<(ComponentNode, BundleNode)>>)

  /** The base node the lookup settles on, or None. */
  function BaseNode(kind: int, refid: string, answer: SiloAnswer): Option<ComponentNode> {
    if kind == KindApp then
      match answer
      case AppAnswer(byId, byDesktopId) => if byId.Some? then byId else byDesktopId
      case RuntimeAnswer(_) => None
    else
      match answer
      case RuntimeAnswer(Some(nodes)) => FindByBundle(nodes, refid)
      case _ => None
  }

  class Pool {
    var appstreamDir: string
    var localeVariants: set<string>
    var siloLoaded: bool
    var packages: map<string, AsPackage>

    /** A pool whose locale list is already worked out (LocaleVariants) and whose silo did or did not load. */
    constructor (appstreamDir: string, localeVariants: set<string>, siloLoaded: bool)
      ensures this.appstreamDir == appstreamDir && this.localeVariants == localeVariants
      ensures this.siloLoaded == siloLoaded && packages == map[]
    {
      this.appstreamDir := appstreamDir;
      this.localeVariants := localeVariants;
      this.siloLoaded := siloLoaded;
      packages := map[];
    }

    /**
     * lookup_appstream_package: without a silo nothing; a package already
     * found for the hash is returned as it is; otherwise the base node the
     * silo gives becomes a package under the pkginfo's name, remembered for
     * the hash.
     */
    method LookupPackage(pkgHash: string, name: string, kind: int, refid: string, answer: SiloAnswer)
      returns (r: Option<AsPackage>)
      modifies this
      ensures appstreamDir == old(appstreamDir) && localeVariants == old(localeVariants) && siloLoaded == old(siloLoaded)
      ensures !siloLoaded ==> r.None? && packages == old(packages)
      ensures siloLoaded && pkgHash in old(packages) ==> r == Some(old(packages)[pkgHash]) && packages == old(packages)
      ensures siloLoaded && pkgHash !in old(packages) ==>
        var base := BaseNode(kind, refid, answer);
        r == (if base.Some? then Some(AsPackage(name, appstreamDir, base.value)) else None)
        && packages == if r.Some? then old(packages)[pkgHash := r.value] else old(packages)
    {
      if !siloLoaded {
        return None;
      }
      if pkgHash in packages {
        return Some(packages[pkgHash]);
      }
      var base := BaseNode(kind, refid, answer);
      r := None;
      if base.Some? {
        r := Some(AsPackage(name, appstreamDir, base.value));
      }
      if r.Some? {
        packages := packages[pkgHash := r.value];
      }
    }
  }
}
