/**
 * The slice of gettext and of the locale directory tree that the desktop-entry
 * generators look at: one entry of `os.listdir(path)`, whether it is a
 * directory, whether it holds `LC_MESSAGES/<domain>.mo`, and the catalog
 * `gettext.translation` loads from it (None where that call raises).
 */
module Gettext {
  import opened Wrappers

  datatype LocaleDir = LocaleDir(
    name: string,
    isDir: bool,
    hasMo: bool,
    catalog: Option<map<string, string>>)

  /** `translation.gettext(msg)`: the catalog's entry, or `msg` itself when it has none. */
  function GetText(catalog: map<string, string>, msg: string): (r: string)
    ensures r != msg ==> msg in catalog && r == catalog[msg]
  {
    if msg in catalog then catalog[msg] else msg
  }

  /** The translation of `msg` in this locale when loading succeeds and it differs from `msg`. */
  function Differing(d: LocaleDir, msg: string): (r: Option<string>)
    ensures r.Some? <==> d.catalog.Some? && msg in d.catalog.value && d.catalog.value[msg] != msg
    ensures r.Some? ==> r.value == d.catalog.value[msg]
  {
    match d.catalog
    case None => None
    case Some(cat) =>
      var t := GetText(cat, msg);
      if t != msg then Some(t) else None
  }
}
