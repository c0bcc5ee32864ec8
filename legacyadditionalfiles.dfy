/**
 * The older desktop-entry generator shipped in `/usr/lib/linuxmint/common`.
 * Unlike the `mintcommon` one it always writes a Comment block, has no
 * Keywords block, and writes a localized line for every sub-directory of the
 * locale tree whose catalog loads and changes the text, whether or not it
 * holds a `.mo` file for the domain.
 */
module LegacyAdditionalFiles {
  import opened Wrappers
  import opened Strings
  import opened Gettext
  import AF = AdditionalFiles

  /** The translation written for a locale entry: only for directories, and only when the text changes. */
  function Translated(d: LocaleDir, msg: string): Option<string> {
    if d.isDir then Differing(d, msg) else None
  }

  function LocalizedLines(dirs: seq<LocaleDir>, key: string, msg: string): seq<string>
  {
    if |dirs| == 0 then []
    else
      var d := dirs[|dirs| - 1];
      LocalizedLines(dirs[..|dirs| - 1], key, msg)
        + (match Translated(d, msg) case None => [] case Some(t) => [AF.LocalizedEntry(key, d.name, t)])
  }

  method WriteLocalized(dirs: seq<LocaleDir>, key: string, msg: string) returns (lines: seq<string>)
    ensures lines == LocalizedLines(dirs, key, msg)
  {
    lines := [];
    var i := 0;
    while i < |dirs|
      invariant 0 <= i <= |dirs|
      invariant lines == LocalizedLines(dirs[..i], key, msg)
    {
      assert dirs[..i + 1][..i] == dirs[..i];
      var d := dirs[i];
      if d.isDir {
        match d.catalog {
          case Some(cat) =>
            var t := GetText(cat, msg);
            if t != msg {
              lines := lines + [AF.LocalizedEntry(key, d.name, t)];
            }
          case None =>
        }
      }
      i := i + 1;
    }
    assert dirs[..|dirs|] == dirs;
  }

  /** Localized lines are written for every directory whose catalog changes the text, .mo file or not. */
  lemma {:induction false} LocalizedLinesIff(dirs: seq<LocaleDir>, key: string, msg: string, line: string)
    ensures line in LocalizedLines(dirs, key, msg) <==>
      exists i :: 0 <= i < |dirs| && dirs[i].isDir && Differing(dirs[i], msg).Some?
        && line == AF.LocalizedEntry(key, dirs[i].name, Differing(dirs[i], msg).value)
  {
    if |dirs| > 0 {
      var init := dirs[..|dirs| - 1];
      LocalizedLinesIff(init, key, msg, line);
      assert forall i :: 0 <= i < |init| ==> init[i] == dirs[i];
    }
  }

  function Block(key: string, msg: string, dirs: seq<LocaleDir>): seq<string> {
    [AF.Entry(key, msg)] + LocalizedLines(dirs, key, msg)
  }

  /** The lines `generate` writes between prefix and suffix. */
  function DesktopLines(name: string, comment: string, genericName: Option<string>, dirs: seq<LocaleDir>): seq<string>
  {
    Block("Name", name, dirs) + Block("Comment", comment, dirs)
    + (match genericName case None => [] case Some(g) => Block("GenericName", g, dirs))
  }

  /** generate: `dirs` is `sorted(os.listdir(path))` with what the file system says of each entry. */
  method Generate(prefix: string, name: string, comment: string, suffix: string,
                  genericName: Option<string>, dirs: seq<LocaleDir>)
    returns (written: seq<string>)
    ensures written == [prefix] + DesktopLines(name, comment, genericName, dirs) + [suffix]
  {
    var nameLines := WriteLocalized(dirs, "Name", name);
    var commentLines := WriteLocalized(dirs, "Comment", comment);
    var genericLines := [];
    if genericName.Some? {
      var loc := WriteLocalized(dirs, "GenericName", genericName.value);
      genericLines := [AF.Entry("GenericName", genericName.value)] + loc;
    }
    written := [prefix] + ([AF.Entry("Name", name)] + nameLines)
      + ([AF.Entry("Comment", comment)] + commentLines) + genericLines + [suffix];
  }

  lemma {:induction false} LocalizedLinesLed(dirs: seq<LocaleDir>, key: string, msg: string)
    requires |key| > 0
    ensures AF.LedBy(LocalizedLines(dirs, key, msg), {key[0]})
  {
    if |dirs| > 0 {
      LocalizedLinesLed(dirs[..|dirs| - 1], key, msg);
    }
  }

  /**
   * The body is the Name line, its translations, the Comment line (always),
   * its translations, and a GenericName block exactly when genericName is given.
   */
  lemma DesktopShape(name: string, comment: string, genericName: Option<string>, dirs: seq<LocaleDir>)
    ensures var lines := DesktopLines(name, comment, genericName, dirs);
      var n := |LocalizedLines(dirs, "Name", name)|;
      |lines| >= n + 2 && lines[0] == AF.Entry("Name", name) && lines[n + 1] == AF.Entry("Comment", comment)
      && (AF.HasLineStarting(lines, "GenericName=") <==> genericName.Some?)
  {
    var nb := Block("Name", name, dirs);
    var cb := Block("Comment", comment, dirs);
    var lines := DesktopLines(name, comment, genericName, dirs);
    LocalizedLinesLed(dirs, "Name", name);
    LocalizedLinesLed(dirs, "Comment", comment);
    AF.LedByConcat([AF.Entry("Name", name)], LocalizedLines(dirs, "Name", name), {'N'}, {'N'});
    AF.LedByConcat([AF.Entry("Comment", comment)], LocalizedLines(dirs, "Comment", comment), {'C'}, {'C'});
    assert lines[|nb|] == cb[0];
    match genericName {
      case None =>
        assert lines == nb + cb;
        AF.LedByConcat(nb, cb, {'N'}, {'C'});
        AF.NotStartingLed(lines, {'N', 'C'}, "GenericName=");
      case Some(g) =>
        var gb := Block("GenericName", g, dirs);
        assert lines == nb + cb + gb;
        assert lines[|nb| + |cb|] == gb[0];
        AF.EntryAt(lines, |nb| + |cb|, "GenericName", g);
    }
  }
}
