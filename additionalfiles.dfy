/**
 * The desktop-entry and polkit-policy generators of the `mintcommon` package.
 * A generator writes a file made of the caller's prefix, a `Key=value` line
 * per key followed by one `Key[lang]=translation` line per locale (Desktop
 * Entry Specification, section 5, "Localized values for keys"), and the
 * caller's suffix. Each method returns the sequence of strings it hands to
 * `writelines`, in order.
 */
module AdditionalFiles {
  import opened Wrappers
  import opened Strings
  import opened Gettext

  /** The list form of section 4 of the Desktop Entry Specification: stripped items, each ended by ';'. */
  function Recombine(items: seq<string>): string
  {
    if |items| == 0 then "" else Recombine(items[..|items| - 1]) + Strip(items[|items| - 1]) + ";"
  }

  /** strip_split_and_recombine */
  method StripSplitAndRecombine(commaSeparated: string) returns (out: string)
    ensures out == Recombine(Split(commaSeparated, ","))
  {
    var wordList := Split(commaSeparated, ",");
    out := "";
    var i := 0;
    while i < |wordList|
      invariant 0 <= i <= |wordList|
      invariant out == Recombine(wordList[..i])
    {
      assert wordList[..i + 1][..i] == wordList[..i];
      out := out + Strip(wordList[i]);
      out := out + ";";
      i := i + 1;
    }
    assert wordList[..|wordList|] == wordList;
  }

  lemma {:induction false} RecombineCount(items: seq<string>)
    requires forall k :: 0 <= k < |items| ==> ';' !in items[k]
    ensures Count(Recombine(items), ';') == |items|
  {
    if |items| > 0 {
      var last := items[|items| - 1];
      RecombineCount(items[..|items| - 1]);
      assert ';' !in Strip(last);
      CountAbsent(Strip(last), ';');
      CountConcat(Recombine(items[..|items| - 1]) + Strip(last), ";", ';');
      CountConcat(Recombine(items[..|items| - 1]), Strip(last), ';');
    }
  }

  /** A keyword list without ';' comes out with one ';' per comma, plus the final one. */
  lemma KeywordSemicolons(s: string)
    requires ';' !in s
    ensures Count(Recombine(Split(s, ",")), ';') == Count(s, ',') + 1
  {
    SplitCount(s, ',');
    SplitPartsChars(s, ",", ';');
    RecombineCount(Split(s, ","));
  }

  function Entry(key: string, text: string): string {
    key + "=" + text + "\n"
  }

  function LocalizedEntry(key: string, lang: string, text: string): string {
    key + "[" + lang + "]=" + text + "\n"
  }

  /** The text written for `key` in locale `lang`. */
  function EntryRender(key: string): (string, string) -> string {
    (lang, t) => LocalizedEntry(key, lang, t)
  }

  /** Translated keywords are normalised by strip_split_and_recombine before they are written. */
  function KeywordsRender(): (string, string) -> string {
    (lang, t) => LocalizedEntry("Keywords", lang, Recombine(Split(t, ",")))
  }

  /** The translation written for a locale: only where the `.mo` file exists and the text changes. */
  function Translated(d: LocaleDir, msg: string): Option<string> {
    if d.hasMo then Differing(d, msg) else None
  }

  /** The localized lines of one key, for locale directories taken in the given (sorted) order. */
  function LocalizedLines(dirs: seq<LocaleDir>, msg: string, render: (string, string) -> string): seq<string>
  {
    if |dirs| == 0 then []
    else
      var d := dirs[|dirs| - 1];
      LocalizedLines(dirs[..|dirs| - 1], msg, render)
        + (match Translated(d, msg) case None => [] case Some(t) => [render(d.name, t)])
  }

  /** One per-locale loop of `generate` or `generate_polkit_policy`. */
  method WriteLocalized(dirs: seq<LocaleDir>, msg: string, render: (string, string) -> string)
    returns (lines: seq<string>)
    ensures lines == LocalizedLines(dirs, msg, render)
  {
    lines := [];
    var i := 0;
    while i < |dirs|
      invariant 0 <= i <= |dirs|
      invariant lines == LocalizedLines(dirs[..i], msg, render)
    {
      assert dirs[..i + 1][..i] == dirs[..i];
      var d := dirs[i];
      if d.hasMo {
        match d.catalog {
          case Some(cat) =>
            var t := GetText(cat, msg);
            if t != msg {
              lines := lines + [render(d.name, t)];
            }
          case None =>
        }
      }
      i := i + 1;
    }
    assert dirs[..|dirs|] == dirs;
  }

  /** A localized line is written exactly for the locales whose catalog changes `msg`, with that translation. */
  lemma {:induction false} LocalizedLinesIff(dirs: seq<LocaleDir>, msg: string, render: (string, string) -> string, line: string)
    ensures line in LocalizedLines(dirs, msg, render) <==>
      exists i :: 0 <= i < |dirs| && Translated(dirs[i], msg).Some? && line == render(dirs[i].name, Translated(dirs[i], msg).value)
  {
    if |dirs| > 0 {
      var init := dirs[..|dirs| - 1];
      LocalizedLinesIff(init, msg, render, line);
      assert forall i :: 0 <= i < |init| ==> init[i] == dirs[i];
    }
  }

  /** Every line of the list starts with one of the given characters. */
  predicate LedBy(lines: seq<string>, cs: set<char>) {
    forall i :: 0 <= i < |lines| ==> |lines[i]| > 0 && lines[i][0] in cs
  }

  predicate HasLineStarting(lines: seq<string>, p: string) {
    exists i :: 0 <= i < |lines| && StartsWith(lines[i], p)
  }

  lemma {:induction false} LocalizedLinesLed(dirs: seq<LocaleDir>, msg: string, render: (string, string) -> string, c: char)
    requires forall lang, t :: |render(lang, t)| > 0 && render(lang, t)[0] == c
    ensures LedBy(LocalizedLines(dirs, msg, render), {c})
  {
    if |dirs| > 0 {
      LocalizedLinesLed(dirs[..|dirs| - 1], msg, render, c);
    }
  }

  /** A key's block: its `Key=` line and the localized lines after it. */
  function Block(key: string, msg: string, dirs: seq<LocaleDir>): seq<string> {
    [Entry(key, msg)] + LocalizedLines(dirs, msg, EntryRender(key))
  }

  lemma BlockLed(key: string, msg: string, dirs: seq<LocaleDir>)
    requires |key| > 0
    ensures LedBy(Block(key, msg, dirs), {key[0]})
  {
    LocalizedLinesLed(dirs, msg, EntryRender(key), key[0]);
  }

  /** A block that is written only when its argument is given. */
  function OptionalBlock(key: string, msg: Option<string>, dirs: seq<LocaleDir>): seq<string> {
    match msg case None => [] case Some(m) => Block(key, m, dirs)
  }

  /** The Keywords block: list-formatted, in the `Keywords=` line and in every localized line. */
  function KeywordsBlock(keywords: Option<string>, dirs: seq<LocaleDir>): seq<string> {
    match keywords
    case None => []
    case Some(k) => [Entry("Keywords", Recombine(Split(k, ",")))] + LocalizedLines(dirs, k, KeywordsRender())
  }

  /** The lines `generate` writes between prefix and suffix. */
  function DesktopLines(name: string, comment: Option<string>, keywords: Option<string>,
                        genericName: Option<string>, dirs: seq<LocaleDir>): seq<string>
  {
    Block("Name", name, dirs) + OptionalBlock("Comment", comment, dirs)
    + KeywordsBlock(keywords, dirs) + OptionalBlock("GenericName", genericName, dirs)
  }

  method WriteOptionalBlock(key: string, msg: Option<string>, dirs: seq<LocaleDir>) returns (lines: seq<string>)
    ensures lines == OptionalBlock(key, msg, dirs)
  {
    lines := [];
    if msg.Some? {
      var loc := WriteLocalized(dirs, msg.value, EntryRender(key));
      lines := [Entry(key, msg.value)] + loc;
    }
  }

  /** generate: `dirs` is `sorted(os.listdir(path))` with what the file system says of each entry. */
  method Generate(prefix: string, name: string, comment: Option<string>, suffix: string,
                  genericName: Option<string>, keywords: Option<string>, dirs: seq<LocaleDir>)
    returns (written: seq<string>)
    ensures written == [prefix] + DesktopLines(name, comment, keywords, genericName, dirs) + [suffix]
  {
    var nameLines := WriteLocalized(dirs, name, EntryRender("Name"));
    var commentLines := WriteOptionalBlock("Comment", comment, dirs);
    var keywordLines := WriteKeywordsBlock(keywords, dirs);
    var genericLines := WriteOptionalBlock("GenericName", genericName, dirs);
    var body := ([Entry("Name", name)] + nameLines) + commentLines + keywordLines + genericLines;
    assert body == DesktopLines(name, comment, keywords, genericName, dirs);
    written := [prefix] + body + [suffix];
  }

  method WriteKeywordsBlock(keywords: Option<string>, dirs: seq<LocaleDir>) returns (lines: seq<string>)
    ensures lines == KeywordsBlock(keywords, dirs)
  {
    lines := [];
    if keywords.Some? {
      var formatted := StripSplitAndRecombine(keywords.value);
      var loc := WriteLocalized(dirs, keywords.value, KeywordsRender());
      lines := [Entry("Keywords", formatted)] + loc;
    }
  }

  lemma LedByConcat(a: seq<string>, b: seq<string>, cs: set<char>, ds: set<char>)
    requires LedBy(a, cs) && LedBy(b, ds)
    ensures LedBy(a + b, cs + ds)
  {
    assert forall i :: |a| <= i < |a + b| ==> (a + b)[i] == b[i - |a|];
  }

  lemma NotStartingLed(lines: seq<string>, cs: set<char>, p: string)
    requires LedBy(lines, cs) && |p| > 0 && p[0] !in cs
    ensures !HasLineStarting(lines, p)
  {
  }

  lemma OptionalBlockLed(key: string, msg: Option<string>, dirs: seq<LocaleDir>)
    requires |key| > 0
    ensures LedBy(OptionalBlock(key, msg, dirs), if msg.Some? then {key[0]} else {})
    ensures msg.Some? ==> OptionalBlock(key, msg, dirs)[0] == Entry(key, msg.value)
  {
    if msg.Some? { BlockLed(key, msg.value, dirs); }
  }

  lemma KeywordsBlockLed(keywords: Option<string>, dirs: seq<LocaleDir>)
    ensures LedBy(KeywordsBlock(keywords, dirs), if keywords.Some? then {'K'} else {})
    ensures keywords.Some? ==> KeywordsBlock(keywords, dirs)[0] == Entry("Keywords", Recombine(Split(keywords.value, ",")))
  {
    if keywords.Some? {
      LocalizedLinesLed(dirs, keywords.value, KeywordsRender(), 'K');
      LedByConcat([Entry("Keywords", Recombine(Split(keywords.value, ",")))],
        LocalizedLines(dirs, keywords.value, KeywordsRender()), {'K'}, {'K'});
    }
  }

  lemma EntryAt(lines: seq<string>, i: nat, key: string, text: string)
    requires i < |lines| && lines[i] == Entry(key, text)
    ensures HasLineStarting(lines, key + "=")
  {
    assert Entry(key, text) == (key + "=") + (text + "\n");
  }

  function Leads(present: bool, c: char): set<char> {
    if present then {c} else {}
  }

  lemma DesktopLinesLed(name: string, comment: Option<string>, keywords: Option<string>,
                        genericName: Option<string>, dirs: seq<LocaleDir>)
    ensures LedBy(DesktopLines(name, comment, keywords, genericName, dirs),
      {'N'} + Leads(comment.Some?, 'C') + Leads(keywords.Some?, 'K') + Leads(genericName.Some?, 'G'))
  {
    var n := Block("Name", name, dirs);
    var c := OptionalBlock("Comment", comment, dirs);
    var k := KeywordsBlock(keywords, dirs);
    BlockLed("Name", name, dirs);
    OptionalBlockLed("Comment", comment, dirs);
    KeywordsBlockLed(keywords, dirs);
    OptionalBlockLed("GenericName", genericName, dirs);
    LedByConcat(n, c, {'N'}, Leads(comment.Some?, 'C'));
    LedByConcat(n + c, k, {'N'} + Leads(comment.Some?, 'C'), Leads(keywords.Some?, 'K'));
    LedByConcat(n + c + k, OptionalBlock("GenericName", genericName, dirs),
      {'N'} + Leads(comment.Some?, 'C') + Leads(keywords.Some?, 'K'), Leads(genericName.Some?, 'G'));
  }

  /** The file body opens with the untranslated Name line. */
  lemma DesktopNameFirst(name: string, comment: Option<string>, keywords: Option<string>,
                      genericName: Option<string>, dirs: seq<LocaleDir>)
    ensures var lines := DesktopLines(name, comment, keywords, genericName, dirs);
      |lines| > 0 && lines[0] == Entry("Name", name)
  {
    var n := Block("Name", name, dirs);
    var c := OptionalBlock("Comment", comment, dirs);
    var k := KeywordsBlock(keywords, dirs);
    var g := OptionalBlock("GenericName", genericName, dirs);
    var lines := DesktopLines(name, comment, keywords, genericName, dirs);
    assert lines == n + c + k + g;
    assert lines[0] == n[0];
  }

  /** A `Comment=` line is written exactly when the comment argument is given. */
  lemma DesktopCommentIff(name: string, comment: Option<string>, keywords: Option<string>,
                      genericName: Option<string>, dirs: seq<LocaleDir>)
    ensures var lines := DesktopLines(name, comment, keywords, genericName, dirs);
      HasLineStarting(lines, "Comment=") <==> comment.Some?
  {
    var n := Block("Name", name, dirs);
    var c := OptionalBlock("Comment", comment, dirs);
    var k := KeywordsBlock(keywords, dirs);
    var g := OptionalBlock("GenericName", genericName, dirs);
    var lines := DesktopLines(name, comment, keywords, genericName, dirs);
    assert lines == n + c + k + g;
    if comment.Some? {
      OptionalBlockLed("Comment", comment, dirs);
      assert lines[|n|] == c[0];
      EntryAt(lines, |n|, "Comment", comment.value);
    } else {
      DesktopLinesLed(name, comment, keywords, genericName, dirs);
      NotStartingLed(lines, {'N'} + Leads(comment.Some?, 'C') + Leads(keywords.Some?, 'K') + Leads(genericName.Some?, 'G'), "Comment=");
    }
  }

  /** A `Keywords=` line is written exactly when the keywords argument is given. */
  lemma DesktopKeywordsIff(name: string, comment: Option<string>, keywords: Option<string>,
                      genericName: Option<string>, dirs: seq<LocaleDir>)
    ensures var lines := DesktopLines(name, comment, keywords, genericName, dirs);
      HasLineStarting(lines, "Keywords=") <==> keywords.Some?
  {
    var n := Block("Name", name, dirs);
    var c := OptionalBlock("Comment", comment, dirs);
    var k := KeywordsBlock(keywords, dirs);
    var g := OptionalBlock("GenericName", genericName, dirs);
    var lines := DesktopLines(name, comment, keywords, genericName, dirs);
    assert lines == n + c + k + g;
    if keywords.Some? {
      KeywordsBlockLed(keywords, dirs);
      assert lines[|n| + |c|] == k[0];
      EntryAt(lines, |n| + |c|, "Keywords", Recombine(Split(keywords.value, ",")));
    } else {
      DesktopLinesLed(name, comment, keywords, genericName, dirs);
      NotStartingLed(lines, {'N'} + Leads(comment.Some?, 'C') + Leads(keywords.Some?, 'K') + Leads(genericName.Some?, 'G'), "Keywords=");
    }
  }

  /** A `GenericName=` line is written exactly when the genericName argument is given. */
  lemma DesktopGenericNameIff(name: string, comment: Option<string>, keywords: Option<string>,
                      genericName: Option<string>, dirs: seq<LocaleDir>)
    ensures var lines := DesktopLines(name, comment, keywords, genericName, dirs);
      HasLineStarting(lines, "GenericName=") <==> genericName.Some?
  {
    var n := Block("Name", name, dirs);
    var c := OptionalBlock("Comment", comment, dirs);
    var k := KeywordsBlock(keywords, dirs);
    var g := OptionalBlock("GenericName", genericName, dirs);
    var lines := DesktopLines(name, comment, keywords, genericName, dirs);
    assert lines == n + c + k + g;
    if genericName.Some? {
      OptionalBlockLed("GenericName", genericName, dirs);
      assert lines[|n| + |c| + |k|] == g[0];
      EntryAt(lines, |n| + |c| + |k|, "GenericName", genericName.value);
    } else {
      DesktopLinesLed(name, comment, keywords, genericName, dirs);
      NotStartingLed(lines, {'N'} + Leads(comment.Some?, 'C') + Leads(keywords.Some?, 'K') + Leads(genericName.Some?, 'G'), "GenericName=");
    }
  }

  function MessageLine(text: string): string {
    "<message>" + text + "</message>\n"
  }

  function LocalizedMessage(lang: string, text: string): string {
    "<message xml:lang=\"" + lang + "\">" + text + "</message>\n"
  }

  function MessageRender(): (string, string) -> string {
    (lang, t) => LocalizedMessage(lang, t)
  }

  /** generate_polkit_policy */
  method GeneratePolkitPolicy(prefix: string, message: string, suffix: string, dirs: seq<LocaleDir>)
    returns (written: seq<string>)
    ensures written == [prefix, MessageLine(message)] + LocalizedLines(dirs, message, MessageRender()) + [suffix]
  {
    written := [prefix];
    written := written + [MessageLine(message)];
    var lines := WriteLocalized(dirs, message, MessageRender());
    written := written + lines + [suffix];
  }

  /** Every line between the untranslated message and the suffix is a translated message. */
  lemma PolkitLocalized(dirs: seq<LocaleDir>, message: string, line: string)
    ensures line in LocalizedLines(dirs, message, MessageRender()) <==>
      exists i :: 0 <= i < |dirs| && dirs[i].hasMo && Differing(dirs[i], message).Some?
        && line == LocalizedMessage(dirs[i].name, Differing(dirs[i], message).value)
  {
    LocalizedLinesIff(dirs, message, MessageRender(), line);
  }
}
