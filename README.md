# mintcommon: a Dafny model of the package installer core

mintcommon is the Python library that Linux Mint's software tools share. This
project models the parts of it that make decisions on their own, without the
native libraries they wrap (apt, PackageKit, libflatpak, AppStream):

- **apt_changelog.py**: finding a package's changelog. This covers:
  - the `name=version` and `name/release` selectors;
  - Debian epoch stripping;
  - the source-pool prefix and the `@CHANGEPATH@` template;
  - the choice of changelog file from a file list;
  - origin classification;
  - the `y/n` parser;
  - extracting text from `.changes`, `.diff.gz` and `.dsc` files.
- **appstream_pool.py**: the AppStream helpers. This covers:
  - locale to BCP 47 tag conversion (the script subtags of section 2.2.3 of RFC 5646);
  - the pool's locale variants;
  - the screenshot size table with its closest-width fallback;
  - the newest release;
  - icon selection by height.
- **pkgInfo.py**: the apt and Flatpak package records.
  - Their getters memoize into the record's fields.
  - Their JSON form is proved to round-trip.
- **cache.py**: the package cache. This covers:
  - the choice of cache file by age;
  - the schema-version gate of `JsonObject.from_json`;
  - the keyed item table;
  - a refresh of one package type that keeps the other type's records;
  - prefix subsets and lookup.
- **_apt.py** and **_flatpak.py**: the backends' own logic. This covers:
  - the apt name filter and section split;
  - the PackageKit error-code reading and the task's status transitions;
  - download and disk size accounting;
  - the confirmation rules and the ref de-duplication list;
  - remote titles and URL matching;
  - the Flatpak cache scan, which only ever raises the `installed` flag.
- **installer.py**: `InstallerTask` and the `Installer`'s bookkeeping. This covers:
  - the task table;
  - the install/remove choice of `select_pkginfo`;
  - the check of the Flatpak remote list against the list saved in the settings.
- **additionalfiles.py** (both copies): the generators of desktop-entry and polkit files.
  - Their localized `Key[xx]=` lines follow section 5 of the freedesktop Desktop Entry Specification.
  - `Keywords` uses its `;`-terminated list form.

Objects whose fields the source updates become classes with `modifies` clauses:
- the package records;
- the cache;
- the installer and its tasks;
- the apt and Flatpak transactions;
- the screenshot and pool objects.

The pure helpers become functions. The loops that build state (tables, totals,
lists of lines) become `while` loops with their invariants, proved against a
reference function. The loops that only search (`Flatpak.LastNamed`,
`AptChangelog.FirstWithPrefix`, `AptChangelog.FirstChangelogBasename`,
`AptChangelog.FirstEndingFrom`) become recursive functions.

What the libraries report is passed in as values:
- apt packages, Flatpak refs and remotes;
- AppStream components;
- file lists, file modification times and the current time;
- gettext catalogues;
- the library's error codes.

A Python dict is an ordered table of key/value pairs (module `Tables`). Assigning
to a key that is already there keeps that key's place.

Three source behaviours are modelled as written:
- A task whose pkginfo has an empty `pkg_hash` is stored under `""` by
  `execute_task`. `_task_finished` and `_task_error` never delete that entry,
  because they skip a falsy key (`Installer.FinishKey`).
- `_apt.py:121` keeps the second segment of a section split on `/`, not
  everything after the first `/`.
- `add_cached_ascomp_data` stores the 48px icon itself, a string or None, as
  `cached_icon`. `from_json` stores a one-entry dict there instead. A later
  `get_icon` that misses indexes the stored string by the requested size, as
  Python indexes a `str`, and so gets back one character of the path or None
  (`PkgInfo.CachedLookup`, `PkgInfo.CachedTextIndexed`).

## Model

| member | source | states |
|---|---|---|
| AdditionalFiles.StripSplitAndRecombine | usr/lib/python3/dist-packages/mintcommon/additionalfiles.py:6-13 | the result is the comma-separated items, each stripped and followed by ';', in order |
| AdditionalFiles.KeywordSemicolons | usr/lib/python3/dist-packages/mintcommon/additionalfiles.py:6-13 | for a keyword list without ';', the recombined text holds exactly one ';' per comma plus one |
| AdditionalFiles.WriteLocalized | usr/lib/python3/dist-packages/mintcommon/additionalfiles.py:24-33 | one per-locale loop: a line for each locale directory, in sorted order, that has the .mo file, whose catalog loads and whose translation differs from the text |
| AdditionalFiles.LocalizedLinesIff | usr/lib/python3/dist-packages/mintcommon/additionalfiles.py:24-33 | a localized line is written if and only if some locale directory has the .mo file and a catalog that changes the text; the line carries that directory's name and translation |
| AdditionalFiles.WriteOptionalBlock | usr/lib/python3/dist-packages/mintcommon/additionalfiles.py:35-46 | a key whose argument is None writes nothing; otherwise it writes its `Key=` line and then its localized lines |
| AdditionalFiles.WriteKeywordsBlock | usr/lib/python3/dist-packages/mintcommon/additionalfiles.py:48-61 | the Keywords block is written only when keywords are given; the untranslated and every translated text are list-formatted |
| AdditionalFiles.Generate | usr/lib/python3/dist-packages/mintcommon/additionalfiles.py:15-77 | the file is the prefix, then the Name, Comment, Keywords and GenericName blocks in that order, then the suffix |
| AdditionalFiles.DesktopLinesLed | usr/lib/python3/dist-packages/mintcommon/additionalfiles.py:23-74 | every line between prefix and suffix starts with the first letter of a key that was given |
| AdditionalFiles.DesktopNameFirst | usr/lib/python3/dist-packages/mintcommon/additionalfiles.py:23 | the body opens with the untranslated `Name=` line |
| AdditionalFiles.DesktopCommentIff | usr/lib/python3/dist-packages/mintcommon/additionalfiles.py:35-36 | a `Comment=` line is written if and only if a comment is given |
| AdditionalFiles.DesktopKeywordsIff | usr/lib/python3/dist-packages/mintcommon/additionalfiles.py:48-50 | a `Keywords=` line is written if and only if keywords are given |
| AdditionalFiles.DesktopGenericNameIff | usr/lib/python3/dist-packages/mintcommon/additionalfiles.py:63-64 | a `GenericName=` line is written if and only if a generic name is given |
| AdditionalFiles.GeneratePolkitPolicy | usr/lib/python3/dist-packages/mintcommon/additionalfiles.py:79-100 | the policy is the prefix, the untranslated `<message>` line, the localized messages and the suffix |
| AdditionalFiles.PolkitLocalized | usr/lib/python3/dist-packages/mintcommon/additionalfiles.py:88-97 | a localized message is written if and only if a locale directory has the .mo file and a catalog that changes the message; it carries that language and translation |
| Gettext.GetText | usr/lib/python3/dist-packages/mintcommon/additionalfiles.py:29-30 | a lookup that changes the text returns the catalog's entry for it |
| Gettext.Differing | usr/lib/python3/dist-packages/mintcommon/additionalfiles.py:27-31 | a translation is produced if and only if the catalog loads, holds the text and maps it to something else |
| LegacyAdditionalFiles.WriteLocalized | usr/lib/linuxmint/common/additionalfiles.py:12-20 | one per-locale loop of the older generator: a line for each sub-directory whose catalog loads and changes the text |
| LegacyAdditionalFiles.LocalizedLinesIff | usr/lib/linuxmint/common/additionalfiles.py:12-20 | a localized line is written if and only if the entry is a directory whose catalog changes the text, whether or not it holds a .mo file |
| LegacyAdditionalFiles.Generate | usr/lib/linuxmint/common/additionalfiles.py:5-47 | the file is the prefix, the Name block, the Comment block, the GenericName block when given, and the suffix |
| LegacyAdditionalFiles.DesktopShape | usr/lib/linuxmint/common/additionalfiles.py:11-34 | the body opens with the Name line; the Comment line always follows the Name translations; a `GenericName=` line is written if and only if a generic name is given |
| AptChangelog.ParseSelector | usr/lib/python3/dist-packages/mintcommon/apt_changelog.py:373-382 | `name=version` is split at the first '=' before any '/' is considered; `name/release` at the first '/'; a plain name keeps neither |
| AptChangelog.ParseFormatSelector | usr/lib/python3/dist-packages/mintcommon/apt_changelog.py:373-382 | parsing a written selector gives it back when its parts are free of the separators |
| AptChangelog.StripEpoch | usr/lib/python3/dist-packages/mintcommon/apt_changelog.py:436-437 | without ':' the version is unchanged; otherwise the result is exactly what follows the first ':' |
| AptChangelog.StripEpochOfEpoch | usr/lib/python3/dist-packages/mintcommon/apt_changelog.py:436-437 | stripping undoes prefixing an epoch free of ':' |
| AptChangelog.SourcePrefix | usr/lib/python3/dist-packages/mintcommon/apt_changelog.py:632-637 | an empty name raises; a `lib` name gives its first four characters (fewer when shorter); any other name its first character |
| AptChangelog.KernelWorkaround | usr/lib/python3/dist-packages/mintcommon/apt_changelog.py:596-607 | outside Ubuntu the source is unchanged; on Ubuntu a `linux-meta` package with a non-empty kernel version becomes `linux` at that version, and otherwise `linux-signed` becomes `linux` at its own version and any other source is kept |
| AptChangelog.ChangePathSplits | usr/lib/python3/dist-packages/mintcommon/apt_changelog.py:619-630 | split on '/', the change path is the component (only when non-empty), the pool prefix, the source name and `name_version` without the epoch |
| AptChangelog.ExpandTemplateOnce | usr/lib/python3/dist-packages/mintcommon/apt_changelog.py:621 | `ExpandTemplate`: a template `X@CHANGEPATH@Y` expands to X, the change path and Y |
| AptChangelog.ExpandTemplateWithoutMarker | usr/lib/python3/dist-packages/mintcommon/apt_changelog.py:621 | `ExpandTemplate`: a template without the marker is used unchanged |
| AptChangelog.Package.constructor | usr/lib/python3/dist-packages/mintcommon/apt_changelog.py:418-437 | the candidate's fields; the file name reduced to its basename; installed files only for an installed package; the epoch stripped, the original kept as the raw version |
| AptChangelog.Retriever.SourcePrefixOf | usr/lib/python3/dist-packages/mintcommon/apt_changelog.py:632-637 | an empty or missing argument means the candidate's own source name |
| AptChangelog.Retriever.GetAptChangelogUri | usr/lib/python3/dist-packages/mintcommon/apt_changelog.py:571-630 | the candidate's source name is renamed by the kernel work-arounds and the result is the template expanded with the component, prefix, name and epoch-less version; the method may change no other field of the candidate |
| AptChangelog.ClassifyOrigin | usr/lib/python3/dist-packages/mintcommon/apt_changelog.py:139-149 | each origin class holds exactly under its condition: local when not downloadable, then linuxmint, then LP-PPA-, then apt's configured origins |
| AptChangelog.PpaOwnerAndName | usr/lib/python3/dist-packages/mintcommon/apt_changelog.py:200-201 | succeeds exactly when the URI holds `ppa.launchpad.net/` followed by at least three `/`-separated segments, and then gives the first two, which are '/'-free |
| AptChangelog.PpaBaseUriKeepsPlaceholder | usr/lib/python3/dist-packages/mintcommon/apt_changelog.py:202 | `PpaBaseUriAsWritten`: whatever the package, the URI as written keeps the literal `{self.source_prefix()}` |
| AptChangelog.PpaBaseUriCounterexample | usr/lib/python3/dist-packages/mintcommon/apt_changelog.py:202 | for the team/stable PPA and package `apt`, the as-written URI differs from the pool directory |
| AptChangelog.PpaBaseUriFillsPlaceholder | usr/lib/python3/dist-packages/mintcommon/apt_changelog.py:202 | the corrected URI is the as-written one with the placeholder replaced by the pool prefix, and carries no placeholder |
| AptChangelog.FallbacksAreChanges | usr/lib/python3/dist-packages/mintcommon/apt_changelog.py:187-206 | both last-change fallbacks (Linux Mint and Launchpad) name `.changes` documents |
| AptChangelog.StrToBool | usr/lib/python3/dist-packages/mintcommon/apt_changelog.py:482-490 | true exactly for y/yes, false exactly for n/no, in any letter case; anything else raises ValueError |
| AptChangelog.StrToBoolIgnoresCase | usr/lib/python3/dist-packages/mintcommon/apt_changelog.py:484 | the answer does not depend on letter case |
| AptChangelog.ChangelogCandidates | usr/lib/python3/dist-packages/mintcommon/apt_changelog.py:547 | the candidates are exactly the listed files whose lower-case form contains "changelog"; `CandidatesFirstWithPrefix` and `CandidatesFirstBasename` state that they keep the list's order |
| AptChangelog.FirstWithPrefix | usr/lib/python3/dist-packages/mintcommon/apt_changelog.py:550-552 | a candidate whose lower-case form starts with the test path; none exactly when no file does; `FirstWithPrefixIsFirst` states that it is the first such |
| AptChangelog.FirstWithPrefixIsFirst | usr/lib/python3/dist-packages/mintcommon/apt_changelog.py:550-552 | the file found sits at some position of the list, and no file before it starts with the test path |
| AptChangelog.FirstChangelogBasename | usr/lib/python3/dist-packages/mintcommon/apt_changelog.py:566-568 | a candidate whose lower-case basename starts with "changelog"; none exactly when no file has one; `FirstChangelogBasenameIsFirst` states that it is the first such |
| AptChangelog.FirstChangelogBasenameIsFirst | usr/lib/python3/dist-packages/mintcommon/apt_changelog.py:566-568 | the file found sits at some position of the list, and searching the files before it finds nothing |
| AptChangelog.FirstWhereAt | usr/lib/python3/dist-packages/mintcommon/apt_changelog.py:566-568 | for any test, the item found sits at some position, and searching the items before it finds nothing |
| AptChangelog.CandidatesFirstWithPrefix | usr/lib/python3/dist-packages/mintcommon/apt_changelog.py:547-552 | for a documentation changelog path, searching the candidates finds the same file as searching the whole list |
| AptChangelog.CandidatesFirstBasename | usr/lib/python3/dist-packages/mintcommon/apt_changelog.py:547-568 | the basename search finds the same file among the candidates as in the whole list |
| AptChangelog.ChangelogFromFilelist | usr/lib/python3/dist-packages/mintcommon/apt_changelog.py:538-569 | the chosen file is a listed file whose name contains "changelog" |
| AptChangelog.FilelistDebianFirst | usr/lib/python3/dist-packages/mintcommon/apt_changelog.py:554-556 | `debian/changelog` wins outright when listed |
| AptChangelog.FilelistRecipeSecond | usr/lib/python3/dist-packages/mintcommon/apt_changelog.py:557-559 | then `recipe/debian/changelog` |
| AptChangelog.FilelistDocThird | usr/lib/python3/dist-packages/mintcommon/apt_changelog.py:560-563 | then, with no debian/changelog, the first candidate under `usr/share/doc/<name>/changelog` |
| AptChangelog.FilelistNone | usr/lib/python3/dist-packages/mintcommon/apt_changelog.py:553-569 | the non-local search finds nothing exactly when no file lies under the documentation path or has a basename starting with "changelog" |
| AptChangelog.FilelistLocal | usr/lib/python3/dist-packages/mintcommon/apt_changelog.py:548-552 | for installed files only `/usr/share/doc/<name>/changelog*` is accepted; none exactly when no file starts so |
| AptChangelog.RenderChanges | usr/lib/python3/dist-packages/mintcommon/apt_changelog.py:258-263 | one line per stripped, non-empty change, a lone "." written as an empty line, each ended by a newline |
| AptChangelog.ExtractChanges | usr/lib/python3/dist-packages/mintcommon/apt_changelog.py:256-263 | the `.changes` extraction raises without "Changes:"; otherwise it renders the lines between "Changes:" and "Checksums" |
| AptChangelog.ChangesOutput | usr/lib/python3/dist-packages/mintcommon/apt_changelog.py:256-263 | extraction fails exactly when "Changes:" is missing; its output splits into lines that are stripped and never a lone "." |
| AptChangelog.AddedLines | usr/lib/python3/dist-packages/mintcommon/apt_changelog.py:338-342 | the added lines of a patch section, without their "+", up to the first other line |
| AptChangelog.ExtractDiff | usr/lib/python3/dist-packages/mintcommon/apt_changelog.py:334-344 | the changelog is the added lines of every "/debian/changelog" section, in order; none found raises ValueError |
| AptChangelog.DiffLinesFromChangelog | usr/lib/python3/dist-packages/mintcommon/apt_changelog.py:334-342 | every extracted line was an added line of a section whose header names "/debian/changelog" |
| AptChangelog.DiffWithoutChangelog | usr/lib/python3/dist-packages/mintcommon/apt_changelog.py:337 | a patch without a "/debian/changelog" section gives no changelog |
| AptChangelog.FirstEnding | usr/lib/python3/dist-packages/mintcommon/apt_changelog.py:645-649 | a stripped line whose lower-case form ends with the suffix; none exactly when no line does; `FirstEndingIsFirst` states that it is the first such |
| AptChangelog.FirstEndingFromIsFirst | usr/lib/python3/dist-packages/mintcommon/apt_changelog.py:645-649 | from a start line on, no line before the one found ends with the suffix |
| AptChangelog.FirstEndingIsFirst | usr/lib/python3/dist-packages/mintcommon/apt_changelog.py:645-649 | the line found is the stripped form of some line, and no earlier line ends with the suffix |
| AptChangelog.DscPrefersDebianTar | usr/lib/python3/dist-packages/mintcommon/apt_changelog.py:645 | `DscTarget`: parse_dsc takes a `.debian.tar.xz` whenever the block lists one |
| AptChangelog.DscThenDiff | usr/lib/python3/dist-packages/mintcommon/apt_changelog.py:646-647 | `DscTarget`: otherwise a `.diff.gz` |
| AptChangelog.DscThenTar | usr/lib/python3/dist-packages/mintcommon/apt_changelog.py:648-649 | `DscTarget`: otherwise a `.tar.xz` |
| AptChangelog.DscNone | usr/lib/python3/dist-packages/mintcommon/apt_changelog.py:653-656 | `DscTarget`: there is no target exactly when no line names a `.diff.gz` or a `.tar.xz` |
| AptChangelog.ParseDsc | usr/lib/python3/dist-packages/mintcommon/apt_changelog.py:644 | reading a `.dsc` fails exactly when its text has no "Files:" block |
| AptChangelog.DebOrTar | usr/lib/python3/dist-packages/mintcommon/apt_changelog.py:508-536 | a choice needs a .deb; it fits the size limit or was confirmed; a tarball replaces the .deb only when one was asked for, the .deb is over 50000 bytes and the tarball is smaller; a small .deb that fits is always taken |
| AptChangelog.DebOrTarPrefersSmallerTar | usr/lib/python3/dist-packages/mintcommon/apt_changelog.py:518-523 | a smaller tarball that fits the limit is taken over a large .deb |
| AppstreamPool.ScriptSuffix | usr/lib/python3/dist-packages/mintcommon/installer/appstream_pool.py:24-33 | "euro" and only "euro" adds nothing; every other variant adds a subtag starting with '-' |
| AppstreamPool.LocaleToBcp47 | usr/lib/python3/dist-packages/mintcommon/installer/appstream_pool.py:16-35 | `Bcp47`: None stays None; a locale without '@' is returned unchanged |
| AppstreamPool.Bcp47Variant | usr/lib/python3/dist-packages/mintcommon/installer/appstream_pool.py:22-33 | `Bcp47`: `base@variant` becomes the base followed by the variant's subtag |
| AppstreamPool.Bcp47TooMany | usr/lib/python3/dist-packages/mintcommon/installer/appstream_pool.py:23 | `Bcp47`: two or more '@' make the two-name unpacking raise |
| AppstreamPool.Bcp47Idempotent | usr/lib/python3/dist-packages/mintcommon/installer/appstream_pool.py:16-35 | a converted tag has no '@' left, so converting it again changes nothing |
| AppstreamPool.CollectLocales | usr/lib/python3/dist-packages/mintcommon/installer/appstream_pool.py:395-405 | the set built by the loop: for each name without a codeset that is not "C", the name, its dashed and underscored forms and their lower-case forms |
| AppstreamPool.LocaleSetMembers | usr/lib/python3/dist-packages/mintcommon/installer/appstream_pool.py:395-405 | a spelling is in the set if and only if some kept name has it |
| AppstreamPool.Bcp47All | usr/lib/python3/dist-packages/mintcommon/installer/appstream_pool.py:411 | the conversion succeeds if and only if every name converts; the result is exactly the converted names |
| AppstreamPool.FallbackUnchanged | usr/lib/python3/dist-packages/mintcommon/installer/appstream_pool.py:408-411 | the en_US fallback passes through the conversion unchanged |
| AppstreamPool.LocaleVariantsNonEmpty | usr/lib/python3/dist-packages/mintcommon/installer/appstream_pool.py:407-411 | `LocaleVariants`: the builder always gets at least one locale; with no kept name it gets exactly the en_US fallback |
| AppstreamPool.LocaleVariantsKeepName | usr/lib/python3/dist-packages/mintcommon/installer/appstream_pool.py:395-411 | `LocaleVariants`: every kept name's own spelling reaches the builder, converted |
| AppstreamPool.ParseImage | usr/lib/python3/dist-packages/mintcommon/installer/appstream_pool.py:50-66 | a size that is not a number raises; a missing height or width leaves both sizes 0; a scale that is missing or unreadable is 1; the source flag and the URL come from the node |
| AppstreamPool.MakeKeyInjective | usr/lib/python3/dist-packages/mintcommon/installer/appstream_pool.py:91-92 | `MakeKey`: keys of different width or scale differ |
| Tables.SetMembers | usr/lib/python3/dist-packages/mintcommon/installer/appstream_pool.py:89 | after a dict assignment every pair was there before or is the new pair, which is there |
| Tables.Get | usr/lib/python3/dist-packages/mintcommon/installer/appstream_pool.py:96-97 | a lookup finds a pair of the table, and none exactly when no pair has the key |
| AppstreamPool.LastSource | usr/lib/python3/dist-packages/mintcommon/installer/appstream_pool.py:85-87 | an image marked as source, none exactly when no image is; `LastSourceIsLast` states that it is the last such |
| AppstreamPool.LastSourceIsLast | usr/lib/python3/dist-packages/mintcommon/installer/appstream_pool.py:85-87 | the source image kept sits at some position, and no later image is marked as source |
| AppstreamPool.ImageTableWellFormed | usr/lib/python3/dist-packages/mintcommon/installer/appstream_pool.py:82-89 | the image table holds no source image, files each image under its own key and never repeats a key |
| AppstreamPool.ImageTableLookup | usr/lib/python3/dist-packages/mintcommon/installer/appstream_pool.py:88-89 | looking a key up finds the last non-source image of that width and scale |
| AppstreamPool.ClosestScanNone | usr/lib/python3/dist-packages/mintcommon/installer/appstream_pool.py:101-112 | the scan finds nothing, and keeps the initial bound, exactly when no width is within 999999 |
| AppstreamPool.ClosestIndexMeaning | usr/lib/python3/dist-packages/mintcommon/installer/appstream_pool.py:105-110 | the scan's image is the first entry of least width difference below the bound |
| AppstreamPool.ClosestScanMeaning | usr/lib/python3/dist-packages/mintcommon/installer/appstream_pool.py:101-112 | when the scan finds an image, it is the first one of least width difference below the bound |
| AppstreamPool.Screenshot.constructor | usr/lib/python3/dist-packages/mintcommon/installer/appstream_pool.py:76-89 | the images table and the source image are those of the node's images in order |
| AppstreamPool.Screenshot.GetClosestImage | usr/lib/python3/dist-packages/mintcommon/installer/appstream_pool.py:101-112 | the running minimum of the width difference, else the source image |
| AppstreamPool.Screenshot.GetImage | usr/lib/python3/dist-packages/mintcommon/installer/appstream_pool.py:94-99 | the image under the exact key when there is one, else the closest one |
| AppstreamPool.GetImageMeaning | usr/lib/python3/dist-packages/mintcommon/installer/appstream_pool.py:76-112 | the exact lookup gives the last sized image of that width and scale; every image the lookup can return came from the node's images and is not the source image |
| AppstreamPool.DisplayName | usr/lib/python3/dist-packages/mintcommon/installer/appstream_pool.py:159-164 | the `<name>` text, or the package's own name without one |
| AppstreamPool.NewestScanMeaning | usr/lib/python3/dist-packages/mintcommon/installer/appstream_pool.py:197-207 | the scan raises exactly when some timestamp does not read as a number; otherwise it keeps the version of the first release with the greatest positive timestamp, and None when no timestamp is positive |
| AppstreamPool.GetVersion | usr/lib/python3/dist-packages/mintcommon/installer/appstream_pool.py:192-207 | None without a `<releases>` node; an error when that node has no `<release>` child; else the running maximum over its releases, or the first timestamp error |
| AppstreamPool.KeyIcons | usr/lib/python3/dist-packages/mintcommon/installer/appstream_pool.py:343-348 | the sort keys are computed for every icon, 999 for a missing height; an unreadable height raises |
| AppstreamPool.SortByKey | usr/lib/python3/dist-packages/mintcommon/installer/appstream_pool.py:348 | the sorted icons are a permutation of the keyed ones, ordered by height |
| AppstreamPool.FirstTruthy | usr/lib/python3/dist-packages/mintcommon/installer/appstream_pool.py:371 | `a or b or c` is truthy exactly when one of them is, and is one of them |
| AppstreamPool.IconStep | usr/lib/python3/dist-packages/mintcommon/installer/appstream_pool.py:350-371 | after each icon the chosen icon is the theme, local or remote candidate, in that order of preference |
| AppstreamPool.GetIcon | usr/lib/python3/dist-packages/mintcommon/installer/appstream_pool.py:330-378 | the loop over the icons sorted by height returns the first usable icon large enough, else the last candidate or the package name |
| AppstreamPool.IconFromIcons | usr/lib/python3/dist-packages/mintcommon/installer/appstream_pool.py:330-378 | the icon returned is the package name or a non-empty name one of the icons offered: its text or the theme path built from it |
| AppstreamPool.IconWalkNothingUsable | usr/lib/python3/dist-packages/mintcommon/installer/appstream_pool.py:376-378 | without any icon of a known type the package name is returned |
| AppstreamPool.FindByBundle | usr/lib/python3/dist-packages/mintcommon/installer/appstream_pool.py:446-451 | the runtime search returns the first node whose flatpak bundle is the ref; a node without a bundle ends the search with nothing |
| AppstreamPool.Pool.constructor | usr/lib/python3/dist-packages/mintcommon/installer/appstream_pool.py:381-389 | the pool starts with no remembered packages |
| AppstreamPool.Pool.LookupPackage | usr/lib/python3/dist-packages/mintcommon/installer/appstream_pool.py:416-462 | without a silo nothing; a remembered package is returned as is; otherwise the base node becomes a package under the pkginfo's name and is remembered for the hash |
| PkgInfo.Capitalize | usr/lib/python3/dist-packages/mintcommon/installer/pkgInfo.py:14-18 | None stays None; a text longer than one character gets its first character upper-cased and the rest unchanged; shorter text is returned as it is |
| PkgInfo.CapitalizeIdempotent | usr/lib/python3/dist-packages/mintcommon/installer/pkgInfo.py:14-18 | capitalizing twice is capitalizing once |
| PkgInfo.PyCapitalize | usr/lib/python3/dist-packages/mintcommon/installer/pkgInfo.py:132 | the first character upper-cased and the rest lower-cased, length kept |
| PkgInfo.CapitalizeAgainstStrMethod | usr/lib/python3/dist-packages/mintcommon/installer/pkgInfo.py:14-18 | on lower-case text longer than one character the module helper and the str method agree; on one character only the str method upper-cases |
| PkgInfo.Memo | usr/lib/python3/dist-packages/mintcommon/installer/pkgInfo.py:128-139 | a truthy cached value is kept; otherwise a freshly found value replaces it |
| PkgInfo.Recall | usr/lib/python3/dist-packages/mintcommon/installer/pkgInfo.py:339-345 | a Flatpak getter returns the memoized value, or its fallback when there is none |
| PkgInfo.MemoStable | usr/lib/python3/dist-packages/mintcommon/installer/pkgInfo.py:328-345 | asking a second time with the same inputs changes nothing and answers the same |
| PkgInfo.AptRecall | usr/lib/python3/dist-packages/mintcommon/installer/pkgInfo.py:155-158 | an apt getter returns the memoized value, or "" |
| PkgInfo.AptDisplayName | usr/lib/python3/dist-packages/mintcommon/installer/pkgInfo.py:126-139 | a truthy cached name is returned; the call raises exactly when nothing truthy is cached, the package (if any) has an empty name and the record has no name to capitalize |
| PkgInfo.AptDisplayNameFresh | usr/lib/python3/dist-packages/mintcommon/installer/pkgInfo.py:131-137 | a fresh display name is the package name, str-capitalized, without ":i386" |
| PkgInfo.AptDisplayNameFromName | usr/lib/python3/dist-packages/mintcommon/installer/pkgInfo.py:134-137 | without the apt package, a name with no ":i386" becomes its str-capitalized self |
| PkgInfo.AptSummaryFound | usr/lib/python3/dist-packages/mintcommon/installer/pkgInfo.py:146-153 | a summary is found exactly when the package has a candidate with a summary |
| PkgInfo.AptDescriptionFound | usr/lib/python3/dist-packages/mintcommon/installer/pkgInfo.py:165-175 | a description is found exactly when the package has a candidate with a description |
| PkgInfo.AptDescriptionPlain | usr/lib/python3/dist-packages/mintcommon/installer/pkgInfo.py:160-180 | without a candidate the description is ""; a plain-text description comes back capitalized and otherwise unchanged |
| PkgInfo.AptVersionFound | usr/lib/python3/dist-packages/mintcommon/installer/pkgInfo.py:217-221 | the lookup raises exactly when the package is neither installed nor has a candidate |
| PkgInfo.AptVersionOf | usr/lib/python3/dist-packages/mintcommon/installer/pkgInfo.py:213-241 | the memo first; the call raises exactly when nothing is cached and the package has neither version; otherwise the installed version's field, else the candidate's |
| PkgInfo.FirstIn | usr/lib/python3/dist-packages/mintcommon/installer/pkgInfo.py:190-206 | the first candidate that is in the set; none exactly when no candidate is |
| PkgInfo.FirstInIsFirst | usr/lib/python3/dist-packages/mintcommon/installer/pkgInfo.py:190-206 | every candidate before the one found is outside the set |
| PkgInfo.AptIcon | usr/lib/python3/dist-packages/mintcommon/installer/pkgInfo.py:182-208 | the lookup raises exactly when the size is not cached and the record has no name |
| PkgInfo.AptIconChoice | usr/lib/python3/dist-packages/mintcommon/installer/pkgInfo.py:188-208 | an uncached icon is a theme name when one exists, otherwise an existing icon file; none exactly when neither exists |
| PkgInfo.FpDisplayNameFound | usr/lib/python3/dist-packages/mintcommon/installer/pkgInfo.py:333-337 | a display name is found exactly when the component has a name |
| PkgInfo.FpDisplayNameFallback | usr/lib/python3/dist-packages/mintcommon/installer/pkgInfo.py:328-345 | a truthy display name is returned untouched; without one the cached name, else the bare name, stands in |
| PkgInfo.FpDescriptionFoundAsWritten | usr/lib/python3/dist-packages/mintcommon/installer/pkgInfo.py:371-379 | as written: a conversion error of a present description raises NameError, and nothing else does |
| PkgInfo.DescriptionConversionErrorAsWritten | usr/lib/python3/dist-packages/mintcommon/installer/pkgInfo.py:377 | a component whose description fails to convert makes the getter as written raise |
| PkgInfo.FpDescriptionFound | usr/lib/python3/dist-packages/mintcommon/installer/pkgInfo.py:371-379 | as intended: the converted text, or the raw description when conversion fails; found exactly when a description exists |
| PkgInfo.DescriptionCorrection | usr/lib/python3/dist-packages/mintcommon/installer/pkgInfo.py:371-379 | the corrected getter agrees with the as-written one wherever that one does not raise |
| PkgInfo.NewestRelease | usr/lib/python3/dist-packages/mintcommon/installer/pkgInfo.py:472-474 | the index of a release with the greatest timestamp, the first among equals, as a stable descending sort puts first |
| PkgInfo.FpVersionFound | usr/lib/python3/dist-packages/mintcommon/installer/pkgInfo.py:472-477 | a found version is truthy and is the version of one of the releases |
| PkgInfo.FpScanMeaning | usr/lib/python3/dist-packages/mintcommon/installer/pkgInfo.py:401-417 | the scan's good icon is the first usable icon of good size; without one, the last usable icon and the last remote icon |
| PkgInfo.FpPickPreferred | usr/lib/python3/dist-packages/mintcommon/installer/pkgInfo.py:419 | the icon used is the preferred one: the first good-size local icon, else the last existing local icon, else the last remote icon |
| PkgInfo.FlathubUrl | usr/lib/python3/dist-packages/mintcommon/installer/pkgInfo.py:426-428 | absolute URLs and URLs of other remotes are kept |
| PkgInfo.FlathubUrlAbsolute | usr/lib/python3/dist-packages/mintcommon/installer/pkgInfo.py:427-428 | every remote icon URL of a flathub package is absolute |
| PkgInfo.FpIconStored | usr/lib/python3/dist-packages/mintcommon/installer/pkgInfo.py:392-433 | an icon is stored only when the component has icons |
| PkgInfo.FpIconOf | usr/lib/python3/dist-packages/mintcommon/installer/pkgInfo.py:386-444 | a cached size is returned as it is; without component icons the cached_icon entry is returned |
| PkgInfo.CachedLookup | usr/lib/python3/dist-packages/mintcommon/installer/pkgInfo.py:438-444 | the cached_icon lookup: None without one; the dict's entry; for a stored string, one character of it exactly when the size is a valid Python index |
| PkgInfo.CachedTextIndexed | usr/lib/python3/dist-packages/mintcommon/installer/pkgInfo.py:438-444 | after add_cached_ascomp_data stored a path longer than 64 characters, get_icon at 64 without a component returns its 65th character, not the path |
| PkgInfo.AsCachedIcon | usr/lib/python3/dist-packages/mintcommon/installer/pkgInfo.py:325 | add_cached_ascomp_data stores None for a None icon and the icon string otherwise |
| PkgInfo.FpIconPreferred | usr/lib/python3/dist-packages/mintcommon/installer/pkgInfo.py:392-433 | an uncached icon is the preferred icon's file (and that file exists), its URL for a remote one, or the package name when nothing is preferred |
| PkgInfo.IconsToJson | usr/lib/python3/dist-packages/mintcommon/installer/pkgInfo.py:114-124 | json.dump writes every icon under its size's decimal text, in order |
| PkgInfo.PopEncoded | usr/lib/python3/dist-packages/mintcommon/installer/pkgInfo.py:103-110 | popping a written icon table with distinct sizes restores every item, in reverse order |
| PkgInfo.AptFromJson | usr/lib/python3/dist-packages/mintcommon/installer/pkgInfo.py:95-112 | a record is read only from an object |
| PkgInfo.AptJsonRoundTrip | usr/lib/python3/dist-packages/mintcommon/installer/pkgInfo.py:95-124 | `AptJson`: from_json(to_json()) restores every saved attribute when the icon sizes are distinct; the icon table comes back in reverse order |
| PkgInfo.ReversedLookup | usr/lib/python3/dist-packages/mintcommon/installer/pkgInfo.py:106-108 | a reversed icon table maps every size as the original does |
| PkgInfo.FlatpakJson | usr/lib/python3/dist-packages/mintcommon/installer/pkgInfo.py:297-320 | to_json always writes an object (its members are stated by FixedKeys, OptionalFields and FlatpakJsonRoundTrip) |
| PkgInfo.FlatpakPkgInfo.ToJson | usr/lib/python3/dist-packages/mintcommon/installer/pkgInfo.py:297-320 | from_json reads back what to_json writes: the saved attributes, the memoized display name and summary as the cached ones, and the last icon |
| PkgInfo.FixedKeys | usr/lib/python3/dist-packages/mintcommon/installer/pkgInfo.py:298-311 | the always-written members carry the eleven keys, in order |
| PkgInfo.FlatpakFromJson | usr/lib/python3/dist-packages/mintcommon/installer/pkgInfo.py:266-295 | a record is read only from an object |
| PkgInfo.FlatpakJsonRoundTrip | usr/lib/python3/dist-packages/mintcommon/installer/pkgInfo.py:266-320 | from_json(to_json()) restores the eleven attributes; the display name and summary come back as cached_display_name and cached_summary, and the last icon as cached_icon |
| PkgInfo.SavedRoundTrip | usr/lib/python3/dist-packages/mintcommon/installer/pkgInfo.py:268-279 | the eleven always-written attributes read back unchanged |
| PkgInfo.OptionalFields | usr/lib/python3/dist-packages/mintcommon/installer/pkgInfo.py:281-294 | cached_display_name and cached_summary read back as written, None when not written; cached_icon is written exactly when the icon table is not empty |
| PkgInfo.FlatpakRoundTripDisplayName | usr/lib/python3/dist-packages/mintcommon/installer/pkgInfo.py:339-343 | after a round trip, a record without a component shows the saved display name, or its name when none was saved |
| PkgInfo.AptPkgInfo.constructor | usr/lib/python3/dist-packages/mintcommon/installer/pkgInfo.py:81-93 | the defaults; with a package, the name, the display name, the summary and the 48 and 64 pixel icons |
| PkgInfo.AptPkgInfo.Load | usr/lib/python3/dist-packages/mintcommon/installer/pkgInfo.py:88-93 | the apt part of the constructor sets the name, display name, summary and two icons |
| PkgInfo.AptPkgInfo.FromJson | usr/lib/python3/dist-packages/mintcommon/installer/pkgInfo.py:95-112 | loading fails exactly when the reference reading fails; otherwise a fresh record holds the saved attributes |
| PkgInfo.AptPkgInfo.Restored | usr/lib/python3/dist-packages/mintcommon/installer/pkgInfo.py:97-101 | a fresh record holding exactly the given attributes |
| PkgInfo.AptPkgInfo.PopAll | usr/lib/python3/dist-packages/mintcommon/installer/pkgInfo.py:103-110 | the popitem() loop computes the reference popping of the icon table, which PopEncoded relates to the written table |
| PkgInfo.AptPkgInfo.GetDisplayName | usr/lib/python3/dist-packages/mintcommon/installer/pkgInfo.py:126-139 | returns the reference display name and stores it |
| PkgInfo.AptPkgInfo.GetSummary | usr/lib/python3/dist-packages/mintcommon/installer/pkgInfo.py:141-158 | returns the memoized summary or "" and stores it |
| PkgInfo.AptPkgInfo.GetDescription | usr/lib/python3/dist-packages/mintcommon/installer/pkgInfo.py:160-180 | returns the memoized description or "" and stores it |
| PkgInfo.CleanDescriptionPlain | usr/lib/python3/dist-packages/mintcommon/installer/pkgInfo.py:169-172 | `CleanDescription`: a description without "<" comes out of the tag clean-up unchanged |
| PkgInfo.AptPkgInfo.GetVersion | usr/lib/python3/dist-packages/mintcommon/installer/pkgInfo.py:213-226 | returns the reference version and stores it; a raising call stores nothing |
| PkgInfo.AptPkgInfo.GetHomepageUrl | usr/lib/python3/dist-packages/mintcommon/installer/pkgInfo.py:228-241 | returns the reference homepage and stores it; a raising call stores nothing |
| PkgInfo.AptPkgInfo.GetIcon | usr/lib/python3/dist-packages/mintcommon/installer/pkgInfo.py:182-208 | returns the reference icon choice and stores it under the size when one is found |
| PkgInfo.ScanIcons | usr/lib/python3/dist-packages/mintcommon/installer/pkgInfo.py:401-417 | the icon loop computes the good-size, last usable local and last remote icons of the reference scan |
| PkgInfo.FlatpakPkgInfo.constructor | usr/lib/python3/dist-packages/mintcommon/installer/pkgInfo.py:247-264 | the defaults; with a hash, the ref's name, format, kind, arch, branch and commit, the remote, its URL and the installed flag |
| PkgInfo.FlatpakPkgInfo.FromJson | usr/lib/python3/dist-packages/mintcommon/installer/pkgInfo.py:266-295 | loading fails exactly when the reference reading fails; otherwise a fresh record holds what it read, with nothing memoized |
| PkgInfo.FlatpakPkgInfo.Restored | usr/lib/python3/dist-packages/mintcommon/installer/pkgInfo.py:268-294 | a fresh record holding exactly the loaded attributes |
| PkgInfo.FlatpakPkgInfo.RestoreCached | usr/lib/python3/dist-packages/mintcommon/installer/pkgInfo.py:281-294 | sets the three cached_* attributes, leaving the saved ones |
| PkgInfo.FlatpakPkgInfo.RestoreSaved | usr/lib/python3/dist-packages/mintcommon/installer/pkgInfo.py:268-279 | sets the eleven saved attributes |
| PkgInfo.FlatpakPkgInfo.GetDisplayName | usr/lib/python3/dist-packages/mintcommon/installer/pkgInfo.py:328-345 | stores the memoized display name and returns it or its fallback |
| PkgInfo.FlatpakPkgInfo.GetSummary | usr/lib/python3/dist-packages/mintcommon/installer/pkgInfo.py:347-364 | stores the memoized summary and returns it, the cached summary, or "" |
| PkgInfo.FlatpakPkgInfo.GetDescription | usr/lib/python3/dist-packages/mintcommon/installer/pkgInfo.py:366-384 | stores the memoized description (corrected, see Findings) and returns it or "" |
| PkgInfo.FlatpakPkgInfo.GetVersion | usr/lib/python3/dist-packages/mintcommon/installer/pkgInfo.py:459-482 | stores the memoized version and returns it or "" |
| PkgInfo.FlatpakPkgInfo.GetHomepageUrl | usr/lib/python3/dist-packages/mintcommon/installer/pkgInfo.py:484-497 | stores the memoized homepage and returns it or "" |
| PkgInfo.FlatpakPkgInfo.GetHelpUrl | usr/lib/python3/dist-packages/mintcommon/installer/pkgInfo.py:499-512 | stores the memoized help URL and returns it or "" |
| PkgInfo.FlatpakPkgInfo.GetIcon | usr/lib/python3/dist-packages/mintcommon/installer/pkgInfo.py:386-444 | returns the reference icon and stores under the size what the component offers |
| PkgInfo.FlatpakPkgInfo.AddCachedAscompData | usr/lib/python3/dist-packages/mintcommon/installer/pkgInfo.py:322-326 | the display name and summary become cached_display_name and cached_summary; the icon table gains what get_icon stores at 48; it raises exactly when that lookup does, leaving cached_icon and developer as they were, and otherwise cached_icon is the 48 pixel icon string (None stays None) and the developer the project group |
| PkgInfo.FlatpakPkgInfo.CacheTexts | usr/lib/python3/dist-packages/mintcommon/installer/pkgInfo.py:323-324 | the display-name and summary half of add_cached_ascomp_data |
| PkgInfo.FlatpakPkgInfo.CacheIcon | usr/lib/python3/dist-packages/mintcommon/installer/pkgInfo.py:325-326 | the icon half: the icon table gains what get_icon stores at 48; on success cached_icon is the 48 pixel icon string (or None) and developer the project group; on error neither changes |
| Tasks.ErrorText | usr/lib/python3/dist-packages/mintcommon/installer/installer.py:164-167 | the error's message attribute when it has one, otherwise its string form |
| Tasks.CleanupFor | usr/lib/python3/dist-packages/mintcommon/installer/_apt.py:247-250 | the error cleanup is chosen exactly when the task holds a non-empty error message |
| Tasks.InstallerTask.constructor | usr/lib/python3/dist-packages/mintcommon/installer/installer.py:40-141 | a new task is an install task with status NONE, the default handlers, empty change lists, zero sizes and a fresh uncancelled cancellable; with a pkginfo it copies its name, and an apt hash gives empty arch, branch and remote while any other hash copies them |
| Tasks.InstallerTask.SetVersion | usr/lib/python3/dist-packages/mintcommon/installer/installer.py:143-149 | an install task shows the pending version, any other task the installed one |
| Tasks.InstallerTask.HandleError | usr/lib/python3/dist-packages/mintcommon/installer/installer.py:163-179 | records the error text; it goes to the info-error callback exactly at the information stage with such a callback, and to a dialog otherwise |
| Tasks.InstallerTask.ChangeCount | usr/lib/python3/dist-packages/mintcommon/installer/_flatpak.py:655 | the number of pending changes is zero exactly when all three change lists are empty |
| Apt.CapitalizeText | usr/lib/python3/dist-packages/mintcommon/installer/_apt.py:24-28 | the apt module's capitalize agrees with the package-record helper on every string |
| Apt.AddPrefix | usr/lib/python3/dist-packages/mintcommon/installer/_apt.py:43-44 | a package hash is "apt:" followed by the name |
| Apt.AddPrefixInjective | usr/lib/python3/dist-packages/mintcommon/installer/_apt.py:43-57 | two names get the same hash exactly when they are equal |
| Apt.GetRealErrorAsWritten | usr/lib/python3/dist-packages/mintcommon/installer/_apt.py:46-51 | as written: a PackageKit error enum exactly for codes above 255, with 255 subtracted; any other code is a client error as it is |
| Apt.GetRealError | usr/lib/python3/dist-packages/mintcommon/installer/_apt.py:46-51 | as intended: an error enum exactly for codes of 0xFF or more, read as on_transaction_error reads them |
| Apt.GetRealErrorDecodes | usr/lib/python3/dist-packages/mintcommon/installer/_apt.py:213-217 | decoding inverts PackageKit's encoding of every error enum and every client error below 0xFF |
| Apt.GetRealErrorBoundaryAsWritten | usr/lib/python3/dist-packages/mintcommon/installer/_apt.py:46-51 | the encoding of error enum 0 is 255, which the function as written reads as a client error and on_transaction_error reads as enum 0 |
| Apt.GetRealErrorOnlyBoundary | usr/lib/python3/dist-packages/mintcommon/installer/_apt.py:46-51 | the two readings differ on exactly one code, 255 |
| Apt.NoExcludedSuffix | usr/lib/python3/dist-packages/mintcommon/installer/_apt.py:75-94 | a name whose last character ends none of the excluded suffixes ends with none of them |
| Apt.LibraryKept | usr/lib/python3/dist-packages/mintcommon/installer/_apt.py:71 | a kept lib prefix such as libk3b7 passes the name filter |
| Apt.NameExcludedExamples | usr/lib/python3/dist-packages/mintcommon/installer/_apt.py:71-74 | an ordinary lib package and an i386 package other than steam are filtered out |
| Apt.SectionOfPlain | usr/lib/python3/dist-packages/mintcommon/installer/_apt.py:120-123 | `SectionOf`: a section without "/" is used whole |
| Apt.SectionOfParts | usr/lib/python3/dist-packages/mintcommon/installer/_apt.py:120-121 | `SectionOf`: a section with "/" is its second part, whatever follows a second "/" |
| Apt.SectionAfterSlash | usr/lib/python3/dist-packages/mintcommon/installer/_apt.py:120-121 | in general the section is the text after the first "/" up to the next one |
| Apt.AddToSection | usr/lib/python3/dist-packages/mintcommon/installer/_apt.py:125 | setdefault(...).append adds the hash at the end of that section's list, creating the list when missing |
| Apt.AddToSectionOther | usr/lib/python3/dist-packages/mintcommon/installer/_apt.py:125 | the other sections are unchanged |
| Apt.KeptFlagAt | usr/lib/python3/dist-packages/mintcommon/installer/_apt.py:67-115 | `Skipped`: a package is kept exactly when none of the scan's skip conditions holds for it |
| Apt.MakePkgHash | usr/lib/python3/dist-packages/mintcommon/installer/_apt.py:43-58 | an apt hash is "apt:" followed by the package name, so the name can be read back from it |
| Apt.SectionsListKept | usr/lib/python3/dist-packages/mintcommon/installer/_apt.py:67-125 | a hash is listed under a section exactly when some kept package has that hash and that parsed section |
| Apt.NewAptInfo | usr/lib/python3/dist-packages/mintcommon/installer/_apt.py:127 | the record made for a kept package has its hash and its name |
| Apt.StoreApt | usr/lib/python3/dist-packages/mintcommon/installer/_apt.py:127 | storing the record keeps the scan invariant with one more hash |
| Apt.ScanStep | usr/lib/python3/dist-packages/mintcommon/installer/_apt.py:67-127 | one iteration of the scan keeps the invariant on the sections and the stored records, one package further |
| Apt.ProcessFullAptCache | usr/lib/python3/dist-packages/mintcommon/installer/_apt.py:59-131 | the sections are those of the kept packages, every kept hash holds a new record for its name, and every other key of the cache is unchanged |
| Apt.AptIsInstalledFirst | usr/lib/python3/dist-packages/mintcommon/installer/_apt.py:143-151 | `AptIsInstalled`: a package counts as installed exactly when the first package of that name has an installed version; a missing name or package is not installed |
| Apt.ErrorStatus | usr/lib/python3/dist-packages/mintcommon/installer/_apt.py:227-234 | a system-package code or a critical name forbids the task; a status other than NONE is otherwise kept; NONE becomes BROKEN exactly on a failed dependency resolution and UNKNOWN otherwise |
| Apt.OfInfo | usr/lib/python3/dist-packages/mintcommon/installer/_apt.py:305-316 | the changes of one kind are sack packages of that kind |
| Apt.SplitSpace | usr/lib/python3/dist-packages/mintcommon/installer/_apt.py:324-331 | install and freed sizes are non-negative, one of them is zero, and their difference is the net space |
| Apt.Tally | usr/lib/python3/dist-packages/mintcommon/installer/_apt.py:290-316 | the sack loop computes the changes of each kind and the added and freed sizes, each from `CalcSpace`, of the reference functions |
| Apt.FindCritical | usr/lib/python3/dist-packages/mintcommon/installer/_apt.py:333-355 | `IsCritical`: finds a critical package in the list exactly when the list has one: its first version required or its name critical, and never one without versions |
| Apt.RecordSimulation | usr/lib/python3/dist-packages/mintcommon/installer/_apt.py:277-331 | records the request, appends each kind's changes to its list, takes the simulated download size and splits the net space |
| Apt.SettleStatus | usr/lib/python3/dist-packages/mintcommon/installer/_apt.py:333-344 | a critical removal forbids the task; otherwise FORBIDDEN and BROKEN stay, and any other status becomes OK with the apt handlers |
| Apt.MetaTransaction.constructor | usr/lib/python3/dist-packages/mintcommon/installer/_apt.py:162-169 | a new transaction for the task, simulating, with a zero simulated download size |
| Apt.MetaTransaction.OnTransactionError | usr/lib/python3/dist-packages/mintcommon/installer/_apt.py:206-236 | a declined simulation, an authorization failure or a cancelled task changes nothing; any other error sets the status by ErrorStatus and is handled, at the information stage exactly while simulating |
| Apt.MetaTransaction.OnTransactionFinished | usr/lib/python3/dist-packages/mintcommon/installer/_apt.py:238-250 | the error cleanup runs exactly when the task holds an error message |
| Apt.MetaTransaction.OnTransactionProgress | usr/lib/python3/dist-packages/mintcommon/installer/_apt.py:252-262 | while simulating, a remaining-download report raises the simulated size to the larger value; it never decreases |
| Apt.MetaTransaction.DoSimulateQuestion | usr/lib/python3/dist-packages/mintcommon/installer/_apt.py:272-346 | a cancelled task declines once and changes nothing else; otherwise the simulation is recorded and the status settled |
| Apt.MetaTransaction.ConfirmTransaction | usr/lib/python3/dist-packages/mintcommon/installer/_apt.py:357-366 | `NeedsDialog`: asks the dialog exactly for more than one install or removal, or any update; otherwise confirms |
| Apt.MetaTransaction.CancelTransaction | usr/lib/python3/dist-packages/mintcommon/installer/_apt.py:368-373 | cancels the task; a pending request is declined once and cleared |
| Flatpak.Title | usr/lib/python3/dist-packages/mintcommon/installer/_flatpak.py:39 | str.title() keeps the length |
| Flatpak.TitleLetters | usr/lib/python3/dist-packages/mintcommon/installer/_flatpak.py:39 | title-casing changes only letters, and keeps which characters are letters |
| Flatpak.TitleIdempotent | usr/lib/python3/dist-packages/mintcommon/installer/_flatpak.py:39 | title-casing a title-cased text changes nothing |
| Flatpak.TitleWords | usr/lib/python3/dist-packages/mintcommon/installer/_flatpak.py:39 | title-casing goes word by word across any non-letter |
| Flatpak.UntitledHasNoDash | usr/lib/python3/dist-packages/mintcommon/installer/_flatpak.py:36-39 | `RemoteTitle`: a remote without a title gets one made from its name, with no "-" left |
| Flatpak.TitledIgnoresName | usr/lib/python3/dist-packages/mintcommon/installer/_flatpak.py:36-39 | `RemoteTitle`: a remote's own title, title-cased, decides its title whatever its name |
| Flatpak.FromRemote | usr/lib/python3/dist-packages/mintcommon/installer/_flatpak.py:28-39 | FlatpakRemoteInfo(remote) copies the name, comment, URL and both flags, and takes its title from the remote's title or name |
| Flatpak.BoolField | usr/lib/python3/dist-packages/mintcommon/installer/_flatpak.py:55-56 | a flag is read only from a JSON boolean |
| Flatpak.RemoteInfoFromJson | usr/lib/python3/dist-packages/mintcommon/installer/_flatpak.py:48-58 | from_json reads back the name, title, URL and the two flags, and leaves the summary None |
| Flatpak.RemoteInfoJsonRoundTrip | usr/lib/python3/dist-packages/mintcommon/installer/_flatpak.py:48-61 | `RemoteInfoToJson`: from_json(to_json()) restores every attribute but the summary, which comes back None |
| Flatpak.HashIsFlatpak | usr/lib/python3/dist-packages/mintcommon/installer/_flatpak.py:79-86 | `MakePkgHash`: a Flatpak hash starts with "fp:" and so never with the apt prefix "a" |
| Flatpak.HashInjective | usr/lib/python3/dist-packages/mintcommon/installer/_flatpak.py:79-86 | `MakePkgHash`: for remote names without ":", equal hashes mean the same remote and the same ref |
| Flatpak.StripSlash | usr/lib/python3/dist-packages/mintcommon/installer/_flatpak.py:98-99 | a URL less its one trailing "/" is a prefix of the URL |
| Flatpak.LastNamedNone | usr/lib/python3/dist-packages/mintcommon/installer/_flatpak.py:96-104 | `LastNamed`: no name is found exactly when no remote's stripped URL equals the URL |
| Flatpak.LastNamedSome | usr/lib/python3/dist-packages/mintcommon/installer/_flatpak.py:96-104 | `LastNamed`: a found name is that of a matching remote after which no remote matches |
| Flatpak.RemoteNameByUrl | usr/lib/python3/dist-packages/mintcommon/installer/_flatpak.py:88-104 | a failed remote listing gives None; otherwise the name of the last remote whose stripped URL matches |
| Flatpak.FilterListed | usr/lib/python3/dist-packages/mintcommon/installer/_flatpak.py:130-146 | a listed ref is kept exactly when it is an app of the arch, not a BaseApp or BaseExtension, and not end-of-life |
| Flatpak.ListedRefs | usr/lib/python3/dist-packages/mintcommon/installer/_flatpak.py:106-148 | a disabled or no-enumerate remote, or a failed ref listing, adds no ref; otherwise exactly the kept refs |
| Flatpak.InstalledFrom | usr/lib/python3/dist-packages/mintcommon/installer/_flatpak.py:184-188 | the installed refs a remote's pass adds are exactly those whose origin is that remote |
| Flatpak.ScannedRefsMeaning | usr/lib/python3/dist-packages/mintcommon/installer/_flatpak.py:177-192 | a ref is scanned exactly when some remote's pass lists it or has it installed |
| Flatpak.MarkedRefsMeaning | usr/lib/python3/dist-packages/mintcommon/installer/_flatpak.py:183-188 | a ref is marked installed exactly when it is installed and its origin is one of the remotes |
| Flatpak.InfosOfKeys | usr/lib/python3/dist-packages/mintcommon/installer/_flatpak.py:192 | a remote description is kept for exactly the names of the remotes |
| Flatpak.InfosOfLast | usr/lib/python3/dist-packages/mintcommon/installer/_flatpak.py:192 | the description kept under a name is that of the last remote of that name |
| Flatpak.NewFpInfo | usr/lib/python3/dist-packages/mintcommon/installer/_flatpak.py:164 | the record made for a ref has its hash, name, remote, URL, ref string and installed flag |
| Flatpak.AddPackageToCache | usr/lib/python3/dist-packages/mintcommon/installer/_flatpak.py:150-167 | an existing entry is kept and returned, and only ever marked installed, never unmarked; a missing one is added as a new record for the hash with the ref's name, remote, ref string and the URL passed |
| Flatpak.ProcessRemote | usr/lib/python3/dist-packages/mintcommon/installer/_flatpak.py:106-148 | the pass over a remote keeps every existing entry and adds, for each further hash among the kept refs, an unmarked record built from the first of them with that hash and the remote's URL |
| Flatpak.ListStep | usr/lib/python3/dist-packages/mintcommon/installer/_flatpak.py:130-146 | one iteration of the ref loop keeps the pass invariant one ref further |
| Flatpak.ListRef | usr/lib/python3/dist-packages/mintcommon/installer/_flatpak.py:146 | adding one listed ref keeps the pass invariant |
| Flatpak.MarkRef | usr/lib/python3/dist-packages/mintcommon/installer/_flatpak.py:187-188 | adding one installed ref stores or marks a record for its hash, unmarks nothing, and in a table of Flatpak records for their hashes marks no record of another hash |
| Flatpak.MarkInstalled | usr/lib/python3/dist-packages/mintcommon/installer/_flatpak.py:183-190 | the installed-refs loop stores or marks a record for every installed ref from the remote, unmarks nothing, and in a table of Flatpak records for their hashes leaves every other record's flag as it was |
| Flatpak.MarkStep | usr/lib/python3/dist-packages/mintcommon/installer/_flatpak.py:184-188 | one iteration of the installed-refs loop keeps the marked records marked and the others unmarked, one ref further |
| Flatpak.ScanRemote | usr/lib/python3/dist-packages/mintcommon/installer/_flatpak.py:178-192 | one remote's pass extends the scan invariant by that remote: the keys, the record of each key, and which records are marked |
| Flatpak.ListPass | usr/lib/python3/dist-packages/mintcommon/installer/_flatpak.py:179 | the listing half of a remote's pass leaves the marked records those of the installed refs so far, and each key holding the record of its first origin in the scan including this remote |
| Flatpak.MarkFrom | usr/lib/python3/dist-packages/mintcommon/installer/_flatpak.py:186-188 | an installed ref from the remote is stored or marked and every record not yet marked for a hash stays unmarked |
| Flatpak.FirstRefSnoc | usr/lib/python3/dist-packages/mintcommon/installer/_flatpak.py:150-167 | one more ref keeps the first ref of every hash already present, and is the first ref of its own hash when that hash is new |
| Flatpak.ScannedFlag | usr/lib/python3/dist-packages/mintcommon/installer/_flatpak.py:183-188 | in the scanned cache a record is marked installed exactly when an installed ref with its hash has one of the remotes as its origin |
| Flatpak.FirstRef | usr/lib/python3/dist-packages/mintcommon/installer/_flatpak.py:150-167 | the first ref of a list with a given hash exists exactly when the hash is among the list's, is in the list and has that hash |
| Flatpak.FirstRefConcat | usr/lib/python3/dist-packages/mintcommon/installer/_flatpak.py:150-167 | in two lists one after the other, the first ref of a hash is the first list's when it has one, otherwise the second's |
| Flatpak.Origin | usr/lib/python3/dist-packages/mintcommon/installer/_flatpak.py:177-192 | the ref and remote URL a scan first stores under a hash exist exactly when the hash is among the scan's, and the ref has that hash |
| Flatpak.ExtendsKept | usr/lib/python3/dist-packages/mintcommon/installer/_flatpak.py:154-160 | a ref whose hash is already stored adds nothing to a pass |
| Flatpak.ExtendsNew | usr/lib/python3/dist-packages/mintcommon/installer/_flatpak.py:162-164 | a ref whose hash is not stored yet adds the record built for it |
| Flatpak.ExtendsAllFp | usr/lib/python3/dist-packages/mintcommon/installer/_flatpak.py:150-167 | a pass over a table of Flatpak records for their hashes leaves one |
| Flatpak.RecordsApart | usr/lib/python3/dist-packages/mintcommon/installer/_flatpak.py:150-167 | in a table of Flatpak records for their hashes, the record under one hash is stored under no other |
| Flatpak.ScannedAllFp | usr/lib/python3/dist-packages/mintcommon/installer/_flatpak.py:177-192 | a scanned table holds Flatpak records for their hashes only |
| Flatpak.ListedMarks | usr/lib/python3/dist-packages/mintcommon/installer/_flatpak.py:106-148 | the listing pass keeps which records are marked installed, its own records unmarked |
| Flatpak.MarkPass | usr/lib/python3/dist-packages/mintcommon/installer/_flatpak.py:182-190 | the installed half of a pass adds nothing when list_installed_refs raises; otherwise the marked records are those marked before and those of the installed refs from the remote |
| Flatpak.ListedRecords | usr/lib/python3/dist-packages/mintcommon/installer/_flatpak.py:179 | after the listing half of a pass, every key holds the record of its first origin in the scan so far |
| Flatpak.InstalledRecords | usr/lib/python3/dist-packages/mintcommon/installer/_flatpak.py:182-188 | after the installed half, the keys are those of the scan including this remote and each holds the record of its first origin |
| Flatpak.ScanKeys | usr/lib/python3/dist-packages/mintcommon/installer/_flatpak.py:177-192 | the hashes of the scan grow pass by pass, the listed refs before the installed ones |
| Flatpak.ProcessFullFlatpakInstallation | usr/lib/python3/dist-packages/mintcommon/installer/_flatpak.py:169-200 | a failed remote listing gives an empty cache and no descriptions; otherwise the cache holds exactly the hashes of the scanned refs, under each the record built for the first ref with that hash and the URL of the remote whose pass met it, marked installed exactly when an installed ref from one of the remotes has that hash, plus one description per remote name |
| Flatpak.RemoteInfos | usr/lib/python3/dist-packages/mintcommon/installer/_flatpak.py:192 | the descriptions collected remote by remote are those of the reference table |
| Flatpak.AddRemoteInfo | usr/lib/python3/dist-packages/mintcommon/installer/_flatpak.py:192 | one more remote adds its description |
| Flatpak.ScanStep | usr/lib/python3/dist-packages/mintcommon/installer/_flatpak.py:177-192 | one iteration of the remote loop keeps the whole scan invariant (keys, records, marks) one remote further |
| Flatpak.WithRefNoDup | usr/lib/python3/dist-packages/mintcommon/installer/_flatpak.py:696-704 | adding a ref keeps a list free of equal ref strings and leaves the ref in it |
| Flatpak.WithRefIdempotent | usr/lib/python3/dist-packages/mintcommon/installer/_flatpak.py:696-704 | adding the same ref twice is adding it once |
| Flatpak.AddToList | usr/lib/python3/dist-packages/mintcommon/installer/_flatpak.py:696-704 | the list is unchanged when it holds a ref with the same string; otherwise the ref is appended |
| Flatpak.GatherTotals | usr/lib/python3/dist-packages/mintcommon/installer/_flatpak.py:595-628 | the operation loop fails exactly when an uninstall or update cannot find its installed ref; otherwise the download total adds the install and update downloads and the disk total adds installs, subtracts uninstalls and adds the update differences |
| Flatpak.OpStepNoDup | usr/lib/python3/dist-packages/mintcommon/installer/_flatpak.py:604-628 | one operation keeps the three change lists free of duplicate refs |
| Flatpak.GatherNoDup | usr/lib/python3/dist-packages/mintcommon/installer/_flatpak.py:595-628 | the whole loop keeps the three change lists free of duplicate refs |
| Flatpak.Collect | usr/lib/python3/dist-packages/mintcommon/installer/_flatpak.py:595-628 | the operation loop computes the reference fold of the operations |
| Flatpak.SingleChangeNeverAsks | usr/lib/python3/dist-packages/mintcommon/installer/_flatpak.py:736-737 | `NeedsConfirmation`: installing or removing a single ref never asks for confirmation |
| Flatpak.UpdateConfirmation | usr/lib/python3/dist-packages/mintcommon/installer/_flatpak.py:738-740 | `NeedsConfirmation`: updating exactly the chosen refs never asks; updating everything always asks |
| Flatpak.RecordReady | usr/lib/python3/dist-packages/mintcommon/installer/_flatpak.py:630-660 | the download size is set, a positive disk total becomes the install size and any other its absolute value as the freed size, and the task is OK with the Flatpak handlers |
| Flatpak.FlatpakTransaction.constructor | usr/lib/python3/dist-packages/mintcommon/installer/_flatpak.py:405-413 | a new transaction is not ready, has no operation error and counts zero items |
| Flatpak.FlatpakTransaction.OnTransactionError | usr/lib/python3/dist-packages/mintcommon/installer/_flatpak.py:520-534 | without an operation error, an aborted or cancelled transaction changes nothing; otherwise a NONE status becomes UNKNOWN and the operation error, when ready and recorded, else the error, is handled, at the information stage exactly before the transaction is ready |
| Flatpak.FlatpakTransaction.OnTransactionFinished | usr/lib/python3/dist-packages/mintcommon/installer/_flatpak.py:536-546 | an update with an operation error reports that error; the error cleanup runs exactly when the task then holds an error message |
| Flatpak.FlatpakTransaction.OperationError | usr/lib/python3/dist-packages/mintcommon/installer/_flatpak.py:564-577 | a cancelled operation records nothing and stops; otherwise the error is recorded and the transaction goes on exactly for an update task |
| Flatpak.FlatpakTransaction.OperationDone | usr/lib/python3/dist-packages/mintcommon/installer/_flatpak.py:579-584 | each finished operation is counted |
| Flatpak.FlatpakTransaction.OnTransactionReady | usr/lib/python3/dist-packages/mintcommon/installer/_flatpak.py:586-668 | the transaction is ready; a failed lookup marks the task BROKEN and handles the error at the information stage; otherwise the sizes are recorded, the item count is the number of changes, the task is OK, and it proceeds exactly when not cancelled |
| Flatpak.FlatpakTransaction.ConfirmTransaction | usr/lib/python3/dist-packages/mintcommon/installer/_flatpak.py:722-749 | no pending work is refused; additional changes ask the dialog; anything else is confirmed |
| Flatpak.FlatpakTransaction.CancelTransaction | usr/lib/python3/dist-packages/mintcommon/installer/_flatpak.py:751-753 | cancels the task |
| Flatpak.FirstMatchMeaning | usr/lib/python3/dist-packages/mintcommon/installer/_flatpak.py:845-854 | the entry found matches the name (and the remote, when one is given) and no earlier entry does; nothing is found exactly when nothing matches |
| Flatpak.FindPkginfo | usr/lib/python3/dist-packages/mintcommon/installer/_flatpak.py:845-854 | the search returns the first matching entry of the Flatpak subset |
| Flatpak.UpdatedOfMeaning | usr/lib/python3/dist-packages/mintcommon/installer/_flatpak.py:827-833 | an entry is listed exactly when it is the cache's entry for a ref with an update; the list is no longer than the refs |
| Flatpak.ListUpdatedPkginfos | usr/lib/python3/dist-packages/mintcommon/installer/_flatpak.py:816-835 | a failed update listing gives []; otherwise the cached entries of the refs with updates, in their order |
| Cache.BestLoadPath | usr/lib/python3/dist-packages/mintcommon/installer/cache.py:148-185 | a custom path loads nothing; nothing is loaded when neither file is present, fresh (within MAX_AGE) and, for the system file, readable; the system file is chosen only when it qualifies and is newer than a qualifying user file, the user file only when it qualifies and is at least as new; a qualifying file with a positive time always gives a path |
| Cache.UsableMtime | usr/lib/python3/dist-packages/mintcommon/installer/cache.py:153-170 | a file counts with its own time exactly when it is present, fresh within MAX_AGE and readable; otherwise with 0 |
| Cache.HashOf | usr/lib/python3/dist-packages/mintcommon/installer/cache.py:46 | a record's pkg_hash when it is a string; none when the field is missing, null or not text |
| Cache.DecodeRecord | usr/lib/python3/dist-packages/mintcommon/installer/cache.py:43-49 | an "a…" pkg_hash restores an apt record, any other a Flatpak record, each exactly as that class's from_json reads it; an error exactly when the hash is missing or not text, or the chosen from_json fails |
| Cache.RecordOf | usr/lib/python3/dist-packages/mintcommon/installer/cache.py:47-49 | an apt entry is seen as an apt record, a Flatpak entry as a Flatpak record |
| Cache.Snapshot | usr/lib/python3/dist-packages/mintcommon/installer/cache.py:42-49 | the table seen as attributes has the same keys in the same order, each with its entry's record |
| Cache.SnapshotUnchanged | usr/lib/python3/dist-packages/mintcommon/installer/cache.py:56-58 | when no record object changed, the attributes seen are those of before |
| Cache.SnapshotSet | usr/lib/python3/dist-packages/mintcommon/installer/cache.py:47-49 | storing an entry under a key stores its attributes under that key |
| Cache.DictFoldMeaning | usr/lib/python3/dist-packages/mintcommon/installer/cache.py:42-54 | reading a JSON object into a dict succeeds exactly when every value is accepted; then its keys are the object's keys together with those there before |
| Cache.DictFoldKeep | usr/lib/python3/dist-packages/mintcommon/installer/cache.py:42-54 | a key the object does not mention keeps the value it had |
| Cache.DictFoldLast | usr/lib/python3/dist-packages/mintcommon/installer/cache.py:43-47 | the value stored under a key is what the last member with that key decodes to |
| Json.FieldUnique | usr/lib/python3/dist-packages/mintcommon/installer/cache.py:43-46 | in an object with distinct keys, as json.load builds it, every member is found by its key |
| Cache.LoadRecord | usr/lib/python3/dist-packages/mintcommon/installer/cache.py:44-49 | one record loads exactly when its decoding succeeds, and the entry holds the decoded attributes |
| Cache.LoadItems | usr/lib/python3/dist-packages/mintcommon/installer/cache.py:42-49 | the "pkginfo_cache" loop fails exactly when some record fails, and otherwise leaves the table of decoded records |
| Cache.LoadRemotes | usr/lib/python3/dist-packages/mintcommon/installer/cache.py:51-54 | the "flatpak_remote_infos" loop yields exactly the dict of the remote records read from the object, or the first error |
| Cache.LoadJson | usr/lib/python3/dist-packages/mintcommon/installer/cache.py:36-58 | a document that is not an object raises; another schema version gives None; a cache is returned exactly when the document has the schema, every record and remote record loads and the section lists are present, and it holds what those fields decode to |
| Cache.LoadCache | usr/lib/python3/dist-packages/mintcommon/installer/cache.py:188-216 | with the constructor's fallback for CacheLoadingError: the document of the chosen file when it is read and loads, the empty table, lists and remotes otherwise |
| Cache.SectionsJson | usr/lib/python3/dist-packages/mintcommon/installer/cache.py:144 | the section lists become a JSON object with the same section names in the same order and, per section, the list of its package names as JSON strings in the same order |
| Cache.MergedStep | usr/lib/python3/dist-packages/mintcommon/installer/cache.py:259-260 | one more key copied from the previous table extends the merge to one more prefix of that table |
| Cache.PrefixGrow | usr/lib/python3/dist-packages/mintcommon/installer/cache.py:259 | a table prefix one pair longer has one more key, and the earlier keys keep their values |
| Cache.PrefixLookup | usr/lib/python3/dist-packages/mintcommon/installer/cache.py:259-260 | the key of a pair is found in the prefix ending with it, with the value the whole table gives it |
| Cache.MergedCopy | usr/lib/python3/dist-packages/mintcommon/installer/cache.py:259-260 | copying a key with the prefix keeps the merge's meaning for the longer prefix |
| Cache.MergeType | usr/lib/python3/dist-packages/mintcommon/installer/cache.py:257-264 | after the copy loop every key with the prefix from the previous table has its previous entry, every other key has the new table's entry, and the keys are those of both |
| Cache.MergedKeeps | usr/lib/python3/dist-packages/mintcommon/installer/cache.py:253-264 | a kept record of the other package type gets its earlier entry back; a key of the regenerated type comes from the regeneration |
| Cache.OfType | usr/lib/python3/dist-packages/mintcommon/installer/cache.py:285-287 | every pair returned is in the table with a key that has the prefix, and every pair of the table with such a key is returned |
| Cache.LookupKey | usr/lib/python3/dist-packages/mintcommon/installer/cache.py:298-299 | with type "a" the key starts with "apt:"; a name already starting with it, and any name for another type, is the key itself |
| Cache.LookupKeyIdempotent | usr/lib/python3/dist-packages/mintcommon/installer/cache.py:298-299 | adding the apt prefix twice is adding it once |
| Cache.GenerateFlatpak | usr/lib/python3/dist-packages/mintcommon/installer/cache.py:140-141 | when the Flatpak scan runs and libflatpak lists its remotes, the table and the remote records are those of the scan of every remote, each record built for the first ref of its hash and marked exactly for the installed ones; otherwise both are empty |
| Cache.GenerateApt | usr/lib/python3/dist-packages/mintcommon/installer/cache.py:143-144 | when the apt scan runs it stores every scanned package on top of the Flatpak table and yields its section lists; otherwise the table is the Flatpak one and the lists are empty |
| Cache.GeneratedUnchanged | usr/lib/python3/dist-packages/mintcommon/installer/cache.py:134-146 | a regeneration's outcome still holds when none of the records it refers to changed |
| Cache.PkgCache.constructor | usr/lib/python3/dist-packages/mintcommon/installer/cache.py:68-98 | the package type and path are kept; Flatpak is available exactly when asked for and the type is "f" or both; the contents are what loading the chosen file gives, or empty; the status is OK exactly when there are records |
| Cache.PkgCache.Install | usr/lib/python3/dist-packages/mintcommon/installer/cache.py:91-98 | the loaded table, lists and remotes are stored and the status is OK exactly when there are records |
| Cache.PkgCache.SetItem | usr/lib/python3/dist-packages/mintcommon/installer/cache.py:112-114 | the key is bound to the entry and nothing else in the table changes |
| Cache.PkgCache.DelItem | usr/lib/python3/dist-packages/mintcommon/installer/cache.py:116-118 | a KeyError exactly when the key is missing, with the table unchanged; otherwise the key is removed |
| Cache.PkgCache.EmptyGeneratesBoth | usr/lib/python3/dist-packages/mintcommon/installer/cache.py:139-143 | with no cache loaded the apt scan runs, and the Flatpak scan runs exactly when Flatpak is available |
| Cache.PkgCache.GenerateCache | usr/lib/python3/dist-packages/mintcommon/installer/cache.py:134-146 | the Flatpak scan runs when Flatpak is available and wanted or the cache is empty, then the apt scan on top of its table when apt is wanted or the cache is empty |
| Cache.PkgCache.ReplaceContents | usr/lib/python3/dist-packages/mintcommon/installer/cache.py:253-277 | a regeneration for "f" keeps the old apt records and section lists, one for "a" keeps the old Flatpak records, one for both takes the new table; the remote records are the new ones and the status is OK exactly when there are records |
| Cache.PkgCache.NewCacheCommon | usr/lib/python3/dist-packages/mintcommon/installer/cache.py:249-277 | the new contents are the regeneration's for the scans that were due, merged with the records of the other package type as above, with the status following the new table |
| Cache.PkgCache.SubsetOfType | usr/lib/python3/dist-packages/mintcommon/installer/cache.py:285-287 | the records whose keys start with the prefix, and only those |
| Cache.PkgCache.FindPkginfo | usr/lib/python3/dist-packages/mintcommon/installer/cache.py:297-310 | a record under the key wins; a missing "apt:" key gives None; any other missing name is looked up among the Flatpak records when Flatpak is available, and gives None otherwise; with type "a" the result is exactly the record under the apt key |
| Installer.PyStr | usr/lib/python3/dist-packages/mintcommon/installer/installer.py:332 | `"%s"` of a string is the string, of None the text "None" |
| Installer.BoolStr | usr/lib/python3/dist-packages/mintcommon/installer/installer.py:332 | `str` of a bool is "True" or "False" |
| Installer.RemoteItem | usr/lib/python3/dist-packages/mintcommon/installer/installer.py:332 | the item starts with the name, "::", the url and "::", and ends in "::True" exactly when the remote is disabled |
| Installer.RemoteItems | usr/lib/python3/dist-packages/mintcommon/installer/installer.py:352-355 | one item per remote, in the remotes' order |
| Installer.ListFlatpakRemotes | usr/lib/python3/dist-packages/mintcommon/installer/installer.py:459-467 | nothing without Flatpak support or when listing fails; otherwise one remote record per remote libflatpak lists, in its order |
| Installer.CardinalityAtMostLength | usr/lib/python3/dist-packages/mintcommon/installer/installer.py:339 | a list has at most as many distinct items as entries, and exactly as many when its items are distinct |
| Installer.SubsetOfEqualSize | usr/lib/python3/dist-packages/mintcommon/installer/installer.py:334-340 | a subset at least as large as its superset is the superset |
| Installer.UnchangedMeansSameItems | usr/lib/python3/dist-packages/mintcommon/installer/installer.py:323-344 | `RemotesChanged`: for distinct current items the remotes count as unchanged exactly when the saved list holds the same items and is as long |
| Installer.StoredRemotesUnchanged | usr/lib/python3/dist-packages/mintcommon/installer/installer.py:301-306 | `RemotesChanged`: a just-stored remote list counts as unchanged against the same remotes |
| Installer.DisabledChangesItem | usr/lib/python3/dist-packages/mintcommon/installer/installer.py:332 | disabling or enabling a remote changes its item |
| Installer.NewItemIsChange | usr/lib/python3/dist-packages/mintcommon/installer/installer.py:334-336 | a remote whose item is not saved makes the remotes count as changed |
| Installer.FinishKey | usr/lib/python3/dist-packages/mintcommon/installer/installer.py:680-716 | no key is deleted exactly when the task has a pkginfo with an empty or missing hash; any key deleted is the one the task was started under, and is not empty |
| Installer.Tracked | usr/lib/python3/dist-packages/mintcommon/installer/installer.py:674 | `ExecuteKey`: the task is stored under its key and every other key keeps its task |
| Installer.Forgotten | usr/lib/python3/dist-packages/mintcommon/installer/installer.py:680-716 | a key is removed and nothing else; a missing key is ignored; without a key the table is unchanged |
| Installer.TrackThenForget | usr/lib/python3/dist-packages/mintcommon/installer/installer.py:661-716 | starting a task under a new key and then finishing it gives the task table back |
| Installer.PostUpdateFor | usr/lib/python3/dist-packages/mintcommon/installer/installer.py:718-723 | the apt cache is reloaded first exactly for a task with an apt pkginfo |
| Installer.Installer.constructor | usr/lib/python3/dist-packages/mintcommon/installer/installer.py:203-224 | no task is tracked, the installer is not inited and the remotes are not marked changed |
| Installer.Installer.IsBusy | usr/lib/python3/dist-packages/mintcommon/installer/installer.py:635-636 | busy exactly when the task count is positive |
| Installer.Installer.GetTaskCount | usr/lib/python3/dist-packages/mintcommon/installer/installer.py:638-639 | zero exactly when no task is tracked |
| Installer.Installer.ExecuteTask | usr/lib/python3/dist-packages/mintcommon/installer/installer.py:661-678 | the task is stored under its pkginfo's hash, or "updates" without a pkginfo; the count grows by one unless the key was tracked; the installer is busy afterwards |
| Installer.Installer.ForgetTask | usr/lib/python3/dist-packages/mintcommon/installer/installer.py:680-716 | the task's key is deleted, a missing one ignored, and the follow-up reloads the apt cache first exactly for an apt package |
| Installer.Installer.TaskFinished | usr/lib/python3/dist-packages/mintcommon/installer/installer.py:680-697 | the table loses the task's key, if any, and the follow-up reloads the apt cache first exactly for an apt package |
| Installer.Installer.TaskError | usr/lib/python3/dist-packages/mintcommon/installer/installer.py:699-716 | the same bookkeeping as a finished task |
| Installer.Installer.PkginfoIsInstalled | usr/lib/python3/dist-packages/mintcommon/installer/installer.py:477-488 | false before the installer is inited; afterwards, for an apt hash exactly when apt reports the package installed, for any other hash exactly when Flatpak is available, the hash is a Flatpak one and the ref is installed |
| Installer.Installer.SelectPkginfo | usr/lib/python3/dist-packages/mintcommon/installer/installer.py:359-400 | a tracked package hands back its task's cancellable; otherwise a new task removes an installed package and installs any other, carries the pending version for an install or an apt package and the deployed one otherwise, and goes to the apt backend exactly for an apt hash |
| Installer.Installer.FpRemotesHaveChanged | usr/lib/python3/dist-packages/mintcommon/installer/installer.py:315-344 | changed exactly when a current remote's item is not saved or the saved list's length differs from the number of remotes |
| Installer.Installer.StoreRemotes | usr/lib/python3/dist-packages/mintcommon/installer/installer.py:346-357 | the saved list becomes the items of the current remotes, in order, and nothing else changes |
| Installer.Installer.InitSync | usr/lib/python3/dist-packages/mintcommon/installer/installer.py:237-264 | a Flatpak-only installer without Flatpak succeeds at once; otherwise changed remotes are remembered, and the result is true and the installer inited exactly when the cache loaded and the remotes did not change |
| Installer.Installer.CacheLoadDone | usr/lib/python3/dist-packages/mintcommon/installer/installer.py:301-313 | the installer is inited; remotes that had changed are stored and then count as unchanged; otherwise the saved list is kept |

## Left out

- The client notifications of the apt transaction are not modelled: `call_info_ready_callback` after a simulation (`_apt.py:346`) and the client progress callback outside a simulation (`_apt.py:264-270`). `Apt.MetaTransaction.DoSimulateQuestion` and `Apt.MetaTransaction.OnTransactionProgress` model only the state they change.
- `Flatpak.ScanRemote` takes one `list_installed_refs` result for the whole scan. The source calls it again in each remote's pass (`_flatpak.py:183-190`), so a call that fails for one remote and not for another is not modelled.
- Threads, locks, `GLib.idle_add`/`GObject.idle_add` marshalling and the `threading.Event` hand-off of the Flatpak transaction are not modelled: each callback is one method call.
- The GTK dialogs, `dialogs.py`, `aptdaemon.py` and the other UI and subprocess scripts are not part of this model.
- The calls into apt, PackageKit, aptdaemon, libflatpak, AppStream and Xmlb are not modelled. Their answers are parameters: package lists, refs, remotes, components, operations and error codes.
- `apt_changelog.py`'s network and archive steps are not modelled: `requests`, gzip/lzma/tar/`DebPackage`, temporary files and the progress bar. What they produce (file lists, file texts, sizes, HTTP outcomes) is taken as input.
- File system access is not modelled: `os.path.getmtime`, `os.access` and `os.path.exists`. Modification times and the current time are whole seconds.
- `cache.py`'s JSON file I/O is not modelled: `_save_cache`, `_get_best_save_path` and the `json.load` of the chosen file, whose outcome is a parameter.
- JSON values are limited to null, booleans, integers, strings, arrays and objects. A field of another type is refused where the source would accept it.
- A `Json.JObj` stands for the dict json.load returns, whose keys are distinct (`Tables.UniqueKeys`). On members with a repeated key the model is not json.load: `Json.Field` reads the first of them and `Cache.DictFold` decodes every one of them, where json.load keeps only the last value. `Json.FieldUnique` states the lookup for distinct keys.
- Floating point is not modelled: the progress percentage (`_flatpak.py:549-551`) and the float branch sort of the theme matches (`_flatpak.py:336-342`).
- `Installer.init`, `force_new_cache`, `force_new_cache_async` and `generate_uncached_pkginfos` are not modelled. They are thread and callback plumbing around `PkgCache._new_cache_common`, which is modelled.
- `Installer.get_active_pkginfos`, `task_running`, `get_installed_version`, the AppStream lookups of `Installer` and the other thin forwarders are not modelled. `Installer.Installer.SelectPkginfo` takes the versions they would answer as parameters.
- The transaction runners are not modelled: `_execute_transaction`, `_transaction_thread`, `log_operation_result`, `save_ref_current_version`, `_get_related_refs_for_removal`, the theme-ref matching and the end-of-life rebase.
- `Flatpak.ProcessFullFlatpakInstallation` starts from an empty table, because its one caller (`cache.py:141`) passes a new dict.
- `Flatpak.RemoteInfos` collects the remote records in a pass of its own after the ref scan. The source collects them in the same loop; the result is the same.
- `Apt.ProcessFullAptCache` does not state that the package records it creates are newly allocated.
- `AppstreamPool.SortByKey` does not prove that the sort is stable, only that it is an ordered permutation. For icons of equal height, the order among them is not covered.
- `Strings.Lower`, `Strings.Upper`, `Strings.Strip`, `Strings.TrimLeft`, `Strings.TrimRight` and `Strings.LastWord` know only ASCII letters and ASCII whitespace. Python's `str.lower`, `upper`, `capitalize`, `title`, `strip` and `split` use Unicode case and whitespace. This affects every member built on them: `PkgInfo.Capitalize`, `PkgInfo.PyCapitalize`, `Apt.CapitalizeText`, `Apt.Skipped`, `Flatpak.Title`, `AppstreamPool.Spellings`, `AptChangelog.StrToBool`, `AptChangelog.ChangelogCandidates`, `AptChangelog.RenderChanges`, `AptChangelog.FirstEnding`, `AptChangelog.DscTarget` and `AdditionalFiles.StripSplitAndRecombine`. On text outside ASCII their results can differ from Python's.
- `Strings.ParseInt` accepts an optional sign followed by decimal digits and nothing else. Python's `int()` also strips surrounding whitespace and accepts `_` between digits.
- `PkgInfo.FlatpakPkgInfo.constructor`: without a pkg_hash the source leaves `installed`, `verified` and `developer` unset. The model starts them as false and None. Those are the values `to_json` writes for them through its `getattr` default, and nothing reads `installed` before it is set.
- `Flatpak.FlatpakTransaction.OnTransactionFinished` does not state the status change that the error report through `on_transaction_error` makes. It states the error message and the cleanup choice.

## Findings

| source | as written | input that shows it | evidently intended | confidence | as-written member | corrected member |
|---|---|---|---|---|---|---|
| usr/lib/python3/dist-packages/mintcommon/apt_changelog.py:202 | the PPA pool URL is a `%`-format string, so `{self.source_prefix()}` is left in the URL as literal text | owner `team`, PPA `stable`, source `apt`: `…/pool/main/{self.source_prefix()}/apt` | the pool prefix in that place: `…/pool/main/a/apt` | not executed; certain from the text | AptChangelog.PpaBaseUriCounterexample | AptChangelog.PpaBaseUriFillsPlaceholder |
| usr/lib/python3/dist-packages/mintcommon/installer/_apt.py:46-51 | `get_real_error` reads only codes above 255 as `0xFF + e`, while `on_transaction_error` (`_apt.py:215-217`) reads codes from 0xFF up | code 255, the encoding of PkErrorEnum 0: `ClientError(255)` instead of `ErrorEnum(0)` | the boundary `>= 0xFF`, so that decoding inverts the encoding | not executed; medium (depends on PackageKit's encoding) | Apt.GetRealErrorBoundaryAsWritten | Apt.GetRealErrorDecodes |
| usr/lib/python3/dist-packages/mintcommon/installer/pkgInfo.py:376-379 | the `except GLib.Error` clause names `GLib`, which pkgInfo.py never imports, so a conversion error becomes a NameError | a component whose description markup fails to convert | the raw description, with a warning | not executed; high | PkgInfo.DescriptionConversionErrorAsWritten | PkgInfo.DescriptionCorrection |
