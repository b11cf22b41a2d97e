# layman overlays: a Dafny model

This project models the core of layman, the Gentoo tool that manages
overlays (extra package repositories), and proves properties of it. It
covers three parts.

- **The overlay record** (`layman/overlays/overlay.py`). This covers:
  - reading an overlay from a `<repo>`/`<overlay>` element, with its
    fallbacks, defaults and errors;
  - writing it back with `to_xml`;
  - the field-wise equality `__eq__`;
  - the query helpers;
  - `add`, which tries the alternative sources in order and keeps the
    first one that works.

  XML is an abstract element tree (`XmlTree`), and the registry of
  overlay types is a map from type key to display label.
- **The staging protocol of the archive, tar and squashfs handlers**
  (`archive.py`, `tar.py`, `squashfs.py`). Each handler:
  1. locates or downloads a package;
  2. unpacks it with an external tool into a fresh temporary directory
     next to the install;
  3. moves the wanted sub-tree (the branch, or the whole directory) over
     the install and opens its permissions;
  4. cleans up.

  The file system is a map from absolute path to node, owned by an
  `ArchiveSource` object. Each handler method updates it in place and is
  proved equal to a specification function. Lemmas about those
  functions state what the protocol guarantees, and what it loses on
  each failure path.
- **The URL and type helpers of the overlay wizard** (`layman/maker.py`).
  These are:
  - type checking and guessing;
  - splitting source URLs;
  - deriving mirror sources, the homepage and feeds for github,
    git.overlays.gentoo.org and bitbucket;
  - gathering them in `_set_overlay_info`;
  - sorting overlays into the output tree;
  - the output file name normalisation of `write`.

  The in-place list surgery of these helpers runs on one list value,
  because in the source every `*_url` name aliases the same list.

Modules:
- `Wrappers`: Option and Result.
- `Strings`: the Python string operations used.
- `XmlTree`.
- `FileSystem`: path-to-node map, `os`/`shutil` operations, and
  `layman.utils.path` as `PathJoin`.
- `Overlays` and `OverlayLaws`.
- `Archives` and `ArchiveLaws`.
- `Maker` and `MakerLaws`.

The classes `Archives.ArchiveSource` and `Maker.Interactive` are
stateful shells over the specification functions: each of their methods
updates the object's fields in place, as the source does, and its
`ensures` equates the new state and result with a function of the old
state (`ExtractSpec`, `StageSpec`, `GithubInfo`, ...). The properties are
proved as lemmas about those functions.

The network download, the unpacking tool, the name `tempfile.mkdtemp`
picks and whether `os.rename` succeeds are inputs (`Env`, `Fetch`,
`Run`). What each source's `add` does in `Overlay.add` is an input too.

## Model

| member | source | states |
|---|---|---|
| Strings.Strip | layman/overlays/overlay.py:108-112 | `strip()` leaves no whitespace at either end and never lengthens the text |
| Strings.StripStripped | layman/overlays/overlay.py:108-112 | stripping text that is already stripped changes nothing |
| Strings.TrimLeft | layman/overlays/overlay.py:112 | the result is no longer than the input and does not start with whitespace |
| Strings.TrimLeftSuffix | layman/overlays/overlay.py:112 | what `TrimLeft` keeps is a suffix of the input |
| Strings.TrimLeftSpaces | layman/overlays/overlay.py:112 | everything `TrimLeft` drops is whitespace |
| Strings.TrimRight | layman/overlays/overlay.py:112 | the result is a prefix of the input and does not end with whitespace |
| Strings.TrimRightSpaces | layman/overlays/overlay.py:112 | everything `TrimRight` drops is whitespace |
| Strings.CollapseSpaces | layman/overlays/overlay.py:175 | `re.sub('\s+',' ')` keeps the first character (a space if it was whitespace) and leaves single spaces only |
| Strings.CollapseStrippedIsCollapsed | layman/overlays/overlay.py:175 | collapsing a stripped description yields a stripped, single-spaced text |
| Strings.CollapseSingleSpaced | layman/overlays/overlay.py:175 | the substitution leaves single-spaced text unchanged |
| Strings.SpaceThenWord | layman/overlays/overlay.py:175 | in single-spaced text a whitespace character is a space followed by a non-space |
| Strings.SingleSpacedTail | layman/overlays/overlay.py:175 | single spacing is kept by dropping the first character |
| Strings.CollapsedIsFixed | layman/overlays/overlay.py:173-176 | reading a parsed description again (strip, then collapse) gives it back |
| Strings.ContainsAt | layman/maker.py:121 | an occurrence at any position makes `t in s` true |
| Strings.ReplaceAll | layman/maker.py:349 | `replace` changes nothing when the pattern does not occur; replacing by something shorter never lengthens the text, and strictly shortens it when the pattern occurs |
| Strings.ReplaceAllPlainPrefix | layman/maker.py:349 | a stretch of text in which the pattern cannot start is copied unchanged by `replace` |
| Strings.Split | layman/maker.py:566 | `split('/')` gives at least one part, and no part holds the separator |
| Strings.JoinSplit | layman/maker.py:566 | `'/'.join(s.split('/')) == s` |
| Strings.SplitJoin | layman/maker.py:566 | splitting the join of separator-free parts gives back the parts |
| Strings.SplitNoSep | layman/maker.py:566 | text without the separator splits into itself alone |
| Strings.Lower | layman/maker.py:90-91 | `lower()` maps each character, keeping the length |
| Strings.DigitChar | layman/overlays/overlay.py:247 | a digit character stands for its value |
| Strings.NatToString | layman/overlays/overlay.py:247 | the decimal rendering of a natural number is a non-empty run of digits |
| Strings.IntToString | layman/overlays/overlay.py:247 | `str(i)` carries no surrounding whitespace |
| Strings.ParseDigits | layman/overlays/overlay.py:198 | one or more decimal digits and nothing else are accepted, exactly, with a non-negative value |
| Strings.ParseSigned | layman/overlays/overlay.py:198 | a number after the optional sign must end in a digit |
| Strings.ParseInt | layman/overlays/overlay.py:197-198 | `int(s)`: surrounding whitespace is ignored; whatever is accepted ends in a digit once stripped; a ValueError (None) exactly when the stripped text is not a signed number (its properties: ParseIntToString and the examples below) |
| Strings.DigitsOfNat | layman/overlays/overlay.py:197-200 | the value of the digits written for `n` is `n` |
| Strings.ParseIntToString | layman/overlays/overlay.py:197-200 | `int(str(i)) == i`, so a priority survives being written and read back |
| Strings.ParseIntNatural | layman/overlays/overlay.py:197-200 | `str(i)` of a non-negative `i` reads back as `i` |
| Strings.ParseIntOfNatural | layman/overlays/overlay.py:197-200 | `int(str(i)) == i` for non-negative `i` |
| Strings.ParseIntOfNegative | layman/overlays/overlay.py:197-200 | `int(str(i)) == i` for negative `i` |
| Strings.ParseSignedOfNegative | layman/overlays/overlay.py:197-200 | `str(i)` of a negative `i` reads back past its minus sign as `i` |
| Strings.ParseIntStripped | layman/overlays/overlay.py:198 | text with no surrounding whitespace is read as it stands |
| Strings.ParseMinusDigits | layman/overlays/overlay.py:198 | a minus sign followed by digits is read as the negated value |
| Strings.ParseMinusSpaceDigits | layman/overlays/overlay.py:198 | a minus sign, a space, then digits is read as the negated value |
| Strings.ParseSignedMinus | layman/overlays/overlay.py:198 | a minus sign, whitespace skipped, then digits: the negated value |
| Strings.ParseIntSpaceAfterSign | layman/overlays/overlay.py:198 | `int('- ' + str(n)) == -n` for every `n` (so `int('- 5') == -5`): whitespace may follow the sign |
| Strings.ParseIntSpaceInside | layman/overlays/overlay.py:198 | two runs of digits with a space between (such as `'4 2'`) are a ValueError: no whitespace inside the digits |
| Strings.ParseIntLoneSign | layman/overlays/overlay.py:198 | any text that strips to a lone sign (such as `' - '`) is a ValueError |
| Strings.LexTotal | layman/maker.py:591 | the string order `sorted` uses relates any two names |
| Strings.LexTransitive | layman/maker.py:591 | the string order is transitive |
| XmlTree.FindIn | layman/overlays/overlay.py:114 | `find` returns a child carrying the tag |
| XmlTree.FindInNone | layman/overlays/overlay.py:114-120 | `find` finds nothing exactly when no child carries the tag |
| XmlTree.FindAllInSpec | layman/overlays/overlay.py:122-124 | `findall` keeps exactly the children with the tag, and is empty exactly when `find` finds nothing |
| XmlTree.FindInCons | layman/overlays/overlay.py:114 | `find` looks at the first child before the rest |
| XmlTree.FindAllInCons | layman/overlays/overlay.py:122 | `findall` keeps the first child exactly when it carries the tag |
| XmlTree.FindInAppend | layman/overlays/overlay.py:240-285 | `find` over appended children searches the front first |
| XmlTree.FindAllInAppend | layman/overlays/overlay.py:240-285 | `findall` over appended children concatenates the two results |
| XmlTree.FindAllInNone | layman/overlays/overlay.py:211 | children without the tag contribute nothing to `findall` |
| XmlTree.FindAllInEvery | layman/overlays/overlay.py:271-274 | children that all carry the tag are found whole |
| Overlays.StripText | layman/overlays/overlay.py:108-112 | `strip_text` always yields stripped text |
| Overlays.TypedOnly | layman/overlays/overlay.py:124 | the comprehension keeps exactly the elements of its input that carry a `type` attribute, never more than it was given |
| Overlays.TypedOnlyAppend | layman/overlays/overlay.py:124 | the comprehension keeps order: an element appended to the input is appended to the output exactly when it has a `type` |
| Overlays.SourceElements | layman/overlays/overlay.py:122-129 | with some `<source>` child, the elements used are exactly the `<source>` children with a `type`; with none, there is one element exactly when both `src` and `type` attributes are present, and it is built from them |
| Overlays.ParseSources | layman/overlays/overlay.py:135-144 | one handler per element; the only failure is an unregistered type key |
| Overlays.ParseSourcesSpec | layman/overlays/overlay.py:135-144 | the sources parse exactly when every type key is registered; each source is the stripped text, the key and its handler's label |
| Overlays.ParseSourcesOk | layman/overlays/overlay.py:137-140 | parsing the sources fails exactly when some type key is unregistered |
| Overlays.ParseSourcesValues | layman/overlays/overlay.py:141-144 | each parsed source holds its element's stripped text and its type's label |
| Overlays.StripTexts | layman/overlays/overlay.py:211 | the feeds are the stripped texts of the `<feed>` children, one for one |
| Overlays.Parse | layman/overlays/overlay.py:81-217 | defines the constructor on an element: the checks in source order, then the fields; its properties are the OverlayLaws rules below |
| Overlays.SourceXml | layman/overlays/overlay.py:271-275 | `to_xml` writes one `<source type=key>` child per source, with the location as text |
| Overlays.FeedXml | layman/overlays/overlay.py:280-284 | `to_xml` writes one `<feed>` child per feed |
| Overlays.ToXml | layman/overlays/overlay.py:240-285 | defines `to_xml`: attributes, head children, sources, feeds; `OverlayLaws.RoundTrip` is its partner |
| Overlays.Eq | layman/overlays/overlay.py:220-230 | defines `__eq__`; its properties are the OverlayLaws.Eq lemmas |
| Overlays.Ne | layman/overlays/overlay.py:232-233 | defines `__ne__` as the negation of `__eq__` |
| Overlays.IsOfficial | layman/overlays/overlay.py:407-410 | defines `is_official`; `OverlayLaws.OfficialRule` ties it to the element |
| Overlays.TypeLabel | layman/overlays/overlay.py:391-394 | defines the type column of `short_list`; `OverlayLaws.TypeLabelRule` states it |
| Overlays.SourceUris | layman/overlays/overlay.py:415-417 | `source_uris` yields each source's location, in order |
| Overlays.SourceTypes | layman/overlays/overlay.py:419-421 | `source_types` yields each source's type label, in order |
| Overlays.SoleSource | layman/overlays/overlay.py:300-306 | `sync` and `delete` find a source exactly when there is one; with any other count they raise (None) |
| Overlays.FirstSuccess | layman/overlays/overlay.py:289-295 | the first attempt that returned 0, with no earlier one; none exactly when no attempt returned 0 |
| Overlays.LastCodeNonzero | layman/overlays/overlay.py:288-298 | with no success and a non-zero start, `add` never returns 0 |
| Overlays.AddResult | layman/overlays/overlay.py:287-298 | defines what `add` returns; `AddResultZeroIff` states it |
| Overlays.AddSources | layman/overlays/overlay.py:292-295 | defines the sources left by `add`; `AddResultZeroIff` states them |
| Overlays.AddResultZeroIff | layman/overlays/overlay.py:287-298 | `add` returns 0 exactly when some source returned 0; then the sources shrink to one of the originals, otherwise they are unchanged |
| Overlays.AddThenSole | layman/overlays/overlay.py:287-306 | after `add` returns 0, `sync`/`delete` find exactly the first source whose `add` returned 0; after a failed `add` they see the sources unchanged |
| Overlays.FirstSuccessAt | layman/overlays/overlay.py:292-295 | the first attempt returning 0 is the one `add` stops at |
| Overlays.OverlayObject.constructor | layman/overlays/overlay.py:81 | the object holds the overlay read |
| Overlays.OverlayObject.Add | layman/overlays/overlay.py:287-298 | the loop returns `AddResult` and leaves `sources` as `AddSources`: only the first working source, or all of them |
| OverlayLaws.NameRule | layman/overlays/overlay.py:114-120 | the constructor raises for a missing name exactly when there is neither a `<name>` child nor a `name` attribute; otherwise the name is the stripped child, else the attribute |
| OverlayLaws.SourceRule | layman/overlays/overlay.py:122-144 | no usable source raises; an unregistered type raises; otherwise one source per element used, in order; with `<source>` children every source comes from a typed `<source>` child, without them the only source is the stripped `src` attribute with its `type` |
| OverlayLaws.ParsedSourceList | layman/overlays/overlay.py:122-144 | the sources of an accepted element are those read from its source elements |
| OverlayLaws.OwnerAndDescriptionRule | layman/overlays/overlay.py:147-185 | a missing owner e-mail or description is accepted only when `ignore` is non-zero, and becomes `''`; the description is single-spaced |
| OverlayLaws.DefaultsRule | layman/overlays/overlay.py:192-209 | a known quality level in the attribute is taken, anything else gives `experimental`; priority is `int(attr)` or 50, and a bad number raises; the homepage is the stripped `<homepage>`, else the stripped `<link>`, else none |
| OverlayLaws.SpacedPriorityRead | layman/overlays/overlay.py:197-198 | `priority="- " + str(n)` is read as `-n` (so `priority="- 5"` gives -5) |
| OverlayLaws.OfficialRule | layman/overlays/overlay.py:407-410 | `is_official` holds exactly when the element says `status="official"` |
| OverlayLaws.ParsedIsWellFormed | layman/overlays/overlay.py:81-217 | an accepted overlay whose attribute-taken name and contact carry no surrounding blanks is in the form `to_xml` writes faithfully |
| OverlayLaws.ParsedTexts | layman/overlays/overlay.py:153-215 | the owner name, homepage, feeds and irc read are stripped, and the quality is a known level |
| OverlayLaws.PiecesStripped | layman/overlays/overlay.py:153-215 | each field reader returns stripped text |
| OverlayLaws.ParsedSources | layman/overlays/overlay.py:131-144 | an accepted overlay has at least one source; each is stripped and of a registered type |
| OverlayLaws.SourcesRead | layman/overlays/overlay.py:135-144 | parsed sources are stripped and carry their registered label |
| OverlayLaws.HeadFind | layman/overlays/overlay.py:248-270 | which child `find` meets for each tag among those `to_xml` writes before the sources |
| OverlayLaws.HeadFinds | layman/overlays/overlay.py:248-270 | the name, description, homepage, irc and owner children are found again; no `<link>`, `<source>` or `<feed>` among them |
| OverlayLaws.SourceXmlFinds | layman/overlays/overlay.py:271-275 | the written source children are found by `findall('source')` and by no other lookup |
| OverlayLaws.FeedXmlFinds | layman/overlays/overlay.py:280-284 | the written feed children are found by `findall('feed')` and by no other lookup |
| OverlayLaws.ChildFinds | layman/overlays/overlay.py:240-285 | in the written element, single-child lookups see only the head children |
| OverlayLaws.ChildFindAlls | layman/overlays/overlay.py:271-284 | `findall` on the written element returns exactly the written sources and feeds |
| OverlayLaws.TypedOnlyAll | layman/overlays/overlay.py:124 | the type filter keeps a list whose elements are all typed |
| OverlayLaws.SourcesBack | layman/overlays/overlay.py:271-275 | the written sources are read back as the same sources |
| OverlayLaws.FeedsBack | layman/overlays/overlay.py:280-284 | the written feeds are read back unchanged |
| OverlayLaws.OwnerBack | layman/overlays/overlay.py:262-270 | the written owner is read back with the same e-mail and name |
| OverlayLaws.OwnerFinds | layman/overlays/overlay.py:262-270 | the written `<owner>` holds the `<email>`, and the `<name>` exactly when there is one |
| OverlayLaws.AttribBack | layman/overlays/overlay.py:243-247 | status, quality and priority written as attributes are read back |
| OverlayLaws.PriorityBack | layman/overlays/overlay.py:197-198 | a priority written by `str` is read back by `int` |
| OverlayLaws.HeadBack | layman/overlays/overlay.py:248-261 | name, description, homepage and irc are read back |
| OverlayLaws.NameBack | layman/overlays/overlay.py:248-250 | a stripped name is read back |
| OverlayLaws.DescriptionBack | layman/overlays/overlay.py:251-253 | a single-spaced description is read back |
| OverlayLaws.HomepageBack | layman/overlays/overlay.py:254-257 | the homepage is read back |
| OverlayLaws.IrcBack | layman/overlays/overlay.py:258-261 | the irc entry is read back |
| OverlayLaws.RoundTrip | layman/overlays/overlay.py:81-285 | reading back what `to_xml` wrote gives the same overlay, field for field, for every well-formed overlay |
| OverlayLaws.ReadWriteReread | layman/tests/external.py:235-241 | read, write, re-read: the re-read overlay is `__eq__` to the one first read |
| OverlayLaws.UnstrippedNameNotReread | layman/overlays/overlay.py:114-120 | an overlay named by an attribute with surrounding blanks is not read back equal to itself |
| OverlayLaws.UnstrippedNameAttribute | layman/overlays/overlay.py:117-118 | such a name is accepted: the attribute is not stripped |
| OverlayLaws.EqReflexive | layman/overlays/overlay.py:220-230 | every overlay equals itself |
| OverlayLaws.EqSymmetric | layman/overlays/overlay.py:220-230 | equality is symmetric |
| OverlayLaws.EqTransitive | layman/overlays/overlay.py:220-230 | equality is transitive |
| OverlayLaws.EqSourcesAsSets | layman/overlays/overlay.py:220-230 | `__eq__` holds exactly when the seven fields agree and the sources agree as sets |
| OverlayLaws.EqIgnores | layman/overlays/overlay.py:221-222 | quality, irc and feeds play no part in equality |
| OverlayLaws.EqNeedsFields | layman/overlays/overlay.py:220-233 | a different name, description or priority makes `__ne__` true |
| OverlayLaws.TypeLabelRule | layman/overlays/overlay.py:391-394 | the type column is the first label alone exactly when all sources share it |
| OverlayLaws.SubsetCard | layman/overlays/overlay.py:391 | a subset has no more elements than its superset |
| OverlayLaws.UrisAndTypes | layman/overlays/overlay.py:415-421 | both listings follow the source order, and the types are the registered labels |
| FileSystem.Subtree | layman/overlays/archive.py:96 | the entries at or below a path, and no others |
| FileSystem.SubtreeAgrees | layman/overlays/archive.py:96 | trees that agree at and below a path have the same subtree there |
| FileSystem.RemoveTree | layman/overlays/archive.py:83-94 | `rmtree`/`unlink` removes the path and everything below it, and nothing else |
| FileSystem.RemoveFresh | layman/overlays/archive.py:96-128 | making a fresh directory and removing it again leaves the tree as it was |
| FileSystem.MovedWithin | layman/overlays/archive.py:116 | a renamed path lands below the destination |
| FileSystem.MovedInjective | layman/overlays/archive.py:116 | renaming maps different paths to different paths |
| FileSystem.RenameMoves | layman/overlays/archive.py:116 | `os.rename` carries each path below the source, with its content |
| FileSystem.RenameFrame | layman/overlays/archive.py:116 | renaming removes the source and keeps whatever lies apart from both ends |
| FileSystem.Rename | layman/overlays/archive.py:116 | defines `os.rename` on the tree; its properties are the Rename lemmas around it |
| FileSystem.RenameKeepsOthers | layman/overlays/archive.py:116 | after a rename, a path outside the destination was there before, unchanged |
| FileSystem.RenameOrigin | layman/overlays/archive.py:116 | after a rename, everything below the destination came from below the source |
| FileSystem.RenameOriginAt | layman/overlays/archive.py:116 | the same, for one path |
| FileSystem.WithinSplit | layman/overlays/archive.py:107 | a path below `p` is `p` followed by the rest of the path |
| FileSystem.Chmod | layman/overlays/archive.py:121 | `os.chmod` changes only the mode of that one path |
| FileSystem.WriteFile | layman/overlays/archive.py:62-69 | writing the package fails exactly when a directory is in the way; otherwise the file holds the content and nothing else changes |
| FileSystem.SquashNoDouble | layman/tests/external.py:343-352 | a path without doubled separators is not changed by squashing |
| FileSystem.Squash | layman/tests/external.py:343-352 | collapsing separator runs leaves no doubled separator and keeps the first character |
| FileSystem.PathJoin | layman/tests/external.py:343-352 | `path(...)` never holds a doubled separator and never ends in one |
| FileSystem.OsPathJoin | layman/overlays/archive.py:97 | `os.path.join` (used by `mkdtemp(dir=base)`): an absolute second part replaces the first; otherwise a separator is inserted only when the directory does not already end in one |
| FileSystem.OsPathJoinChild | layman/overlays/archive.py:94-97 | for a canonical directory and one component, `os.path.join` and `path` agree on `base/name` |
| FileSystem.ChildPath | layman/overlays/archive.py:96 | `path([base, name])` is `base/name` for a canonical base and a single component |
| FileSystem.ChildChars | layman/overlays/archive.py:96 | what lying below `base/name` says about a path's characters |
| FileSystem.SiblingsApart | layman/overlays/archive.py:96-97 | two different entries of one directory have disjoint subtrees |
| FileSystem.PathJoinExample0 | layman/tests/external.py:343 | `path([]) == ''` |
| FileSystem.PathJoinExample1 | layman/tests/external.py:344 | `path(['a']) == 'a'` |
| FileSystem.PathJoinExample2 | layman/tests/external.py:345 | `path(['a','b']) == 'a/b'` |
| FileSystem.PathJoinExample3 | layman/tests/external.py:346 | `path(['a/','b']) == 'a/b'` |
| FileSystem.PathJoinExample4 | layman/tests/external.py:347 | `path(['/a/','b']) == '/a/b'` |
| FileSystem.PathJoinExample5 | layman/tests/external.py:348 | `path(['/a','/b/']) == '/a/b'` |
| FileSystem.PathJoinExample6 | layman/tests/external.py:349 | `path(['/a/','b/']) == '/a/b'` |
| FileSystem.PathJoinExample7 | layman/tests/external.py:350 | `path(['/a/','/b/']) == '/a/b'` |
| FileSystem.PathJoinExample8 | layman/tests/external.py:351 | `path(['/a/','/b','c/']) == '/a/b/c'` |
| Archives.ChooseTarExtension | layman/overlays/tar.py:101-108 | the loop over the candidates returns `TarExtension(src)`: the first candidate `src` ends with, else `.tar.noidea` |
| Archives.TarExtension | layman/overlays/tar.py:101-108 | defines the extension choice; `ArchiveLaws.TarExtensionFound` states it |
| Archives.DownloadPath | layman/overlays/squashfs.py:89 | defines where each kind stores its download (`base/name+ext`, or `base/name` for squashfs); `ArchiveLaws.LayoutPaths` states the consequences |
| Archives.ExtractSpec | layman/overlays/archive.py:35-79 | defines `_extract`; `ArchiveLaws.ExtractFrame` and `DownloadKept` state it |
| Archives.PromoteSpec | layman/overlays/archive.py:105-127 | defines the part of `_add_unchecked` after a zero exit; the Promote lemmas state it |
| Archives.StageSpec | layman/overlays/archive.py:82-128 | defines `_add_unchecked`; the Stage lemmas state it |
| Archives.AddSpec | layman/overlays/archive.py:131-150 | defines `add`; `AddRefusesExisting`, `AddIsCheckedSync` and `SecondAddRefused` state it |
| Archives.SyncSpec | layman/overlays/archive.py:153-168 | defines `sync`; `AddIsCheckedSync` and `SquashfsResyncFails` state it |
| Archives.ToolArgs | layman/overlays/tar.py:136-138 | the tool's argument list names both the package and the destination |
| Archives.ArchiveSource.constructor | layman/overlays/archive.py:25-32 | the handler starts with its settings, the given file system and no tool runs |
| Archives.ArchiveSource.Delete | layman/overlays/archive.py:113 | the install and everything below it are removed, and nothing else |
| Archives.ArchiveSource.TryToWipe | layman/overlays/archive.py:83-94 | an existing folder is removed with all below it; a missing one is left alone |
| Archives.ArchiveSource.Extract | layman/overlays/archive.py:35-79 | file system, tool calls and outcome are those of `ExtractSpec`: package choice, download, store error, tool run, and clean rule |
| Archives.ArchiveSource.Promote | layman/overlays/archive.py:105-127 | file system and outcome are those of `PromoteSpec`: missing branch, delete, rename, chmod, wipe |
| Archives.ArchiveSource.AddUnchecked | layman/overlays/archive.py:82-128 | file system, tool calls and outcome are those of `StageSpec` |
| Archives.ArchiveSource.Add | layman/overlays/archive.py:131-150 | file system, tool calls and outcome are those of `AddSpec` |
| Archives.ArchiveSource.Sync | layman/overlays/archive.py:153-168 | file system, tool calls and outcome are those of `SyncSpec` |
| ArchiveLaws.FirstSuffixSpec | layman/overlays/tar.py:103-108 | the loop's pick is a candidate the source ends with; there is none exactly when no candidate matches |
| ArchiveLaws.TarExtensionFound | layman/overlays/tar.py:101-108 | the chosen extension is a recognised one the source ends with; the fallback is used exactly when none matches |
| ArchiveLaws.SuffixFree | layman/overlays/tar.py:103-104 | no recognised extension ends with another |
| ArchiveLaws.SuffixOfSuffix | layman/overlays/tar.py:106 | of two suffixes of one string, the shorter is a suffix of the longer |
| ArchiveLaws.TarExtensionUnique | layman/overlays/tar.py:103-108 | any recognised extension the source ends with is the one chosen, so the candidate order does not matter |
| ArchiveLaws.CandidatesAreDotSuffixes | layman/overlays/tar.py:103-105 | every candidate is a dot followed by no separator |
| ArchiveLaws.TarExtensionShape | layman/overlays/tar.py:101-123 | the extension starts with a dot and holds no separator, so the package stays in `base` |
| ArchiveLaws.LayoutPaths | layman/overlays/squashfs.py:89-122 | the install is `base/name`, apart from the staging directory; a tar download lies outside both, and a squashfs download is the install path |
| ArchiveLaws.ExtractFrame | layman/overlays/archive.py:35-79 | unpacking changes nothing outside the destination except the package written; on return, every entry the tool placed is present |
| ArchiveLaws.DownloadKept | layman/overlays/tar.py:119-142 | the download is kept whatever the connector's success flag says, and the tool's result is passed on |
| ArchiveLaws.StageFailureCleansUp | layman/overlays/archive.py:98-128 | when the tool raises or exits non-zero, that outcome is passed on and the staging directory is gone |
| ArchiveLaws.StageFailureKeepsInstall | layman/overlays/tar.py:156-187 | for the tar and archive kinds, a failed unpack leaves the install exactly as it was |
| ArchiveLaws.SquashfsPackageIsInstall | layman/overlays/squashfs.py:89-122 | the squashfs download is written at the install path |
| ArchiveLaws.MissingBranchKeepsStaging | layman/overlays/archive.py:106-125 | a branch missing from the package raises and leaves the staging directory in place |
| ArchiveLaws.RenameFailureLosesInstall | layman/overlays/archive.py:111-120 | a failed rename raises after the old install was already deleted |
| ArchiveLaws.ClearedFrame | layman/overlays/archive.py:112-113 | deleting the install touches only what lies below it |
| ArchiveLaws.WipeFrame | layman/overlays/archive.py:83-94 | wiping a folder touches only what lies below it, and removes it |
| ArchiveLaws.InstallFacts | layman/overlays/archive.py:116-121 | after rename and chmod the install exists with mode 0o755, the source is gone, and the rest is unchanged |
| ArchiveLaws.InstallContent | layman/overlays/archive.py:116 | every path below the source reaches the install with its content |
| ArchiveLaws.InstallOrigin | layman/overlays/archive.py:116 | everything below the install came from below the source |
| ArchiveLaws.SourceSurvivesDelete | layman/overlays/archive.py:111-113 | deleting the old install does not touch the content root |
| ArchiveLaws.PromoteSteps | layman/overlays/archive.py:111-127 | a successful promotion is the deletion, then the install, then the wipe |
| ArchiveLaws.PromoteInstalls | layman/overlays/archive.py:111-128 | a successful promotion returns 0 and leaves the install with mode 0o755 and no staging directory |
| ArchiveLaws.PromoteContent | layman/overlays/archive.py:111-127 | a successful promotion moves every staged path to the install with its content |
| ArchiveLaws.PromoteFrame | layman/overlays/archive.py:111-127 | a successful promotion changes nothing outside the staging directory and the install |
| ArchiveLaws.PromoteReplaces | layman/overlays/archive.py:111-121 | after a successful promotion, everything below the install came from the content root; nothing of the old install survives |
| ArchiveLaws.StagePromotes | layman/overlays/archive.py:97-105 | after a zero exit the staging directory exists and is apart from the install |
| ArchiveLaws.StageSucceeds | layman/overlays/archive.py:105-128 | with the content root present and a working rename, staging returns 0 with the install in place and the staging directory gone |
| ArchiveLaws.StageInstallsContent | layman/overlays/archive.py:105-121 | every entry the tool placed below the content root is found at the matching place below the install |
| ArchiveLaws.StageInstallsOnlyContent | layman/overlays/archive.py:105-121 | conversely, everything below the install after a successful staging came from the matching place below the content root |
| ArchiveLaws.UnsupportedReturnsOne | layman/overlays/archive.py:139-162 | without its tool a handler returns 1 and changes nothing |
| ArchiveLaws.AddRefusesExisting | layman/overlays/archive.py:142-146 | `add` raises on an existing install and touches nothing |
| ArchiveLaws.AddIsCheckedSync | layman/overlays/archive.py:131-168 | without an existing install, `add` is `sync` |
| ArchiveLaws.StageZeroInstalls | layman/overlays/archive.py:105-128 | a staging that returns 0 leaves an install behind |
| ArchiveLaws.SecondAddRefused | layman/overlays/archive.py:142-150 | once `add` has succeeded, a second `add` raises and changes nothing |
| ArchiveLaws.SquashfsResyncFails | layman/overlays/squashfs.py:85-97 | syncing an installed remote squashfs overlay raises when storing the package over the install directory |
| ArchiveLaws.ArchiveDownloadUndefined | layman/overlays/archive.py:47-58 | the generic archive kind raises on every remote source and changes nothing |
| ArchiveLaws.DeleteRemoves | layman/overlays/archive.py:113 | `delete` removes the install, and doing it twice is the same as once |
| ArchiveLaws.SyncWithoutTarball | layman/tests/external.py:505-519 | a sync whose tar tool fails keeps the install in place, and `delete` then removes it |
| ArchiveLaws.MovedRelative | layman/overlays/archive.py:116 | a path relative to the source lands at the same place relative to the destination |
| ArchiveLaws.EntryInstalled | layman/overlays/tar.py:165-181 | with no branch, an entry unpacked at `temp/rel` ends up at `base/name/rel` |
| ArchiveLaws.LocalTarballAdd | layman/overlays/tar.py:65-83 | adding a local tarball with a single top directory returns 0, and `base/name` then holds that directory with its two children and nothing else, as the doctest's exact listings check |
| Maker.IndexOf | layman/maker.py:113-117 | `list.index` gives the first position holding the value |
| Maker.Remove | layman/maker.py:113-117 | `list.remove` drops one element |
| Maker.Insert | layman/maker.py:114-118 | `list.insert` adds one element at the position, or at the end past it |
| Maker.IndexOfAt | layman/maker.py:117 | a position holding the first copy of its value is what `index` finds |
| Maker.RemoveAt | layman/maker.py:113 | `remove` drops the first copy, keeping the rest in order |
| Maker.RemovePerm | layman/maker.py:113-117 | `remove` takes away exactly one copy of the value |
| Maker.InsertAtEnd | layman/maker.py:114-118 | inserting at the length appends |
| Maker.ReplaceHead | layman/maker.py:494-495 | `remove(xs[0])` then `insert(0, v)` replaces the head |
| Maker.JoinStartsWith | layman/maker.py:496 | a joined list starts with its first component |
| Maker.SplitSourceUrl | layman/maker.py:554-582 | a successful split has at least one part, and none holds a separator |
| Maker.Adjusted | layman/maker.py:112-114 | the `tar` adjustment keeps the length of the list |
| Maker.TypeChecks | layman/maker.py:111-118 | defines the pattern list as written, with the ValueError of line 117; the Findings lemmas state it |
| Maker.CorrectedTypeChecks | layman/maker.py:111-118 | defines the pattern list as intended; `MakerLaws.CorrectedTypeChecksSpec` states it |
| Maker.Guess | layman/maker.py:120-127 | defines the guess over a pattern list; `MakerLaws.GuessSpec` states it |
| Maker.GitHeaded | layman/maker.py:470-475 | the non-ssh rewrite makes the head `git:` and keeps the rest |
| Maker.GithubLink | layman/maker.py:498-523 | defines the homepage/feed list surgery on the shared list; `MakerLaws.GithubHomepageIsAtomFeed` states it |
| Maker.GithubInfo | layman/maker.py:461-525 | defines `_set_github_info`; `GithubThirdIsHttps`, `GithubHttpsThirdRepeatsSource` and `GithubHomepageIsAtomFeed` state it |
| Maker.GentooThird | layman/maker.py:407-412 | the third gentoo source list is non-empty |
| Maker.GentooLink | layman/maker.py:416-456 | defines the homepage/feed list surgery on the shared list; `MakerLaws.GentooHomepageIsRssFeed` states it |
| Maker.GentooInfo | layman/maker.py:375-458 | defines `_set_gentoo_info`; `GentooThirdIsHttps` and `GentooHomepageIsRssFeed` state it |
| Maker.BitbucketInfo | layman/maker.py:341-372 | defines `_set_bitbucket_info`; `BitbucketGitHomepage` and `BitbucketHttpsHomepage` state it |
| Maker.Wrapped | layman/maker.py:540-541 | each appended source becomes one list entry |
| Maker.OverlayInfo | layman/maker.py:528-551 | defines `_set_overlay_info`; `StepsExtend`, `OverlayInfoKeepsSource`, `GithubGathersThree` and the bitbucket lemmas state it |
| Maker.InsertByName | layman/maker.py:591 | insertion adds one element |
| Maker.SortByName | layman/maker.py:591 | sorting keeps the length |
| Maker.InsertByNamePerm | layman/maker.py:591 | insertion adds exactly the new overlay |
| Maker.InsertByNameSorted | layman/maker.py:591 | insertion into a name-sorted list keeps it sorted |
| Maker.SortByNameSpec | layman/maker.py:591 | `sorted(self.overlays)` orders by name and is a permutation |
| Maker.XmlOf | layman/maker.py:592-593 | one XML element per overlay |
| Maker.Destination | layman/maker.py:607-613 | the destination always ends in `.xml` |
| Maker.AppendXml | layman/maker.py:592-593 | the loop appends the XML of each overlay to the tree, in order |
| Maker.SwapHead | layman/maker.py:494-500 | the remove/insert idiom replaces the head component |
| Maker.AppendAll | layman/maker.py:540-545 | the loop appends every additional source and leaves `source` bound to the last one |
| Maker.Interactive.constructor | layman/maker.py:44-52 | the wizard starts with the given supported types, an empty overlay dictionary and no overlays (the tree `write` creates starts empty too) |
| Maker.Interactive.CheckOverlayType | layman/maker.py:83-98 | returns the lower-cased type exactly when it is supported, otherwise None |
| Maker.Interactive.GuessOverlayType | layman/maker.py:101-127 | the loop returns the first adjusted pattern the URI contains, else `mercurial` for a bitbucket URI, else None, over the pattern list with line 117 corrected (`Guess(Ok(CorrectedTypeChecks(types)), uri)`) |
| Maker.Interactive.SetGithubInfo | layman/maker.py:461-525 | the two sources and the homepage and feeds are those of `GithubInfo`; on error nothing is set |
| Maker.Interactive.SetGithubLink | layman/maker.py:498-523 | the homepage and the only feed are the same joined link list |
| Maker.Interactive.SetGentooInfo | layman/maker.py:375-458 | the two sources and the homepage and feeds are those of `GentooInfo`; on error nothing is set |
| Maker.Interactive.SetGentooLink | layman/maker.py:416-456 | the homepage and both feeds are the same joined link list |
| Maker.Interactive.SetBitbucketInfo | layman/maker.py:341-372 | the result and the new homepage and feeds are those of `BitbucketInfo` |
| Maker.Interactive.SetOverlayInfo | layman/maker.py:528-551 | the sources and the new homepage and feeds are those of `OverlayInfo` |
| Maker.Interactive.GatherGithub | layman/maker.py:538-541 | the github block is `GithubStep` |
| Maker.Interactive.GatherGentoo | layman/maker.py:542-545 | the gentoo block is `GentooStep` |
| Maker.Interactive.GatherBitbucket | layman/maker.py:546-549 | the bitbucket block is `BitbucketStep` |
| Maker.Interactive.SortToTree | layman/maker.py:585-593 | the overlays become `SortByName` of the old list, and the tree gains their XML in that order |
| MakerLaws.LowerIdempotent | layman/maker.py:90 | lower-casing twice is lower-casing once |
| MakerLaws.CheckOverlayTypeCaseless | layman/maker.py:90-91 | the type check gives the same answer for any spelling of the type |
| MakerLaws.FirstContainedSpec | layman/maker.py:120-122 | the guess loop returns a contained pattern with no earlier contained one; it returns nothing exactly when no pattern is contained |
| MakerLaws.GuessSpec | layman/maker.py:120-127 | a guess is a contained pattern, or `mercurial` for a bitbucket URI; there is no guess exactly when nothing matches and the URI is not on bitbucket |
| MakerLaws.RemoveDistinct | layman/maker.py:113-117 | removing from distinct values drops that value and keeps every other |
| MakerLaws.AdjustedSpec | layman/maker.py:112-114 | for distinct types, `tar` gives way to `.tar` and every other type stays |
| MakerLaws.AdjustedKeepsPrefix | layman/maker.py:112-117 | when `tar` does not come before `bzr`, the adjusted list agrees with the original up to `bzr` |
| MakerLaws.AdjustedWithoutBzr | layman/maker.py:112-114 | the adjustment brings in no `bzr` |
| MakerLaws.TypeChecksAsIntended | layman/maker.py:112-118 | when `tar` does not come before `bzr`, the pattern list as written is the intended one |
| MakerLaws.CorrectedTypeChecksSpec | layman/maker.py:112-118 | the intended patterns: no `tar` or `bzr` left, `.tar` and `bazaar` in their places (`bazaar` last), every other type kept |
| MakerLaws.TarBeforeBzrRaises | layman/maker.py:116-117 | with `['tar','bzr']`, line 117 removes a value no longer in the list, and the call raises ValueError |
| MakerLaws.TarBeforeBzrDropsOther | layman/maker.py:116-118 | with `['tar','cvs','bzr']`, `cvs` is dropped and `bzr` stays, unlike the intended list |
| MakerLaws.SplitSourceUrlKinds | layman/maker.py:563-582 | which URLs split at all, and which split as non-ssh: `git://` at the start, or `http://`/`https://` anywhere |
| MakerLaws.SplitSourceUrlRoundTrip | layman/maker.py:565-579 | a plain or `ssh://` URL is split without rewriting: its parts join back to it |
| MakerLaws.SplitHead | layman/maker.py:566 | the first part of a split is the text before the first separator |
| MakerLaws.GithubThirdIsHttps | layman/maker.py:482-496 | `next_header` is `https:` on every path, so the third github source is always an https URL |
| MakerLaws.GithubHttpsThirdRepeatsSource | layman/maker.py:470-496 | for an https URL the third github source is the source itself |
| MakerLaws.GithubHomepageIsAtomFeed | layman/maker.py:502-523 | through the shared list the fifth component ends with the atom tail (`<branch>.atom` or `master.atom`), so the homepage is the feed |
| MakerLaws.GentooHomepageIsRssFeed | layman/maker.py:429-456 | through the shared list the sixth component ends with the rss tail, so the homepage and both feeds are the rss page |
| MakerLaws.GentooThirdIsHttps | layman/maker.py:396-414 | the third gentoo source is always an https URL |
| MakerLaws.BitbucketGitHomepage | layman/maker.py:348-352 | a git mirror on bitbucket yields no source, keeps the feeds, and sets the homepage to the URL with `.git` replaced: strictly shorter when the URL held `.git`, the URL itself otherwise |
| MakerLaws.BitbucketGitRepoUrl | layman/maker.py:348-352 | `https://bitbucket.org/<path>.git` with no dot in the path gets the homepage `https://bitbucket.org/<path>` |
| MakerLaws.BitbucketHttpsHomepage | layman/maker.py:353-372 | an https mercurial mirror: homepage is the URL, the feeds are its `/atom` and `/rss`, and the second source is the `ssh:`/`hg@` form |
| MakerLaws.StepsExtend | layman/maker.py:536-551 | each mirror block only appends to the sources |
| MakerLaws.OverlayInfoKeepsSource | layman/maker.py:536 | the input source stays first in the result |
| MakerLaws.GitBitbucketAppendsNone | layman/maker.py:546-549 | a git mirror on bitbucket appends the helper's `None` and sets only the homepage |
| MakerLaws.HgBitbucketAddsNoSource | layman/maker.py:546-549 | a mercurial mirror on bitbucket adds no source but sets the homepage and feeds |
| MakerLaws.GithubGathersThree | layman/maker.py:538-541 | a github source yields itself and the two github sources, with the github homepage and feeds |
| MakerLaws.DestinationNormalised | layman/maker.py:607-613 | `.xml` and `/` are added only when missing: normalising again changes nothing, and the result is directory plus name |

## Left out

- Downloading. The sslfetch connector is an input (`Fetch`). `archive.py` line 56 names `Connecter`, which is not defined, so every remote source of the generic archive kind raises; `FetcherUndefined` models that.
- The unpacking tool (`run_command`, `command`) is an input (`Run`): an exit code plus the entries it places below the destination, or an exception. The `extract` method of the generic archive handler is treated the same way.
- `postsync` is not part of this model. `add` and `sync` return the staging result as it is.
- `supported()` / `require_supported` is a boolean setting of the handler. The generic archive's `get_extension` is a string setting.
- `shutil.rmtree` and `os.unlink` never fail in the model. `os.rename` either succeeds or raises (`renameOk`). `tempfile.mkdtemp` makes `os.path.join(base, tmpName)` for a fresh single-component name (`tmpName`).
- `Archives.ArchiveSource.Delete`: the handlers' inherited `delete(base)` is not part of this model. It is assumed to remove whatever is at `base/name`, file or directory, and never to fail. If it is `shutil.rmtree`, it would raise on the package FILE a remote squashfs source with `clean_archive` off leaves at `base/name` (squashfs.py line 89); `_add_unchecked` would then raise and leave the staging directory behind, a case `ArchiveLaws.PromoteInstalls` and `ArchiveLaws.StageSucceeds` do not cover.
- New files get mode 0o644, assuming umask 022. File data is text, not bytes.
- `Archives.ArchiveSource.Extract`: writing the package fails only when a directory is in the way. Other I/O errors (permissions, full disk) are not modelled.
- A branch is a plain string, with `""` for an unset branch. Branch parsing is not in the overlay constructor shown.
- Handler objects behind `OVERLAY_TYPES` are not modelled. A source is its location, type key and display label. Source equality is structural, and `to_xml_hook` is left out.
- `Overlay.add` calls `s.add(base, quiet)`, but the archive, tar and squashfs `add` take only `base`. The resulting exception is covered, because each source's attempt is an input that may raise. `Overlay.sync` (overlay.py line 302) likewise calls `sync(base, quiet)` against `sync(self, base)` in tar.py, archive.py and squashfs.py, so for those handlers it raises a TypeError even with exactly one source left; the model stops at `Overlays.SoleSource` and does not model that call.
- `Overlays.ParseSources`: assumes that constructing a handler for a registered type key succeeds. As shown, overlay.py line 142 calls `_class(self, xml, config, _location, ignore, quiet)`, while `TarOverlay.__init__` (tar.py line 90) takes at most four arguments after `self`, so a `<source type="tar">` raises a TypeError that the overlay constructor does not catch. The handler classes for the other keys are not part of this model.
- `Overlays.ParseSourcesSpec`: "every key registered" stands for "every handler constructed", under the same assumption; with the signatures shown, a registered `tar` key raises a TypeError at overlay.py line 142.
- `Overlays.ParseSourcesOk`: the failure set holds only the unregistered type key; the TypeError of the `tar` handler's construction at overlay.py line 142 is not in it, under the same assumption.
- `OverlayLaws.SourceRule`: "otherwise one source per element" holds under the same assumption; with the signatures shown, a `tar` source makes the constructor raise a TypeError at overlay.py line 142.
- Warnings, output and logging are left out: the `ignore == 1` warnings, the `check_overlay_type` messages, and the `try_to_wipe` info lines.
- `short_list`, `__str__` and `is_supported` are not modelled; they depend on unseen helpers (`pad`, `encoder`, terminal width). The short_list type column is modelled as `TypeLabel`.
- The interactive parts of the wizard are left out: prompts, `read`, and the file writing in `write`. Only the destination name is modelled.
- `supported_types` is a Python 2 list, modelled as a sequence.
- Among overlays with equal names, `sorted` compares the overlay objects. The model's order for such ties is its own insertion order.
- `Maker.Interactive.GuessOverlayType`: follows line 117 as evidently intended (see Findings). The code as written, with its ValueError and its dropped type, is `Maker.TypeChecks`, and `MakerLaws.TypeChecksAsIntended` shows the two agree whenever `tar` does not come before `bzr`.
- `Maker.SplitSourceUrl`: the regular expression tests are modelled by their meaning (prefix or substring). Python's `re` engine is not modelled.
- `MakerLaws.GithubHomepageIsAtomFeed`: states the tail of the fifth component only. The other components are fixed by `GithubLink`'s definition but are not restated.
- `MakerLaws.GentooHomepageIsRssFeed`: states the tail of the sixth component only, as above.
- `MakerLaws.HgBitbucketAddsNoSource`: states that the homepage and feeds are set, not their values. The https case's values are stated by `MakerLaws.BitbucketHttpsHomepage`.
- `OverlayLaws.ReadWriteReread`: holds only when a name or contact taken from an attribute carries no surrounding blanks. `OverlayLaws.UnstrippedNameNotReread` shows that the round trip fails otherwise.
- `OverlayLaws.ParsedIsWellFormed`: needs the same two conditions, for the same reason.
- Unicode handling is not modelled: `ensure_unicode`, encodings, and whitespace beyond Python 2's ASCII `\s`. `int()` of a unicode attribute (which first maps Unicode digits and spaces to ASCII) is modelled as `int()` of ASCII text.

## Findings

| source | as written | input that shows it | evidently intended | confidence | as-written member | corrected member |
|---|---|---|---|---|---|---|
| layman/maker.py:117 | removes `self.supported_types[type_checks.index('bzr')]`, an entry of the original list at the position `bzr` has in the adjusted list | supported types `['tar', 'bzr']` raise ValueError; `['tar', 'cvs', 'bzr']` drop `cvs` and keep `bzr` | remove `bzr` itself and append `bazaar` | not executed | Maker.TypeChecks, MakerLaws.TarBeforeBzrRaises | Maker.CorrectedTypeChecks, MakerLaws.CorrectedTypeChecksSpec, Maker.Interactive.GuessOverlayType |
