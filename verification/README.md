# XMind note extractor — a Dafny model

This project models the core of `extract-xmind-notes.py`, a tool that pulls the notes
attached to the topics of an XMind mind map into a Markdown report.

The document's `content.json` is decoded into a tree of mappings, lists and strings
(`PyJson.Json`). The **note collector** (`_parse_topics`) walks that tree depth-first
and in pre-order. It hands a breadcrumb path (`parent > child`) down to each titled topic.
Whenever a titled topic's note resolves to non-empty text, it appends a
`{title, notes}` record to one shared result list. `extract_notes` returns that list,
or the empty list when anything raised. `save_to_markdown` writes the report: a
header, the source file name, the record count, a rule, and then one numbered
entry per record.

The model has three layers:

- **Pure walk** (`collector.dfy`, module `NoteCollector`). `Collect`, `CollectTitled`,
  `CollectChildren` and `CollectList` follow the branches of `_parse_topics`.
  They return `Option<seq<Record>>`, where `None` means that Python raised.
  Python's `key in v` and `v[key]` are modelled exactly by `PyJson.Member`:
  - on a dict, `in` tests the keys;
  - on a list, `in` compares elements, and the subscript then raises;
  - on a string, `in` is a substring search, and the subscript then raises;
  - on `None`, a boolean or a number, `in` raises.
  Truthiness follows Python (`PyJson.Truthy`).
- **Imperative walk** (`extractor.dfy`, module `NoteExtractor`). `NoteList` is the shared
  result list. `ParseTopics`, `ParseTitled`, `ParseChildren` and `ParseItems` append to it
  while they recurse and loop. Each is proved to append exactly what the pure walk
  computes, and never to remove anything. `ExtractNotes` is `extract_notes` after decoding.
- **Report** (`report.dfy`, module `MarkdownReport`). `Render` produces the text
  `save_to_markdown` writes, or `None` when there is nothing to write.

Properties are in `collector_properties.dfy` (order, error propagation, note resolution),
`path_properties.dfy` (breadcrumb paths) and `examples.dfy` (small documents end to end).

Three behaviours of the code differ from what a reader might expect of a note extractor:

- A malformed note shape does not simply count as "no note". Several shapes raise a
  `TypeError`, and the top-level handler then discards every record. Examples: a
  string-valued `notes` that contains `plain` or `realHTML`, or a truthy number or boolean
  as `notes`. See `StringNotesRaise`, `ScalarNotesRaise` and `NoPartialResults`.
- The `children` of an untitled mapping are not traversed. Only its `rootTopic` is
  walked; children are reached only through a titled mapping, so the noted children of an
  untitled topic are never visited. See `UntitledMappingIsInert`, `RootTopicFirst` and
  `UntitledParentHidesChild`.
- A comment in the code says `realHTML` is used only when there is no plain text. The
  code overwrites `plain.content` with `realHTML.content` whenever the latter is present.
  The model follows the code (`RealHtmlOverridesPlain`).

## Model

| member | source | states |
|---|---|---|
| `PyJson.Truthy` | extract-xmind-notes.py:69 | a value is falsy exactly when it is an empty mapping, list or string, `None`, `False` or zero |
| `PyJson.Member` | extract-xmind-notes.py:56-84 | `key in v` followed by `v[key]` yields a value exactly when `v` is a mapping holding `key`, and that value is `v[key]`; it raises exactly when `v` is a list holding the string `key`, a string containing `key`, or `None`, a boolean or a number |
| `PyJson.IsInfixIff` | extract-xmind-notes.py:72-76 | Python's `in` on two strings holds exactly when the key occurs at some position of the string |
| `NoteCollector.FullTitleInjective` | extract-xmind-notes.py:63-66 | under one parent path, a topic's path determines its title: different titles never share a path |
| `NoteCollector.ContentOf` | extract-xmind-notes.py:72-78 | a format's `content` is found exactly when `notes` is a mapping holding the format as a mapping that holds `content`, and it is that value |
| `NoteCollector.ResolveNote` | extract-xmind-notes.py:71-78 | resolving raises exactly when probing `plain` or `realHTML` raises; otherwise a present `realHTML.content` is the note (a falsy non-string giving empty text), else a present `plain.content`, else the empty note |
| `NoteCollector.OwnRecord` | extract-xmind-notes.py:69-81 | a topic contributes at most one record of its own, and never one with empty notes |
| `NoteCollector.Collect` | extract-xmind-notes.py:51-91 | every record the walk collects has non-empty notes |
| `NoteCollector.CollectTitled` | extract-xmind-notes.py:60-86 | every record collected for a titled topic and its descendants has non-empty notes |
| `NoteCollector.CollectChildren` | extract-xmind-notes.py:84-86 | every record collected below `children.attached` has non-empty notes |
| `NoteCollector.CollectList` | extract-xmind-notes.py:89-91 | every record collected from a list has non-empty notes |
| `NoteCollector.Extract` | extract-xmind-notes.py:43-49 | all or nothing: when the walk from the empty path succeeds its records are returned, and when it raises the result is the empty list; every note is non-empty |
| `CollectorProperties.CollectListAppend` | extract-xmind-notes.py:89-91 | walking `xs + ys` walks `xs` and then `ys` with the same parent path, and fails if either fails |
| `CollectorProperties.CollectListRaises` | extract-xmind-notes.py:89-91 | the walk over a list raises exactly when the walk over some item raises |
| `CollectorProperties.CollectListOrder` | extract-xmind-notes.py:85-91 | the records of item `i` come after those of earlier items and before those of later ones |
| `CollectorProperties.RootTopicFirst` | extract-xmind-notes.py:56-57 | `rootTopic` is walked from the empty path whatever the caller's path, and its records lead the mapping's records |
| `CollectorProperties.TopicPreOrder` | extract-xmind-notes.py:56-86 | a titled mapping with `children.attached` yields the records of its `rootTopic` (walked from the empty path) if it has one, then its own record, then its children's records, each child walked with the topic's full path |
| `CollectorProperties.UntitledMappingIsInert` | extract-xmind-notes.py:54-60 | a mapping with neither `title` nor `rootTopic` yields no records and cannot raise, even when it has children |
| `CollectorProperties.ScalarIsInert` | extract-xmind-notes.py:54-91 | strings, `None`, booleans and numbers yield no records |
| `CollectorProperties.OwnRecordIff` | extract-xmind-notes.py:69-81 | a topic's own record `{path, text}` exists exactly when its notes are truthy and resolve to non-empty `text`; it has none exactly when notes are absent or falsy or resolve to empty text |
| `CollectorProperties.RealHtmlOverridesPlain` | extract-xmind-notes.py:71-78 | with both `plain.content` and `realHTML.content` present, the note is `realHTML.content` |
| `CollectorProperties.PlainUsedAlone` | extract-xmind-notes.py:71-78 | with `plain.content` and no `realHTML`, the note is `plain.content` |
| `CollectorProperties.NoFormatGivesEmptyNote` | extract-xmind-notes.py:71-81 | with neither format the note is empty, so no record is produced |
| `CollectorProperties.StringNotesRaise` | extract-xmind-notes.py:69-76 | a string `notes` raises exactly when it contains `plain` or `realHTML`; otherwise it resolves to empty text |
| `CollectorProperties.StringPlainRaises` | extract-xmind-notes.py:72-73 | a string `plain` raises exactly when it contains `content` |
| `CollectorProperties.ScalarNotesRaise` | extract-xmind-notes.py:69-72 | a truthy number or boolean as `notes` raises |
| `PathProperties.PathThroughNonEmpty` | extract-xmind-notes.py:63-64 | below a non-empty path, each title down the tree is appended after `" > "` |
| `PathProperties.PathFromRootIsJoin` | extract-xmind-notes.py:63-66 | from the empty path, a topic's path is its ancestors' titles joined by `" > "`, where leading empty titles leave no separator |
| `PathProperties.CollectStaysUnder` | extract-xmind-notes.py:63-86 | with no `rootTopic` below, every record found under a non-empty path `p` has a title starting with `p + " > "` |
| `PathProperties.ChainYieldsPath` | extract-xmind-notes.py:60-86 | a chain of nested single-child topics yields exactly one record: the innermost note under the path built from every title |
| `NoteExtractor.NoteList.constructor` | extract-xmind-notes.py:24 | the result list starts empty |
| `NoteExtractor.NoteList.Append` | extract-xmind-notes.py:81 | appending adds the record at the end and keeps the earlier records |
| `NoteExtractor.ParseTopics` | extract-xmind-notes.py:51-91 | raises exactly when the pure walk fails; otherwise the list becomes its old contents followed by the records of the pure walk; earlier contents are never changed |
| `NoteExtractor.ParseTitled` | extract-xmind-notes.py:60-86 | the same, for the titled branch: the own record, then the children |
| `NoteExtractor.ParseChildren` | extract-xmind-notes.py:84-86 | the same, for the `children.attached` guard and loop |
| `NoteExtractor.ParseItems` | extract-xmind-notes.py:89-91 | the same, for the loop over a list; the loop invariant is the walk over the items done so far |
| `NoteExtractor.ExtractNotes` | extract-xmind-notes.py:42-49 | returns the records of the walk from the empty path, or the empty list when it raised; every note is non-empty |
| `MarkdownReport.NatToString` | extract-xmind-notes.py:112 | the count and indices are written as non-empty decimal digits with no leading zero |
| `MarkdownReport.NatToStringValue` | extract-xmind-notes.py:112 | the digits written for `n` read back as `n` |
| `MarkdownReport.PreambleDeterminesCount` | extract-xmind-notes.py:110-113 | the count line determines the count: two different record counts never give the same preamble |
| `MarkdownReport.EntryDeterminesNumber` | extract-xmind-notes.py:116-118 | an entry determines its number and the title-and-notes text after it, even when the title starts with digits |
| `MarkdownReport.Render` | extract-xmind-notes.py:100-118 | nothing is written exactly when there are no records; otherwise the text starts with the header, the source line, the count line holding the number of records, and a rule |
| `MarkdownReport.EntriesAppend` | extract-xmind-notes.py:116-118 | the entries of consecutive runs of records follow one another, numbering continuing from one run to the next |
| `MarkdownReport.RenderedEntryAt` | extract-xmind-notes.py:116-118 | record `i` appears as entry `i + 1` (`i+1. ` + title + notes, then a rule) right after the entries of the records before it, and the text ends with the entry of the last record |
| `MarkdownReport.EntryJoinsTitleAndNotes` | extract-xmind-notes.py:117 | title and notes are written with nothing between them, so different records can produce the same entry |
| `CollectorExamples.NotedTopicYields` | extract-xmind-notes.py:60-81 | a titled topic with a plain note yields exactly one record under its full path |
| `CollectorExamples.RootAndChild` | extract-xmind-notes.py:51-91 | `Root` with a noted child `Child` yields exactly `{Root > Child, hello}` |
| `CollectorExamples.WrappedRootTopic` | extract-xmind-notes.py:56-57 | a topic wrapped in `rootTopic` yields its note under its own title |
| `CollectorExamples.UntitledParentHidesChild` | extract-xmind-notes.py:60 | a noted child of an untitled mapping yields nothing |
| `CollectorExamples.NullHtmlOverridesPlain` | extract-xmind-notes.py:72-80 | a `null` `realHTML.content` overrides a non-empty `plain.content`, so the topic yields no record |
| `CollectorExamples.PlainRaisesBeforeHtml` | extract-xmind-notes.py:72-76 | when probing `plain` raises, a number as `realHTML.content` is never read: the document is covered and extracts nothing |
| `CollectorExamples.StringNotesTopicRaises` | extract-xmind-notes.py:69-72 | a topic whose `notes` is a string mentioning `plain` makes the walk raise |
| `CollectorExamples.UnreadFieldsAnyShape` | extract-xmind-notes.py:54-91 | fields the walk never reads (here a list of mappings whose `content` is a list) are accepted and leave the result unchanged |
| `CollectorExamples.NoPartialResults` | extract-xmind-notes.py:47-49 | one raising topic empties the whole result, although an earlier topic had a record |

## Left out

- The Tkinter window and file dialog (lines 9-20), `run` and the entry point (lines 126-147) are user interface.
- Opening the zip archive, reading `content.json`, JSON decoding and the file-existence check (lines 27-40) are I/O and library calls. Their failures also return the empty list. The model takes the decoded tree as its input.
- Writing the file, its output path `<base>_notes.md`, `os.path.splitext`, `os.path.basename` and a failed write (lines 104-124) are filesystem behaviour. `Render` takes the source's base name as a parameter and returns the text.
- The `print` diagnostics (lines 29, 39, 48, 101, 120, 123) are output only.
- `_extract_text_from_html` (lines 94-96) is the identity and is never called.
- `Readable` is a restriction on the shape of the tree. The `title` of every mapping the walk would treat as a topic must be a string, and the `content` a note resolves to must be a string or a falsy value (a falsy value yields no record, as `NullHtmlOverridesPlain` shows). Keys the walk never looks at may hold anything (`UnreadFieldsAnyShape`). A non-string title, or a truthy non-string note such as a number, is outside the model: Python would put it into the path or the record as is and format it with `str()` in the report, while the model's `Record` holds strings only.
- Topics after a raise: `Readable` also constrains topics that Python never reaches because an earlier step raised, such as later items of a list after a raising item, or the `title` of a mapping whose `rootTopic` walk raised. Such a document, with a non-string title or note in the unreached part, is outside the model, although Python would return the empty list for it. The `notes` of a single topic are the exception: nothing is asked of `realHTML` once probing `plain` raises.
- Numbers are kept as `real`, because only their truthiness matters. Non-finite values (NaN, infinity) are not modelled.
- Iterating a mapping or a string found under `children.attached` visits strings, and strings contribute nothing. The model therefore gives such a value no records rather than walking it element by element.
- Python's recursion limit is not modelled. On a very deeply nested document it raises `RecursionError`, which the top-level handler turns into the empty list. The model walks any depth.
- The count "records = topics with a non-empty resolved note" is proved topic by topic (`OwnRecordIff`, `TopicPreOrder`, `CollectListAppend`), not as one global count over the tree.
- NoteExtractor.ParseTopics: when it raises, only states that earlier records are kept, not which records were appended before the exception, because `extract_notes` discards that list.
- NoteExtractor.ParseTitled: as for `ParseTopics`, the list left behind when it raises is only known to extend the old one.
- NoteExtractor.ParseChildren: as for `ParseTopics`, the list left behind when it raises is only known to extend the old one.
- NoteExtractor.ParseItems: as for `ParseTopics`, the list left behind when it raises is only known to extend the old one.
