# Abbreviation labeler — editing model

A Dafny model of the editing logic behind the abbreviation-labeling form of
`src/abbreviation_labeler.py`. An annotator loads a JSON list of records
`{origin, transcription, type}`, walks through them one at a time, edits the
transcription and the type, and saves the list under a timestamped name. When a
record with an empty transcription is opened, the form pre-fills it with the
letter-by-letter spelling of the abbreviation.

Modules, one per concern of the source file:

- `Results` (`results.dfy`): `Option` and `Result`; a raised error is an `Err`.
- `JsonValues` (`json_values.dfy`): parsed JSON values, plus Python's `len()` and `dict.get`.
- `Spelling` (`spelling.dfy`): `get_transcription`. This covers `str.strip()` with
  Python's whitespace set, the per-character table lookup, and `' '.join`, together
  with its inverse `split(' ')`.
- `Records` (`records.dfy`): what a well-formed record is, the element checks and
  first-unlabeled search of the load loop, and the auto-fill of an empty transcription.
- `FileNames` (`file_names.dfy`): `Path.name`, `Path.stem`, `Path.suffix` under POSIX path rules, and the saved file's name.
- `Labeler` (`labeler.dfy`): class `Session`. Its `data` array holds the records,
  which the handlers update in place. Its `index` field is the open record. Its
  methods are the four handlers. `Open`, `WriteBack` and `Arrive` are steps of
  loading and navigating.

Records are `map<string, Json>`, as Python dicts are. Extra keys in a loaded file
survive loading and auto-fill. They are dropped when `gr_navigate` or
`gr_update_data` rebuilds a record from a three-key dict literal.

The non-dict check of the load loop (lines 80-81) can never fire on parsed JSON.
`item.get(...)` at line 75 already fails on any element that is not a dict. The
model reports that failure as `ElementNotObject`, whichever of the two lines would
have raised it.

A handler that raises sends nothing back to the form. A list it has already changed
in place stays changed. So a `Navigate` whose auto-fill fails still leaves the open
record overwritten with the form's fields. The index stays where it was.

The table of letter names (`alphabets`) and `str.upper()` are foreign code. They are
the constants `Session.alphabet` and `Session.upper`, fixed when the session is
created. The timestamp of a save is a parameter.

## Model

| member | source | states |
|---|---|---|
| `Spelling.TrimStart` | src/abbreviation_labeler.py:57 | the result is a suffix of the input; everything dropped is whitespace; the result does not start with whitespace |
| `Spelling.TrimEnd` | src/abbreviation_labeler.py:57 | the result is a prefix of the input; everything dropped is whitespace; the result does not end with whitespace |
| `Spelling.StripEmptyIffBlank` | src/abbreviation_labeler.py:57 | trimming both ends leaves nothing exactly when every character of the text is Python whitespace (both directions) |
| `Spelling.Strip` | src/abbreviation_labeler.py:57 | `text.strip()` is no longer than the text, and it is empty, which is the guard of `get_transcription`, exactly when the text is blank |
| `Spelling.Spellings` | src/abbreviation_labeler.py:59 | the list comprehension yields one letter name per character of the upper-cased text, in order; a character missing from the table gives `""` |
| `Spelling.Join` | src/abbreviation_labeler.py:59 | `' '.join` of no pieces is `""`, and the join starts with the first piece; `SplitJoin` and `JoinSeparators` give its inverse and its separator count |
| `Spelling.Transcribe` | src/abbreviation_labeler.py:56-59 | `get_transcription` fails, with the empty-string error, exactly when the text is blank |
| `Spelling.Split` | src/abbreviation_labeler.py:59 | a specification helper, Python's `str.split(' ')`, which the source never calls: it is the inverse that states what the join at line 59 produces, and it always yields at least one piece |
| `Spelling.SplitJoin` | src/abbreviation_labeler.py:59 | splitting on single spaces recovers the joined pieces, for one or more pieces that contain no space |
| `Spelling.JoinSeparators` | src/abbreviation_labeler.py:59 | joining n space-free pieces inserts exactly n - 1 spaces |
| `Spelling.TranscribeSpellsLetters` | src/abbreviation_labeler.py:56-59 | for non-blank text and space-free letter names, the spelling splits into the table lookups of the upper-cased characters in order (unknown ones `""`) and holds one space fewer than there are characters |
| `Records.Edited` | src/abbreviation_labeler.py:110-114 | the dict a handler writes back has exactly the keys origin, transcription, type, holding the given values, and is well-formed |
| `Records.ItemError` | src/abbreviation_labeler.py:74-83 | an element passes the load checks exactly when it is a dict with origin, transcription and type and a transcription `len()` accepts; otherwise the error names that element's index |
| `Records.FirstUnlabeled` | src/abbreviation_labeler.py:71-78 | the index is the smallest one whose transcription is empty, or 0 when no transcription is empty |
| `Records.ScanItems` | src/abbreviation_labeler.py:71-86 | the load loop succeeds exactly when every element passes; then it yields the first unlabeled index; otherwise it fails with the error of the first failing element |
| `Records.AutoFill` | src/abbreviation_labeler.py:89-90 | a non-empty transcription is kept as is; an empty one is replaced by the spelling of the origin; this fails exactly when the origin is not a string or is blank; every other key is unchanged |
| `Records.AutoFillIdempotent` | src/abbreviation_labeler.py:120-121 | auto-filling a record that was just auto-filled changes nothing more |
| `FileNames.BaseName` | src/abbreviation_labeler.py:142 | the name part of `Path(p)` is a trailing piece of `p` (under POSIX path rules) |
| `FileNames.Stem` | src/abbreviation_labeler.py:142 | `Path(p).stem` is a prefix of the name part |
| `FileNames.Suffix` | src/abbreviation_labeler.py:142 | `Path(p).suffix` is `""` or starts with a dot, and is a trailing piece of the name part |
| `FileNames.SaveName` | src/abbreviation_labeler.py:142-144 | the saved name starts with the loaded file's stem, '_' and the timestamp, and ends with ".json" |
| `FileNames.BaseNameShape` | src/abbreviation_labeler.py:142 | `Path(p).name` contains no '/', ends `p`, and is preceded in `p` by a '/' when it is not all of `p` |
| `FileNames.StemSuffix` | src/abbreviation_labeler.py:142 | stem followed by suffix is the base name; the stem has no '/'; a suffix is a dot and at least one more character, with no other dot, after a non-empty stem |
| `FileNames.SaveNameParts` | src/abbreviation_labeler.py:142-144 | the saved name is its own base name; its stem is the loaded file's stem, '_' and the timestamp; its suffix is ".json" (for a timestamp without '/') |
| `Labeler.Session.constructor` | src/abbreviation_labeler.py:177-178 | a new session has no records and no open index |
| `Labeler.Session.Load` | src/abbreviation_labeler.py:68-104 | a non-list fails. A failing element fails with the first failing element's error. An empty list fails. A failed auto-fill of the chosen record fails. Each failure leaves the session unchanged. Otherwise the session holds the parsed records, with only the first unlabeled one (or record 0) auto-filled. That record is open, and the form shows it at position (index+1, length) |
| `Labeler.Session.Open` | src/abbreviation_labeler.py:89-96 | the session holds a fresh array of the loaded records with only the chosen record replaced by its auto-filled version, and that record is open |
| `Labeler.Session.Navigate` | src/abbreviation_labeler.py:106-131 | with no records or no index nothing changes and the form is empty at "0/0". Otherwise the open record is first overwritten with the form's fields. A move outside the list keeps the index and echoes the form. A move inside auto-fills the target and opens it; if that auto-fill fails, the index stays and the overwrite remains. Length and all other records are unchanged |
| `Labeler.Session.WriteBack` | src/abbreviation_labeler.py:110-114 | the open record is overwritten with the form's record, every other record is kept, and the records stay well-formed |
| `Labeler.Session.Arrive` | src/abbreviation_labeler.py:120-131 | the target record is auto-filled and opened, and the form shows it at (target+1, length); when the auto-fill fails, neither the records nor the index change |
| `Labeler.Session.Update` | src/abbreviation_labeler.py:152-159 | it asks only for well-formed records, not for the index to be inside the list. With an open index inside the list, that record becomes {its origin, the new transcription, the new type}. With no records, no index or an index outside the list, the records are unchanged. The index never changes |
| `Labeler.Session.Save` | src/abbreviation_labeler.py:134-144 | saving fails exactly when there are no records (none loaded or an empty list); otherwise the file is named stem + "_" + timestamp + ".json" |

## Left out

- Reading and parsing the uploaded file and resolving its absolute path (lines 63-66). `Load` starts from the parsed value, and the loaded file's path is not returned.
- The informational pop-ups of the load loop (lines 79 and 86).
- Deleting old temporary files, reading the clock and writing the JSON file (lines 138-140, 143, 145-149). The timestamp is a parameter, and `Save` returns the file name, not the absolute path in the temporary directory.
- The text-to-speech handlers (lines 30-54). Each one refuses a blank phrase, with the same test as `Spelling.IsBlank`, and then calls an external speech library and plays the audio.
- The form layout and event wiring (lines 161-312). The form's widgets are taken to deliver strings for origin, transcription and type.
- The contents of `alphabets` and the Unicode rules of `str.upper()`: both are foreign code, taken as the session's constants.
- The text of the error messages. Errors are modelled by kind, not by their message strings.
- The decimal rendering of the position counter "i/n": it is the pair `Position(current, total)`.
- Key order inside records: Python dicts keep insertion order, which matters only for the written file.
- JSON numbers: they are kept as their literal text. Integers and floats are not told apart. The labeler asks a number for its `len()` (lines 75, 89 and 120), which fails on both. It calls `.strip()` on a number origin (line 57, reached from lines 90 and 121), which also fails on both (`Records.AutoFill` gives `NotText`). Otherwise it only echoes numbers back into the form, unchanged.
- Windows paths: `BaseName`, `Stem`, `Suffix` and `SaveName` follow POSIX path rules, where '/' is the only separator. On Windows `Path` also splits at '\' and after a drive prefix such as `C:`, so there `Path(r"C:\Users\a\data.json").stem` is `data`, while the model's `Stem` keeps the whole `C:\Users\a\data`.
- `pathlib` normalisation: trailing '/' and '.' path components are not normalised. The stem follows the rule of Python up to 3.13, where a dot that ends the name is no suffix.
- Spelling.TranscribeSpellsLetters: the separator count is one less than the length of the upper-cased text, not of the original text, because `str.upper()` may change the length. It also assumes that no letter name in the table contains a space.
- Labeler.Session.Navigate: it requires the open index to lie inside the list. Every handler keeps it there. What the source does with an index the form never produces (an IndexError, or Python's wrap-around for negative indices) is not modelled.
