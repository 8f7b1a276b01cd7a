# deeprank data generation and assembly, modelled in Dafny

This project models the bookkeeping core of deeprank's data preparation.

`DataGenerator` (deeprank/generate/DataGenerator.py) builds an HDF5
database with one group per conformation of a protein complex. The core
modelled here covers several steps:

- It lists the structure files below the source and native directories.
- It narrows them with an allow-list.
- It derives each conformation's molecule name and pairs a decoy with its
  native reference.
- It names the rotated replicas of data augmentation.
- It splits the groups of an existing database into originals and
  replicas, and deletes members with `remove`.
- It fills in the defaults of `map_features`.
- It stores ATOM records: those read from a PDB file, and those a rotated
  structure is written as, truncated to 73 bytes.

`DataAssembler` (assemble/assemble_data.py) builds a folder tree. The
steps modelled are:

- It narrows the natives and decoys to the complexes a class file names.
- It gives each complex a folder holding its structure, one directory per
  feature, and a `targets` directory. That directory holds the binary
  class and, for decoys, the target values looked up for the molecule.
- `add_feature` and `add_target` are modelled as far as they parse
  molecule names from folder paths.

The modules are:

- `Wrappers`: `Option` and `Result`.
- `Lists`: generic sequence helpers.
- `Text`: the Python string operations the source uses, each as a
  function with its properties. They include `split`, `splitext`, `str.split()`,
  `int()`, `lstrip`/`strip`, `'{:>w}'`, `'{:^w}'`, `'%03d'`, and `'{: w.pf}'`
  on fixed-point values.
- `Select`: `list(filter(lambda x: name in x, paths))` and its
  concatenation over several names, the filtering idiom of both files.
- `Store`: the database one level down, as a map from group to member
  names. It is a class whose methods update the map.
- `Catalog`: names, references, replicas, the original/replica partition,
  the constructor's listing, and `create_database` as functions.
- `Generator`: the `DataGenerator` object as a class. Its constructor,
  `_filter_cplx` and `create_database` are methods proved against `Catalog`.
- `GridDefaults`: the `map_features` defaults, as a function and as a
  class updating the caller's dictionary in place.
- `AtomRecord`: the ATOM line writer, the PDB column reader, and the stored
  records.
- `Assemble`: `DataAssembler` as a class, with the folder tree as
  functions and lemmas.

External effects are parameters:

- `find` / `ls` output is `find: string -> string`, or the listed
  paths directly.
- The allow-list and class files are their lines.
- `grep -w` output for a molecule and target directory is
  `grep: (string, string) -> Option<string>`. `None` means grep exited
  with an error.
- Whether `float()` accepts a word is `isFloat`.
- The database keys in `map_features` are a sequence of molecule names
  and a map of feature names.

The model follows the code, with two exceptions: the two defects listed
under "## Findings". There, `Catalog.Discover` (the constructor) and
`Catalog.Build` (`create_database`), and the `Generator` methods proved
against them, take the evidently intended behaviour. The as-written members
named in that table show what the code does instead. As written, any
`pdb_native` that is not a list raises `AttributeError` at line 95, and
`data_augmentation >= 2` raises at line 217. With one replica, the copies
as written put `targets/targets` and `features/features` into the origin's
group, where `Catalog.Build` puts nothing.

Where the code and its documentation disagree, the model follows the code:

- A decoy without a native reference raises: `ref[0]` is applied to an
  empty list. It is not skipped with a warning.
- The allow-list of `DataGenerator._filter_cplx` appends `.pdb` to each
  name before matching.
- A conformation whose name has no `_` is its own reference.
- A molecule whose own name contains `_r` is taken for a replica
  (`Catalog.AugNameOriginMisread`).
- `map_features` writes `residue_feature` into the caller's dictionary, so a
  second call with the same dictionary raises
  (`GridDefaults.MapDefaultsTwice`).

## Model

| member | source | states |
|---|---|---|
| Text.BeforeFirst | deeprank/generate/DataGenerator.py:134 | `s.split(sep)[0]`: a prefix of `s` with no occurrence of `sep` before its end, followed by `sep` when `s` contains it, and all of `s` otherwise |
| Text.BeforeFirstOfJoin | deeprank/generate/DataGenerator.py:134 | the text before the first separator of `pre + sep + post` is `pre` when `pre` has no separator |
| Text.Split | assemble/assemble_data.py:94 | `s.split(c)`: at least one part, no part holds `c`, and joining the parts with `c` gives `s` back |
| Text.SplitJoin | assemble/assemble_data.py:94 | splitting parts joined with `c`, none holding `c`, gives the parts back |
| Text.AfterLast | assemble/assemble_data.py:160 | `s.split(c)[-1]`: a suffix of `s` without `c`, preceded by `c` when shorter than `s` |
| Text.AfterLastOfJoin | assemble/assemble_data.py:160 | the last component of `dir + c + name` is `name` when `name` has no `c` |
| Text.SplitExtRoot | deeprank/generate/DataGenerator.py:129 | `os.path.splitext(b)[0]` is a prefix of `b` |
| Text.SplitExtRootOf | deeprank/generate/DataGenerator.py:129 | the root of `name.ext` is `name` when `ext` has no dot and `name` has a non-dot character |
| Text.Tokens | assemble/assemble_data.py:136 | `str.split()`: every word is non-empty and holds no whitespace |
| Text.TokensEmpty | assemble/assemble_data.py:203 | a text has no words exactly when it is all whitespace |
| Text.TokensOfTwo | assemble/assemble_data.py:136 | a word, whitespace and a word split into exactly those two words |
| Text.LastTokenPlacement | assemble/assemble_data.py:203 | `split()[-1]` is a word of the text with only whitespace after it and whitespace or nothing before it |
| Text.LastTokenOf | assemble/assemble_data.py:203 | the converse: a non-empty word with only whitespace after it, and whitespace or nothing before it, is `split()[-1]` |
| Text.RightJustify | deeprank/generate/DataGenerator.py:760 | `'{:>w}'` is as long as the text or the width, whichever is larger |
| Text.StripRightJustified | deeprank/generate/DataGenerator.py:760-768 | stripping the padding of a right-justified field without leading spaces gives the field back |
| Text.Center | deeprank/generate/DataGenerator.py:762 | `'{:^w}'` is as long as the text or the width, whichever is larger |
| Text.CenterPlacement | deeprank/generate/DataGenerator.py:762 | `'{:^w}'` puts `(w - len) // 2` spaces before the text and the rest after it |
| Text.StripCentered | deeprank/generate/DataGenerator.py:762 | stripping a centred field without surrounding spaces gives it back |
| Text.ZeroPad | deeprank/generate/DataGenerator.py:191 | `'%03d' % n`: digits whose value is `n`, as long as `n`'s decimal or the width |
| Text.ZeroPadDistinct | deeprank/generate/DataGenerator.py:191 | different numbers give different zero-padded texts |
| Text.IntString | assemble/assemble_data.py:176 | `'%d' % n` is non-empty and does not start with a space |
| Text.ParseInt | assemble/assemble_data.py:137 | `int()` accepts only a non-empty token without whitespace |
| Text.ParseIntString | assemble/assemble_data.py:137 | `int()` reads back the decimal text of every integer |
| Text.FixedPoint | deeprank/generate/DataGenerator.py:770-774 | `'{: w.pf}'` on a fixed-point value: a sign column, then at least one digit, a point and `p` digits |
| Text.FixedPointRoundTrip | deeprank/generate/DataGenerator.py:770-774 | a fixed-point column, right-justified and read back with its padding stripped, gives the value |
| Select.Matching | deeprank/generate/DataGenerator.py:650 | the filter keeps no more paths than it has |
| Select.MatchingMember | deeprank/generate/DataGenerator.py:650 | a path is kept exactly when it is listed and contains the name |
| Select.MatchingCount | deeprank/generate/DataGenerator.py:650 | each path is kept as often as it is listed when it contains the name, and never otherwise |
| Select.MatchingAppend | deeprank/generate/DataGenerator.py:650 | the filter keeps the order: it distributes over concatenation |
| Select.SelectAllMember | deeprank/generate/DataGenerator.py:648-653 | a path is selected exactly when it is listed and contains some name |
| Select.SelectAllCount | deeprank/generate/DataGenerator.py:648-653 | a path is selected once per listing and per name that occurs in it |
| Select.SelectAllAppend | deeprank/generate/DataGenerator.py:648-653 | selecting with two lists of names in turn is selecting with their concatenation |
| Select.SelectAllSingle | deeprank/generate/DataGenerator.py:648-653 | one name selects the paths that contain it, in order |
| Store.RemoveAll | deeprank/generate/DataGenerator.py:344-356 | `remove` keeps every group |
| Store.RemovePair | deeprank/generate/DataGenerator.py:350-352 | `complex` and `native` are either both kept or both deleted, and they are deleted exactly when `pdb` is set |
| Store.RemoveLonePdb | deeprank/generate/DataGenerator.py:350-352 | a `complex` without `native`, or a `native` without `complex`, is never deleted |
| Store.RemoveOthers | deeprank/generate/DataGenerator.py:344-356 | members other than the five named ones are kept, and nothing is added |
| Store.RemoveIdempotent | deeprank/generate/DataGenerator.py:344-356 | removing twice with the same flags removes no more than once |
| Store.CleanGroup | deeprank/generate/DataGenerator.py:346-356 | the deletions in one group, in the source's order, leave the members the specification keeps |
| Store.Database.CreateDataset | deeprank/generate/DataGenerator.py:723 | `create_dataset` succeeds exactly when the key is new in the group, and adds it; a refusal changes nothing |
| Store.Database.constructor | deeprank/generate/DataGenerator.py:117 | a file opened with mode `'w'` holds no group |
| Store.Database.RequireGroup | deeprank/generate/DataGenerator.py:154 | `require_group` adds an empty group when it is missing and otherwise changes nothing |
| Store.Database.RequireMember | deeprank/generate/DataGenerator.py:213-214 | `require_group` inside a group adds the member name, keeping one already there |
| Store.Database.Remove | deeprank/generate/DataGenerator.py:344-356 | the store after the loop over the groups is the specification's |
| Catalog.MolName | deeprank/generate/DataGenerator.py:129 | the molecule name has no `/` |
| Catalog.MolNameOfPath | deeprank/generate/DataGenerator.py:129 | the molecule name of `<dir>/<name>.pdb` is `name` |
| Catalog.BareName | deeprank/generate/DataGenerator.py:134 | the bare name is a prefix of the molecule name |
| Catalog.BareNameWithoutUnderscore | deeprank/generate/DataGenerator.py:134 | the bare name has no `_` |
| Catalog.OwnReference | deeprank/generate/DataGenerator.py:139-140 | a conformation is its own reference exactly when its name has no `_` |
| Catalog.BareNameOfDecoy | deeprank/generate/DataGenerator.py:134 | the bare name of `<bare>_<rest>` is `bare` |
| Catalog.FindReference | deeprank/generate/DataGenerator.py:135-147 | a reference found is always a path, never the empty case |
| Catalog.ReferenceNotEmpty | deeprank/generate/DataGenerator.py:145-147 | the first native path matching a reference name is non-empty, so the empty-path branch is unreachable |
| Catalog.ReferenceOutcome | deeprank/generate/DataGenerator.py:139-147 | a native is its own reference; a decoy raises `IndexError` exactly when no native path contains `<bare>.pdb` and raises `Warning` exactly when more than one does; otherwise its reference is a native path containing `<bare>.pdb`; the empty-path case is never reached |
| Catalog.AugNames | deeprank/generate/DataGenerator.py:190-193 | one replica name per replica asked for, none without augmentation |
| Catalog.AugNameParts | deeprank/generate/DataGenerator.py:191 | the `k`-th replica name is the molecule name, `_r` and `k` in at least three digits |
| Catalog.AugNamesDistinct | deeprank/generate/DataGenerator.py:191 | the replica names of one molecule are pairwise distinct |
| Catalog.AugNameOrigin | deeprank/generate/DataGenerator.py:268 | a replica of a molecule without `_r` in its name is classified as augmented, with that molecule as its origin |
| Catalog.AugNameOriginMisread | deeprank/generate/DataGenerator.py:268 | a replica of a molecule with `_r` in its own name gets a shorter name as its origin |
| Catalog.Origin | deeprank/generate/DataGenerator.py:268 | the origin of a replica name is shorter than the name |
| Catalog.Originals | deeprank/generate/DataGenerator.py:243 | the originals are no more than the group names |
| Catalog.OriginalsCount | deeprank/generate/DataGenerator.py:243 | each name is among the originals as often as it occurs, when it has no `_r`, and never otherwise |
| Catalog.Partition | deeprank/generate/DataGenerator.py:243-244 | originals and replicas together are the group names exactly, as multisets, and each side satisfies its test |
| Catalog.SourceDirs | deeprank/generate/DataGenerator.py:82-87 | no source raises `NotADirectoryError`; one path is wrapped in a list; a list is kept |
| Catalog.NativeDirsAsWritten | deeprank/generate/DataGenerator.py:95-96 | as written, only a list of native directories gets past the guard |
| Catalog.NativeDirs | deeprank/generate/DataGenerator.py:95-99 | corrected: no natives fails in the loop; otherwise the natives are handled as the sources are |
| Catalog.NativeDirsFinding | deeprank/generate/DataGenerator.py:95-96 | a single native directory is rejected as written and accepted once corrected |
| Catalog.FoundMember | deeprank/generate/DataGenerator.py:90-91 | a path is listed exactly when it is a word of some directory's `find` output |
| Catalog.SelectPatternsSpec | deeprank/generate/DataGenerator.py:642-645 | the allow-list is read without error exactly when no line is blank, and then each name is the line's first word followed by `.pdb` |
| Catalog.SelectPatterns | deeprank/generate/DataGenerator.py:642-645 | an allow-list read without error gives one name per line |
| Generator.SelectPatternsError | deeprank/generate/DataGenerator.py:644-645 | a blank line, whose first word does not exist, is the only way reading the allow-list fails |
| Catalog.DiscoverFails | deeprank/generate/DataGenerator.py:82-104 | with the native-directory guard corrected (Finding 1): the constructor fails exactly when no source is given, the natives are `None`, or the allow-list has a blank line |
| Catalog.DiscoverFound | deeprank/generate/DataGenerator.py:90-104 | with the native-directory guard corrected (Finding 1): every path to process was found below a source directory, and without an allow-list all of them are processed, in order |
| Catalog.DiscoverSelected | deeprank/generate/DataGenerator.py:101-104 | with the native-directory guard corrected (Finding 1): under an allow-list, every path to process contains the name of one of its lines |
| Catalog.ListPaths | deeprank/generate/DataGenerator.py:90-91 | the loop appends each directory's output words in order |
| Catalog.AddOriginal | deeprank/generate/DataGenerator.py:154-178 | writing a conformation after an exception changes nothing, and succeeds only from a state without one |
| Catalog.AddReplica | deeprank/generate/DataGenerator.py:202-218 | the same for one replica, with the copies doing what they are meant to |
| Catalog.AddReplicas | deeprank/generate/DataGenerator.py:196-218 | with the replica copies corrected (Finding 2): the same for the replicas of one conformation in order |
| Catalog.AddComplex | deeprank/generate/DataGenerator.py:128-218 | with the replica copies corrected (Finding 2): one pass of the loop after an exception changes nothing |
| Catalog.ComplexWritten | deeprank/generate/DataGenerator.py:128-218 | with the replica copies corrected (Finding 2): a pass that ends without error found its reference and wrote the conformation and its replicas |
| Catalog.ComplexKeeps | deeprank/generate/DataGenerator.py:128-218 | with the replica copies corrected (Finding 2): one pass keeps every group with all its members |
| Catalog.OriginalPopulates | deeprank/generate/DataGenerator.py:154-178 | a conformation with a reference, written without error, holds the four members |
| Catalog.ReplicasPopulate | deeprank/generate/DataGenerator.py:196-218 | with the replica copies corrected (Finding 2): each replica written without error holds the four members |
| Catalog.OriginalOnEmpty | deeprank/generate/DataGenerator.py:154-178 | in a fresh store the conformation's group holds exactly `complex`, `native`, `features` and `targets` |
| Catalog.FreshReplica | deeprank/generate/DataGenerator.py:202-218 | corrected, a replica with a new name is written without error and adds exactly its own group |
| Catalog.AddReplicasAsWritten | deeprank/generate/DataGenerator.py:196-218 | as written, the replicas after an exception change nothing |
| Catalog.AsWrittenSticky | deeprank/generate/DataGenerator.py:196-218 | as written, once a replica fails the later ones change nothing |
| Catalog.BuildKeeps | deeprank/generate/DataGenerator.py:120-218 | with the replica copies corrected (Finding 2): a run only adds groups and members, never removes them |
| Catalog.BuildSticky | deeprank/generate/DataGenerator.py:120-218 | with the replica copies corrected (Finding 2): after an exception the remaining paths change nothing |
| Catalog.WrittenPopulates | deeprank/generate/DataGenerator.py:154-218 | with the replica copies corrected (Finding 2): a conformation written without error, and each of its replicas, holds `complex`, `native`, `features` and `targets` |
| Catalog.BuildPopulated | deeprank/generate/DataGenerator.py:120-218 | with the replica copies corrected (Finding 2): after a run without error, every processed conformation and each of its replicas is populated |
| Catalog.BuildStepWritten | deeprank/generate/DataGenerator.py:138-218 | with the replica copies corrected (Finding 2): a pass that ends without error found its reference and wrote the conformation and its replicas |
| Catalog.DuplicateMolNameFails | deeprank/generate/DataGenerator.py:129-157 | two paths with the same molecule name stop the run: the second `complex` dataset is refused |
| Catalog.ComplexRepeats | deeprank/generate/DataGenerator.py:154-157 | a conformation whose group already holds `complex` fails |
| Catalog.ReplicaCopyCollides | deeprank/generate/DataGenerator.py:202-218 | as written, a conformation with two or more replicas stops the run at the second replica's copy of `targets` |
| Catalog.SecondCopyCollides | deeprank/generate/DataGenerator.py:217-218 | as written, the second replica's copy lands on the name the first one created |
| Catalog.CopyAsWritten | deeprank/generate/DataGenerator.py:217-218 | as written, one replica's copies go into the origin's groups |
| Catalog.FreshReplicas | deeprank/generate/DataGenerator.py:196-218 | corrected, replicas with new distinct names are all written, adding exactly their groups |
| Catalog.SingleComplexBuilds | deeprank/generate/DataGenerator.py:120-218 | corrected, a conformation whose reference is found is written without error, with any number of replicas |
| Catalog.ComplexFound | deeprank/generate/DataGenerator.py:128-218 | with the replica copies corrected (Finding 2): a pass whose reference is found writes the conformation and then its replicas |
| Catalog.WrittenOnEmpty | deeprank/generate/DataGenerator.py:154-218 | corrected, a conformation with a reference and its replicas are written into a fresh store without error |
| Generator.DataGenerator.FilterCplx | deeprank/generate/DataGenerator.py:639-653 | the paths to process become the concatenation, line by line, of the paths containing each line's name; a blank line raises before anything changes |
| Generator.DataGenerator.CreateDatabase | deeprank/generate/DataGenerator.py:112-221 | with the replica copies corrected (Finding 2): the store written into a fresh file is the one `Catalog.Build` specifies, up to the first exception |
| Generator.NewDataGenerator | deeprank/generate/DataGenerator.py:76-104 | with the native-directory guard corrected (Finding 1): the constructed generator holds the catalog `Catalog.Discover` specifies, or fails with its exception |
| Generator.DataGenerator.constructor | deeprank/generate/DataGenerator.py:90-99 | the generator holds the listed paths, and all of them are to be processed until an allow-list narrows them |
| Catalog.BuildStep | deeprank/generate/DataGenerator.py:128-218 | with the replica copies corrected (Finding 2): one more pass of the loop extends the run by one path |
| Generator.ErrorWritten | deeprank/generate/DataGenerator.py:154-218 | a conformation that fails leaves its replicas unwritten |
| Generator.ReplicasSticky | deeprank/generate/DataGenerator.py:196-218 | with the replica copies corrected (Finding 2): once a replica fails, the later ones change nothing |
| Generator.WriteComplex | deeprank/generate/DataGenerator.py:128-218 | with the replica copies corrected (Finding 2): one pass of the loop updates the store as `Catalog.AddComplex` specifies |
| Generator.WriteOriginal | deeprank/generate/DataGenerator.py:154-178 | the conformation's own group is updated as `Catalog.AddOriginal` specifies |
| Generator.WriteReplica | deeprank/generate/DataGenerator.py:202-214 | with the replica copies corrected (Finding 2): one replica's group is updated as `Catalog.AddReplica` specifies |
| Generator.WriteReplicas | deeprank/generate/DataGenerator.py:196-218 | with the replica copies corrected (Finding 2): the loop over the replicas updates the store as `Catalog.AddReplicas` specifies |
| GridDefaults.SetDefaultsSpec | deeprank/generate/DataGenerator.py:415-419 | defaulting keys keeps every value present and adds exactly the missing keys, with the default |
| GridDefaults.MapDefaultsError | deeprank/generate/DataGenerator.py:421-427 | the step raises `IndexError` exactly when it must list the features of an empty database, `KeyError` exactly when the first molecule has none, and `ValueError` exactly when a residue feature is requested, in that order |
| GridDefaults.MapDefaultsKeeps | deeprank/generate/DataGenerator.py:415-439 | every value the caller gave is kept, and only keys the step defaults are added |
| GridDefaults.MapDefaultsComplete | deeprank/generate/DataGenerator.py:415-439 | after a step without exception, the grid keys and atomic densities default to `None`, the residue feature is `None`, the modes default to `'sum'`, and the atomic features default to those of the first molecule |
| GridDefaults.AfterResidueSpec | deeprank/generate/DataGenerator.py:426-439 | from a dictionary without a residue feature, that feature becomes `None`, the densities and modes are defaulted, and everything else is kept |
| GridDefaults.MapDefaultsTwice | deeprank/generate/DataGenerator.py:426-429 | a second call with the dictionary the first one filled raises `ValueError` |
| GridDefaults.GridInfo.SetDefaultsInPlace | deeprank/generate/DataGenerator.py:415-419 | the in-place loop leaves the dictionary `SetDefaults` specifies |
| GridDefaults.GridInfo.MapFeaturesDefaults | deeprank/generate/DataGenerator.py:415-439 | the in-place updates, up to the first exception, leave the dictionary and exception `MapDefaults` specifies |
| GridDefaults.GridInfo.constructor | deeprank/generate/DataGenerator.py:415 | the dictionary is the one the caller passes |
| AtomRecord.Record | deeprank/generate/DataGenerator.py:722 | `astype('\|S73')` keeps a line of at most 73 characters whole and cuts a longer one to exactly its first 73 |
| AtomRecord.FormatAtomLine | deeprank/generate/DataGenerator.py:759-774 | appending the fields builds the specified line |
| AtomRecord.AugPdbRecords | deeprank/generate/DataGenerator.py:757-777 | one stored record per row, in order |
| AtomRecord.AugRecordsReadBack | deeprank/generate/DataGenerator.py:757-777 | the stored record of a row whose values fit is the whole line, and it reads back at the PDB columns to the row |
| AtomRecord.AtomLineColumns | deeprank/generate/DataGenerator.py:759-774 | a line of values that fit is 66 characters long, with each field in its PDB columns and spaces in the separator columns 12, 21 and 28-30 |
| AtomRecord.AtomLineRoundTrip | deeprank/generate/DataGenerator.py:759-774 | a line of values that fit reads back, at the PDB columns, to the same atom |
| AtomRecord.AtomRecordWhole | deeprank/generate/DataGenerator.py:777 | values that fit give a record stored whole |
| AtomRecord.PdbRecordsSpec | deeprank/generate/DataGenerator.py:720-722 | one record per line starting with `ATOM`; each starts with `ATOM`, holds no newline and has at most 73 characters |
| AtomRecord.PdbRecordSpec | deeprank/generate/DataGenerator.py:721-722 | the record of one ATOM line starts with `ATOM` and holds no newline |
| AtomRecord.PdbRecordsMember | deeprank/generate/DataGenerator.py:720-722 | a record is stored exactly when some line of the file starts with `ATOM` and, cut at its newline and truncated to 73 characters, gives that record |
| AtomRecord.PdbRecordsAppend | deeprank/generate/DataGenerator.py:720-722 | the records keep the order of the lines: those of two parts of a file are the first part's followed by the second's |
| AtomRecord.PdbRecordsSingle | deeprank/generate/DataGenerator.py:720-722 | a one-line file stores that line cut at its newline and truncated when it starts with `ATOM`, and nothing otherwise |
| AtomRecord.RereadLine | deeprank/generate/DataGenerator.py:720-722 | an ATOM line of at most 73 characters without a newline, saved with its newline, is read back as itself |
| AtomRecord.PdbRecord | deeprank/generate/DataGenerator.py:721-722 | a line yields at most one record, and exactly one when it starts with `ATOM` |
| AtomRecord.ParseFields | deeprank/generate/DataGenerator.py:759-774 | a line whose PDB columns read back to the fields of an atom is read as that atom |
| AtomRecord.AugRecordReread | deeprank/generate/DataGenerator.py:721-722 | a line the writer produced, saved with its newline and read by `_add_pdb`, is stored as the same record |
| AtomRecord.AtomLineSingle | deeprank/generate/DataGenerator.py:759-774 | the writer puts no newline into a line whose text fields hold none |
| Assemble.ParseClassLine | assemble/assemble_data.py:136-138 | one line: `IndexError` on `line[0]` exactly when the line is blank, and a name read is a non-empty word |
| Assemble.ParseClassLines | assemble/assemble_data.py:134-138 | one entry per line read |
| Assemble.ClassLineRoundTrip | assemble/assemble_data.py:136-138 | a line of optional whitespace, a class, whitespace, a name, and then nothing or anything starting with whitespace (such as the newline `readlines` keeps) reads back to that class and name |
| Assemble.ParseClassLinesOk | assemble/assemble_data.py:134-138 | the class file is read without error exactly when every line can be read |
| Assemble.ParseClassLinesValue | assemble/assemble_data.py:134-138 | entry `i` is read from line `i` |
| Assemble.ParseClassLinesError | assemble/assemble_data.py:134-138 | a failed read raises the exception of the first line that cannot be read |
| Assemble.ClassNamesMember | assemble/assemble_data.py:140-143 | a name is among those of class `c` exactly when some line gives it that class |
| Assemble.FilterRetains | assemble/assemble_data.py:140-146 | after filtering, a path is kept exactly when it was listed and contains the name of some line of its class |
| Assemble.OtherClassIgnored | assemble/assemble_data.py:140-143 | a line of a class other than 0 and 1 selects nothing |
| Assemble.DataAssembler.FilterCplx | assemble/assemble_data.py:125-146 | decoys become the paths containing the names of class-0 lines, natives those of class-1 lines, concatenated line by line; an unreadable line raises before either list changes, and the folders are untouched |
| Assemble.DataAssembler.constructor | assemble/assemble_data.py:44-54 | the assembler holds the listed natives, decoys, features and targets, with an empty output directory |
| Assemble.MolNameOf | assemble/assemble_data.py:160 | the molecule name holds no `/`, and a non-empty one is at least four characters shorter than the path |
| Assemble.MolNameOfPdb | assemble/assemble_data.py:160 | the molecule name of `<dir>/<name>.pdb` is `name`, as in `DataGenerator` |
| Assemble.DirMolName | assemble/assemble_data.py:94 | `split('/')[-2]` raises `IndexError` exactly when the path has no `/`, and a part found holds no `/` |
| Assemble.DirMolNameOf | assemble/assemble_data.py:94 | the folder `<outdir>/<mol>/` of a listing gives molecule name `mol` |
| Assemble.DirMolNameNone | assemble/assemble_data.py:118 | a path without `/` has no second-to-last part, so `IndexError` |
| Assemble.TargetValue | assemble/assemble_data.py:202-206 | a value found is a non-empty word without whitespace that `float()` accepts, taken from the output of a lookup that succeeded |
| Assemble.TargetValueSpec | assemble/assemble_data.py:202-206 | a value found is the last word of grep's output: only whitespace after it, whitespace or nothing before it, and accepted by `float()` |
| Assemble.TargetValueOf | assemble/assemble_data.py:202-206 | the converse: when the output ends with a word followed only by whitespace, that word is the value if `float()` accepts it, and otherwise nothing is written |
| Assemble.TargetValueBlank | assemble/assemble_data.py:203-206 | blank output yields no value and writes nothing |
| Assemble.DataAssembler.CreateDataMethod | assemble/assemble_data.py:149-180 | the folders after `_create_data` are those `CreateData` specifies, and the name lists are unchanged |
| Assemble.DataAssembler.AddClass | assemble/assemble_data.py:155-180 | the loop over the complexes of one class leaves the folders `AddAll` specifies |
| Assemble.DataAssembler.ProcessComplex | assemble/assemble_data.py:157-180 | one complex's folder is made as `AddComplex` specifies |
| Assemble.DataAssembler.MakeDir | assemble/assemble_data.py:165-175 | `os.mkdir` of a sub-directory raises exactly when the folder already has an entry of that name (a sub-directory, or the copied `complex.pdb`), and otherwise adds it |
| Assemble.DataAssembler.MakeFeatures | assemble/assemble_data.py:184-191 | one directory per feature, up to the first that exists |
| Assemble.DataAssembler.AddTargets | assemble/assemble_data.py:197-206 | the lookups never raise, and write the file of each target whose value is found (see "## Left out" for a failing `np.savetxt`) |
| Assemble.AddFeatFresh | assemble/assemble_data.py:187-191 | the feature directories can all be made exactly when they are distinct and none is already a sub-directory of the folder or named `complex.pdb`, and then they are added to the folder |
| Assemble.AddTargFresh | assemble/assemble_data.py:199-206 | looking up targets never raises and leaves the files `TargetsAfter` lists |
| Assemble.TargetsAfterKeys | assemble/assemble_data.py:199-206 | after the lookups, a file is there exactly when it was before or belongs to a target whose value is found |
| Assemble.TargetsAfterKept | assemble/assemble_data.py:199-206 | a file no found target writes keeps its content |
| Assemble.TargetsAfterValue | assemble/assemble_data.py:199-206 | with distinct target names, a found target's file holds its value |
| Assemble.FeaturedFresh | assemble/assemble_data.py:187-191 | a new folder gets its feature directories exactly when no feature is named twice or named `complex.pdb` |
| Assemble.ClassifiedFresh | assemble/assemble_data.py:164-176 | the folder then gets `targets` and the class file exactly when, in addition, no feature is named `targets` |
| Assemble.ComplexFresh | assemble/assemble_data.py:157-180 | a complex with a new molecule name goes through exactly when the features fit (distinct, and none named `complex.pdb` or `targets`), and then gets the folder meant for it, all else kept |
| Assemble.ComplexExists | assemble/assemble_data.py:164-165 | a complex whose molecule name is taken raises `FileExistsError` before anything is made |
| Assemble.AddAllSpec | assemble/assemble_data.py:155-180 | the complexes of one class go through exactly when their molecule names are new and distinct and, if there are any, the features fit; the folders are then those planned |
| Assemble.FreshAppend | assemble/assemble_data.py:152 | names are new together exactly when the first list is new and the second is new to the first |
| Assemble.CreateDataSpec | assemble/assemble_data.py:149-180 | `_create_data` goes to the end exactly when every complex, native or decoy, has its own new molecule name and, if there are any, the features fit (distinct, and none named `complex.pdb` or `targets`: `os.mkdir` raises on a feature named like the copied structure at line 191, and on `targets` after a feature of that name at line 175); the natives then get the class-1 folders and the decoys the class-0 folders |
| Assemble.PlannedKeys | assemble/assemble_data.py:155-165 | the planned folders are those there before and one per complex |
| Assemble.PlannedValue | assemble/assemble_data.py:155-180 | a complex whose molecule name no other uses gets the folder meant for it |
| Assemble.PlannedKept | assemble/assemble_data.py:155-180 | a folder that was there, and is no complex's, is kept |
| Assemble.CreatedNames | assemble/assemble_data.py:152-165 | after a run to the end, molecule names are distinct within natives and within decoys, and shared by none of each |
| Assemble.NativeFolder | assemble/assemble_data.py:152-180 | after a run to the end, a native's folder holds its structure, one directory per feature and `targets`, and `targets` holds only `binary_class.dat` with `1` |
| Assemble.DecoyFolder | assemble/assemble_data.py:152-180 | after a run to the end, a decoy's folder holds its structure and directories, and `targets` holds the class file and exactly one file per target whose value is found |
| Assemble.DecoyTargetValue | assemble/assemble_data.py:199-206 | with distinct target names, a decoy's file of a found target holds the value found |
| Assemble.ClassFileKept | assemble/assemble_data.py:204 | only a target named `binary_class` overwrites the class file |
| Assemble.DecoyClassFile | assemble/assemble_data.py:176-180 | a decoy's class file holds `0` unless a found target is named `binary_class` |

## Left out

- File and shell I/O is left out, replaced by parameters: `find`, `ls`, `cp`, `grep`, `open`/`readlines`, and the HDF5 file itself. The model does not capture the contents of the files the shell copies (`cp %s/*%s*`). So the assembler's bare name, `mol_name.split('_')[0]` at lines 95 and 161, is not modelled in `Assemble`: it only feeds that glob. `Catalog.BareName` models the same expression for the generator.
- The store is modelled one level down: a group and the names of its members. Dataset contents, dtypes, and attributes are left out.
- Floating point is left out. Coordinates, occupancy, and temperature factors are fixed-point integers (thousandths and hundredths). A target value is kept as the word read. The model does not capture `float()` parsing or the `%.18e` text `np.savetxt` writes.
- The random rotation of `_add_aug_pdb` needs randomness and real arithmetic. The model takes the rotated rows as given.
- Strings are sequences of characters. The model does not capture UTF-8 decoding of shell output or the byte encoding behind `astype('|S73')`. A record is cut at 73 characters.
- `Text.ParseInt` models `int()` on a token without whitespace: ASCII digits with an optional sign. It does not capture surrounding spaces, underscores or non-ASCII digits. Both callers pass it such a token: a word of `split()` (line 137), or a PDB column whose leading spaces the column reader strips first.
- `os.mkdir` is modelled by name within a folder tree. The model does not capture path normalisation: an empty name, `.`, `..`, or a name holding `/`.
- `_check_outdir` and its `sys.exit` are left out, because they need the file system. The assembler starts from an empty directory.
- `add_feature` and `add_target` of the assembler are modelled only as far as their name parse (`Assemble.DirMolName`). The loops over the folders repeat `_add_feat` and `_add_targ`.
- `_compute_features`, `_import_features`, `_compute_targets`, `_import_targets`, and the CUDA set-up of `map_features` are left out. They call modules that are not part of this model.
- The feature and target loops of `add_feature` and `add_target` in `DataGenerator` are left out, apart from the original/replica partition. They run external modules.
- `Generator.DataGenerator.CreateDatabase` writes `complex` as a dataset name only. The records themselves are the subject of `AtomRecord`.
- `Assemble.DataAssembler.AddTargets`: the bare `except` at line 205 also swallows a failure of `np.savetxt` at line 204, such as a target name holding `/`. The model does not capture that failure: it writes `<name>.dat` for every target whose word `float()` accepts.
- Catalog.DiscoverFails: `find` is a total function here. In the source, `check_output` raises `CalledProcessError` when `find` exits with an error, for a missing directory (lines 91 and 99). The model does not capture that exception.
- Assemble.DataAssembler.constructor: the features and targets are sequences. The source's defaults `features=None` and `targets=None` (lines 46-47) make `_add_feat` and `_add_targ` raise `AttributeError` at lines 187 and 199. The model does not capture those failures, nor `ls` or `find` failing for a missing directory (lines 67-68).
- `Assemble.MakeFolder`: the copy of the structure into `complex.pdb` (line 168) is taken to succeed. A `cp` that fails leaves no `complex.pdb`, and a feature of that name could then be made.
- `Assemble.FeaturedFresh`: features are a dictionary's keys in the source and so always distinct. The model also covers repeated names.

## Findings

| source | as written | input that shows it | evidently intended | confidence | as-written member | corrected member |
|---|---|---|---|---|---|---|
| deeprank/generate/DataGenerator.py:95-96 | the guard tests `self.native`, an attribute never set, when `pdb_native` is not a list | `pdb_native='natives/'` (one directory) raises `AttributeError` | a single native directory is wrapped in a list, as the sources are at lines 86-87 | high, not executed | Catalog.NativeDirsAsWritten, Catalog.NativeDirsFinding | Catalog.NativeDirs |
| deeprank/generate/DataGenerator.py:217-218 | the replica group's `copy` takes its own new `targets` subgroup as the source and the origin's `targets` group as the destination, so the copy lands inside the origin's group | `data_augmentation=2` on one conformation: the second replica's copy finds `<mol>/targets/targets` already there | the origin's targets and features are copied into the replica | medium, not executed | Catalog.ReplicaCopyCollides, Catalog.SecondCopyCollides | Catalog.AddReplica, Catalog.FreshReplicas, Catalog.SingleComplexBuilds |
