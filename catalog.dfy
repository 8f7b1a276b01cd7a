/** The conformation catalog of the database generator: how a structure
    file's path becomes a molecule name, how a decoy is paired with its
    native structure, how augmentation replicas are named, and how the
    group names of an existing database split into originals and replicas
    (deeprank/generate/DataGenerator.py). */
module Catalog {
  import opened Wrappers
  import opened Text
  import opened Select
  import opened Store
  import opened Lists

  /** The exceptions the catalog code raises. */
  datatype CatalogError =
    | NoSourceDirs                // `NotADirectoryError`: no source directory given
    | NativesNotIterable          // iterating a `None` list of native directories
    | BlankSelectLine             // `IndexError`: an allow-list line without a token
    | MultipleNatives(mol: string)  // the `Warning` raised for an ambiguous native
    | NoNative(mol: string)         // `IndexError` on the empty list of natives
    | AlreadyExists(group: string, key: string)  // the store refuses to overwrite

  // ---------------------------------------------------------------------
  // Molecule names
  // ---------------------------------------------------------------------

  /** `os.path.splitext(os.path.basename(cplx))[0]`. */
  function MolName(cplx: string): (r: string)
    ensures '/' !in r
  {
    SplitExtRoot(AfterLast(cplx, '/'))
  }

  /** The molecule name of `<dir>/<name>.pdb` is `name`. */
  lemma {:induction false} MolNameOfPath(dir: string, name: string)
    requires '/' !in name
    requires exists j :: 0 <= j < |name| && name[j] != '.'
    ensures MolName(dir + "/" + name + ".pdb") == name
  {
    var base := name + ".pdb";
    assert forall i :: 0 <= i < |base| ==> base[i] != '/' by {
      forall i | 0 <= i < |base| ensures base[i] != '/' {
        if i < |name| { assert base[i] == name[i]; }
      }
    }
    assert dir + "/" + name + ".pdb" == dir + ['/'] + base;
    AfterLastOfJoin(dir, base, '/');
    assert name + "." + "pdb" == base;
    SplitExtRootOf(name, "pdb");
  }

  /** `mol_name.split('_')[0]`: the molecule identifier shared by a native
      and its decoys (`1AK4_100w` -> `1AK4`). */
  function BareName(mol: string): (r: string)
    ensures |r| <= |mol| && r == mol[..|r|]
  {
    BeforeFirst(mol, "_")
  }

  /** The bare name never contains an underscore. */
  lemma {:induction false} BareNameWithoutUnderscore(mol: string)
    ensures '_' !in BareName(mol)
  {
    var r := BareName(mol);
    if '_' in r {
      var i :| 0 <= i < |r| && r[i] == '_';
      assert mol[i..i + 1] == "_";
      assert OccursAt(mol, "_", i);
    }
  }

  /** A conformation is its own reference (a native) exactly when its name
      has no underscore. */
  lemma {:induction false} OwnReference(mol: string)
    ensures BareName(mol) == mol <==> '_' !in mol
  {
    ContainsChar(mol, '_');
  }

  /** The bare name of `<bare>_<rest>` is `bare`. */
  lemma {:induction false} BareNameOfDecoy(bare: string, rest: string)
    requires '_' !in bare
    ensures BareName(bare + "_" + rest) == bare
  {
    var s := bare + "_" + rest;
    forall j: nat | j < |bare| ensures !OccursAt(s, "_", j) {
      assert s[j..j + 1][0] == s[j] == bare[j];
    }
    BeforeFirstOfJoin(bare, "_", rest);
  }

  // ---------------------------------------------------------------------
  // Reference lookup
  // ---------------------------------------------------------------------

  /** The text a native's path must contain to be a decoy's reference. */
  function RefName(mol: string): (r: string)
    ensures |r| >= 4
  {
    BareName(mol) + ".pdb"
  }

  /** The reference of the conformation at path `cplx` among the native
      paths: the conformation itself when its name has no underscore, else
      the one native whose path contains `<bare>.pdb`. `Ok(None)` is the
      source's empty-path case, which the lemma below shows cannot occur. */
  function FindReference(cplx: string, natives: seq<string>): (r: Result<Option<string>, CatalogError>)
    ensures r.Ok? ==> r.value.Some?
  {
    ReferenceNotEmpty(cplx, natives);
    var mol := MolName(cplx);
    if mol == BareName(mol) then Ok(Some(cplx))
    else
      var refs := Matching(natives, RefName(mol));
      if |refs| > 1 then Err(MultipleNatives(mol))
      else if refs == [] then Err(NoNative(mol))
      else if refs[0] == "" then Ok(None)
      else Ok(Some(refs[0]))
  }

  /** What the lookup returns: a native is its own reference; a decoy fails
      when no native path contains its reference name or more than one
      does, and otherwise gets the matching native. The empty-path case is
      never reached. */
  lemma {:induction false} ReferenceOutcome(cplx: string, natives: seq<string>)
    ensures var mol := MolName(cplx);
            '_' !in mol ==> FindReference(cplx, natives) == Ok(Some(cplx))
    ensures var mol := MolName(cplx);
            '_' in mol ==>
              (FindReference(cplx, natives) == Err(NoNative(mol)) <==>
               forall p :: p in natives ==> !Contains(p, RefName(mol)))
    ensures var mol := MolName(cplx);
            '_' in mol ==>
              (FindReference(cplx, natives) == Err(MultipleNatives(mol)) <==>
               |Matching(natives, RefName(mol))| > 1)
    ensures var r := FindReference(cplx, natives);
            r.Ok? ==> r.value.Some?
    ensures var mol, r := MolName(cplx), FindReference(cplx, natives);
            '_' in mol && r.Ok? ==>
              r.value.value in natives && Contains(r.value.value, RefName(mol))
  {
    var mol := MolName(cplx);
    OwnReference(mol);
    if '_' in mol {
      var refs := Matching(natives, RefName(mol));
      if refs != [] {
        MatchingMember(natives, RefName(mol), refs[0]);
        assert |refs[0]| >= |RefName(mol)|;
      }
      NoneMatching(natives, RefName(mol));
    }
  }

  /** No path is kept exactly when none contains the name. */
  lemma {:induction false} NoneMatching(paths: seq<string>, name: string)
    ensures Matching(paths, name) == [] <==> forall p :: p in paths ==> !Contains(p, name)
  {
    var refs := Matching(paths, name);
    forall p | p in paths {
      MatchingMember(paths, name, p);
    }
    if refs != [] {
      MatchingMember(paths, name, refs[0]);
    }
  }

  lemma {:induction false} ReferenceNotEmpty(cplx: string, natives: seq<string>)
    ensures var refs := Matching(natives, RefName(MolName(cplx)));
            refs != [] ==> refs[0] != ""
  {
    var refs := Matching(natives, RefName(MolName(cplx)));
    if refs != [] {
      MatchingMember(natives, RefName(MolName(cplx)), refs[0]);
    }
  }

  // ---------------------------------------------------------------------
  // Augmentation replicas
  // ---------------------------------------------------------------------

  /** `mol_name + '_r%03d' % k`. */
  function AugName(mol: string, k: nat): string {
    mol + "_r" + ZeroPad(k, 3)
  }

  /** The number of replicas an augmentation setting asks for: `range(n)`
      is empty for `n <= 0`, and there are none without augmentation. */
  function AugCount(aug: Option<int>): nat {
    match aug
    case None => 0
    case Some(n) => if n > 0 then n else 0
  }

  /** The replica names of molecule `mol`, numbered from 1. */
  function AugNames(mol: string, aug: Option<int>): (r: seq<string>)
    ensures |r| == AugCount(aug)
  {
    seq(AugCount(aug), i requires 0 <= i => AugName(mol, i + 1))
  }

  /** The `k`-th replica name (from 1) ends in `k` zero-padded to three
      digits, after `mol` and `_r`. */
  lemma {:induction false} AugNameParts(mol: string, aug: Option<int>, k: nat)
    requires 1 <= k <= AugCount(aug)
    ensures var name := AugNames(mol, aug)[k - 1];
            name[..|mol| + 2] == mol + "_r" &&
            AllDigits(name[|mol| + 2..]) && DigitsValue(name[|mol| + 2..]) == k &&
            (k < 1000 ==> |name| == |mol| + 5)
  {
    var name := AugNames(mol, aug)[k - 1];
    assert name == mol + "_r" + ZeroPad(k, 3);
    assert name[|mol| + 2..] == ZeroPad(k, 3);
    if k < 1000 {
      DecimalLength(k, 3);
    }
  }

  /** Replica names of one molecule are pairwise distinct. */
  lemma {:induction false} AugNamesDistinct(mol: string, aug: Option<int>, i: nat, j: nat)
    requires i < j < AugCount(aug)
    ensures AugNames(mol, aug)[i] != AugNames(mol, aug)[j]
  {
    var a, b := AugNames(mol, aug)[i], AugNames(mol, aug)[j];
    assert a[|mol| + 2..] == ZeroPad(i + 1, 3);
    assert b[|mol| + 2..] == ZeroPad(j + 1, 3);
    ZeroPadDistinct(i + 1, j + 1, 3);
  }

  // ---------------------------------------------------------------------
  // Originals and replicas among the group names
  // ---------------------------------------------------------------------

  /** `'_r' in name`: the test that makes a group a replica. */
  predicate IsAugmented(name: string) {
    Contains(name, "_r")
  }

  /** `name.split('_r')[0]`: the origin a replica copies from. Line 268
      splits `molgrp.name`, the absolute path `'/' + name`; the origin it
      gives, `'/' + Origin(name)`, names the same group, so the model
      splits the key. */
  function Origin(name: string): (r: string)
    ensures IsAugmented(name) ==> |r| < |name|
  {
    BeforeFirst(name, "_r")
  }

  /** A replica of a molecule whose name has no `_r` is classified as a
      replica and leads back to that molecule. */
  lemma {:induction false} AugNameOrigin(mol: string, k: nat)
    requires !IsAugmented(mol)
    ensures IsAugmented(AugName(mol, k))
    ensures Origin(AugName(mol, k)) == mol
  {
    var s := AugName(mol, k);
    assert s == mol + "_r" + ZeroPad(k, 3);
    forall j: nat | j < |mol| ensures !OccursAt(s, "_r", j) {
      if j + 2 <= |mol| {
        assert mol[j..j + 2] == s[j..j + 2];
        assert !OccursAt(mol, "_r", j);
      } else if j + 2 <= |s| {
        assert s[j..j + 2][1] == s[j + 1] == '_';
      }
    }
    BeforeFirstOfJoin(mol, "_r", ZeroPad(k, 3));
    assert s[|mol|..|mol| + 2] == "_r";
    ContainsAt(s, "_r", |mol|);
  }

  /** A molecule whose own name contains `_r` is taken for a replica, and
      its replicas lead back to a shorter name than its own. */
  lemma {:induction false} AugNameOriginMisread(mol: string, k: nat)
    requires IsAugmented(mol)
    ensures |Origin(AugName(mol, k))| < |mol|
  {
    var s := AugName(mol, k);
    var i := Find(mol, "_r").value;
    assert s[i..i + 2] == mol[i..i + 2];
    assert OccursAt(s, "_r", i);
    ContainsAt(s, "_r", i);
  }

  /** `list(filter(lambda x: '_r' not in x, names))`. */
  function Originals(names: seq<string>): (r: seq<string>)
    ensures |r| <= |names|
    decreases |names|
  {
    if names == [] then []
    else Originals(names[..|names| - 1]) + KeepOriginal(names[|names| - 1])
  }

  function KeepOriginal(name: string): seq<string> {
    if IsAugmented(name) then [] else [name]
  }

  /** `list(filter(lambda x: '_r' in x, names))`. */
  function Augmented(names: seq<string>): seq<string> {
    Matching(names, "_r")
  }

  /** Each name lands in the originals as often as it occurs, if it has no
      `_r`, and never otherwise. */
  lemma {:induction false} OriginalsCount(names: seq<string>, p: string)
    ensures multiset(Originals(names))[p] == if IsAugmented(p) then 0 else multiset(names)[p]
    decreases |names|
  {
    if names != [] {
      OriginalsCount(names[..|names| - 1], p);
      LastSplit(names);
    }
  }

  /** Originals and replicas partition the group names: together they hold
      every name exactly as often as the store does, and no name is in
      both. */
  lemma {:induction false} Partition(names: seq<string>)
    ensures multiset(Originals(names)) + multiset(Augmented(names)) == multiset(names)
    ensures forall p :: p in Originals(names) ==> p in names && !IsAugmented(p)
    ensures forall p :: p in Augmented(names) ==> p in names && IsAugmented(p)
  {
    forall p ensures (multiset(Originals(names)) + multiset(Augmented(names)))[p] == multiset(names)[p] {
      OriginalsCount(names, p);
      MatchingCount(names, "_r", p);
    }
    forall p | p in Originals(names) ensures p in names && !IsAugmented(p) {
      OriginalsCount(names, p);
    }
    forall p | p in Augmented(names) ensures p in names && IsAugmented(p) {
      MatchingMember(names, "_r", p);
    }
  }

  // ---------------------------------------------------------------------
  // Sources, natives and the allow-list
  // ---------------------------------------------------------------------

  /** How a directory argument is given: not at all, as one path, or as a
      list of paths. */
  datatype DirArg = NoDir | OneDir(dir: string) | DirList(dirs: seq<string>)

  /** The source directories: one path is wrapped in a list, none is an
      error. */
  function SourceDirs(arg: DirArg): (r: Result<seq<string>, CatalogError>)
    ensures r.Err? <==> arg.NoDir?
    ensures arg.OneDir? ==> r == Ok([arg.dir])
    ensures arg.DirList? ==> r == Ok(arg.dirs)
  {
    match arg
    case NoDir => Err(NoSourceDirs)
    case OneDir(d) => Ok([d])
    case DirList(ds) => Ok(ds)
  }

  /** The native directories as the constructor's guard is written: any
      argument that is not a list reaches `self.native`, an attribute that
      is never set, and raises `AttributeError`. */
  function NativeDirsAsWritten(arg: DirArg): (r: Result<seq<string>, AttributeMissing>)
    ensures r.Ok? <==> arg.DirList?
  {
    match arg
    case DirList(ds) => Ok(ds)
    case _ => Err(AttributeMissing("native"))
  }

  /** The error the guard as written raises. */
  datatype AttributeMissing = AttributeMissing(name: string)

  /** The native directories with the guard reading `self.pdb_native`: one
      path is wrapped in a list as the sources are, a list is kept, and no
      argument fails in the loop that iterates it. */
  function NativeDirs(arg: DirArg): (r: Result<seq<string>, CatalogError>)
    ensures arg.NoDir? ==> r == Err(NativesNotIterable)
    ensures !arg.NoDir? ==> r == SourceDirs(arg)
  {
    match arg
    case NoDir => Err(NativesNotIterable)
    case OneDir(d) => Ok([d])
    case DirList(ds) => Ok(ds)
  }

  /** A single native directory is rejected by the guard as written and
      accepted once the guard reads the argument it tests. */
  lemma {:induction false} NativeDirsFinding(d: string)
    ensures NativeDirsAsWritten(OneDir(d)).Err?
    ensures NativeDirs(OneDir(d)) == Ok([d])
  {
  }

  /** The paths `find` lists below each directory, split on whitespace as
      `check_output(...).split()` does; `find` stands for the shell call. */
  function Found(dirs: seq<string>, find: string -> string): seq<string>
    decreases |dirs|
  {
    if dirs == [] then []
    else Found(dirs[..|dirs| - 1], find) + Tokens(find(dirs[|dirs| - 1]))
  }

  /** The listing of one directory: the tokens of `find`'s output. */
  function Listing(find: string -> string): string -> seq<string> {
    d => Tokens(find(d))
  }

  /** `Found` concatenates the listings of the directories. */
  lemma {:induction false} FoundConcat(dirs: seq<string>, find: string -> string)
    ensures Found(dirs, find) == Concat(Listing(find), dirs)
    decreases |dirs|
  {
    if dirs != [] {
      FoundConcat(dirs[..|dirs| - 1], find);
    }
  }

  /** A path is found exactly when it is a token of some directory's
      listing. */
  lemma {:induction false} FoundMember(dirs: seq<string>, find: string -> string, p: string)
    ensures p in Found(dirs, find) <==> exists i :: 0 <= i < |dirs| && p in Tokens(find(dirs[i]))
  {
    FoundConcat(dirs, find);
    ConcatMember(Listing(find), dirs, p);
    assert forall i :: 0 <= i < |dirs| ==> Listing(find)(dirs[i]) == Tokens(find(dirs[i]));
  }

  /** The allow-list pattern of one line: its first token followed by
      `.pdb`, or `None` for a line of whitespace only. */
  function SelectPattern(line: string): (r: Option<string>)
  {
    var ts := Tokens(line);
    if ts == [] then None else Some(ts[0] + ".pdb")
  }

  /** `[name.split()[0] + '.pdb' for name in lines]`. */
  function SelectPatterns(lines: seq<string>): (r: Result<seq<string>, CatalogError>)
    ensures r.Ok? ==> |r.value| == |lines|
    decreases |lines|
  {
    if lines == [] then Ok([])
    else
      match SelectPatterns(lines[..|lines| - 1])
      case Err(e) => Err(e)
      case Ok(init) =>
        match SelectPattern(lines[|lines| - 1])
        case None => Err(BlankSelectLine)
        case Some(p) => Ok(init + [p])
  }

  /** The allow-list is read without error exactly when no line is blank,
      and then each line yields its first token with `.pdb` appended. */
  lemma {:induction false} SelectPatternsSpec(lines: seq<string>)
    ensures SelectPatterns(lines).Ok? <==> forall i :: 0 <= i < |lines| ==> !AllSpace(lines[i])
    ensures SelectPatterns(lines).Ok? ==>
              forall i :: 0 <= i < |lines| ==>
                Tokens(lines[i]) != [] &&
                SelectPatterns(lines).value[i] == Tokens(lines[i])[0] + ".pdb"
    decreases |lines|
  {
    if lines != [] {
      var init, last := lines[..|lines| - 1], lines[|lines| - 1];
      SelectPatternsSpec(init);
      TokensEmpty(last);
      assert forall i :: 0 <= i < |init| ==> init[i] == lines[i];
    }
  }

  /** What the constructor computes: every path found below the source
      directories, every path found below the native directories, and the
      paths to process, which are all of the first unless an allow-list is
      given. */
  datatype Catalog = Catalog(allPdb: seq<string>, allNative: seq<string>, pdbPath: seq<string>)

  /** The catalog the constructor builds, or the exception it raises.
      `find` stands for the shell's `find <dir> -name "*.pdb"`. */
  function Discover(select: Option<seq<string>>, source: DirArg, native: DirArg,
                    find: string -> string): Result<Catalog, CatalogError>
  {
    match SourceDirs(source)
    case Err(e) => Err(e)
    case Ok(src) =>
      match NativeDirs(native)
      case Err(e) => Err(e)
      case Ok(nativeDirs) => Selected(select, Found(src, find), Found(nativeDirs, find))
  }

  /** The catalog once the paths are listed: the allow-list, when given,
      narrows the paths to process. */
  function Selected(select: Option<seq<string>>, all: seq<string>, natives: seq<string>): Result<Catalog, CatalogError> {
    match select
    case None => Ok(Catalog(all, natives, all))
    case Some(lines) =>
      match SelectPatterns(lines)
      case Err(e) => Err(e)
      case Ok(patterns) => Ok(Catalog(all, natives, SelectAll(patterns, all)))
  }

  /** The constructor fails exactly when no source is given, the natives
      are `None`, or the allow-list has a blank line. */
  lemma {:induction false} DiscoverFails(select: Option<seq<string>>, source: DirArg, native: DirArg,
                                         find: string -> string)
    ensures Discover(select, source, native, find).Err? <==>
            source.NoDir? || native.NoDir? ||
            (select.Some? && exists i :: 0 <= i < |select.value| && AllSpace(select.value[i]))
  {
    if select.Some? {
      SelectPatternsSpec(select.value);
    }
  }

  /** Every path to process was found below a source directory; without an
      allow-list, all found paths are processed, in the order found. */
  lemma {:induction false} DiscoverFound(select: Option<seq<string>>, source: DirArg, native: DirArg,
                                         find: string -> string, p: string)
    requires Discover(select, source, native, find).Ok?
    ensures select.None? ==>
              Discover(select, source, native, find).value.pdbPath ==
              Discover(select, source, native, find).value.allPdb
    ensures p in Discover(select, source, native, find).value.pdbPath ==>
              exists i :: 0 <= i < |SourceDirs(source).value| && p in Tokens(find(SourceDirs(source).value[i]))
  {
    var d := Discover(select, source, native, find).value;
    var src := SourceDirs(source).value;
    if p in d.pdbPath {
      if select.Some? {
        SelectAllMember(SelectPatterns(select.value).value, d.allPdb, p);
      }
      FoundMember(src, find, p);
    }
  }

  /** Under an allow-list, every path to process contains the pattern of
      one of its lines. */
  lemma {:induction false} DiscoverSelected(lines: seq<string>, source: DirArg, native: DirArg,
                                            find: string -> string, p: string)
    requires Discover(Some(lines), source, native, find).Ok?
    requires p in Discover(Some(lines), source, native, find).value.pdbPath
    ensures exists i :: 0 <= i < |lines| && SelectPattern(lines[i]).Some? &&
                        Contains(p, SelectPattern(lines[i]).value)
  {
    var d := Discover(Some(lines), source, native, find).value;
    var patterns := SelectPatterns(lines).value;
    SelectPatternsSpec(lines);
    SelectAllMember(patterns, d.allPdb, p);
    var i :| 0 <= i < |patterns| && Contains(p, patterns[i]);
    assert patterns[i] == SelectPattern(lines[i]).value;
  }

  /** `self.all_pdb += ...` over the directories: the paths found below
      each in turn. */
  method ListPaths(dirs: seq<string>, find: string -> string) returns (paths: seq<string>)
    ensures paths == Found(dirs, find)
  {
    paths := [];
    for i := 0 to |dirs|
      invariant paths == Found(dirs[..i], find)
    {
      assert dirs[..i + 1][..i] == dirs[..i];
      paths := paths + Tokens(find(dirs[i]));
    }
    assert dirs[..|dirs|] == dirs;
  }

  // ---------------------------------------------------------------------
  // What `create_database` writes
  // ---------------------------------------------------------------------

  /** The store part way through `create_database`, and the exception that
      stopped it, if any. Every step below leaves a stopped run alone. */
  datatype Outcome = Outcome(groups: Groups, error: Option<CatalogError>)

  /** `require_group(g)`. */
  function Group(o: Outcome, g: string): Outcome {
    if o.error.Some? then o else Outcome(WithGroup(o.groups, g), None)
  }

  /** `require_group(key)` inside group `g`. */
  function Member(o: Outcome, g: string, key: string): Outcome {
    if o.error.Some? then o else Outcome(WithMember(o.groups, g, key), None)
  }

  /** `create_dataset(key)` inside group `g`, refused when `key` exists. */
  function Dataset(o: Outcome, g: string, key: string): Outcome {
    if o.error.Some? then o
    else if key in Members(o.groups, g) then Outcome(o.groups, Some(AlreadyExists(g, key)))
    else Outcome(WithMember(o.groups, g, key), None)
  }

  /** `_add_pdb(molgrp, ref, 'native')` when there is a reference. */
  function Native(o: Outcome, g: string, ref: Option<string>): Outcome {
    if ref.Some? then Dataset(o, g, "native") else o
  }

  /** Lines 154-183: the group of an original conformation with its complex,
      its reference and its feature and target subgroups. */
  function AddOriginal(o: Outcome, mol: string, ref: Option<string>): (r: Outcome)
    ensures o.error.Some? ==> r == o
    ensures r.error.None? ==> o.error.None?
  {
    var a := Dataset(Group(o, mol), mol, "complex");
    var b := Native(a, mol, ref);
    Member(Member(b, mol, "features"), mol, "targets")
  }

  /** Lines 202-214, with the copies of lines 217-218 replaced by what they
      are meant to do (see `AddReplicaAsWritten`): the group of a replica
      with its own rotated complex, the reference, and the subgroups that
      receive copies of the origin's targets and features. */
  function AddReplica(o: Outcome, name: string, ref: Option<string>): (r: Outcome)
    ensures o.error.Some? ==> r == o
    ensures r.error.None? ==> o.error.None?
  {
    var a := Native(Group(o, name), name, ref);
    var b := Dataset(a, name, "complex");
    Member(Member(b, name, "targets"), name, "features")
  }

  /** The replicas `names` of one conformation, in order. */
  function AddReplicas(o: Outcome, names: seq<string>, ref: Option<string>): (r: Outcome)
    ensures o.error.Some? ==> r == o
    ensures r.error.None? ==> o.error.None?
    decreases |names|
  {
    if names == [] then o
    else AddReplica(AddReplicas(o, names[..|names| - 1], ref), names[|names| - 1], ref)
  }

  /** Conformation `mol` with reference `ref` and its replicas. */
  function Written(o: Outcome, mol: string, ref: Option<string>, aug: Option<int>): (r: Outcome)
    ensures o.error.Some? ==> r == o
    ensures r.error.None? ==> o.error.None?
  {
    AddReplicas(AddOriginal(o, mol, ref), AugNames(mol, aug), ref)
  }

  /** One pass of the loop of `create_database`: the reference lookup, then
      the conformation and its replicas. */
  function AddComplex(o: Outcome, cplx: string, natives: seq<string>, aug: Option<int>): (r: Outcome)
    ensures o.error.Some? ==> r == o
    ensures r.error.None? ==> o.error.None?
  {
    if o.error.Some? then o
    else
      match FindReference(cplx, natives)
      case Err(e) => Outcome(o.groups, Some(e))
      case Ok(ref) => Written(o, MolName(cplx), ref, aug)
  }

  /** `create_database` over the paths to process, from a fresh file. */
  function Build(paths: seq<string>, natives: seq<string>, aug: Option<int>): (r: Outcome)
    decreases |paths|
  {
    if paths == [] then Outcome(map[], None)
    else AddComplex(Build(paths[..|paths| - 1], natives, aug), paths[|paths| - 1], natives, aug)
  }

  // Keeping a group: the steps only ever add groups and members.

  /** Group `h` is kept from `a` to `b`, with all its members. */
  predicate Keeps(a: Groups, b: Groups, h: string) {
    h in a ==> h in b && a[h] <= b[h]
  }

  /** The members every conformation and replica group ends up with. */
  predicate Populated(gs: Groups, g: string) {
    g in gs && "complex" in gs[g] && "native" in gs[g] && "features" in gs[g] && "targets" in gs[g]
  }

  lemma {:induction false} ReplicaKeeps(o: Outcome, name: string, ref: Option<string>, h: string)
    ensures Keeps(o.groups, AddReplica(o, name, ref).groups, h)
  {
  }

  lemma {:induction false} OriginalKeeps(o: Outcome, mol: string, ref: Option<string>, h: string)
    ensures Keeps(o.groups, AddOriginal(o, mol, ref).groups, h)
  {
  }

  lemma {:induction false} ReplicasKeep(o: Outcome, names: seq<string>, ref: Option<string>, h: string)
    ensures Keeps(o.groups, AddReplicas(o, names, ref).groups, h)
    decreases |names|
  {
    if names != [] {
      var prev := AddReplicas(o, names[..|names| - 1], ref);
      ReplicasKeep(o, names[..|names| - 1], ref, h);
      ReplicaKeeps(prev, names[|names| - 1], ref, h);
    }
  }

  lemma {:induction false} ComplexKeeps(o: Outcome, cplx: string, natives: seq<string>, aug: Option<int>, h: string)
    ensures Keeps(o.groups, AddComplex(o, cplx, natives, aug).groups, h)
  {
    if o.error.None? && FindReference(cplx, natives).Ok? {
      var mol, ref := MolName(cplx), FindReference(cplx, natives).value;
      OriginalKeeps(o, mol, ref, h);
      ReplicasKeep(AddOriginal(o, mol, ref), AugNames(mol, aug), ref, h);
    }
  }

  /** A run only adds groups and members. */
  lemma {:induction false} BuildKeeps(paths: seq<string>, natives: seq<string>, aug: Option<int>, i: nat, h: string)
    requires i <= |paths|
    ensures Keeps(Build(paths[..i], natives, aug).groups, Build(paths, natives, aug).groups, h)
    decreases |paths|
  {
    if i < |paths| {
      var init := paths[..|paths| - 1];
      assert init[..i] == paths[..i];
      BuildKeeps(init, natives, aug, i, h);
      ComplexKeeps(Build(init, natives, aug), paths[|paths| - 1], natives, aug, h);
    } else {
      assert paths[..i] == paths;
    }
  }

  /** Once a run stops, the remaining paths change nothing. */
  lemma {:induction false} BuildSticky(paths: seq<string>, natives: seq<string>, aug: Option<int>, i: nat)
    requires i <= |paths| && Build(paths[..i], natives, aug).error.Some?
    ensures Build(paths, natives, aug) == Build(paths[..i], natives, aug)
    decreases |paths|
  {
    if i < |paths| {
      var init := paths[..|paths| - 1];
      assert init[..i] == paths[..i];
      BuildSticky(init, natives, aug, i);
    } else {
      assert paths[..i] == paths;
    }
  }

  // Every written group holds its four members.

  lemma {:induction false} OriginalPopulates(o: Outcome, mol: string, ref: Option<string>)
    requires ref.Some? && AddOriginal(o, mol, ref).error.None?
    ensures Populated(AddOriginal(o, mol, ref).groups, mol)
  {
  }

  lemma {:induction false} ReplicaPopulates(o: Outcome, name: string, ref: Option<string>)
    requires ref.Some? && AddReplica(o, name, ref).error.None?
    ensures Populated(AddReplica(o, name, ref).groups, name)
  {
  }

  lemma {:induction false} ReplicasPopulate(o: Outcome, names: seq<string>, ref: Option<string>, i: nat)
    requires ref.Some? && AddReplicas(o, names, ref).error.None? && i < |names|
    ensures Populated(AddReplicas(o, names, ref).groups, names[i])
    decreases |names|
  {
    var init, last := names[..|names| - 1], names[|names| - 1];
    var prev := AddReplicas(o, init, ref);
    if i == |names| - 1 {
      ReplicaPopulates(prev, last, ref);
    } else {
      assert names[i] == init[i];
      ReplicasPopulate(o, init, ref, i);
      ReplicaKeeps(prev, last, ref, init[i]);
    }
  }

  /** Conformation `mol`, written without error, and each of its replicas
      hold the four members. */
  lemma {:induction false} WrittenPopulates(o: Outcome, mol: string, ref: Option<string>, aug: Option<int>, k: nat)
    requires ref.Some? && Written(o, mol, ref, aug).error.None?
    ensures Populated(Written(o, mol, ref, aug).groups, mol)
    ensures 1 <= k <= AugCount(aug) ==> Populated(Written(o, mol, ref, aug).groups, AugName(mol, k))
  {
    var a := AddOriginal(o, mol, ref);
    var names := AugNames(mol, aug);
    OriginalPopulates(o, mol, ref);
    ReplicasKeep(a, names, ref, mol);
    if 1 <= k <= AugCount(aug) {
      ReplicasPopulate(a, names, ref, k - 1);
      assert names[k - 1] == AugName(mol, k);
    }
  }

  /** After a run without error, every processed conformation and every
      replica of it is a group holding `complex`, `native`, `features` and
      `targets`. */
  lemma {:induction false} BuildPopulated(paths: seq<string>, natives: seq<string>, aug: Option<int>, i: nat, k: nat)
    requires i < |paths| && Build(paths, natives, aug).error.None?
    ensures Populated(Build(paths, natives, aug).groups, MolName(paths[i]))
    ensures 1 <= k <= AugCount(aug) ==>
              Populated(Build(paths, natives, aug).groups, AugName(MolName(paths[i]), k))
  {
    var prev := Build(paths[..i], natives, aug);
    assert Build(paths[..i + 1], natives, aug).error.None? by {
      if Build(paths[..i + 1], natives, aug).error.Some? {
        BuildSticky(paths, natives, aug, i + 1);
      }
    }
    BuildStepWritten(paths, natives, aug, i);
    var mol, ref := MolName(paths[i]), FindReference(paths[i], natives).value;
    WrittenPopulates(prev, mol, ref, aug, k);
    BuildKeeps(paths, natives, aug, i + 1, mol);
    BuildKeeps(paths, natives, aug, i + 1, AugName(mol, k));
  }

  /** One pass of the loop of `create_database` extends the run by one path. */
  lemma {:induction false} BuildStep(paths: seq<string>, natives: seq<string>, aug: Option<int>, i: nat)
    requires i < |paths|
    ensures Build(paths[..i + 1], natives, aug) == AddComplex(Build(paths[..i], natives, aug), paths[i], natives, aug)
  {
    assert paths[..i + 1][..i] == paths[..i];
  }

  /** A pass of the loop that ends without error found its reference and
      wrote the conformation. */
  lemma {:induction false} BuildStepWritten(paths: seq<string>, natives: seq<string>, aug: Option<int>, i: nat)
    requires i < |paths| && Build(paths[..i + 1], natives, aug).error.None?
    ensures FindReference(paths[i], natives).Ok?
    ensures Build(paths[..i + 1], natives, aug) ==
            Written(Build(paths[..i], natives, aug), MolName(paths[i]), FindReference(paths[i], natives).value, aug)
  {
    BuildStep(paths, natives, aug, i);
    ComplexWritten(Build(paths[..i], natives, aug), paths[i], natives, aug);
  }

  /** A pass of the loop that ends without error found its reference and
      wrote the conformation and its replicas. */
  lemma {:induction false} ComplexWritten(o: Outcome, cplx: string, natives: seq<string>, aug: Option<int>)
    requires AddComplex(o, cplx, natives, aug).error.None?
    ensures FindReference(cplx, natives).Ok?
    ensures AddComplex(o, cplx, natives, aug) == Written(o, MolName(cplx), FindReference(cplx, natives).value, aug)
  {
  }

  /** Two paths with the same molecule name (the same file listed twice,
      say, or matched by two allow-list lines) stop the run: the second
      finds the first one's `complex`. */
  lemma {:induction false} DuplicateMolNameFails(paths: seq<string>, natives: seq<string>, aug: Option<int>,
                                                 i: nat, j: nat)
    requires i < j < |paths| && MolName(paths[i]) == MolName(paths[j])
    ensures Build(paths, natives, aug).error.Some?
  {
    var mol := MolName(paths[i]);
    var pj := paths[..j];
    var o := Build(pj, natives, aug);
    var next := paths[..j + 1];
    assert next[..j] == pj;
    assert Build(next, natives, aug) == AddComplex(o, paths[j], natives, aug);
    if o.error.None? {
      assert pj[i] == paths[i];
      BuildPopulated(pj, natives, aug, i, 0);
      ComplexRepeats(o, paths[j], natives, aug);
    }
    BuildSticky(paths, natives, aug, j + 1);
  }

  /** A conformation whose group already holds `complex` fails. */
  lemma {:induction false} ComplexRepeats(o: Outcome, cplx: string, natives: seq<string>, aug: Option<int>)
    requires MolName(cplx) in o.groups && "complex" in o.groups[MolName(cplx)]
    ensures AddComplex(o, cplx, natives, aug).error.Some?
  {
    if o.error.None? && FindReference(cplx, natives).Ok? {
      var mol := MolName(cplx);
      var ref := FindReference(cplx, natives).value;
      assert AddOriginal(o, mol, ref).error.Some?;
    }
  }

  // A single conformation, as written and as corrected.

  /** Lines 202-218 as written: after the replica's own members, the two
      `copy` calls run with their arguments reversed. `molgrp.copy('targets',
      f5[mol + '/targets/'])` copies the replica's fresh `targets` subgroup
      into the origin's, as `<mol>/targets/targets`, and a copy onto a name
      that exists is refused, so the second replica stops the run. */
  function AddReplicaAsWritten(o: Outcome, mol: string, name: string, ref: Option<string>): Outcome {
    var a := AddReplica(o, name, ref);
    Dataset(Dataset(a, mol, "targets/targets"), mol, "features/features")
  }

  function AddReplicasAsWritten(o: Outcome, mol: string, names: seq<string>, ref: Option<string>): (r: Outcome)
    ensures o.error.Some? ==> r == o
    decreases |names|
  {
    if names == [] then o
    else AddReplicaAsWritten(AddReplicasAsWritten(o, mol, names[..|names| - 1], ref), mol, names[|names| - 1], ref)
  }

  /** One pass of the loop of `create_database` as written. */
  function AddComplexAsWritten(o: Outcome, cplx: string, natives: seq<string>, aug: Option<int>): Outcome {
    if o.error.Some? then o
    else
      match FindReference(cplx, natives)
      case Err(e) => Outcome(o.groups, Some(e))
      case Ok(ref) =>
        var mol := MolName(cplx);
        AddReplicasAsWritten(AddOriginal(o, mol, ref), mol, AugNames(mol, aug), ref)
  }

  /** As written, a conformation with two or more replicas stops the run
      at its second replica's copy of the targets. */
  lemma {:induction false} ReplicaCopyCollides(cplx: string, natives: seq<string>, aug: Option<int>)
    requires FindReference(cplx, natives).Ok?
    requires AugCount(aug) >= 2
    ensures AddComplexAsWritten(Outcome(map[], None), cplx, natives, aug).error ==
            Some(AlreadyExists(MolName(cplx), "targets/targets"))
  {
    var mol := MolName(cplx);
    var ref := FindReference(cplx, natives).value;
    var names := AugNames(mol, aug);
    var o := AddOriginal(Outcome(map[], None), mol, ref);
    OriginalOnEmpty(mol, ref);
    AugNamesDistinct(mol, aug, 0, 1);
    assert |names[0]| > |mol| && |names[1]| > |mol|;
    SecondCopyCollides(o, mol, names, ref);
  }

  /** The replicas of a conformation as written, from a store where the
      origin has no copies yet and the first two replica names are new. */
  lemma {:induction false} SecondCopyCollides(o: Outcome, mol: string, names: seq<string>, ref: Option<string>)
    requires o.error.None? && mol in o.groups
    requires "targets/targets" !in o.groups[mol] && "features/features" !in o.groups[mol]
    requires |names| >= 2 && names[0] != names[1]
    requires names[0] !in o.groups && names[1] !in o.groups && names[0] != mol && names[1] != mol
    ensures AddReplicasAsWritten(o, mol, names, ref).error == Some(AlreadyExists(mol, "targets/targets"))
  {
    var r1 := CopyAsWritten(o, mol, names[0], ref);
    var r2 := CopyAsWritten(r1, mol, names[1], ref);
    var two := names[..2];
    var one := two[..|two| - 1];
    assert one[..|one| - 1] == [] && one[|one| - 1] == names[0] && two[|two| - 1] == names[1];
    assert AddReplicasAsWritten(o, mol, one, ref) == r1;
    assert AddReplicasAsWritten(o, mol, two, ref) == r2;
    AsWrittenSticky(o, mol, names, ref, 2);
  }

  /** One replica as written in a store where its own name is new: the
      replica itself goes through, and the copy into the origin succeeds
      when the origin has no copies yet and fails when it has the targets. */
  lemma {:induction false} CopyAsWritten(o: Outcome, mol: string, name: string, ref: Option<string>) returns (r: Outcome)
    requires o.error.None? && name !in o.groups && mol in o.groups && mol != name
    ensures r == AddReplicaAsWritten(o, mol, name, ref)
    ensures "targets/targets" in o.groups[mol] ==>
            r.error == Some(AlreadyExists(mol, "targets/targets"))
    ensures "targets/targets" !in o.groups[mol] && "features/features" !in o.groups[mol] ==>
            r.error.None? && r.groups.Keys == o.groups.Keys + {name} &&
            r.groups[mol] == o.groups[mol] + {"targets/targets", "features/features"}
  {
    FreshReplica(o, name, ref);
    var a := AddReplica(o, name, ref);
    assert a.groups[mol] == o.groups[mol];
    r := AddReplicaAsWritten(o, mol, name, ref);
  }

  /** Once a replica fails as written, the later ones change nothing. */
  lemma {:induction false} AsWrittenSticky(o: Outcome, mol: string, names: seq<string>,
                                           ref: Option<string>, i: nat)
    requires i <= |names|
    requires AddReplicasAsWritten(o, mol, names[..i], ref).error.Some?
    ensures AddReplicasAsWritten(o, mol, names, ref) == AddReplicasAsWritten(o, mol, names[..i], ref)
    decreases |names|
  {
    if i < |names| {
      var init := names[..|names| - 1];
      assert init[..i] == names[..i];
      AsWrittenSticky(o, mol, init, ref, i);
    } else {
      assert names[..i] == names;
    }
  }

  /** The original conformation's group in a fresh store. */
  lemma {:induction false} OriginalOnEmpty(mol: string, ref: Option<string>)
    requires ref.Some?
    ensures AddOriginal(Outcome(map[], None), mol, ref) ==
            Outcome(map[mol := {"complex", "native", "features", "targets"}], None)
  {
    var m: Groups := map[];
    var e: set<string> := {};
    var s1, s2 := e + {"complex"}, e + {"complex"} + {"native"};
    var s3 := s2 + {"features"};
    var s4 := s3 + {"features"} + {"targets"};
    var g := Group(Outcome(m, None), mol);
    assert g.groups == m[mol := e];
    var a := Dataset(g, mol, "complex");
    Overwrite(m, mol, e, s1);
    var b := Native(a, mol, ref);
    Overwrite(m, mol, s1, s2);
    var c := Member(b, mol, "features");
    Overwrite(m, mol, s2, s3);
    Overwrite(m, mol, s3, s3 + {"targets"});
    assert s3 + {"targets"} == {"complex", "native", "features", "targets"};
  }

  /** A replica whose name is not yet a group is written without error and
      touches no other group. */
  lemma {:induction false} FreshReplica(o: Outcome, name: string, ref: Option<string>)
    requires o.error.None? && name !in o.groups
    ensures AddReplica(o, name, ref) == Outcome(o.groups[name := ReplicaMembers(ref)], None)
  {
    var m := o.groups;
    var e: set<string> := {};
    var s1 := if ref.Some? then e + {"native"} else e;
    var s2 := s1 + {"complex"};
    var s3 := s2 + {"targets"};
    var g := Group(o, name);
    assert g.groups == m[name := e];
    var a := Native(g, name, ref);
    Overwrite(m, name, e, s1);
    assert a.groups == m[name := s1];
    var b := Dataset(a, name, "complex");
    Overwrite(m, name, s1, s2);
    var c := Member(b, name, "targets");
    Overwrite(m, name, s2, s3);
    Overwrite(m, name, s3, s3 + {"features"});
    assert s3 + {"features"} == ReplicaMembers(ref);
  }

  /** Updating a group twice keeps the second value. */
  lemma {:induction false} Overwrite(m: Groups, g: string, x: set<string>, y: set<string>)
    ensures m[g := x][g := y] == m[g := y]
  {
  }

  /** The members a new replica group receives. */
  function ReplicaMembers(ref: Option<string>): set<string> {
    if ref.Some? then {"native", "complex", "targets", "features"} else {"complex", "targets", "features"}
  }

  /** The replicas of one conformation are written without error when their
      names are distinct and not yet groups. */
  lemma {:induction false} FreshReplicas(o: Outcome, names: seq<string>, ref: Option<string>)
    requires o.error.None?
    requires forall i, j :: 0 <= i < j < |names| ==> names[i] != names[j]
    requires forall i :: 0 <= i < |names| ==> names[i] !in o.groups
    ensures AddReplicas(o, names, ref).error.None?
    ensures forall h :: h in AddReplicas(o, names, ref).groups <==> h in o.groups || h in names
    decreases |names|
  {
    if names != [] {
      var init, last := names[..|names| - 1], names[|names| - 1];
      FreshReplicas(o, init, ref);
      var prev := AddReplicas(o, init, ref);
      assert last !in init by {
        forall i | 0 <= i < |init| ensures init[i] != last {
          assert init[i] == names[i];
        }
      }
      FreshReplica(prev, last, ref);
      LastSplit(names);
    }
  }

  /** With the copies corrected, a single conformation whose reference is
      found is written without error, with any number of replicas. */
  lemma {:induction false} SingleComplexBuilds(cplx: string, natives: seq<string>, aug: Option<int>)
    requires FindReference(cplx, natives).Ok?
    ensures Build([cplx], natives, aug).error.None?
  {
    assert [cplx][..0] == [];
    ComplexFound(Outcome(map[], None), cplx, natives, aug);
    WrittenOnEmpty(MolName(cplx), FindReference(cplx, natives).value, aug);
  }

  /** A pass of the loop whose reference is found writes the conformation
      and its replicas. */
  lemma {:induction false} ComplexFound(o: Outcome, cplx: string, natives: seq<string>, aug: Option<int>)
    requires o.error.None? && FindReference(cplx, natives).Ok?
    ensures AddComplex(o, cplx, natives, aug) == Written(o, MolName(cplx), FindReference(cplx, natives).value, aug)
  {
  }

  /** In a fresh store, a conformation with a reference and its corrected
      replicas are written without error. */
  lemma {:induction false} WrittenOnEmpty(mol: string, ref: Option<string>, aug: Option<int>)
    requires ref.Some?
    ensures Written(Outcome(map[], None), mol, ref, aug).error.None?
  {
    var names := AugNames(mol, aug);
    OriginalOnEmpty(mol, ref);
    var o := AddOriginal(Outcome(map[], None), mol, ref);
    forall i, j | 0 <= i < j < |names| ensures names[i] != names[j] {
      AugNamesDistinct(mol, aug, i, j);
    }
    forall i | 0 <= i < |names| ensures names[i] !in o.groups {
      assert |names[i]| > |mol|;
    }
    FreshReplicas(o, names, ref);
  }
}
