/** The database generator as the object the source builds: its
    constructor lists the structure files, `_filter_cplx` narrows the paths
    to process in place, and `create_database` writes one group per
    conformation and replica into a fresh store
    (deeprank/generate/DataGenerator.py). Each method is proved against the
    specification functions of module `Catalog`. */
module Generator {
  import opened Wrappers
  import opened Text
  import opened Select
  import opened Store
  import opened Catalog

  class DataGenerator {
    /** `self.all_pdb`: every structure found below the source directories. */
    var allPdb: seq<string>
    /** `self.all_native`: every structure found below the native directories. */
    var allNative: seq<string>
    /** `self.pdb_path`: the structures `create_database` processes. */
    var pdbPath: seq<string>
    /** `self.data_augmentation`: the number of rotated replicas, if any. */
    const augmentation: Option<int>

    /** The listed paths, all of them to be processed. */
    constructor (allPdb: seq<string>, allNative: seq<string>, augmentation: Option<int>)
      ensures this.allPdb == allPdb && this.allNative == allNative && pdbPath == allPdb
      ensures this.augmentation == augmentation
    {
      this.allPdb := allPdb;
      this.allNative := allNative;
      this.pdbPath := allPdb;
      this.augmentation := augmentation;
    }

    /** `_filter_cplx` with the allow-list file read as `lines`: the paths
        to process become, pattern after pattern, those containing the
        pattern; a blank line raises before anything changes. */
    method FilterCplx(lines: seq<string>) returns (error: Option<CatalogError>)
      modifies this
      ensures allPdb == old(allPdb) && allNative == old(allNative)
      ensures error.Some? <==> SelectPatterns(lines).Err?
      ensures error.Some? ==> error == Some(BlankSelectLine) && pdbPath == old(pdbPath)
      ensures error.Some? ==> error.value == SelectPatterns(lines).error
      ensures error.None? ==> pdbPath == SelectAll(SelectPatterns(lines).value, old(pdbPath))
    {
      var names := SelectPatterns(lines);
      if names.Err? {
        SelectPatternsError(lines);
        return Some(names.error);
      }
      var patterns := names.value;
      var tmp := [];
      for i := 0 to |patterns|
        invariant tmp == SelectAll(patterns[..i], pdbPath)
      {
        assert patterns[..i + 1][..i] == patterns[..i];
        tmp := tmp + Matching(pdbPath, patterns[i]);
      }
      assert patterns[..|patterns|] == patterns;
      pdbPath := tmp;
      return None;
    }

    /** `create_database`: a fresh store, written conformation by
        conformation until the end or the first exception. */
    method CreateDatabase() returns (db: Database, error: Option<CatalogError>)
      ensures fresh(db)
      ensures Outcome(db.groups, error) == Build(pdbPath, allNative, augmentation)
    {
      db := new Database();
      error := None;
      for i := 0 to |pdbPath|
        invariant error.None?
        invariant Build(pdbPath[..i], allNative, augmentation) == Outcome(db.groups, None)
      {
        BuildStep(pdbPath, allNative, augmentation, i);
        error := WriteComplex(db, pdbPath[i], allNative, augmentation);
        if error.Some? {
          BuildSticky(pdbPath, allNative, augmentation, i + 1);
          return;
        }
      }
      assert pdbPath[..|pdbPath|] == pdbPath;
    }
  }

  /** The constructor: the source and native directories are listed, and
      the allow-list, when given, narrows the paths to process. `find`
      stands for the shell's `find <dir> -name "*.pdb"`. */
  method NewDataGenerator(select: Option<seq<string>>, source: DirArg, native: DirArg,
                          find: string -> string, augmentation: Option<int>)
    returns (r: Result<DataGenerator, CatalogError>)
    ensures r.Err? <==> Discover(select, source, native, find).Err?
    ensures r.Err? ==> r.error == Discover(select, source, native, find).error
    ensures r.Ok? ==> fresh(r.value) && r.value.augmentation == augmentation &&
                      r.value.allPdb == Discover(select, source, native, find).value.allPdb &&
                      r.value.allNative == Discover(select, source, native, find).value.allNative &&
                      r.value.pdbPath == Discover(select, source, native, find).value.pdbPath
  {
    var src := SourceDirs(source);
    if src.Err? {
      return Err(src.error);
    }
    var all := ListPaths(src.value, find);
    var nativeDirs := NativeDirs(native);
    if nativeDirs.Err? {
      return Err(nativeDirs.error);
    }
    var natives := ListPaths(nativeDirs.value, find);
    var g := new DataGenerator(all, natives, augmentation);
    if select.Some? {
      var error := g.FilterCplx(select.value);
      if error.Some? {
        return Err(error.value);
      }
    }
    return Ok(g);
  }

  /** One pass of the loop of `create_database`: the reference lookup,
      then the conformation and its replicas. */
  method WriteComplex(db: Database, cplx: string, natives: seq<string>, aug: Option<int>)
    returns (error: Option<CatalogError>)
    modifies db
    ensures Outcome(db.groups, error) == AddComplex(Outcome(old(db.groups), None), cplx, natives, aug)
  {
    var found := FindReference(cplx, natives);
    if found.Err? {
      return Some(found.error);
    }
    var mol := MolName(cplx);
    ghost var before := Outcome(db.groups, None);
    error := WriteOriginal(db, mol, found.value);
    if error.Some? {
      ErrorWritten(before, mol, found.value, aug);
      return;
    }
    error := WriteReplicas(db, AugNames(mol, aug), found.value);
  }

  /** Lines 154-183 for one conformation: its group, the complex, the
      reference, and the feature and target subgroups. */
  method WriteOriginal(db: Database, mol: string, ref: Option<string>) returns (error: Option<CatalogError>)
    modifies db
    ensures Outcome(db.groups, error) == AddOriginal(Outcome(old(db.groups), None), mol, ref)
  {
    db.RequireGroup(mol);
    var created := db.CreateDataset(mol, "complex");
    if !created {
      return Some(AlreadyExists(mol, "complex"));
    }
    if ref.Some? {
      created := db.CreateDataset(mol, "native");
      if !created {
        return Some(AlreadyExists(mol, "native"));
      }
    }
    db.RequireMember(mol, "features");
    db.RequireMember(mol, "targets");
    return None;
  }

  /** Lines 202-218 for one replica, with the copies doing what they are
      meant to (see `Catalog.AddReplica`). */
  method WriteReplica(db: Database, name: string, ref: Option<string>) returns (error: Option<CatalogError>)
    modifies db
    ensures Outcome(db.groups, error) == AddReplica(Outcome(old(db.groups), None), name, ref)
  {
    db.RequireGroup(name);
    var created;
    if ref.Some? {
      created := db.CreateDataset(name, "native");
      if !created {
        return Some(AlreadyExists(name, "native"));
      }
    }
    created := db.CreateDataset(name, "complex");
    if !created {
      return Some(AlreadyExists(name, "complex"));
    }
    db.RequireMember(name, "targets");
    db.RequireMember(name, "features");
    return None;
  }

  /** The loop over the replica names of one conformation. */
  method WriteReplicas(db: Database, names: seq<string>, ref: Option<string>) returns (error: Option<CatalogError>)
    modifies db
    ensures Outcome(db.groups, error) == AddReplicas(Outcome(old(db.groups), None), names, ref)
  {
    ghost var start := Outcome(db.groups, None);
    for j := 0 to |names|
      invariant AddReplicas(start, names[..j], ref) == Outcome(db.groups, None)
    {
      assert names[..j + 1][..j] == names[..j];
      error := WriteReplica(db, names[j], ref);
      if error.Some? {
        ReplicasSticky(start, names, ref, j + 1);
        return;
      }
    }
    assert names[..|names|] == names;
    return None;
  }

  /** A blank allow-list line is the only way reading it fails. */
  lemma {:induction false} SelectPatternsError(lines: seq<string>)
    ensures SelectPatterns(lines).Err? ==> SelectPatterns(lines).error == BlankSelectLine
    decreases |lines|
  {
    if lines != [] {
      SelectPatternsError(lines[..|lines| - 1]);
    }
  }

  /** A conformation that fails leaves its replicas unwritten. */
  lemma {:induction false} ErrorWritten(o: Outcome, mol: string, ref: Option<string>, aug: Option<int>)
    requires AddOriginal(o, mol, ref).error.Some?
    ensures Written(o, mol, ref, aug) == AddOriginal(o, mol, ref)
  {
  }

  /** Once a replica fails, the later ones change nothing. */
  lemma {:induction false} ReplicasSticky(o: Outcome, names: seq<string>, ref: Option<string>, i: nat)
    requires i <= |names| && AddReplicas(o, names[..i], ref).error.Some?
    ensures AddReplicas(o, names, ref) == AddReplicas(o, names[..i], ref)
    decreases |names|
  {
    if i < |names| {
      var init := names[..|names| - 1];
      assert init[..i] == names[..i];
      ReplicasSticky(o, init, ref, i);
    } else {
      assert names[..i] == names;
    }
  }
}
