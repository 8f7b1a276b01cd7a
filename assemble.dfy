/** The data-set assembler (assemble/assemble_data.py): it narrows the
    natives and decoys to the complexes a class file names, then gives each
    complex a folder holding its structure, one directory per feature and
    a `targets` directory with its binary class and, for decoys, the target
    values looked up for it. Listing directories, copying files and looking
    up target values are done by the shell; the listings and the lookup's
    output are parameters here. */
module Assemble {
  import opened Wrappers
  import opened Text
  import opened Select
  import opened Lists
  import Catalog

  // ---------------------------------------------------------------------
  // Class lines (`_filter_cplx`, lines 125-146)
  // ---------------------------------------------------------------------

  /** One line of the class file: `<class> <complex name>`. */
  datatype ClassLine = ClassLine(cls: int, name: string)

  /** The exceptions reading a class line raises. */
  datatype ClassError =
    | NoClass   // `IndexError` on `line[0]`: the line is blank
    | BadClass  // `ValueError` from `int(line[0])`
    | NoName    // `IndexError` on `line[1]`: nothing follows the class

  /** Lines 136-138 for one line: its first two whitespace-separated words,
      the first read as an integer. */
  function ParseClassLine(line: string): (r: Result<ClassLine, ClassError>)
    ensures (r.Err? && r.error == NoClass) <==> AllSpace(line)
    ensures r.Ok? ==> r.value.name != [] && NoSpace(r.value.name)
  {
    TokensEmpty(line);
    var ts := Tokens(line);
    if ts == [] then Err(NoClass)
    else
      match ParseInt(ts[0])
      case None => Err(BadClass)
      case Some(c) => if |ts| < 2 then Err(NoName) else Ok(ClassLine(c, ts[1]))
  }

  /** The lines of the class file in order, up to the first that cannot be
      read. */
  function ParseClassLines(data: seq<string>): (r: Result<seq<ClassLine>, ClassError>)
    ensures r.Ok? ==> |r.value| == |data|
    decreases |data|
  {
    if data == [] then Ok([])
    else
      match ParseClassLines(data[..|data| - 1])
      case Err(e) => Err(e)
      case Ok(es) =>
        match ParseClassLine(data[|data| - 1])
        case Err(e) => Err(e)
        case Ok(l) => Ok(es + [l])
  }

  /** The names of the lines of class `c`, in file order. */
  function ClassNames(es: seq<ClassLine>, c: int): seq<string>
    decreases |es|
  {
    if es == [] then []
    else ClassNames(es[..|es| - 1], c) + (if es[|es| - 1].cls == c then [es[|es| - 1].name] else [])
  }

  /** A line holding the class, whitespace and a name, with whitespace
      before it and anything after it that starts with whitespace (the
      newline `readlines` keeps, or further columns), reads back to that
      class and name. */
  lemma {:induction false} ClassLineRoundTrip(c: int, sp0: string, sp: string, name: string, rest: string)
    requires AllSpace(sp0) && sp != [] && AllSpace(sp)
    requires name != [] && NoSpace(name)
    requires rest == [] || IsSpace(rest[0])
    ensures ParseClassLine(sp0 + IntString(c) + sp + name + rest) == Ok(ClassLine(c, name))
  {
    var t := IntString(c);
    assert NoSpace(t) by {
      forall i | 0 <= i < |t| ensures !IsSpace(t[i]) {
        IntStringChars(c, i);
      }
    }
    assert sp0 + t + sp + name + rest == sp0 + (t + (sp + (name + rest)));
    TokensSkip(sp0, t + (sp + (name + rest)));
    assert IsSpace((sp + (name + rest))[0]);
    TokensWord(t, sp + (name + rest));
    TokensSkip(sp, name + rest);
    TokensWord(name, rest);
    ParseIntString(c);
  }

  /** The characters of `str(n)` are a sign or digits. */
  lemma {:induction false} IntStringChars(n: int, i: nat)
    requires i < |IntString(n)|
    ensures IntString(n)[i] == '-' || IsDigit(IntString(n)[i])
  {
    var d := Decimal(if n < 0 then -n else n);
    assert AllDigits(d);
    if n < 0 && i > 0 {
      assert IntString(n)[i] == d[i - 1];
    }
  }

  /** Reading the file succeeds exactly when every line can be read. */
  lemma {:induction false} ParseClassLinesOk(data: seq<string>)
    ensures ParseClassLines(data).Ok? <==> forall i :: 0 <= i < |data| ==> ParseClassLine(data[i]).Ok?
    decreases |data|
  {
    if data != [] {
      var init := data[..|data| - 1];
      ParseClassLinesOk(init);
      assert ParseClassLines(data).Ok? <==> ParseClassLines(init).Ok? && ParseClassLine(data[|data| - 1]).Ok?;
      assert forall i :: 0 <= i < |init| ==> init[i] == data[i];
    }
  }

  /** When it succeeds, entry `i` is read from line `i`. */
  lemma {:induction false} ParseClassLinesValue(data: seq<string>, i: nat)
    requires ParseClassLines(data).Ok? && i < |data|
    ensures ParseClassLine(data[i]).Ok? && ParseClassLines(data).value[i] == ParseClassLine(data[i]).value
    decreases |data|
  {
    var init := data[..|data| - 1];
    if i < |init| {
      ParseClassLinesValue(init, i);
      assert init[i] == data[i];
    }
  }

  /** When it fails, it fails with the exception of the first line that
      cannot be read. */
  lemma {:induction false} ParseClassLinesError(data: seq<string>)
    requires ParseClassLines(data).Err?
    ensures exists k :: 0 <= k < |data| && ParseClassLine(data[k]).Err? &&
                        ParseClassLines(data).error == ParseClassLine(data[k]).error &&
                        forall i :: 0 <= i < k ==> ParseClassLine(data[i]).Ok?
    decreases |data|
  {
    var init := data[..|data| - 1];
    assert forall i :: 0 <= i < |init| ==> init[i] == data[i];
    if ParseClassLines(init).Err? {
      ParseClassLinesError(init);
      var k :| 0 <= k < |init| && ParseClassLine(init[k]).Err? &&
               ParseClassLines(init).error == ParseClassLine(init[k]).error &&
               forall i :: 0 <= i < k ==> ParseClassLine(init[i]).Ok?;
      assert ParseClassLine(data[k]).Err?;
    } else {
      ParseClassLinesOk(init);
      assert ParseClassLine(data[|data| - 1]).Err?;
    }
  }

  /** A name is among those of class `c` exactly when some line gives it
      that class. */
  lemma {:induction false} ClassNamesMember(es: seq<ClassLine>, c: int, n: string)
    ensures n in ClassNames(es, c) <==> exists k :: 0 <= k < |es| && es[k] == ClassLine(c, n)
    decreases |es|
  {
    if es != [] {
      var init := es[..|es| - 1];
      ClassNamesMember(init, c, n);
      assert forall k :: 0 <= k < |init| ==> init[k] == es[k];
    }
  }

  /** Lines 141-146: a path is kept exactly when it was listed and contains
      the name of some line of the class. */
  lemma {:induction false} FilterRetains(es: seq<ClassLine>, c: int, paths: seq<string>, p: string)
    ensures p in SelectAll(ClassNames(es, c), paths) <==>
            p in paths && exists k :: 0 <= k < |es| && es[k].cls == c && Contains(p, es[k].name)
  {
    var names := ClassNames(es, c);
    SelectAllMember(names, paths, p);
    if exists i :: 0 <= i < |names| && Contains(p, names[i]) {
      var i :| 0 <= i < |names| && Contains(p, names[i]);
      ClassNamesMember(es, c, names[i]);
      var k :| 0 <= k < |es| && es[k] == ClassLine(c, names[i]);
      assert es[k].cls == c && Contains(p, es[k].name);
    }
    if exists k :: 0 <= k < |es| && es[k].cls == c && Contains(p, es[k].name) {
      var k :| 0 <= k < |es| && es[k].cls == c && Contains(p, es[k].name);
      ClassNamesMember(es, c, es[k].name);
      assert es[k] == ClassLine(c, es[k].name);
      var i :| 0 <= i < |names| && names[i] == es[k].name;
    }
  }

  /** Lines 140-143: a line of a class other than 0 and 1 selects nothing. */
  lemma {:induction false} OtherClassIgnored(data: seq<string>, line: string)
    requires ParseClassLines(data).Ok? && ParseClassLine(line).Ok?
    requires ParseClassLine(line).value.cls != 0 && ParseClassLine(line).value.cls != 1
    ensures ParseClassLines(data + [line]).Ok?
    ensures ClassNames(ParseClassLines(data + [line]).value, 0) == ClassNames(ParseClassLines(data).value, 0)
    ensures ClassNames(ParseClassLines(data + [line]).value, 1) == ClassNames(ParseClassLines(data).value, 1)
  {
    var all := data + [line];
    assert all[..|all| - 1] == data;
    var es := ParseClassLines(data).value;
    var es1 := es + [ParseClassLine(line).value];
    assert es1[..|es1| - 1] == es;
  }

  // ---------------------------------------------------------------------
  // Names (lines 94-95, 118, 160-161)
  // ---------------------------------------------------------------------

  /** Line 160: `cplx.split('/')[-1][:-4]`, the last path component without
      its last four characters (nothing left of a shorter one). */
  function MolNameOf(cplx: string): (r: string)
    ensures '/' !in r
    ensures r != [] ==> |r| + 4 <= |cplx|
  {
    var base := AfterLast(cplx, '/');
    if |base| < 4 then []
    else
      assert forall i :: 0 <= i < |base| - 4 ==> base[..|base| - 4][i] == base[i];
      base[..|base| - 4]
  }

  /** The molecule name of `<dir>/<name>.pdb` is `name`, as the generator
      derives it too. */
  lemma {:induction false} MolNameOfPdb(dir: string, name: string)
    requires '/' !in name
    ensures MolNameOf(dir + "/" + name + ".pdb") == name
    ensures (exists j :: 0 <= j < |name| && name[j] != '.') ==>
              MolNameOf(dir + "/" + name + ".pdb") == Catalog.MolName(dir + "/" + name + ".pdb")
  {
    var base := name + ".pdb";
    assert '/' !in base by {
      forall i | 0 <= i < |base| ensures base[i] != '/' {
        if i < |name| { assert base[i] == name[i]; }
      }
    }
    AfterLastOfJoin(dir, base, '/');
    assert dir + "/" + name + ".pdb" == dir + ['/'] + base;
    assert base[..|base| - 4] == name;
    if exists j :: 0 <= j < |name| && name[j] != '.' {
      Catalog.MolNameOfPath(dir, name);
    }
  }

  /** Lines 94 and 118: `path.split('/')[-2]`, the part before the last
      `/`; `None` stands for the `IndexError` of a path without `/`. */
  function DirMolName(path: string): (r: Option<string>)
    ensures r.None? <==> '/' !in path
    ensures r.Some? ==> '/' !in r.value
  {
    var parts := Split(path, '/');
    if |parts| < 2 then None
    else
      assert path == parts[0] + ['/'] + JoinWith(parts[1..], '/');
      assert path[|parts[0]|] == '/';
      Some(parts[|parts| - 2])
  }

  /** Listing the folders of the output directory gives `<outdir>/<mol>/`, whose
      molecule name is `mol`. */
  lemma {:induction false} DirMolNameOf(outdir: string, mol: string)
    requires '/' !in mol
    ensures DirMolName(outdir + "/" + mol + "/") == Some(mol)
  {
    var tail := mol + ['/'] + [];
    SplitAround(mol, [], '/');
    SplitWithout(mol, '/');
    SplitWithout([], '/');
    SplitAround(outdir, tail, '/');
    assert outdir + "/" + mol + "/" == outdir + ['/'] + tail;
    var parts := Split(outdir, '/') + ([mol] + [[]]);
    assert parts[|parts| - 2] == mol;
  }

  /** A path without `/` has no second-to-last part. */
  lemma {:induction false} DirMolNameNone(path: string)
    requires '/' !in path
    ensures DirMolName(path) == None
  {
    SplitWithout(path, '/');
  }

  // ---------------------------------------------------------------------
  // Target values (`_add_targ`, lines 199-206)
  // ---------------------------------------------------------------------

  /** Lines 202-206: the value of one target, from the output of
      `grep -w` for the molecule in the target directory (`None` when grep exits with an error
      status). The value is the last whitespace-separated word of the
      output; a failed lookup, an empty output, or a word `float` rejects
      (as `isFloat` says) writes nothing. */
  function TargetValue(output: Option<string>, isFloat: string -> bool): (r: Option<string>)
    ensures r.Some? ==> output.Some? && r.value != [] && NoSpace(r.value) && isFloat(r.value)
  {
    if output.None? then None
    else
      var ts := Tokens(output.value);
      if ts == [] || !isFloat(ts[|ts| - 1]) then None else Some(ts[|ts| - 1])
  }

  /** A value found is a word of the output with only whitespace after it,
      and whitespace or nothing before it. */
  lemma {:induction false} TargetValueSpec(output: Option<string>, isFloat: string -> bool)
    returns (pre: string, post: string)
    requires TargetValue(output, isFloat).Some?
    ensures var v := TargetValue(output, isFloat).value;
      output.Some? && output.value == pre + v + post && v != [] && NoSpace(v) && isFloat(v) &&
      AllSpace(post) && (pre == [] || IsSpace(pre[|pre| - 1]))
  {
    pre, post := LastTokenPlacement(output.value);
  }

  /** The converse: the last word of an output is its value exactly when
      `float` accepts it. */
  lemma {:induction false} TargetValueOf(pre: string, v: string, post: string, isFloat: string -> bool)
    requires v != [] && NoSpace(v) && AllSpace(post)
    requires pre == [] || IsSpace(pre[|pre| - 1])
    ensures TargetValue(Some(pre + v + post), isFloat) == if isFloat(v) then Some(v) else None
  {
    LastTokenOf(pre, v, post);
  }

  /** An empty or all-whitespace output gives no value. */
  lemma {:induction false} TargetValueBlank(output: string, isFloat: string -> bool)
    requires AllSpace(output)
    ensures TargetValue(Some(output), isFloat) == None
  {
    TokensEmpty(output);
  }

  // ---------------------------------------------------------------------
  // The output folders (`_create_data`, lines 149-180)
  // ---------------------------------------------------------------------

  /** The folder of one complex: the structure copied in as `complex.pdb`,
      its sub-directories, and the files of its `targets` directory with
      their text. */
  datatype Folder = Folder(complex: string, subdirs: set<string>, targets: map<string, string>)

  /** The name the structure is copied in as (line 168). */
  const StructureFile: string := "complex.pdb"

  /** The `FileExistsError` of `os.mkdir`: a complex's folder, or an entry
      of it named like the new sub-directory (another sub-directory, or the
      copied structure), is already there. */
  datatype DirError = FolderExists(mol: string) | SubdirExists(mol: string, sub: string)

  /** The folders of the output directory, and the exception that stopped
      the run, if any; an exception leaves what was made so far in place. */
  datatype Tree = Tree(folders: map<string, Folder>, error: Option<DirError>)

  /** The folder of `mol`, or an empty one when there is none. */
  function FolderOf(folders: map<string, Folder>, mol: string): Folder {
    if mol in folders then folders[mol] else Folder("", {}, map[])
  }

  /** Lines 164-168: `os.mkdir` of the complex's folder, then the copy of
      the structure into it. */
  function MakeFolder(t: Tree, mol: string, cplx: string): Tree {
    if t.error.Some? then t
    else if mol in t.folders then Tree(t.folders, Some(FolderExists(mol)))
    else Tree(t.folders[mol := Folder(cplx, {}, map[])], None)
  }

  /** `os.mkdir` of a sub-directory of the folder of `mol`: it raises when
      the folder already has an entry of that name. */
  function MakeSubdir(t: Tree, mol: string, sub: string): Tree {
    if t.error.Some? then t
    else
      var f := FolderOf(t.folders, mol);
      if sub in f.subdirs || sub == StructureFile then Tree(t.folders, Some(SubdirExists(mol, sub)))
      else Tree(t.folders[mol := f.(subdirs := f.subdirs + {sub})], None)
  }

  /** `np.savetxt` into the `targets` directory of `mol`: the file is
      written anew, or overwritten. */
  function SaveTarget(t: Tree, mol: string, file: string, text: string): Tree {
    if t.error.Some? then t
    else
      var f := FolderOf(t.folders, mol);
      Tree(t.folders[mol := f.(targets := f.targets[file := text])], None)
  }

  /** Lines 187-191: one directory per feature, in the order of the
      features. */
  function AddFeat(t: Tree, mol: string, features: seq<string>): Tree
    decreases |features|
  {
    if features == [] then t
    else MakeSubdir(AddFeat(t, mol, features[..|features| - 1]), mol, features[|features| - 1])
  }

  /** Lines 199-206: one file `<target>.dat` per target whose value is
      found. `grep(mol, dir)` stands for the lookup's output. */
  function AddTarg(t: Tree, mol: string, targets: seq<(string, string)>,
                   grep: (string, string) -> Option<string>, isFloat: string -> bool): Tree
    decreases |targets|
  {
    if targets == [] then t
    else
      var r := AddTarg(t, mol, targets[..|targets| - 1], grep, isFloat);
      var (name, dir) := targets[|targets| - 1];
      match TargetValue(grep(mol, dir), isFloat)
      case None => r
      case Some(v) => SaveTarget(r, mol, name + ".dat", v)
  }

  /** `np.savetxt(..., np.array([c]), fmt='%d')`: the class and a newline. */
  function ClassText(c: int): string {
    IntString(c) + "\n"
  }

  /** The name of the file holding the binary class. */
  const ClassFile: string := "binary_class.dat"

  /** Lines 157-180 for one complex of class `c`. */
  function AddComplex(t: Tree, cplx: string, c: int, features: seq<string>, targets: seq<(string, string)>,
                      grep: (string, string) -> Option<string>, isFloat: string -> bool): Tree
  {
    var mol := MolNameOf(cplx);
    var withFeatures := AddFeat(MakeFolder(t, mol, cplx), mol, features);
    var classified := SaveTarget(MakeSubdir(withFeatures, mol, "targets"), mol, ClassFile, ClassText(c));
    if c == 0 then AddTarg(classified, mol, targets, grep, isFloat) else classified
  }

  /** `step` applied to each element in turn. */
  function Fold(t: Tree, xs: seq<string>, step: (Tree, string) -> Tree): Tree
    decreases |xs|
  {
    if xs == [] then t else step(Fold(t, xs[..|xs| - 1], step), xs[|xs| - 1])
  }

  /** The step for one complex of class `c`. */
  function ComplexStep(c: int, features: seq<string>, targets: seq<(string, string)>,
                       grep: (string, string) -> Option<string>, isFloat: string -> bool): (Tree, string) -> Tree
  {
    (t, cplx) => AddComplex(t, cplx, c, features, targets, grep, isFloat)
  }

  /** Lines 155-180: the complexes of one class, in order. */
  function AddAll(t: Tree, cplxs: seq<string>, c: int, features: seq<string>, targets: seq<(string, string)>,
                  grep: (string, string) -> Option<string>, isFloat: string -> bool): Tree
  {
    Fold(t, cplxs, ComplexStep(c, features, targets, grep, isFloat))
  }

  /** Line 152: the natives with class 1, then the decoys with class 0. */
  function CreateData(folders: map<string, Folder>, natives: seq<string>, decoys: seq<string>,
                      features: seq<string>, targets: seq<(string, string)>,
                      grep: (string, string) -> Option<string>, isFloat: string -> bool): Tree
  {
    var t := AddAll(Tree(folders, None), natives, 1, features, targets, grep, isFloat);
    AddAll(t, decoys, 0, features, targets, grep, isFloat)
  }

  // ---------------------------------------------------------------------
  // The assembler object
  // ---------------------------------------------------------------------

  /** The assembler: the natives and decoys it processes, its features and
      targets (the names of a dictionary's entries, in its order, and for a
      target the directory its values are looked up in), and the folders
      of its output directory. */
  class DataAssembler {
    /** `self.natives_names`. */
    var nativesNames: seq<string>
    /** `self.decoys_names`. */
    var decoysNames: seq<string>
    /** The keys of `self.features`. */
    const features: seq<string>
    /** The entries of `self.targets`. */
    const targets: seq<(string, string)>
    /** The folders below `self.outdir`. */
    var folders: map<string, Folder>

    /** An assembler with the listed natives and decoys and an output
        directory just created by `_check_outdir`, so empty. */
    constructor (natives: seq<string>, decoys: seq<string>, features: seq<string>, targets: seq<(string, string)>)
      ensures nativesNames == natives && decoysNames == decoys
      ensures this.features == features && this.targets == targets && folders == map[]
    {
      nativesNames := natives;
      decoysNames := decoys;
      this.features := features;
      this.targets := targets;
      folders := map[];
    }

    /** `_filter_cplx` with the class file read as `data`: each list is
        replaced by the paths that contain, line after line, the names of
        its class; an unreadable line raises before anything changes. */
    method FilterCplx(data: seq<string>) returns (error: Option<ClassError>)
      modifies this
      ensures folders == old(folders)
      ensures error.Some? <==> ParseClassLines(data).Err?
      ensures error.Some? ==> error.value == ParseClassLines(data).error &&
                              nativesNames == old(nativesNames) && decoysNames == old(decoysNames)
      ensures error.None? ==>
                nativesNames == SelectAll(ClassNames(ParseClassLines(data).value, 1), old(nativesNames)) &&
                decoysNames == SelectAll(ClassNames(ParseClassLines(data).value, 0), old(decoysNames))
    {
      var tmpNatives, tmpDecoys := [], [];
      ghost var es: seq<ClassLine> := [];
      for i := 0 to |data|
        invariant nativesNames == old(nativesNames) && decoysNames == old(decoysNames) && folders == old(folders)
        invariant ParseClassLines(data[..i]) == Ok(es)
        invariant tmpNatives == SelectAll(ClassNames(es, 1), nativesNames)
        invariant tmpDecoys == SelectAll(ClassNames(es, 0), decoysNames)
      {
        ParseClassLinesStep(data, i);
        var line := ParseClassLine(data[i]);
        if line.Err? {
          ParseClassLinesSticky(data, i + 1);
          return Some(line.error);
        }
        var l := line.value;
        FilterStep(es, l, 0, decoysNames);
        FilterStep(es, l, 1, nativesNames);
        if l.cls == 0 {
          tmpDecoys := tmpDecoys + Matching(decoysNames, l.name);
        } else if l.cls == 1 {
          tmpNatives := tmpNatives + Matching(nativesNames, l.name);
        }
        es := es + [l];
      }
      assert data[..|data|] == data;
      nativesNames := tmpNatives;
      decoysNames := tmpDecoys;
      return None;
    }

    /** `_create_data`: the natives, then the decoys, until the end or the
        first exception. */
    method CreateDataMethod(grep: (string, string) -> Option<string>, isFloat: string -> bool)
      returns (error: Option<DirError>)
      modifies this
      ensures nativesNames == old(nativesNames) && decoysNames == old(decoysNames)
      ensures Tree(folders, error) ==
              CreateData(old(folders), nativesNames, decoysNames, features, targets, grep, isFloat)
    {
      ghost var start := Tree(folders, None);
      error := AddClass(nativesNames, 1, grep, isFloat);
      if error.Some? {
        ComplexStepKeepsError(0, features, targets, grep, isFloat);
        FoldSticky(Tree(folders, error), decoysNames, ComplexStep(0, features, targets, grep, isFloat));
        return;
      }
      error := AddClass(decoysNames, 0, grep, isFloat);
    }

    /** Lines 155-180: the complexes of one class, in order. */
    method AddClass(cplxs: seq<string>, c: int, grep: (string, string) -> Option<string>, isFloat: string -> bool)
      returns (error: Option<DirError>)
      modifies this
      ensures nativesNames == old(nativesNames) && decoysNames == old(decoysNames)
      ensures Tree(folders, error) == AddAll(Tree(old(folders), None), cplxs, c, features, targets, grep, isFloat)
    {
      ghost var start := Tree(folders, None);
      ghost var step := ComplexStep(c, features, targets, grep, isFloat);
      for i := 0 to |cplxs|
        invariant nativesNames == old(nativesNames) && decoysNames == old(decoysNames)
        invariant Fold(start, cplxs[..i], step) == Tree(folders, None)
      {
        FoldStep(start, cplxs, step, i);
        error := ProcessComplex(cplxs[i], c, grep, isFloat);
        if error.Some? {
          ComplexStepKeepsError(c, features, targets, grep, isFloat);
          FoldStickyFrom(start, cplxs, step, i + 1);
          return;
        }
      }
      assert cplxs[..|cplxs|] == cplxs;
      return None;
    }

    /** Lines 157-180 for one complex. */
    method ProcessComplex(cplx: string, c: int, grep: (string, string) -> Option<string>, isFloat: string -> bool)
      returns (error: Option<DirError>)
      modifies this
      ensures nativesNames == old(nativesNames) && decoysNames == old(decoysNames)
      ensures Tree(folders, error) == AddComplex(Tree(old(folders), None), cplx, c, features, targets, grep, isFloat)
    {
      var mol := MolNameOf(cplx);
      if mol in folders {
        AddFeatSticky(Tree(folders, Some(FolderExists(mol))), mol, features);
        AddTargSticky(Tree(folders, Some(FolderExists(mol))), mol, targets, grep, isFloat);
        return Some(FolderExists(mol));
      }
      folders := folders[mol := Folder(cplx, {}, map[])];
      error := MakeFeatures(mol);
      if error.None? {
        error := MakeDir(mol, "targets");
      }
      if error.Some? {
        AddTargSticky(Tree(folders, error), mol, targets, grep, isFloat);
        return;
      }
      var f := FolderOf(folders, mol);
      folders := folders[mol := f.(targets := f.targets[ClassFile := ClassText(c)])];
      if c == 0 {
        error := AddTargets(mol, grep, isFloat);
      }
    }

    /** `os.mkdir` of a sub-directory of the folder of `mol`. */
    method MakeDir(mol: string, sub: string) returns (error: Option<DirError>)
      modifies this
      ensures nativesNames == old(nativesNames) && decoysNames == old(decoysNames)
      ensures Tree(folders, error) == MakeSubdir(Tree(old(folders), None), mol, sub)
    {
      var f := FolderOf(folders, mol);
      if sub in f.subdirs || sub == StructureFile {
        return Some(SubdirExists(mol, sub));
      }
      folders := folders[mol := f.(subdirs := f.subdirs + {sub})];
      return None;
    }

    /** `_add_feat`: one directory per feature. */
    method MakeFeatures(mol: string) returns (error: Option<DirError>)
      modifies this
      ensures nativesNames == old(nativesNames) && decoysNames == old(decoysNames)
      ensures Tree(folders, error) == AddFeat(Tree(old(folders), None), mol, features)
    {
      ghost var start := Tree(folders, None);
      for i := 0 to |features|
        invariant nativesNames == old(nativesNames) && decoysNames == old(decoysNames)
        invariant AddFeat(start, mol, features[..i]) == Tree(folders, None)
      {
        assert features[..i + 1][..i] == features[..i];
        error := MakeDir(mol, features[i]);
        if error.Some? {
          AddFeatStickyFrom(start, mol, features, i + 1);
          return;
        }
      }
      assert features[..|features|] == features;
      return None;
    }

    /** `_add_targ`: one file per target whose value is found. */
    method AddTargets(mol: string, grep: (string, string) -> Option<string>, isFloat: string -> bool)
      returns (error: Option<DirError>)
      modifies this
      ensures error.None?
      ensures nativesNames == old(nativesNames) && decoysNames == old(decoysNames)
      ensures Tree(folders, error) == AddTarg(Tree(old(folders), None), mol, targets, grep, isFloat)
    {
      ghost var start := Tree(folders, None);
      for i := 0 to |targets|
        invariant nativesNames == old(nativesNames) && decoysNames == old(decoysNames)
        invariant AddTarg(start, mol, targets[..i], grep, isFloat) == Tree(folders, None)
      {
        assert targets[..i + 1][..i] == targets[..i];
        var (name, dir) := targets[i];
        var value := TargetValue(grep(mol, dir), isFloat);
        if value.Some? {
          var f := FolderOf(folders, mol);
          folders := folders[mol := f.(targets := f.targets[name + ".dat" := value.value])];
        }
      }
      assert targets[..|targets|] == targets;
      return None;
    }
  }

  // ---------------------------------------------------------------------
  // Facts the methods use
  // ---------------------------------------------------------------------

  /** Once a line cannot be read, reading the whole file fails with it. */
  lemma {:induction false} ParseClassLinesSticky(data: seq<string>, i: nat)
    requires 0 < i <= |data| && ParseClassLines(data[..i]).Err?
    ensures ParseClassLines(data).Err? && ParseClassLines(data).error == ParseClassLines(data[..i]).error
    decreases |data|
  {
    if i < |data| {
      var init := data[..|data| - 1];
      assert init[..i] == data[..i];
      ParseClassLinesSticky(init, i);
    } else {
      assert data[..i] == data;
    }
  }

  /** One more line of the file. */
  lemma {:induction false} ParseClassLinesStep(data: seq<string>, i: nat)
    requires i < |data| && ParseClassLines(data[..i]).Ok?
    ensures ParseClassLine(data[i]).Err? ==> ParseClassLines(data[..i + 1]) == Err(ParseClassLine(data[i]).error)
    ensures ParseClassLine(data[i]).Ok? ==>
              ParseClassLines(data[..i + 1]) == Ok(ParseClassLines(data[..i]).value + [ParseClassLine(data[i]).value])
  {
    assert data[..i + 1][..i] == data[..i];
    assert data[..i + 1][i] == data[i];
  }

  /** One more line extends the selection of its class, and only that. */
  lemma {:induction false} FilterStep(es: seq<ClassLine>, l: ClassLine, c: int, paths: seq<string>)
    ensures SelectAll(ClassNames(es + [l], c), paths) ==
            if l.cls == c then SelectAll(ClassNames(es, c), paths) + Matching(paths, l.name)
            else SelectAll(ClassNames(es, c), paths)
  {
    ClassNamesSnoc(es, l, c);
    if l.cls == c {
      SelectAllSnoc(ClassNames(es, c), l.name, paths);
    } else {
      assert ClassNames(es, c) + [] == ClassNames(es, c);
    }
  }

  lemma {:induction false} ClassNamesSnoc(es: seq<ClassLine>, l: ClassLine, c: int)
    ensures ClassNames(es + [l], c) == ClassNames(es, c) + (if l.cls == c then [l.name] else [])
  {
    assert (es + [l])[..|es|] == es;
  }

  lemma {:induction false} SelectAllSnoc(names: seq<string>, name: string, paths: seq<string>)
    ensures SelectAll(names + [name], paths) == SelectAll(names, paths) + Matching(paths, name)
  {
    assert (names + [name])[..|names|] == names;
  }

  lemma {:induction false} AddFeatSticky(t: Tree, mol: string, features: seq<string>)
    requires t.error.Some?
    ensures AddFeat(t, mol, features) == t
    decreases |features|
  {
    if features != [] {
      AddFeatSticky(t, mol, features[..|features| - 1]);
    }
  }

  lemma {:induction false} AddFeatStickyFrom(t: Tree, mol: string, features: seq<string>, i: nat)
    requires i <= |features| && AddFeat(t, mol, features[..i]).error.Some?
    ensures AddFeat(t, mol, features) == AddFeat(t, mol, features[..i])
    decreases |features|
  {
    if i < |features| {
      var init := features[..|features| - 1];
      assert init[..i] == features[..i];
      AddFeatStickyFrom(t, mol, init, i);
    } else {
      assert features[..i] == features;
    }
  }

  lemma {:induction false} AddTargSticky(t: Tree, mol: string, targets: seq<(string, string)>,
                                         grep: (string, string) -> Option<string>, isFloat: string -> bool)
    requires t.error.Some?
    ensures AddTarg(t, mol, targets, grep, isFloat) == t
    decreases |targets|
  {
    if targets != [] {
      AddTargSticky(t, mol, targets[..|targets| - 1], grep, isFloat);
    }
  }

  /** A step that leaves a stopped run alone. */
  ghost predicate KeepsError(step: (Tree, string) -> Tree) {
    forall t: Tree, x: string :: t.error.Some? ==> step(t, x) == t
  }

  lemma {:induction false} FoldStep(t: Tree, xs: seq<string>, step: (Tree, string) -> Tree, i: nat)
    requires i < |xs|
    ensures Fold(t, xs[..i + 1], step) == step(Fold(t, xs[..i], step), xs[i])
  {
    assert xs[..i + 1][..i] == xs[..i];
  }

  lemma {:induction false} FoldSticky(t: Tree, xs: seq<string>, step: (Tree, string) -> Tree)
    requires KeepsError(step) && t.error.Some?
    ensures Fold(t, xs, step) == t
    decreases |xs|
  {
    if xs != [] {
      FoldSticky(t, xs[..|xs| - 1], step);
    }
  }

  lemma {:induction false} FoldStickyFrom(t: Tree, xs: seq<string>, step: (Tree, string) -> Tree, i: nat)
    requires KeepsError(step)
    requires i <= |xs| && Fold(t, xs[..i], step).error.Some?
    ensures Fold(t, xs, step) == Fold(t, xs[..i], step)
    decreases |xs|
  {
    if i < |xs| {
      var init := xs[..|xs| - 1];
      assert init[..i] == xs[..i];
      FoldStickyFrom(t, init, step, i);
    } else {
      assert xs[..i] == xs;
    }
  }

  lemma {:induction false} ComplexStepKeepsError(c: int, features: seq<string>, targets: seq<(string, string)>,
                                                 grep: (string, string) -> Option<string>, isFloat: string -> bool)
    ensures KeepsError(ComplexStep(c, features, targets, grep, isFloat))
  {
    forall t: Tree, x: string | t.error.Some?
      ensures ComplexStep(c, features, targets, grep, isFloat)(t, x) == t
    {
      ComplexSticky(t, x, c, features, targets, grep, isFloat);
    }
  }

  /** A complex processed after an exception changes nothing. */
  lemma {:induction false} ComplexSticky(t: Tree, cplx: string, c: int, features: seq<string>,
                                         targets: seq<(string, string)>,
                                         grep: (string, string) -> Option<string>, isFloat: string -> bool)
    requires t.error.Some?
    ensures AddComplex(t, cplx, c, features, targets, grep, isFloat) == t
  {
    var mol := MolNameOf(cplx);
    AddFeatSticky(t, mol, features);
    AddTargSticky(t, mol, targets, grep, isFloat);
  }

  // ---------------------------------------------------------------------
  // What a run leaves in the output directory
  // ---------------------------------------------------------------------

  /** The features can all be given directories next to the structure
      and `targets`: no name twice, none named `complex.pdb` and none named
      `targets`. */
  predicate FeaturesOk(features: seq<string>) {
    Distinct(features) && StructureFile !in features && "targets" !in features
  }

  /** The files `_add_targ` leaves in a `targets` directory that held `m`. */
  function TargetsAfter(m: map<string, string>, mol: string, targets: seq<(string, string)>,
                        grep: (string, string) -> Option<string>, isFloat: string -> bool): map<string, string>
    decreases |targets|
  {
    if targets == [] then m
    else
      var r := TargetsAfter(m, mol, targets[..|targets| - 1], grep, isFloat);
      var (name, dir) := targets[|targets| - 1];
      match TargetValue(grep(mol, dir), isFloat)
      case None => r
      case Some(v) => r[name + ".dat" := v]
  }

  /** The folder a complex of class `c` is meant to get: its structure, one
      directory per feature and `targets`, and in `targets` its class and,
      for a decoy, the values found. */
  function Expected(cplx: string, c: int, features: seq<string>, targets: seq<(string, string)>,
                    grep: (string, string) -> Option<string>, isFloat: string -> bool): Folder
  {
    var classOnly := map[ClassFile := ClassText(c)];
    Folder(cplx, Elements(features) + {"targets"},
           if c == 0 then TargetsAfter(classOnly, MolNameOf(cplx), targets, grep, isFloat) else classOnly)
  }

  /** New names, none twice and none in `existing`. */
  predicate Fresh(existing: set<string>, names: seq<string>) {
    Distinct(names) && forall i :: 0 <= i < |names| ==> names[i] !in existing
  }

  /** One more name is fresh when it is new to the existing names and to
      those before it. */
  lemma {:induction false} FreshSnoc(existing: set<string>, names: seq<string>)
    requires names != []
    ensures var init, last := names[..|names| - 1], names[|names| - 1];
      Fresh(existing, names) <==> Fresh(existing, init) && last !in existing + Elements(init)
    ensures Elements(names) == Elements(names[..|names| - 1]) + {names[|names| - 1]}
  {
    var init, last := names[..|names| - 1], names[|names| - 1];
    ElementsSnoc(names);
    DistinctSnoc(names);
    assert forall i :: 0 <= i < |init| ==> init[i] == names[i];
  }

  /** The feature directories of a folder that exists. */
  lemma {:induction false} AddFeatFresh(t: Tree, mol: string, features: seq<string>)
    requires t.error.None? && mol in t.folders
    ensures var r, f := AddFeat(t, mol, features), t.folders[mol];
      (r.error.None? <==> Fresh(f.subdirs + {StructureFile}, features)) &&
      (r.error.None? ==> r.folders == t.folders[mol := f.(subdirs := f.subdirs + Elements(features))])
    decreases |features|
  {
    var f := t.folders[mol];
    if features == [] {
      assert f.subdirs + Elements(features) == f.subdirs;
      assert f.(subdirs := f.subdirs) == f;
      assert t.folders[mol := f] == t.folders;
    } else {
      var init, last := features[..|features| - 1], features[|features| - 1];
      AddFeatFresh(t, mol, init);
      FreshSnoc(f.subdirs + {StructureFile}, features);
      var r0 := AddFeat(t, mol, init);
      if r0.error.None? {
        var g := f.(subdirs := f.subdirs + Elements(init));
        assert FolderOf(r0.folders, mol) == g;
        if last !in g.subdirs && last != StructureFile {
          assert g.subdirs + {last} == f.subdirs + Elements(features);
          assert g.(subdirs := g.subdirs + {last}) == f.(subdirs := f.subdirs + Elements(features));
          assert t.folders[mol := g][mol := g.(subdirs := g.subdirs + {last})] ==
                 t.folders[mol := f.(subdirs := f.subdirs + Elements(features))];
        }
      }
    }
  }

  /** The target files of a folder that exists; looking up targets never
      raises. */
  lemma {:induction false} AddTargFresh(t: Tree, mol: string, targets: seq<(string, string)>,
                                        grep: (string, string) -> Option<string>, isFloat: string -> bool)
    requires t.error.None? && mol in t.folders
    ensures var r, f := AddTarg(t, mol, targets, grep, isFloat), t.folders[mol];
      r.error.None? && r.folders == t.folders[mol := f.(targets := TargetsAfter(f.targets, mol, targets, grep, isFloat))]
    decreases |targets|
  {
    var f := t.folders[mol];
    if targets == [] {
      assert f.(targets := f.targets) == f;
      assert t.folders[mol := f] == t.folders;
    } else {
      var init := targets[..|targets| - 1];
      AddTargFresh(t, mol, init, grep, isFloat);
      var m := TargetsAfter(f.targets, mol, init, grep, isFloat);
      var r0 := AddTarg(t, mol, init, grep, isFloat);
      assert FolderOf(r0.folders, mol) == f.(targets := m);
      var (name, dir) := targets[|targets| - 1];
      match TargetValue(grep(mol, dir), isFloat)
      case None =>
      case Some(v) =>
        assert t.folders[mol := f.(targets := m)][mol := f.(targets := m[name + ".dat" := v])] ==
               t.folders[mol := f.(targets := m[name + ".dat" := v])];
    }
  }

  /** The file of a target: its name and `.dat`; different names give
      different files. */
  lemma {:induction false} TargetFileInjective(a: string, b: string)
    requires a + ".dat" == b + ".dat"
    ensures a == b
  {
    assert a == (a + ".dat")[..|a|];
    assert b == (b + ".dat")[..|b|];
  }

  /** No two targets share a name, as the keys of a dictionary. */
  predicate DistinctNames(targets: seq<(string, string)>) {
    forall i, j :: 0 <= i < j < |targets| ==> targets[i].0 != targets[j].0
  }

  /** Whether the value of target `j` is found for `mol`. */
  predicate Found(mol: string, targets: seq<(string, string)>, j: int,
                  grep: (string, string) -> Option<string>, isFloat: string -> bool)
    requires 0 <= j < |targets|
  {
    TargetValue(grep(mol, targets[j].1), isFloat).Some?
  }

  /** After looking up the targets, a file is there exactly when it was
      before or is the file of a target whose value is found. */
  lemma {:induction false} TargetsAfterKeys(m: map<string, string>, mol: string, targets: seq<(string, string)>,
                                            grep: (string, string) -> Option<string>, isFloat: string -> bool,
                                            k: string)
    ensures k in TargetsAfter(m, mol, targets, grep, isFloat) <==>
            k in m || exists j :: 0 <= j < |targets| && targets[j].0 + ".dat" == k && Found(mol, targets, j, grep, isFloat)
    decreases |targets|
  {
    if targets != [] {
      var n := |targets| - 1;
      var init := targets[..n];
      TargetsAfterKeys(m, mol, init, grep, isFloat, k);
      assert forall j :: 0 <= j < n ==> init[j] == targets[j];
      assert forall j :: 0 <= j < n ==> (Found(mol, init, j, grep, isFloat) <==> Found(mol, targets, j, grep, isFloat));
    }
  }

  /** A file no target found writes keeps its text. */
  lemma {:induction false} TargetsAfterKept(m: map<string, string>, mol: string, targets: seq<(string, string)>,
                                            grep: (string, string) -> Option<string>, isFloat: string -> bool,
                                            k: string)
    requires k in m
    requires forall j :: 0 <= j < |targets| && Found(mol, targets, j, grep, isFloat) ==> targets[j].0 + ".dat" != k
    ensures k in TargetsAfter(m, mol, targets, grep, isFloat) && TargetsAfter(m, mol, targets, grep, isFloat)[k] == m[k]
    decreases |targets|
  {
    if targets != [] {
      var n := |targets| - 1;
      var init := targets[..n];
      assert forall j :: 0 <= j < n ==> init[j] == targets[j];
      assert forall j :: 0 <= j < n ==> (Found(mol, init, j, grep, isFloat) <==> Found(mol, targets, j, grep, isFloat));
      TargetsAfterKept(m, mol, init, grep, isFloat, k);
      assert Found(mol, targets, n, grep, isFloat) ==> targets[n].0 + ".dat" != k;
    }
  }

  /** Each target found holds its value. */
  lemma {:induction false} TargetsAfterValue(m: map<string, string>, mol: string, targets: seq<(string, string)>,
                                             grep: (string, string) -> Option<string>, isFloat: string -> bool,
                                             j: nat)
    requires DistinctNames(targets)
    requires j < |targets| && Found(mol, targets, j, grep, isFloat)
    ensures targets[j].0 + ".dat" in TargetsAfter(m, mol, targets, grep, isFloat)
    ensures TargetsAfter(m, mol, targets, grep, isFloat)[targets[j].0 + ".dat"] ==
            TargetValue(grep(mol, targets[j].1), isFloat).value
    decreases |targets|
  {
    var n := |targets| - 1;
    var init := targets[..n];
    if j < n {
      assert forall i :: 0 <= i < n ==> init[i] == targets[i];
      assert DistinctNames(init);
      assert Found(mol, init, j, grep, isFloat);
      TargetsAfterValue(m, mol, init, grep, isFloat, j);
      if targets[n].0 + ".dat" == targets[j].0 + ".dat" {
        TargetFileInjective(targets[n].0, targets[j].0);
      }
    }
  }

  /** A new folder and its feature directories: they can all be made
      exactly when no feature is named twice or like the structure. */
  lemma {:induction false} FeaturedFresh(t: Tree, mol: string, cplx: string, features: seq<string>)
    requires t.error.None? && mol !in t.folders
    ensures var r := AddFeat(MakeFolder(t, mol, cplx), mol, features);
      (r.error.None? <==> Distinct(features) && StructureFile !in features) &&
      (r.error.None? ==> r.folders == t.folders[mol := Folder(cplx, Elements(features), map[])])
  {
    var f := Folder(cplx, {}, map[]);
    var t1 := MakeFolder(t, mol, cplx);
    assert t1 == Tree(t.folders[mol := f], None);
    AddFeatFresh(t1, mol, features);
    assert Fresh({StructureFile}, features) <==> Distinct(features) && StructureFile !in features;
    assert f.(subdirs := {} + Elements(features)) == Folder(cplx, Elements(features), map[]);
    assert t.folders[mol := f][mol := Folder(cplx, Elements(features), map[])] ==
           t.folders[mol := Folder(cplx, Elements(features), map[])];
  }

  /** Then a sub-directory `sub` and a file in it: the folder gets both
      exactly when no feature is named twice or like the structure, none is
      named `sub`, and `sub` is not named like the structure. */
  lemma {:induction false} ClassifiedFresh(t: Tree, mol: string, cplx: string, features: seq<string>,
                                           sub: string, file: string, text: string)
    requires t.error.None? && mol !in t.folders
    ensures var r := SaveTarget(MakeSubdir(AddFeat(MakeFolder(t, mol, cplx), mol, features), mol, sub),
                                mol, file, text);
      (r.error.None? <==> Distinct(features) && StructureFile !in features && sub !in features &&
                          sub != StructureFile) &&
      (r.error.None? ==> r.folders == t.folders[mol := Folder(cplx, Elements(features) + {sub}, map[file := text])])
  {
    FeaturedFresh(t, mol, cplx, features);
    var t2 := AddFeat(MakeFolder(t, mol, cplx), mol, features);
    if t2.error.None? {
      var f2 := Folder(cplx, Elements(features), map[]);
      assert FolderOf(t2.folders, mol) == f2;
      assert sub in f2.subdirs <==> sub in features;
      if sub !in features && sub != StructureFile {
        var f3 := f2.(subdirs := f2.subdirs + {sub});
        var t3 := MakeSubdir(t2, mol, sub);
        assert t3 == Tree(t.folders[mol := f2][mol := f3], None);
        assert FolderOf(t3.folders, mol) == f3;
        var f4 := Folder(cplx, Elements(features) + {sub}, map[file := text]);
        assert f3.(targets := f3.targets[file := text]) == f4;
        assert t.folders[mol := f2][mol := f3][mol := f4] == t.folders[mol := f4];
      }
    }
  }

  /** `ClassifiedFresh` for `targets` and the class file of class `c`. */
  lemma {:induction false} ClassifiedOk(t: Tree, mol: string, cplx: string, c: int, features: seq<string>)
    requires t.error.None? && mol !in t.folders
    ensures var r := SaveTarget(MakeSubdir(AddFeat(MakeFolder(t, mol, cplx), mol, features), mol, "targets"),
                                mol, ClassFile, ClassText(c));
      (r.error.None? <==> FeaturesOk(features)) &&
      (r.error.None? ==> r.folders == t.folders[mol := Folder(cplx, Elements(features) + {"targets"},
                                                             map[ClassFile := ClassText(c)])])
  {
    assert |"targets"| != |StructureFile|;
    ClassifiedFresh(t, mol, cplx, features, "targets", ClassFile, ClassText(c));
  }

  /** One complex with a new molecule name: the run goes on exactly when
      the features fit, and then the complex gets the folder it is meant
      to, every other folder kept. */
  lemma {:induction false} ComplexFresh(t: Tree, cplx: string, c: int, features: seq<string>,
                                        targets: seq<(string, string)>,
                                        grep: (string, string) -> Option<string>, isFloat: string -> bool)
    requires t.error.None? && MolNameOf(cplx) !in t.folders
    ensures var r := AddComplex(t, cplx, c, features, targets, grep, isFloat);
      (r.error.None? <==> FeaturesOk(features)) &&
      (r.error.None? ==> r.folders == t.folders[MolNameOf(cplx) := Expected(cplx, c, features, targets, grep, isFloat)])
  {
    var mol := MolNameOf(cplx);
    ClassifiedOk(t, mol, cplx, c, features);
    var t4 := SaveTarget(MakeSubdir(AddFeat(MakeFolder(t, mol, cplx), mol, features), mol, "targets"),
                         mol, ClassFile, ClassText(c));
    assert AddComplex(t, cplx, c, features, targets, grep, isFloat) == if c == 0 then AddTarg(t4, mol, targets, grep, isFloat) else t4;
    var f4 := Folder(cplx, Elements(features) + {"targets"}, map[ClassFile := ClassText(c)]);
    if c == 0 {
      if t4.error.None? {
        AddTargFresh(t4, mol, targets, grep, isFloat);
        var f5 := f4.(targets := TargetsAfter(f4.targets, mol, targets, grep, isFloat));
        assert f5 == Expected(cplx, c, features, targets, grep, isFloat);
        assert t.folders[mol := f4][mol := f5] == t.folders[mol := f5];
      } else {
        AddTargSticky(t4, mol, targets, grep, isFloat);
      }
    } else {
      assert f4 == Expected(cplx, c, features, targets, grep, isFloat);
    }
  }

  /** One complex whose molecule name is taken: `os.mkdir` raises before
      anything is made. */
  lemma {:induction false} ComplexExists(t: Tree, cplx: string, c: int, features: seq<string>,
                                         targets: seq<(string, string)>,
                                         grep: (string, string) -> Option<string>, isFloat: string -> bool)
    requires t.error.None? && MolNameOf(cplx) in t.folders
    ensures AddComplex(t, cplx, c, features, targets, grep, isFloat) ==
            Tree(t.folders, Some(FolderExists(MolNameOf(cplx))))
  {
    var mol := MolNameOf(cplx);
    var t1 := MakeFolder(t, mol, cplx);
    AddFeatSticky(t1, mol, features);
    AddTargSticky(t1, mol, targets, grep, isFloat);
  }

  /** The molecule names of the complexes, in their order. */
  function MolNames(cplxs: seq<string>): (r: seq<string>)
  {
    Each(MolNameOf, cplxs)
  }

  /** The folder each complex of class `c` is meant to get. */
  function ExpectedFor(c: int, features: seq<string>, targets: seq<(string, string)>,
                       grep: (string, string) -> Option<string>, isFloat: string -> bool): string -> Folder
  {
    cplx => Expected(cplx, c, features, targets, grep, isFloat)
  }

  /** The folders a run over `cplxs` with class `c` is meant to leave: the
      existing ones, and for each complex the folder it is meant to get. */
  function Planned(m: map<string, Folder>, cplxs: seq<string>, c: int, features: seq<string>,
                   targets: seq<(string, string)>,
                   grep: (string, string) -> Option<string>, isFloat: string -> bool): map<string, Folder>
  {
    Assign(m, cplxs, MolNameOf, ExpectedFor(c, features, targets, grep, isFloat))
  }

  /** The run over a list of complexes with class `c`, from a run that has
      not stopped: it goes on exactly when every molecule name is new and
      none is used twice, and, unless the list is empty, the features fit;
      then it leaves the planned folders. */
  lemma {:induction false} AddAllSpec(t: Tree, cplxs: seq<string>, c: int, features: seq<string>,
                                      targets: seq<(string, string)>,
                                      grep: (string, string) -> Option<string>, isFloat: string -> bool)
    requires t.error.None?
    ensures var r := AddAll(t, cplxs, c, features, targets, grep, isFloat);
      (r.error.None? <==> Fresh(t.folders.Keys, MolNames(cplxs)) && (cplxs == [] || FeaturesOk(features))) &&
      (r.error.None? ==> r.folders == Planned(t.folders, cplxs, c, features, targets, grep, isFloat))
    decreases |cplxs|
  {
    if cplxs != [] {
      var step := ComplexStep(c, features, targets, grep, isFloat);
      var init, last := cplxs[..|cplxs| - 1], cplxs[|cplxs| - 1];
      AddAllSpec(t, init, c, features, targets, grep, isFloat);
      var r0 := Fold(t, init, step);
      assert Fold(t, cplxs, step) == AddComplex(r0, last, c, features, targets, grep, isFloat);
      var names := MolNames(cplxs);
      assert names[..|names| - 1] == MolNames(init);
      FreshSnoc(t.folders.Keys, names);
      if r0.error.None? {
        AssignKeys(t.folders, init, MolNameOf, ExpectedFor(c, features, targets, grep, isFloat));
        assert r0.folders.Keys == t.folders.Keys + Elements(MolNames(init));
        if MolNameOf(last) in r0.folders {
          ComplexExists(r0, last, c, features, targets, grep, isFloat);
        } else {
          ComplexFresh(r0, last, c, features, targets, grep, isFloat);
        }
      } else {
        ComplexSticky(r0, last, c, features, targets, grep, isFloat);
      }
    }
  }

  /** Names fresh one list after the other are fresh together. */
  lemma {:induction false} FreshAppend(existing: set<string>, a: seq<string>, b: seq<string>)
    ensures Fresh(existing, a + b) <==> Fresh(existing, a) && Fresh(existing + Elements(a), b)
  {
    var ab := a + b;
    assert forall i :: 0 <= i < |a| ==> ab[i] == a[i];
    assert forall i :: 0 <= i < |b| ==> ab[|a| + i] == b[i];
    if Fresh(existing, ab) {
      forall i | 0 <= i < |b| ensures b[i] !in existing + Elements(a) {
        forall j | 0 <= j < |a| ensures a[j] != b[i] {
          assert ab[j] != ab[|a| + i];
        }
      }
      forall i, j | 0 <= i < j < |b| ensures b[i] != b[j] {
        assert ab[|a| + i] != ab[|a| + j];
      }
    }
    if Fresh(existing, a) && Fresh(existing + Elements(a), b) {
      forall i, j | 0 <= i < j < |ab| ensures ab[i] != ab[j] {
        if j < |a| {
          assert a[i] != a[j];
        } else if i < |a| {
          assert a[i] in Elements(a);
          assert b[j - |a|] !in Elements(a);
        } else {
          assert b[i - |a|] != b[j - |a|];
        }
      }
      forall i | 0 <= i < |ab| ensures ab[i] !in existing {
        if i >= |a| {
          assert b[i - |a|] !in existing + Elements(a);
        }
      }
    }
  }

  /** Lines 149-180 as a whole, from the folders already in the output
      directory: the run goes on to the end exactly when every complex,
      native or decoy, has a molecule name of its own, new to the
      directory, and, unless there are none, the features fit; then the
      natives get the folders meant for class 1 and the decoys after them
      those meant for class 0. */
  lemma {:induction false} CreateDataSpec(folders: map<string, Folder>, natives: seq<string>, decoys: seq<string>,
                                          features: seq<string>, targets: seq<(string, string)>,
                                          grep: (string, string) -> Option<string>, isFloat: string -> bool)
    ensures var r := CreateData(folders, natives, decoys, features, targets, grep, isFloat);
      (r.error.None? <==> Fresh(folders.Keys, MolNames(natives + decoys)) &&
                          (natives + decoys == [] || FeaturesOk(features))) &&
      (r.error.None? ==> r.folders == Planned(Planned(folders, natives, 1, features, targets, grep, isFloat),
                                              decoys, 0, features, targets, grep, isFloat))
  {
    var t := AddAll(Tree(folders, None), natives, 1, features, targets, grep, isFloat);
    AddAllSpec(Tree(folders, None), natives, 1, features, targets, grep, isFloat);
    EachAppend(MolNameOf, natives, decoys);
    FreshAppend(folders.Keys, MolNames(natives), MolNames(decoys));
    if t.error.None? {
      AddAllSpec(t, decoys, 0, features, targets, grep, isFloat);
      AssignKeys(folders, natives, MolNameOf, ExpectedFor(1, features, targets, grep, isFloat));
    } else {
      ComplexStepKeepsError(0, features, targets, grep, isFloat);
      FoldSticky(t, decoys, ComplexStep(0, features, targets, grep, isFloat));
    }
  }

  /** The planned folders: those there before and one per complex. */
  lemma {:induction false} PlannedKeys(m: map<string, Folder>, cplxs: seq<string>, c: int, features: seq<string>,
                                       targets: seq<(string, string)>,
                                       grep: (string, string) -> Option<string>, isFloat: string -> bool)
    ensures Planned(m, cplxs, c, features, targets, grep, isFloat).Keys == m.Keys + Elements(MolNames(cplxs))
  {
    AssignKeys(m, cplxs, MolNameOf, ExpectedFor(c, features, targets, grep, isFloat));
  }

  /** A complex whose molecule name is used by no other gets the folder
      meant for it. */
  lemma {:induction false} PlannedValue(m: map<string, Folder>, cplxs: seq<string>, c: int, features: seq<string>,
                                        targets: seq<(string, string)>,
                                        grep: (string, string) -> Option<string>, isFloat: string -> bool, i: nat)
    requires Distinct(MolNames(cplxs)) && i < |cplxs|
    ensures var p := Planned(m, cplxs, c, features, targets, grep, isFloat);
      MolNameOf(cplxs[i]) in p && p[MolNameOf(cplxs[i])] == Expected(cplxs[i], c, features, targets, grep, isFloat)
  {
    AssignValue(m, cplxs, MolNameOf, ExpectedFor(c, features, targets, grep, isFloat), i);
  }

  /** A folder that was there and is no complex's stays as it was. */
  lemma {:induction false} PlannedKept(m: map<string, Folder>, cplxs: seq<string>, c: int, features: seq<string>,
                                       targets: seq<(string, string)>,
                                       grep: (string, string) -> Option<string>, isFloat: string -> bool, k: string)
    requires k in m && k !in Elements(MolNames(cplxs))
    ensures var p := Planned(m, cplxs, c, features, targets, grep, isFloat);
      k in p && p[k] == m[k]
  {
    AssignKept(m, cplxs, MolNameOf, ExpectedFor(c, features, targets, grep, isFloat), k);
  }

  /** When the run goes to the end, the natives' molecule names are
      distinct, and so are the decoys', none shared with a native. */
  lemma {:induction false} CreatedNames(folders: map<string, Folder>, natives: seq<string>, decoys: seq<string>,
                                        features: seq<string>, targets: seq<(string, string)>,
                                        grep: (string, string) -> Option<string>, isFloat: string -> bool)
    requires CreateData(folders, natives, decoys, features, targets, grep, isFloat).error.None?
    ensures Distinct(MolNames(natives)) && Distinct(MolNames(decoys))
    ensures forall i :: 0 <= i < |natives| ==> MolNameOf(natives[i]) !in Elements(MolNames(decoys))
    ensures natives + decoys != [] ==> FeaturesOk(features)
  {
    CreateDataSpec(folders, natives, decoys, features, targets, grep, isFloat);
    EachAppend(MolNameOf, natives, decoys);
    FreshAppend(folders.Keys, MolNames(natives), MolNames(decoys));
    forall i | 0 <= i < |natives| ensures MolNameOf(natives[i]) !in Elements(MolNames(decoys)) {
      EachIndex(MolNameOf, natives, i);
      assert MolNameOf(natives[i]) in Elements(MolNames(natives));
    }
  }

  /** The class file of a complex: its class and a newline. */
  lemma {:induction false} ClassTexts()
    ensures ClassText(1) == "1\n" && ClassText(0) == "0\n"
  {
    assert IntString(1) == "1";
    assert IntString(0) == "0";
  }

  /** After a run that goes to the end, a native has its folder with its
      structure, one directory per feature and `targets`, and in `targets`
      only its class, 1. */
  lemma {:induction false} NativeFolder(folders: map<string, Folder>, natives: seq<string>, decoys: seq<string>,
                                        features: seq<string>, targets: seq<(string, string)>,
                                        grep: (string, string) -> Option<string>, isFloat: string -> bool, i: nat)
    requires CreateData(folders, natives, decoys, features, targets, grep, isFloat).error.None?
    requires i < |natives|
    ensures var r := CreateData(folders, natives, decoys, features, targets, grep, isFloat);
      MolNameOf(natives[i]) in r.folders &&
      r.folders[MolNameOf(natives[i])] == Folder(natives[i], Elements(features) + {"targets"},
                                                 map["binary_class.dat" := "1\n"])
  {
    CreateDataSpec(folders, natives, decoys, features, targets, grep, isFloat);
    CreatedNames(folders, natives, decoys, features, targets, grep, isFloat);
    var p := Planned(folders, natives, 1, features, targets, grep, isFloat);
    PlannedValue(folders, natives, 1, features, targets, grep, isFloat, i);
    PlannedKept(p, decoys, 0, features, targets, grep, isFloat, MolNameOf(natives[i]));
    ClassTexts();
  }

  /** After a run that goes to the end, a decoy has its folder with its
      structure, one directory per feature and `targets`, and in `targets`
      a file for its class and one per target whose value is found, and no
      other. */
  lemma {:induction false} DecoyFolder(folders: map<string, Folder>, natives: seq<string>, decoys: seq<string>,
                                       features: seq<string>, targets: seq<(string, string)>,
                                       grep: (string, string) -> Option<string>, isFloat: string -> bool,
                                       j: nat, k: string)
    requires CreateData(folders, natives, decoys, features, targets, grep, isFloat).error.None?
    requires j < |decoys|
    ensures var r, mol := CreateData(folders, natives, decoys, features, targets, grep, isFloat), MolNameOf(decoys[j]);
      mol in r.folders &&
      r.folders[mol].complex == decoys[j] && r.folders[mol].subdirs == Elements(features) + {"targets"} &&
      (k in r.folders[mol].targets <==>
         k == "binary_class.dat" ||
         exists t :: 0 <= t < |targets| && targets[t].0 + ".dat" == k && Found(mol, targets, t, grep, isFloat))
  {
    CreateDataSpec(folders, natives, decoys, features, targets, grep, isFloat);
    CreatedNames(folders, natives, decoys, features, targets, grep, isFloat);
    var p := Planned(folders, natives, 1, features, targets, grep, isFloat);
    PlannedValue(p, decoys, 0, features, targets, grep, isFloat, j);
    TargetsAfterKeys(map[ClassFile := ClassText(0)], MolNameOf(decoys[j]), targets, grep, isFloat, k);
  }

  /** In a decoy's `targets`, the file of a target whose value is found
      holds that value, when no two targets share a name. */
  lemma {:induction false} DecoyTargetValue(folders: map<string, Folder>, natives: seq<string>, decoys: seq<string>,
                                            features: seq<string>, targets: seq<(string, string)>,
                                            grep: (string, string) -> Option<string>, isFloat: string -> bool,
                                            j: nat, t: nat)
    requires CreateData(folders, natives, decoys, features, targets, grep, isFloat).error.None?
    requires j < |decoys| && DistinctNames(targets) && t < |targets| && Found(MolNameOf(decoys[j]), targets, t, grep, isFloat)
    ensures var r, mol := CreateData(folders, natives, decoys, features, targets, grep, isFloat), MolNameOf(decoys[j]);
      mol in r.folders && targets[t].0 + ".dat" in r.folders[mol].targets &&
      r.folders[mol].targets[targets[t].0 + ".dat"] == TargetValue(grep(mol, targets[t].1), isFloat).value
  {
    CreateDataSpec(folders, natives, decoys, features, targets, grep, isFloat);
    CreatedNames(folders, natives, decoys, features, targets, grep, isFloat);
    var p := Planned(folders, natives, 1, features, targets, grep, isFloat);
    PlannedValue(p, decoys, 0, features, targets, grep, isFloat, j);
    TargetsAfterValue(map[ClassFile := ClassText(0)], MolNameOf(decoys[j]), targets, grep, isFloat, t);
  }

  /** The class file is overwritten only by a target named `binary_class`. */
  lemma {:induction false} ClassFileKept(m: map<string, string>, mol: string, targets: seq<(string, string)>,
                                         grep: (string, string) -> Option<string>, isFloat: string -> bool)
    requires ClassFile in m
    requires forall s :: 0 <= s < |targets| && Found(mol, targets, s, grep, isFloat) ==> targets[s].0 != "binary_class"
    ensures ClassFile in TargetsAfter(m, mol, targets, grep, isFloat)
    ensures TargetsAfter(m, mol, targets, grep, isFloat)[ClassFile] == m[ClassFile]
  {
    assert ClassFile == "binary_class" + ".dat";
    forall s | 0 <= s < |targets| && Found(mol, targets, s, grep, isFloat)
      ensures targets[s].0 + ".dat" != ClassFile
    {
      if targets[s].0 + ".dat" == ClassFile {
        TargetFileInjective(targets[s].0, "binary_class");
      }
    }
    TargetsAfterKept(m, mol, targets, grep, isFloat, ClassFile);
  }

  /** A decoy's class file holds 0 unless a target found is named
      `binary_class`, whose file would overwrite it. */
  lemma {:induction false} DecoyClassFile(folders: map<string, Folder>, natives: seq<string>, decoys: seq<string>,
                                          features: seq<string>, targets: seq<(string, string)>,
                                          grep: (string, string) -> Option<string>, isFloat: string -> bool, j: nat)
    requires CreateData(folders, natives, decoys, features, targets, grep, isFloat).error.None?
    requires j < |decoys|
    requires forall s :: 0 <= s < |targets| && Found(MolNameOf(decoys[j]), targets, s, grep, isFloat) ==>
                         targets[s].0 != "binary_class"
    ensures var r, mol := CreateData(folders, natives, decoys, features, targets, grep, isFloat), MolNameOf(decoys[j]);
      mol in r.folders && "binary_class.dat" in r.folders[mol].targets &&
      r.folders[mol].targets["binary_class.dat"] == "0\n"
  {
    CreateDataSpec(folders, natives, decoys, features, targets, grep, isFloat);
    CreatedNames(folders, natives, decoys, features, targets, grep, isFloat);
    var mol := MolNameOf(decoys[j]);
    var p := Planned(folders, natives, 1, features, targets, grep, isFloat);
    PlannedValue(p, decoys, 0, features, targets, grep, isFloat, j);
    ClassTexts();
    ClassFileKept(map[ClassFile := ClassText(0)], mol, targets, grep, isFloat);
  }
}
