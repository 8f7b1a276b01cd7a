/** The defaults `map_features` fills into the caller's grid description
    before mapping anything (deeprank/generate/DataGenerator.py, lines
    415-439). The description is a dictionary the method updates in place,
    so it is modelled as the field of a class; what the database
    contributes (its molecule names, in the order the file lists them, and
    the feature names stored below each) is passed in. */
module GridDefaults {
  import opened Wrappers

  /** The values the defaulting step reads or writes. Values the caller
      supplies and the step never inspects are `Given`. */
  datatype Value = NoneValue | Str(s: string) | StrList(items: seq<string>) | Given(tag: int)

  /** The exceptions the defaulting step raises. */
  datatype GridError =
    | NoMolecules            // `IndexError`: the database holds no molecule
    | NoFeatureGroup(mol: string)  // `KeyError`: the first molecule has no features group
    | ResidueFeature         // `ValueError`: residue features are not supported

  /** The keys that default to `None` first, in the source's order. */
  const GridKeys: seq<string> := ["number_of_points", "resolution"]

  /** The mode keys that default to `'sum'`, in the source's order. */
  const ModeKeys: seq<string> := ["atomic_densities_mode", "atomic_feature_mode", "residue_feature_mode"]

  /** The description after defaulting, and the exception that stopped it,
      if any; an exception leaves the updates made so far in place. */
  datatype Filled = Filled(entries: map<string, Value>, error: Option<GridError>)

  /** `if k not in d: d[k] = v`. */
  function SetDefault(d: map<string, Value>, k: string, v: Value): map<string, Value> {
    if k in d then d else d[k := v]
  }

  /** `SetDefault` for each key in turn. */
  function SetDefaults(d: map<string, Value>, keys: seq<string>, v: Value): map<string, Value>
    decreases |keys|
  {
    if keys == [] then d
    else SetDefault(SetDefaults(d, keys[..|keys| - 1], v), keys[|keys| - 1], v)
  }

  /** The atomic features to map: the caller's, or else every feature
      stored for the first molecule of the database. */
  function AtomicFeature(d: map<string, Value>, mols: seq<string>, features: map<string, seq<string>>):
    (r: Result<map<string, Value>, GridError>)
  {
    if "atomic_feature" in d then Ok(d)
    else if mols == [] then Err(NoMolecules)
    else if mols[0] !in features then Err(NoFeatureGroup(mols[0]))
    else Ok(d["atomic_feature" := StrList(features[mols[0]])])
  }

  /** The residue-feature check and the remaining defaults. */
  function AfterResidue(d: map<string, Value>): (r: Filled) {
    if "residue_feature" in d then Filled(d, Some(ResidueFeature))
    else
      var e := SetDefault(d["residue_feature" := NoneValue], "atomic_densities", NoneValue);
      Filled(SetDefaults(e, ModeKeys, Str("sum")), None)
  }

  /** Lines 415-439: the defaulting step as a whole. */
  function MapDefaults(d: map<string, Value>, mols: seq<string>, features: map<string, seq<string>>): (r: Filled) {
    var g := SetDefaults(d, GridKeys, NoneValue);
    match AtomicFeature(g, mols, features)
    case Err(e) => Filled(g, Some(e))
    case Ok(a) => AfterResidue(a)
  }

  /** Every key the defaulting step can write. */
  predicate Defaulted(k: string) {
    k in GridKeys || k == "atomic_feature" || k == "residue_feature" || k == "atomic_densities" || k in ModeKeys
  }

  // ---------------------------------------------------------------------
  // Properties
  // ---------------------------------------------------------------------

  /** Defaulting keys never changes a value already present, and adds
      exactly the keys that were missing, with the default value. */
  lemma {:induction false} SetDefaultsSpec(d: map<string, Value>, keys: seq<string>, v: Value, k: string)
    ensures k in SetDefaults(d, keys, v) <==> k in d || k in keys
    ensures k in d ==> SetDefaults(d, keys, v)[k] == d[k]
    ensures k !in d && k in keys ==> SetDefaults(d, keys, v)[k] == v
    decreases |keys|
  {
    if keys != [] {
      var init := keys[..|keys| - 1];
      SetDefaultsSpec(d, init, v, k);
      assert keys == init + [keys[|keys| - 1]];
    }
  }

  /** The step raises exactly when the features to map cannot be listed or
      a residue feature is requested; the listing failure comes first. */
  lemma {:induction false} MapDefaultsError(d: map<string, Value>, mols: seq<string>, features: map<string, seq<string>>)
    ensures var r := MapDefaults(d, mols, features);
      (r.error == Some(NoMolecules) <==> "atomic_feature" !in d && mols == []) &&
      (r.error == Some(NoFeatureGroup(if mols == [] then "" else mols[0])) <==>
         "atomic_feature" !in d && mols != [] && mols[0] !in features) &&
      (r.error == Some(ResidueFeature) <==>
         "residue_feature" in d && ("atomic_feature" in d || (mols != [] && mols[0] in features))) &&
      (r.error.None? <==>
         "residue_feature" !in d && ("atomic_feature" in d || (mols != [] && mols[0] in features)))
  {
    SetDefaultsSpec(d, GridKeys, NoneValue, "atomic_feature");
    SetDefaultsSpec(d, GridKeys, NoneValue, "residue_feature");
  }

  /** Whether it raises or not, the step keeps every value the caller gave
      and writes only the keys it defaults. */
  lemma {:induction false} MapDefaultsKeeps(d: map<string, Value>, mols: seq<string>,
                                            features: map<string, seq<string>>, k: string)
    ensures k in d ==> k in MapDefaults(d, mols, features).entries &&
                       MapDefaults(d, mols, features).entries[k] == d[k]
    ensures k in MapDefaults(d, mols, features).entries ==> k in d || Defaulted(k)
  {
    var g := SetDefaults(d, GridKeys, NoneValue);
    SetDefaultsSpec(d, GridKeys, NoneValue, k);
    if AtomicFeature(g, mols, features).Ok? {
      var a := AtomicFeature(g, mols, features).value;
      if "residue_feature" !in a {
        var e := SetDefault(a["residue_feature" := NoneValue], "atomic_densities", NoneValue);
        SetDefaultsSpec(e, ModeKeys, Str("sum"), k);
        SetDefaultsSpec(d, GridKeys, NoneValue, "residue_feature");
      }
    }
  }

  /** After a step without exception, every key it defaults is present:
      the grid keys and atomic densities as `None` unless given, the
      residue feature as `None`, the modes as `'sum'` unless given, and the
      atomic features, unless given, those of the first molecule. */
  lemma {:induction false} MapDefaultsComplete(d: map<string, Value>, mols: seq<string>,
                                               features: map<string, seq<string>>, k: string)
    requires MapDefaults(d, mols, features).error.None?
    ensures Defaulted(k) ==> k in MapDefaults(d, mols, features).entries
    ensures "residue_feature" in MapDefaults(d, mols, features).entries &&
            MapDefaults(d, mols, features).entries["residue_feature"] == NoneValue
    ensures k !in d && (k in GridKeys || k == "atomic_densities") ==>
              k in MapDefaults(d, mols, features).entries &&
              MapDefaults(d, mols, features).entries[k] == NoneValue
    ensures k !in d && k in ModeKeys ==>
              k in MapDefaults(d, mols, features).entries &&
              MapDefaults(d, mols, features).entries[k] == Str("sum")
    ensures "atomic_feature" !in d ==>
              mols != [] && mols[0] in features &&
              "atomic_feature" in MapDefaults(d, mols, features).entries &&
              MapDefaults(d, mols, features).entries["atomic_feature"] == StrList(features[mols[0]])
  {
    var g := SetDefaults(d, GridKeys, NoneValue);
    SetDefaultsSpec(d, GridKeys, NoneValue, k);
    SetDefaultsSpec(d, GridKeys, NoneValue, "atomic_feature");
    var a := AtomicFeature(g, mols, features).value;
    AfterResidueSpec(a, k);
    AfterResidueSpec(a, "atomic_feature");
  }

  /** The last part of the step, from a dictionary without a residue
      feature: the residue feature set to `None`, the atomic densities and
      the modes defaulted, everything else kept. */
  lemma {:induction false} AfterResidueSpec(a: map<string, Value>, k: string)
    requires "residue_feature" !in a
    ensures AfterResidue(a).error.None?
    ensures "residue_feature" in AfterResidue(a).entries &&
            AfterResidue(a).entries["residue_feature"] == NoneValue
    ensures k in AfterResidue(a).entries <==>
              k in a || k == "residue_feature" || k == "atomic_densities" || k in ModeKeys
    ensures k in a ==> AfterResidue(a).entries[k] == a[k]
    ensures k !in a && k == "atomic_densities" ==> AfterResidue(a).entries[k] == NoneValue
    ensures k !in a && k in ModeKeys ==> AfterResidue(a).entries[k] == Str("sum")
  {
    var e := SetDefault(a["residue_feature" := NoneValue], "atomic_densities", NoneValue);
    SetDefaultsSpec(e, ModeKeys, Str("sum"), k);
    SetDefaultsSpec(e, ModeKeys, Str("sum"), "residue_feature");
    assert "atomic_densities" !in ModeKeys;
  }

  /** The step writes `None` for the residue feature into the caller's
      dictionary, so running it again on the same dictionary raises. */
  lemma {:induction false} MapDefaultsTwice(d: map<string, Value>, mols: seq<string>, features: map<string, seq<string>>)
    requires MapDefaults(d, mols, features).error.None?
    ensures MapDefaults(MapDefaults(d, mols, features).entries, mols, features).error == Some(ResidueFeature)
  {
    var r := MapDefaults(d, mols, features).entries;
    MapDefaultsComplete(d, mols, features, "atomic_feature");
    MapDefaultsError(r, mols, features);
  }

  // ---------------------------------------------------------------------
  // The dictionary updated in place
  // ---------------------------------------------------------------------

  /** The caller's `grid_info` dictionary. */
  class GridInfo {
    var entries: map<string, Value>

    constructor (entries: map<string, Value>)
      ensures this.entries == entries
    {
      this.entries := entries;
    }

    /** `for k in keys: if k not in grid_info: grid_info[k] = v`. */
    method SetDefaultsInPlace(keys: seq<string>, v: Value)
      modifies this
      ensures entries == SetDefaults(old(entries), keys, v)
    {
      for i := 0 to |keys|
        invariant entries == SetDefaults(old(entries), keys[..i], v)
      {
        assert keys[..i + 1][..i] == keys[..i];
        if keys[i] !in entries {
          entries := entries[keys[i] := v];
        }
      }
      assert keys[..|keys|] == keys;
    }

    /** Lines 415-439 on the dictionary: the updates, in the source's
        order, up to the first exception. */
    method MapFeaturesDefaults(mols: seq<string>, features: map<string, seq<string>>)
      returns (error: Option<GridError>)
      modifies this
      ensures Filled(entries, error) == MapDefaults(old(entries), mols, features)
    {
      SetDefaultsInPlace(GridKeys, NoneValue);
      if "atomic_feature" !in entries {
        if mols == [] {
          return Some(NoMolecules);
        }
        var mol := mols[0];
        if mol !in features {
          return Some(NoFeatureGroup(mol));
        }
        entries := entries["atomic_feature" := StrList(features[mol])];
      }
      if "residue_feature" in entries {
        return Some(ResidueFeature);
      }
      entries := entries["residue_feature" := NoneValue];
      if "atomic_densities" !in entries {
        entries := entries["atomic_densities" := NoneValue];
      }
      SetDefaultsInPlace(ModeKeys, Str("sum"));
      return None;
    }
  }
}
