/** The hierarchical database the generator writes, seen one level down:
    each top-level group (one per conformation or replica) holds a set of
    named members (`complex`, `native`, `features`, `targets`,
    `grid_points`, `mapped_features`, ...). Member contents are not part of
    this model. */
module Store {

  /** Group name to the names of the members it holds. */
  type Groups = map<string, set<string>>

  /** The members of group `g`, none when there is no such group. */
  function Members(s: Groups, g: string): set<string> {
    if g in s then s[g] else {}
  }

  /** `require_group(g)`: the group, created empty when missing. */
  function WithGroup(s: Groups, g: string): (r: Groups)
  {
    if g in s then s else s[g := {}]
  }

  /** Group `g` with member `key` added. */
  function WithMember(s: Groups, g: string, key: string): (r: Groups)
  {
    s[g := Members(s, g) + {key}]
  }

  /** Which members `remove` deletes.  `features`, `grid_points` and
      `mapped_features` go when their flag is set; `complex` and `native`
      go together, when the `pdb` flag is set and the group holds both. */
  datatype RemoveFlags = RemoveFlags(feature: bool, pdb: bool, points: bool, grid: bool)

  /** The flags `remove` takes when called without arguments. */
  const DefaultRemove := RemoveFlags(true, true, true, false)

  /** Member `k` of a group holding `g` is deleted under flags `f`. */
  predicate Removed(k: string, g: set<string>, f: RemoveFlags) {
    (k == "features" && f.feature) ||
    ((k == "complex" || k == "native") && f.pdb && "complex" in g && "native" in g) ||
    (k == "grid_points" && f.points) ||
    (k == "mapped_features" && f.grid)
  }

  /** The members a group keeps. */
  function Cleaned(g: set<string>, f: RemoveFlags): set<string> {
    set k | k in g && !Removed(k, g, f)
  }

  /** Every group after `remove`; the groups themselves stay. */
  function RemoveAll(s: Groups, f: RemoveFlags): (r: Groups)
    ensures r.Keys == s.Keys
  {
    map name | name in s :: Cleaned(s[name], f)
  }

  /** `complex` and `native` are deleted as a pair: after `remove` a group
      that held both holds both or neither. */
  lemma {:induction false} RemovePair(g: set<string>, f: RemoveFlags)
    requires "complex" in g && "native" in g
    ensures ("complex" in Cleaned(g, f)) <==> ("native" in Cleaned(g, f))
    ensures ("complex" in Cleaned(g, f)) <==> !f.pdb
  {
    assert Removed("complex", g, f) <==> f.pdb;
    assert Removed("native", g, f) <==> f.pdb;
  }

  /** A lone `complex` or `native` is never deleted. */
  lemma {:induction false} RemoveLonePdb(g: set<string>, f: RemoveFlags, k: string)
    requires k == "complex" || k == "native"
    requires k in g && !("complex" in g && "native" in g)
    ensures k in Cleaned(g, f)
  {
    assert !Removed(k, g, f);
  }

  /** Members other than the five named ones are never deleted, and nothing
      is added. */
  lemma {:induction false} RemoveOthers(g: set<string>, f: RemoveFlags, k: string)
    requires k !in {"features", "complex", "native", "grid_points", "mapped_features"}
    ensures k in Cleaned(g, f) <==> k in g
    ensures Cleaned(g, f) <= g
  {
    assert !Removed(k, g, f);
  }

  /** Removing twice removes no more than removing once. */
  lemma {:induction false} RemoveIdempotent(s: Groups, f: RemoveFlags)
    ensures RemoveAll(RemoveAll(s, f), f) == RemoveAll(s, f)
  {
    var once := RemoveAll(s, f);
    forall name | name in s ensures Cleaned(once[name], f) == once[name] {
      var g, h := s[name], once[name];
      forall k | k in h ensures !Removed(k, h, f) {
        assert !Removed(k, g, f);
      }
    }
  }

  /** The deletions `remove` makes in one group, in the source's order. */
  method CleanGroup(g0: set<string>, flags: RemoveFlags) returns (g: set<string>)
    ensures g == Cleaned(g0, flags)
  {
    g := g0;
    if flags.feature && "features" in g {
      g := g - {"features"};
    }
    if flags.pdb && "complex" in g && "native" in g {
      g := g - {"complex"};
      g := g - {"native"};
    }
    if flags.points && "grid_points" in g {
      g := g - {"grid_points"};
    }
    if flags.grid && "mapped_features" in g {
      g := g - {"mapped_features"};
    }
  }

  /** The store the generator writes to, as the state the source updates in
      place through its file handle. */
  class Database {
    var groups: Groups

    /** Opening the file with mode `'w'`: an empty store. */
    constructor ()
      ensures groups == map[]
    {
      groups := map[];
    }

    /** `require_group(g)` at the top level. */
    method RequireGroup(g: string)
      modifies this
      ensures groups == WithGroup(old(groups), g)
    {
      if g !in groups {
        groups := groups[g := {}];
      }
    }

    /** `require_group(key)` inside group `g`: the subgroup is kept when it
        exists. */
    method RequireMember(g: string, key: string)
      modifies this
      ensures groups == WithMember(old(groups), g, key)
    {
      groups := groups[g := Members(groups, g) + {key}];
    }

    /** `create_dataset(key)` inside group `g`: refused, with nothing
        changed, when the group already holds `key`. */
    method CreateDataset(g: string, key: string) returns (created: bool)
      modifies this
      ensures created <==> key !in Members(old(groups), g)
      ensures created ==> groups == WithMember(old(groups), g, key)
      ensures !created ==> groups == old(groups)
    {
      if key in Members(groups, g) {
        return false;
      }
      groups := groups[g := Members(groups, g) + {key}];
      return true;
    }

    /** `remove(feature, pdb, points, grid)`: each group in turn loses the
        members its flags select. */
    method Remove(flags: RemoveFlags)
      modifies this
      ensures groups == RemoveAll(old(groups), flags)
    {
      var todo := groups.Keys;
      while todo != {}
        invariant todo <= groups.Keys == old(groups).Keys
        invariant forall name :: name in groups && name !in todo ==>
                    groups[name] == Cleaned(old(groups)[name], flags)
        invariant forall name :: name in todo ==> groups[name] == old(groups)[name]
        decreases todo
      {
        var name :| name in todo;
        var g := CleanGroup(groups[name], flags);
        groups := groups[name := g];
        todo := todo - {name};
      }
    }
  }
}
