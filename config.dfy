/**
 * The recursive configuration merge (`deep_update`, nested in
 * `load_config_from_excel`): the values read from the workbook are laid over
 * the default configuration. Where both sides hold a dictionary under the same
 * key the merge recurses; everywhere else the update's value replaces the
 * default's.
 */
module Config {
  import opened Numeric

  /** A configuration value: a number, a text, a list, or a nested dictionary. */
  datatype Value =
    | Num(x: real)
    | Text(s: string)
    | List(items: seq<Value>)
    | Dict(m: map<string, Value>)

  /** The dictionary `deep_update(d, u)` leaves in `d`. */
  function Merged(d: map<string, Value>, u: map<string, Value>): map<string, Value>
    decreases Dict(u)
  {
    map k | k in d.Keys + u.Keys ::
      if k in u then
        (if u[k].Dict? && k in d && d[k].Dict? then Dict(Merged(d[k].m, u[k].m)) else u[k])
      else d[k]
  }

  /** The value the merge gives key `k` of the update, against the default dictionary `d`. */
  function MergedAt(d: map<string, Value>, u: map<string, Value>, k: string): Value
    requires k in u
    decreases Dict(u), 0
  {
    if u[k].Dict? && k in d && d[k].Dict? then Dict(Merged(d[k].m, u[k].m)) else u[k]
  }

  /** `r` is `d` with the keys of `u` outside `todo` merged in. */
  predicate MergedExcept(d: map<string, Value>, u: map<string, Value>, todo: set<string>, r: map<string, Value>) {
    && todo <= u.Keys
    && r.Keys == d.Keys + (u.Keys - todo)
    && forall j :: j in r ==> r[j] == if j in u && j !in todo then MergedAt(d, u, j) else d[j]
  }

  lemma MergedExceptStep(d: map<string, Value>, u: map<string, Value>, todo: set<string>, r: map<string, Value>,
                         k: string)
    requires MergedExcept(d, u, todo, r) && k in todo
    ensures k in r <==> k in d
    ensures k in r ==> r[k] == d[k]
    ensures MergedExcept(d, u, todo - {k}, r[k := MergedAt(d, u, k)])
  {
  }

  lemma MergedExceptDone(d: map<string, Value>, u: map<string, Value>, r: map<string, Value>)
    requires MergedExcept(d, u, {}, r)
    ensures r == Merged(d, u)
  {
    var merged := Merged(d, u);
    assert r.Keys == merged.Keys;
    forall j | j in r
      ensures r[j] == merged[j]
    {
    }
  }

  /**
   * `deep_update(d, u)`: walks the keys of `u`; a dictionary meeting a
   * dictionary is merged recursively, any other value overwrites.
   */
  method DeepUpdate(d: map<string, Value>, u: map<string, Value>) returns (r: map<string, Value>)
    decreases Dict(u)
    ensures r == Merged(d, u)
  {
    r := d;
    var todo := u.Keys;
    while todo != {}
      invariant MergedExcept(d, u, todo, r)
      decreases |todo|
    {
      var k :| k in todo;
      MergedExceptStep(d, u, todo, r, k);
      var v := u[k];
      var nv: Value;
      if v.Dict? && k in r && r[k].Dict? {
        var sub := DeepUpdate(r[k].m, v.m);
        nv := Dict(sub);
      } else {
        nv := v;
      }
      r := r[k := nv];
      todo := todo - {k};
    }
    MergedExceptDone(d, u, r);
  }

  // ---------------------------------------------------------------------------
  // What the merge guarantees
  // ---------------------------------------------------------------------------

  /** The merged dictionary has exactly the keys of both sides. */
  lemma MergedKeys(d: map<string, Value>, u: map<string, Value>)
    ensures Merged(d, u).Keys == d.Keys + u.Keys
    ensures forall k :: k in d && k !in u ==> Merged(d, u)[k] == d[k]
  {
  }

  /** The value found by following `path` through nested dictionaries, if any. */
  function Get(m: map<string, Value>, path: seq<string>): Option<Value>
    requires |path| >= 1
    decreases |path|
  {
    if path[0] !in m then None
    else if |path| == 1 then Some(m[path[0]])
    else if m[path[0]].Dict? then Get(m[path[0]].m, path[1..])
    else None
  }

  /** Every non-dictionary value of the update, at any depth, is in the result. */
  lemma {:induction false} UpdateLeavesWin(d: map<string, Value>, u: map<string, Value>, path: seq<string>)
    requires |path| >= 1
    requires Get(u, path).Some? && !Get(u, path).value.Dict?
    decreases |path|
    ensures Get(Merged(d, u), path) == Get(u, path)
  {
    var k := path[0];
    if |path| > 1 {
      if k in d && d[k].Dict? {
        UpdateLeavesWin(d[k].m, u[k].m, path[1..]);
      }
    }
  }

  /** The update does not reach `path`: some key along it is absent from the update. */
  predicate Untouched(u: map<string, Value>, path: seq<string>)
    requires |path| >= 1
    decreases |path|
  {
    || path[0] !in u
    || (|path| > 1 && u[path[0]].Dict? && Untouched(u[path[0]].m, path[1..]))
  }

  /** A default value at a path the update does not reach survives the merge. */
  lemma {:induction false} DefaultsSurvive(d: map<string, Value>, u: map<string, Value>, path: seq<string>)
    requires |path| >= 1
    requires Get(d, path).Some? && Untouched(u, path)
    decreases |path|
    ensures Get(Merged(d, u), path) == Get(d, path)
  {
    var k := path[0];
    if k in u {
      DefaultsSurvive(d[k].m, u[k].m, path[1..]);
    }
  }

  /** Merging the same update twice is the same as merging it once. */
  lemma {:induction false} MergeIdempotent(d: map<string, Value>, u: map<string, Value>)
    decreases Dict(u)
    ensures Merged(Merged(d, u), u) == Merged(d, u)
  {
    var once := Merged(d, u);
    var twice := Merged(once, u);
    forall k | k in twice.Keys
      ensures twice[k] == once[k]
    {
      if k in u && u[k].Dict? {
        if k in d && d[k].Dict? {
          MergeIdempotent(d[k].m, u[k].m);
        } else {
          MergeSelf(u[k].m);
        }
      }
    }
  }

  /** A dictionary merged into itself is unchanged. */
  lemma {:induction false} MergeSelf(d: map<string, Value>)
    decreases Dict(d)
    ensures Merged(d, d) == d
  {
    var r := Merged(d, d);
    forall k | k in r.Keys
      ensures r[k] == d[k]
    {
      if d[k].Dict? {
        MergeSelf(d[k].m);
      }
    }
  }

  /** An empty update leaves the defaults as they are; an empty default takes the update whole. */
  lemma MergeWithEmpty(d: map<string, Value>, u: map<string, Value>)
    ensures Merged(d, map[]) == d
    ensures Merged(map[], u) == u
  {
  }
}
