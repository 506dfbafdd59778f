/**
 * The per-name candidate columns of NTagEventInfo (iCandidateVarMap and
 * fCandidateVarMap): one column per feature name, onto which each capture
 * candidate pushes the value it has under that name. The maps of the source
 * hold heap-allocated vectors; here they hold the vectors' values.
 */
module CandidateColumns {

  /** The values under `name` of the maps in `ms` that have it, in order. */
  function Column<V>(ms: seq<map<string, V>>, name: string): (col: seq<V>)
    ensures |col| <= |ms|
  {
    if ms == [] then []
    else Column(ms[..|ms| - 1], name) + (if name in ms[|ms| - 1] then [ms[|ms| - 1][name]] else [])
  }

  /** When every map has the name, its column holds one value per map, in map order. */
  lemma {:induction false} UniformColumn<V>(ms: seq<map<string, V>>, name: string)
    requires forall j :: 0 <= j < |ms| ==> name in ms[j]
    ensures |Column(ms, name)| == |ms|
    ensures forall j :: 0 <= j < |ms| ==> Column(ms, name)[j] == ms[j][name]
  {
    if ms != [] {
      UniformColumn(ms[..|ms| - 1], name);
    }
  }

  /**
   * The columns after one candidate's values are pushed: the column of every
   * name the candidate has grows by its value, every other column is kept.
   */
  function Push<V>(cols: map<string, seq<V>>, vars: map<string, V>): (r: map<string, seq<V>>)
    requires vars.Keys <= cols.Keys
    ensures r.Keys == cols.Keys
    ensures forall k :: k in cols ==>
      |r[k]| == |cols[k]| + (if k in vars then 1 else 0) && r[k][..|cols[k]|] == cols[k]
    ensures forall k :: k in vars ==> r[k][|cols[k]|] == vars[k]
  {
    map k | k in cols :: if k in vars then cols[k] + [vars[k]] else cols[k]
  }

  /** The columns after the values of every map of `ms` have been pushed in turn. */
  function PushAll<V>(cols: map<string, seq<V>>, ms: seq<map<string, V>>): (r: map<string, seq<V>>)
    requires forall j :: 0 <= j < |ms| ==> ms[j].Keys <= cols.Keys
    ensures r.Keys == cols.Keys
  {
    if ms == [] then cols else Push(PushAll(cols, ms[..|ms| - 1]), ms[|ms| - 1])
  }

  /** The columns after the first j + 1 maps are those after the first j with map j pushed. */
  lemma PushAllNext<V>(cols: map<string, seq<V>>, ms: seq<map<string, V>>, j: nat)
    requires forall j :: 0 <= j < |ms| ==> ms[j].Keys <= cols.Keys
    requires j < |ms|
    ensures PushAll(cols, ms[..j + 1]) == Push(PushAll(cols, ms[..j]), ms[j])
  {
    assert ms[..j + 1][..j] == ms[..j];
  }

  /** Pushing the maps in turn appends to each column exactly the values its name has in them. */
  lemma {:induction false} PushAllAppendsColumn<V>(cols: map<string, seq<V>>, ms: seq<map<string, V>>, name: string)
    requires forall j :: 0 <= j < |ms| ==> ms[j].Keys <= cols.Keys
    requires name in cols
    ensures PushAll(cols, ms)[name] == cols[name] + Column(ms, name)
  {
    if ms != [] {
      var init := ms[..|ms| - 1];
      var last := ms[|ms| - 1];
      PushAllAppendsColumn(cols, init, name);
      var prev := PushAll(cols, init);
      var added := if name in last then [last[name]] else [];
      assert Column(ms, name) == Column(init, name) + added;
      assert PushAll(cols, ms) == Push(prev, last);
      assert Push(prev, last)[name] == prev[name] + added;
      assert prev[name] + added == cols[name] + (Column(init, name) + added);
    }
  }

  /** The columns with every name of `names` added or emptied; the others are kept. */
  function Reset<V>(cols: map<string, seq<V>>, names: set<string>): (r: map<string, seq<V>>)
    ensures r.Keys == cols.Keys + names
    ensures forall k :: k in r ==> r[k] == if k in names then [] else cols[k]
  {
    map k | k in cols.Keys + names :: if k in names then [] else cols[k]
  }

  /**
   * From emptied columns, maps that all have exactly the column names give
   * every column one value per map, the j-th from the j-th map.
   */
  lemma ColumnsFromEmpty<V>(cols: map<string, seq<V>>, ms: seq<map<string, V>>, name: string)
    requires forall k :: k in cols ==> cols[k] == []
    requires forall j :: 0 <= j < |ms| ==> ms[j].Keys == cols.Keys
    requires name in cols
    ensures |PushAll(cols, ms)[name]| == |ms|
    ensures forall j :: 0 <= j < |ms| ==> PushAll(cols, ms)[name][j] == ms[j][name]
  {
    PushAllAppendsColumn(cols, ms, name);
    UniformColumn(ms, name);
  }

  /** The loop that pushes one candidate's values onto the columns. */
  method PushValues<V>(cols: map<string, seq<V>>, vars: map<string, V>) returns (r: map<string, seq<V>>)
    requires vars.Keys <= cols.Keys
    ensures r == Push(cols, vars)
  {
    r := cols;
    var todo := vars.Keys;
    while todo != {}
      invariant todo <= vars.Keys
      invariant r.Keys == cols.Keys
      invariant forall k :: k in r ==>
        r[k] == if k in vars && k !in todo then cols[k] + [vars[k]] else cols[k]
      decreases todo
    {
      var k :| k in todo;
      r := r[k := r[k] + [vars[k]]];
      todo := todo - {k};
    }
    assert forall k :: k in r ==> r[k] == Push(cols, vars)[k];
  }

  /**
   * The loop over the candidates: the j-th integer and float maps are pushed
   * onto their columns in turn.
   */
  method PushEach<I, F>(iCols: map<string, seq<I>>, fCols: map<string, seq<F>>,
                        iVars: seq<map<string, I>>, fVars: seq<map<string, F>>)
      returns (iR: map<string, seq<I>>, fR: map<string, seq<F>>)
    requires |iVars| == |fVars|
    requires forall j :: 0 <= j < |iVars| ==> iVars[j].Keys <= iCols.Keys
    requires forall j :: 0 <= j < |fVars| ==> fVars[j].Keys <= fCols.Keys
    ensures iR == PushAll(iCols, iVars) && fR == PushAll(fCols, fVars)
  {
    iR, fR := iCols, fCols;
    for j := 0 to |iVars|
      invariant iR == PushAll(iCols, iVars[..j])
      invariant fR == PushAll(fCols, fVars[..j])
    {
      PushAllNext(iCols, iVars, j);
      PushAllNext(fCols, fVars, j);
      iR := PushValues(iR, iVars[j]);
      fR := PushValues(fR, fVars[j]);
    }
    assert iVars[..|iVars|] == iVars && fVars[..|fVars|] == fVars;
  }

  /** The loop that adds or empties the columns of the given names. */
  method ResetColumns<V>(cols: map<string, seq<V>>, names: set<string>) returns (r: map<string, seq<V>>)
    ensures r == Reset(cols, names)
  {
    r := cols;
    var todo := names;
    while todo != {}
      invariant todo <= names
      invariant r.Keys == cols.Keys + (names - todo)
      invariant forall k :: k in r ==> r[k] == if k in names && k !in todo then [] else cols[k]
      decreases todo
    {
      var k :| k in todo;
      r := r[k := []];
      todo := todo - {k};
    }
    assert forall k :: k in r ==> r[k] == Reset(cols, names)[k];
  }
}
