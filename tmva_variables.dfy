/**
 * NTagTMVAVariables: the feature-name schema fed to the classifier. Two
 * namespaces of named values, integer and float, each with an event vector
 * per name that holds one value per capture candidate. Every integer name is
 * also a float name, and for such a name the float value is taken from the
 * integer one.
 *
 * The maps of the source hold heap-allocated vectors; here they hold the
 * vectors' values. The order in which std::map visits its keys depends on
 * the key type, declared in NTagTMVAVariables.hh, which is not part of this
 * model: the loops visit the names in any order, and the results are stated
 * as sets of names or as maps.
 */
module TMVAVariables {

  /** The integer feature names Clear registers. */
  function IntNames(): set<string> {
    set name | name in ["N10", "N200", "N50"]
  }

  /** The 20 float feature names Clear registers besides the integer ones. */
  function FloatNames(): set<string> {
    set name | name in ["dt", "sumQ", "spread", "trmsold", "beta1", "beta2", "beta3", "beta4", "beta5",
     "prompt_nfit", "tbsenergy", "tbswall", "tbsgood", "tbsdirks", "tbspatlik", "tbsovaq",
     "prompt_bonsai", "nwall", "trms40", "bonsai_nfit"]
  }

  /**
   * Clear's effect on maps whose names lie within the schema: exactly the
   * schema's names, every value 0 and every event vector empty.
   */
  lemma ClearedFromBounded(ints: set<string>, floats: set<string>,
                           i0: map<string, int>, ie0: map<string, seq<int>>,
                           f0: map<string, real>, fe0: map<string, seq<real>>,
                           i1: map<string, int>, ie1: map<string, seq<int>>,
                           f1: map<string, real>, fe1: map<string, seq<real>>)
    requires i0.Keys <= ints && ie0.Keys <= ints
    requires f0.Keys <= ints + floats && fe0.Keys <= ints + floats
    requires i1.Keys == i0.Keys + ints
    requires forall k :: k in i1 ==> i1[k] == if k in ints then 0 else i0[k]
    requires ie1.Keys == ie0.Keys + i1.Keys
    requires forall k :: k in ie1 ==> ie1[k] == if k in i1 then [] else ie0[k]
    requires f1.Keys == f0.Keys + i1.Keys + floats
    requires forall k :: k in f1 ==> f1[k] == if k in i1 || k in floats then 0.0 else f0[k]
    requires fe1.Keys == fe0.Keys + f1.Keys
    requires forall k :: k in f1 ==> fe1[k] == []
    ensures i1.Keys == ints && ie1.Keys == ints
    ensures f1.Keys == ints + floats && fe1.Keys == ints + floats
    ensures forall k :: k in i1 ==> i1[k] == 0
    ensures forall k :: k in f1 ==> f1[k] == 0.0
    ensures forall k :: k in ie1 ==> ie1[k] == []
    ensures forall k :: k in fe1 ==> fe1[k] == []
  {
  }

  class NTagTMVAVariables {
    var iVariableMap: map<string, int>
    var fVariableMap: map<string, real>
    var iEventVectorMap: map<string, seq<int>>
    var fEventVectorMap: map<string, seq<real>>

    /** The names in use are exactly the schema's, with event vectors for each. */
    predicate Valid()
      reads this
    {
      && iVariableMap.Keys == IntNames()
      && iEventVectorMap.Keys == IntNames()
      && fVariableMap.Keys == IntNames() + FloatNames()
      && fEventVectorMap.Keys == IntNames() + FloatNames()
    }

    /** No name outside the schema is in use (true of a fresh object and of a valid one). */
    predicate SchemaBounded()
      reads this
    {
      && iVariableMap.Keys <= IntNames()
      && iEventVectorMap.Keys <= IntNames()
      && fVariableMap.Keys <= IntNames() + FloatNames()
      && fEventVectorMap.Keys <= IntNames() + FloatNames()
    }

    /** Every value is 0 and every event vector is empty. */
    predicate Cleared()
      reads this
    {
      && (forall k :: k in iVariableMap ==> iVariableMap[k] == 0)
      && (forall k :: k in fVariableMap ==> fVariableMap[k] == 0.0)
      && (forall k :: k in iEventVectorMap ==> iEventVectorMap[k] == [])
      && (forall k :: k in fEventVectorMap ==> fEventVectorMap[k] == [])
    }

    constructor()
      ensures Valid() && Cleared()
    {
      iVariableMap := map[];
      fVariableMap := map[];
      iEventVectorMap := map[];
      fEventVectorMap := map[];
      new;
      Clear();
    }

    /**
     * Clear: N10, N200 and N50 are set to 0; every integer name gets an empty
     * event vector and a float value 0; the 20 float features are set to 0;
     * every float name gets an empty event vector. Names outside the schema
     * are never added, so from a schema-bounded state the result is exactly
     * the cleared schema.
     */
    method Clear()
      modifies this
      ensures iVariableMap.Keys == old(iVariableMap).Keys + IntNames()
      ensures forall k :: k in iVariableMap ==> iVariableMap[k] == if k in IntNames() then 0 else old(iVariableMap)[k]
      ensures iEventVectorMap.Keys == old(iEventVectorMap).Keys + iVariableMap.Keys
      ensures forall k :: k in iEventVectorMap ==>
        iEventVectorMap[k] == if k in iVariableMap then [] else old(iEventVectorMap)[k]
      ensures fVariableMap.Keys == old(fVariableMap).Keys + iVariableMap.Keys + FloatNames()
      ensures forall k :: k in fVariableMap ==>
        fVariableMap[k] == if k in iVariableMap || k in FloatNames() then 0.0 else old(fVariableMap)[k]
      ensures fEventVectorMap.Keys == old(fEventVectorMap).Keys + fVariableMap.Keys
      ensures forall k :: k in fVariableMap ==> fEventVectorMap[k] == []
      ensures old(SchemaBounded()) ==> Valid() && Cleared()
    {
      ghost var i0, ie0, f0, fe0 := iVariableMap, iEventVectorMap, fVariableMap, fEventVectorMap;
      ClearIntVariables();
      ClearFloatVariables();
      if i0.Keys <= IntNames() && ie0.Keys <= IntNames()
         && f0.Keys <= IntNames() + FloatNames() && fe0.Keys <= IntNames() + FloatNames() {
        ClearedFromBounded(IntNames(), FloatNames(), i0, ie0, f0, fe0, iVariableMap, iEventVectorMap, fVariableMap, fEventVectorMap);
      }
    }

    /** The integer half of Clear: the three integer names and their mirrors. */
    method ClearIntVariables()
      modifies this`iVariableMap, this`iEventVectorMap, this`fVariableMap
      ensures iVariableMap.Keys == old(iVariableMap).Keys + IntNames()
      ensures forall k :: k in iVariableMap ==> iVariableMap[k] == if k in IntNames() then 0 else old(iVariableMap)[k]
      ensures iEventVectorMap.Keys == old(iEventVectorMap).Keys + iVariableMap.Keys
      ensures forall k :: k in iEventVectorMap ==>
        iEventVectorMap[k] == if k in iVariableMap then [] else old(iEventVectorMap)[k]
      ensures fVariableMap.Keys == old(fVariableMap).Keys + iVariableMap.Keys
      ensures forall k :: k in fVariableMap ==>
        fVariableMap[k] == if k in iVariableMap then 0.0 else old(fVariableMap)[k]
    {
      iVariableMap := iVariableMap["N10" := 0]["N200" := 0]["N50" := 0];
      MirrorIntNames(iVariableMap.Keys);
    }

    /** The loop of ClearIntVariables: each integer name gets an empty event vector and a float value 0. */
    method MirrorIntNames(names: set<string>)
      modifies this`iEventVectorMap, this`fVariableMap
      ensures iEventVectorMap.Keys == old(iEventVectorMap).Keys + names
      ensures forall k :: k in iEventVectorMap ==> iEventVectorMap[k] == if k in names then [] else old(iEventVectorMap)[k]
      ensures fVariableMap.Keys == old(fVariableMap).Keys + names
      ensures forall k :: k in fVariableMap ==> fVariableMap[k] == if k in names then 0.0 else old(fVariableMap)[k]
    {
      var todo := names;
      while todo != {}
        invariant todo <= names
        invariant iEventVectorMap.Keys == old(iEventVectorMap).Keys + (names - todo)
        invariant forall k :: k in iEventVectorMap ==>
          iEventVectorMap[k] == if k in names - todo then [] else old(iEventVectorMap)[k]
        invariant fVariableMap.Keys == old(fVariableMap).Keys + (names - todo)
        invariant forall k :: k in fVariableMap ==>
          fVariableMap[k] == if k in names - todo then 0.0 else old(fVariableMap)[k]
        decreases todo
      {
        var k :| k in todo;
        iEventVectorMap := iEventVectorMap[k := []];
        fVariableMap := fVariableMap[k := 0.0];
        todo := todo - {k};
      }
    }

    /** The float half of Clear: the 20 float features, then an empty event vector per float name. */
    method ClearFloatVariables()
      modifies this`fVariableMap, this`fEventVectorMap
      ensures fVariableMap.Keys == old(fVariableMap).Keys + FloatNames()
      ensures forall k :: k in fVariableMap ==>
        fVariableMap[k] == if k in FloatNames() then 0.0 else old(fVariableMap)[k]
      ensures fEventVectorMap.Keys == old(fEventVectorMap).Keys + fVariableMap.Keys
      ensures forall k :: k in fVariableMap ==> fEventVectorMap[k] == []
    {
      // dt, sumQ, spread, trmsold, beta1 .. beta5, prompt_nfit, tbsenergy, tbswall,
      // tbsgood, tbsdirks, tbspatlik, tbsovaq, prompt_bonsai, nwall, trms40, bonsai_nfit
      fVariableMap := fVariableMap + map k | k in FloatNames() :: 0.0;
      var todo := fVariableMap.Keys;
      ghost var fVar1, fVec0 := fVariableMap, fEventVectorMap;
      while todo != {}
        invariant fVariableMap == fVar1
        invariant todo <= fVariableMap.Keys
        invariant fEventVectorMap.Keys == fVec0.Keys + (fVariableMap.Keys - todo)
        invariant forall k :: k in fEventVectorMap ==>
          fEventVectorMap[k] == if k in fVariableMap.Keys - todo then [] else fVec0[k]
        decreases todo
      {
        var k :| k in todo;
        fEventVectorMap := fEventVectorMap[k := []];
        todo := todo - {k};
      }
    }

    /**
     * What a tree read does to the schema once SetBranchAddressToTree has
     * bound its addresses: the read itself (TTree::GetEntry) is ROOT I/O, so
     * the values read are parameters, and this method states the consequence
     * of the binding's selection rule, the one BranchNames lists. Every
     * integer vector is overwritten, and so are the float vectors of the
     * names that are not integer names; the mirrored float vectors are not
     * bound and keep their contents.
     */
    method ReadEntry(iVecs: map<string, seq<int>>, fVecs: map<string, seq<real>>)
      requires Valid()
      requires iVecs.Keys == iEventVectorMap.Keys
      requires fVecs.Keys == fEventVectorMap.Keys - iVariableMap.Keys
      modifies this`iEventVectorMap, this`fEventVectorMap
      ensures Valid()
      ensures iEventVectorMap == iVecs
      ensures fEventVectorMap == old(fEventVectorMap) + fVecs
    {
      ghost var fKeys := fEventVectorMap.Keys;
      iEventVectorMap := iVecs;
      fEventVectorMap := fEventVectorMap + fVecs;
      assert fEventVectorMap.Keys == fKeys;
    }

    /** Keys(): the float names, each exactly once. */
    method Keys() returns (keys: seq<string>)
      ensures forall k :: k in keys <==> k in fVariableMap
      ensures forall a, b :: 0 <= a < b < |keys| ==> keys[a] != keys[b]
    {
      keys := [];
      var todo := fVariableMap.Keys;
      while todo != {}
        invariant todo <= fVariableMap.Keys
        invariant forall k :: k in keys <==> k in fVariableMap.Keys - todo
        invariant forall a, b :: 0 <= a < b < |keys| ==> keys[a] != keys[b]
        decreases todo
      {
        var k :| k in todo;
        assert k !in keys;
        keys := keys + [k];
        todo := todo - {k};
      }
    }

    /**
     * The names MakeBranchesToTree registers (and SetBranchAddressToTree
     * binds): every integer vector's name, then every float vector's name
     * that is not an integer name. In a valid object each feature name is
     * registered exactly once.
     */
    method BranchNames() returns (names: seq<string>)
      ensures forall k :: k in names <==>
        k in iEventVectorMap || (k in fEventVectorMap && k !in iVariableMap)
      ensures Valid() ==> (forall a, b :: 0 <= a < b < |names| ==> names[a] != names[b])
      ensures Valid() ==> (forall k :: k in names <==> k in fVariableMap)
    {
      names := [];
      var todo := iEventVectorMap.Keys;
      while todo != {}
        invariant todo <= iEventVectorMap.Keys
        invariant forall k :: k in names <==> k in iEventVectorMap.Keys - todo
        invariant forall a, b :: 0 <= a < b < |names| ==> names[a] != names[b]
        decreases todo
      {
        var k :| k in todo;
        assert k !in names;
        names := names + [k];
        todo := todo - {k};
      }
      todo := fEventVectorMap.Keys;
      while todo != {}
        invariant todo <= fEventVectorMap.Keys
        invariant forall k :: k in names <==>
          k in iEventVectorMap || (k in fEventVectorMap.Keys - todo && k !in iVariableMap)
        invariant Valid() ==> (forall a, b :: 0 <= a < b < |names| ==> names[a] != names[b])
        decreases todo
      {
        var k :| k in todo;
        if k !in iVariableMap {
          assert Valid() ==> k !in names;
          names := names + [k];
        }
        todo := todo - {k};
      }
    }

    /** Every event vector has an entry for candidate i. */
    predicate HasCandidate(i: int)
      reads this
    {
      && 0 <= i
      && (forall k :: k in iEventVectorMap ==> i < |iEventVectorMap[k]|)
      && (forall k :: k in fEventVectorMap && k !in iVariableMap ==> i < |fEventVectorMap[k]|)
    }

    /**
     * SetVariablesForCaptureCandidate(i): each integer value becomes element
     * i of its event vector; each float value becomes the integer value of
     * the same name if there is one, otherwise element i of its float event
     * vector.
     */
    method SetVariablesForCaptureCandidate(i: int)
      requires HasCandidate(i)
      modifies this`iVariableMap, this`fVariableMap
      ensures iVariableMap.Keys == old(iVariableMap).Keys + iEventVectorMap.Keys
      ensures forall k :: k in iVariableMap ==>
        iVariableMap[k] == if k in iEventVectorMap then iEventVectorMap[k][i] else old(iVariableMap)[k]
      ensures fVariableMap.Keys == old(fVariableMap).Keys + fEventVectorMap.Keys
      ensures forall k :: k in fVariableMap ==>
        fVariableMap[k] == if k !in fEventVectorMap then old(fVariableMap)[k]
                           else if k in iVariableMap then iVariableMap[k] as real
                           else fEventVectorMap[k][i]
      ensures forall k :: k in iEventVectorMap && k in fEventVectorMap ==>
        fVariableMap[k] == iEventVectorMap[k][i] as real
    {
      SetIntVariables(i);
      SetFloatVariables(i);
    }

    /** The first loop of SetVariablesForCaptureCandidate: the integer values. */
    method SetIntVariables(i: int)
      requires HasCandidate(i)
      modifies this`iVariableMap
      ensures iVariableMap.Keys == old(iVariableMap).Keys + iEventVectorMap.Keys
      ensures forall k :: k in iVariableMap ==>
        iVariableMap[k] == if k in iEventVectorMap then iEventVectorMap[k][i] else old(iVariableMap)[k]
    {
      var todo := iEventVectorMap.Keys;
      while todo != {}
        invariant todo <= iEventVectorMap.Keys
        invariant iVariableMap.Keys == old(iVariableMap).Keys + (iEventVectorMap.Keys - todo)
        invariant forall k :: k in iVariableMap ==>
          iVariableMap[k] == if k in iEventVectorMap.Keys - todo then iEventVectorMap[k][i] else old(iVariableMap)[k]
        decreases todo
      {
        var k :| k in todo;
        iVariableMap := iVariableMap[k := iEventVectorMap[k][i]];
        todo := todo - {k};
      }
    }

    /** The second loop of SetVariablesForCaptureCandidate: the float values. */
    method SetFloatVariables(i: int)
      requires HasCandidate(i)
      modifies this`fVariableMap
      ensures fVariableMap.Keys == old(fVariableMap).Keys + fEventVectorMap.Keys
      ensures forall k :: k in fVariableMap ==>
        fVariableMap[k] == if k !in fEventVectorMap then old(fVariableMap)[k]
                           else if k in iVariableMap then iVariableMap[k] as real
                           else fEventVectorMap[k][i]
    {
      var todo := fEventVectorMap.Keys;
      while todo != {}
        invariant todo <= fEventVectorMap.Keys
        invariant fVariableMap.Keys == old(fVariableMap).Keys + (fEventVectorMap.Keys - todo)
        invariant forall k :: k in fVariableMap ==>
          fVariableMap[k] == if k !in fEventVectorMap.Keys - todo then old(fVariableMap)[k]
                             else if k in iVariableMap then iVariableMap[k] as real
                             else fEventVectorMap[k][i]
        decreases todo
      {
        var k :| k in todo;
        if k in iVariableMap {
          fVariableMap := fVariableMap[k := iVariableMap[k] as real];
        } else {
          fVariableMap := fVariableMap[k := fEventVectorMap[k][i]];
        }
        todo := todo - {k};
      }
    }

    /** GetNumberOfCandidates(): the number of entries in the N10 event vector. */
    function GetNumberOfCandidates(): (n: nat)
      reads this
      requires Valid()
      ensures n == |iEventVectorMap["N10"]|
      ensures Cleared() ==> n == 0
    {
      |iEventVectorMap["N10"]|
    }
  }
}
