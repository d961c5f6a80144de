/**
  The schema registry. A schema is the fragment the compatibility check reads: the `required` list and
  the declared properties with their optional `type`.
*/
module SchemaRegistry {
  import opened Wrappers
  import opened Versions

  datatype TypeName = TNull | TBoolean | TInteger | TNumber | TString | TArray | TObject

  datatype Schema = Schema(required: seq<string>, properties: map<string, Option<TypeName>>)

  /** One entry of the inner dictionary, which keeps its entries in insertion order. */
  datatype Versioned = Versioned(version: string, schema: Schema)

  type Table = seq<Versioned>

  datatype Error = UnknownEventType | UnknownVersion | UnparsableVersion | RemovedRequired | Renamed | TypeChanged

  // ---------------------------------------------------------------------------------------------
  // Tables of versions

  predicate Distinct(table: Table) {
    forall i, j :: 0 <= i < j < |table| ==> table[i].version != table[j].version
  }

  predicate HasVersion(table: Table, version: string) {
    exists i :: 0 <= i < |table| && table[i].version == version
  }

  /** `d[version] = schema`: an existing key keeps its place. */
  function Store(table: Table, version: string, schema: Schema): Table {
    if table == [] then [Versioned(version, schema)]
    else if table[0].version == version then [Versioned(version, schema)] + table[1..]
    else [table[0]] + Store(table[1..], version, schema)
  }

  lemma {:induction false} StoreIsUpdate(table: Table, version: string, schema: Schema)
    requires Distinct(table)
    ensures var after := Store(table, version, schema);
            && Distinct(after)
            && Versioned(version, schema) in after
            && (forall e: Versioned :: e.version != version ==> (e in after <==> e in table))
            && (forall e: Versioned :: e in after && e.version == version ==> e.schema == schema)
  {
    if table != [] {
      var after := Store(table, version, schema);
      var rest := table[1..];
      assert table == [table[0]] + rest;
      assert Distinct(rest);
      if table[0].version == version {
        forall i | 0 <= i < |rest|
          ensures rest[i].version != version
        {
          assert table[i + 1] == rest[i];
        }
        assert after == [Versioned(version, schema)] + rest;
      } else {
        StoreIsUpdate(rest, version, schema);
        var tail := Store(rest, version, schema);
        forall i | 0 <= i < |tail|
          ensures tail[i].version != table[0].version
        {
          assert tail[i] in tail;
          if tail[i].version != version {
            assert tail[i] in rest;
            var k :| 0 <= k < |rest| && rest[k] == tail[i];
            assert table[k + 1] == tail[i];
          }
        }
      }
    }
  }

  /** An existing version keeps its place, a new one comes last. */
  lemma {:induction false} StoreKeepsPlaces(table: Table, version: string, schema: Schema)
    ensures var after := Store(table, version, schema);
            && |after| == |table| + (if HasVersion(table, version) then 0 else 1)
            && (forall i :: 0 <= i < |table| ==> after[i].version == table[i].version)
            && (HasVersion(table, version) || after[|table|] == Versioned(version, schema))
  {
    if table != [] && table[0].version != version {
      StoreKeepsPlaces(table[1..], version, schema);
      if HasVersion(table, version) {
        var i :| 0 <= i < |table| && table[i].version == version;
        assert table[1..][i - 1].version == version;
      }
    }
  }

  predicate AllParse(table: Table) {
    forall i :: 0 <= i < |table| ==> Tuple(table[i].version).Some?
  }

  /** Entry k is what `max` returns: no entry has a higher tuple, and the earlier ones have lower tuples. */
  predicate IsLatest(table: Table, k: nat) {
    && AllParse(table) && k < |table|
    && (forall j :: 0 <= j < |table| ==> !Less(Tuple(table[k].version).value, Tuple(table[j].version).value))
    && (forall j :: 0 <= j < k ==> Less(Tuple(table[j].version).value, Tuple(table[k].version).value))
  }

  lemma LatestIsUnique(table: Table, j: nat, k: nat)
    requires IsLatest(table, j) && IsLatest(table, k)
    ensures j == k
  {
    var s, t := Tuple(table[j].version).value, Tuple(table[k].version).value;
    assert j < k ==> Less(s, t);
    assert k < j ==> Less(t, s);
  }

  /** By the numbers: with versions that are written tuples, the latest is the first of the highest tuples. */
  lemma LatestByNumbers(table: Table, tuples: seq<seq<int>>, k: nat)
    requires |tuples| == |table| && k < |table|
    requires forall i :: 0 <= i < |table| ==> tuples[i] != [] && table[i].version == Rendered(tuples[i])
    ensures IsLatest(table, k) <==>
              && (forall j :: 0 <= j < |table| ==> !Lower(tuples[k], tuples[j]))
              && (forall j :: 0 <= j < k ==> Lower(tuples[j], tuples[k]))
  {
    forall i | 0 <= i < |table|
      ensures Tuple(table[i].version) == Some(tuples[i])
      ensures Less(tuples[i], tuples[k]) <==> Lower(tuples[i], tuples[k])
      ensures Less(tuples[k], tuples[i]) <==> Lower(tuples[k], tuples[i])
    {
      RenderedIsRead(tuples[i]);
      LessIsLexicographic(tuples[i], tuples[k]);
      LessIsLexicographic(tuples[k], tuples[i]);
    }
  }

  lemma BelowBoth(t: seq<int>, b: seq<int>, top: seq<int>)
    requires !Less(b, t) && Less(b, top)
    ensures Less(t, top)
  {
    TrichotomyOfTuples(b, t);
    if Less(t, b) {
      LessTransitive(t, b, top);
    }
  }

  lemma LatestExtends(table: Table, i: nat, best: nat)
    requires i < |table| && Tuple(table[i].version).Some?
    requires if i == 0 then best == 0 else IsLatest(table[..i], best)
    ensures IsLatest(table[..i + 1],
              if 0 < i && Less(Tuple(table[best].version).value, Tuple(table[i].version).value) then i else best)
  {
    var next := if 0 < i && Less(Tuple(table[best].version).value, Tuple(table[i].version).value) then i else best;
    var longer := table[..i + 1];
    forall j | 0 <= j < |longer|
      ensures Tuple(longer[j].version).Some?
    {
      assert j < i ==> longer[j] == table[..i][j];
    }
    var top := Tuple(longer[next].version).value;
    forall j | 0 <= j < |longer|
      ensures !Less(top, Tuple(longer[j].version).value)
      ensures j < next ==> Less(Tuple(longer[j].version).value, top)
    {
      var t := Tuple(longer[j].version).value;
      TrichotomyOfTuples(top, t);
      if j < i && 0 < i {
        var b := Tuple(table[best].version).value;
        assert longer[j] == table[..i][j];
        assert !Less(b, t);
        if next == i {
          BelowBoth(t, b, top);
        }
      }
    }
  }

  /** `max` of the versions by their tuples; None is the ValueError of a version that is not all integers. */
  function LatestIndex(table: Table): (r: Option<nat>)
    requires table != []
    ensures r.Some? <==> AllParse(table)
    ensures r.Some? ==> IsLatest(table, r.value)
  {
    var n := |table| - 1;
    assert table[..n + 1] == table;
    if Tuple(table[n].version).None? then None
    else if n == 0 then
      LatestExtends(table, 0, 0);
      Some(0)
    else
      match LatestIndex(table[..n])
      case None => None
      case Some(best) =>
        LatestExtends(table, n, best);
        Some(if Less(Tuple(table[best].version).value, Tuple(table[n].version).value) then n else best)
  }

  /** `d[version]` */
  function Lookup(table: Table, version: string): (r: Option<Schema>)
    ensures r.Some? <==> HasVersion(table, version)
    ensures r.Some? ==> Versioned(version, r.value) in table
  {
    if table == [] then None
    else if table[|table| - 1].version == version then Some(table[|table| - 1].schema)
    else Lookup(table[..|table| - 1], version)
  }

  // ---------------------------------------------------------------------------------------------
  // The check

  function ToSet(xs: seq<string>): set<string> {
    set x | x in xs
  }

  predicate TypeClash(prior: Schema, next: Schema, prop: string) {
    && prop in prior.properties && prop in next.properties
    && prior.properties[prop].Some? && next.properties[prop].Some?
    && prior.properties[prop] != next.properties[prop]
  }

  /** The rules by which `check_compatibility` lets a schema follow the latest one. */
  predicate MayFollow(prior: Schema, next: Schema) {
    && ToSet(prior.required) <= ToSet(next.required)
    && ToSet(prior.required) <= next.properties.Keys
    && ToSet(next.required) <= prior.properties.Keys
    && forall prop :: prop in prior.properties ==> !TypeClash(prior, next, prop)
  }

  /**
    Field by field: every field required so far is still required and declared, every field required now was
    declared, and no property has changed a type declared before and after.
  */
  lemma MayFollowExactly(prior: Schema, next: Schema)
    ensures MayFollow(prior, next) <==>
              && (forall x :: x in prior.required ==> x in next.required && x in next.properties)
              && (forall x :: x in next.required ==> x in prior.properties)
              && (forall x :: x in prior.properties && x in next.properties ==>
                    prior.properties[x] == next.properties[x]
                    || prior.properties[x].None? || next.properties[x].None?)
  {
    assert forall x :: x in ToSet(prior.required) <==> x in prior.required;
    assert forall x :: x in ToSet(next.required) <==> x in next.required;
    assert MayFollow(prior, next) ==>
      forall x :: x in prior.required ==> x in ToSet(prior.required) && x in next.required && x in next.properties;
    assert forall x :: TypeClash(prior, next, x) ==> x in prior.properties;
  }

  /** The verdict on a schema: success exactly if it may follow, else the first rule that it breaks. */
  ghost predicate Judged(prior: Schema, next: Schema, r: Result<(), Error>) {
    var kept := ToSet(prior.required) <= ToSet(next.required);
    var named := ToSet(prior.required) <= next.properties.Keys && ToSet(next.required) <= prior.properties.Keys;
    && (r.Success? <==> MayFollow(prior, next))
    && (r == Failure(RemovedRequired) <==> !kept)
    && (r == Failure(Renamed) <==> kept && !named)
    && (r == Failure(TypeChanged) <==> kept && named && !MayFollow(prior, next))
  }

  class SchemaRegistry {
    var schemas: map<string, Table>

    predicate Valid()
      reads this
    {
      forall t :: t in schemas ==> schemas[t] != [] && Distinct(schemas[t])
    }

    constructor ()
      ensures Valid() && schemas == map[]
    {
      schemas := map[];
    }

    method Register(eventType: string, schema: Schema, version: string)
      requires Valid()
      modifies this
      ensures Valid()
      ensures schemas == old(schemas)[eventType :=
                Store(if eventType in old(schemas) then old(schemas)[eventType] else [], version, schema)]
    {
      if eventType !in schemas {
        schemas := schemas[eventType := []];
      }
      StoreIsUpdate(schemas[eventType], version, schema);
      schemas := schemas[eventType := Store(schemas[eventType], version, schema)];
    }

    method Get(eventType: string, version: string) returns (r: Result<Schema, Error>)
      requires Valid()
      ensures r.Success? <==> eventType in schemas && HasVersion(schemas[eventType], version)
      ensures r.Success? ==> Versioned(version, r.value) in schemas[eventType]
      ensures r.Failure? ==> r.error == if eventType in schemas then UnknownVersion else UnknownEventType
    {
      if eventType !in schemas {
        return Failure(UnknownEventType);
      }
      var schema := Lookup(schemas[eventType], version);
      return if schema.Some? then Success(schema.value) else Failure(UnknownVersion);
    }

    /** The first entry whose tuple is greatest. */
    method GetLatest(eventType: string) returns (r: Result<Versioned, Error>)
      requires Valid()
      ensures r.Success? <==> eventType in schemas && AllParse(schemas[eventType])
      ensures r.Success? ==> exists k: nat :: IsLatest(schemas[eventType], k) && r.value == schemas[eventType][k]
      ensures r.Failure? ==> r.error == if eventType in schemas then UnparsableVersion else UnknownEventType
    {
      if eventType !in schemas {
        return Failure(UnknownEventType);
      }
      var k := LatestIndex(schemas[eventType]);
      return if k.Some? then Success(schemas[eventType][k.value]) else Failure(UnparsableVersion);
    }

    method CheckCompatibility(eventType: string, newSchema: Schema) returns (r: Result<(), Error>)
      requires Valid()
      ensures eventType !in schemas ==> r.Success?
      ensures eventType in schemas && !AllParse(schemas[eventType]) ==> r == Failure(UnparsableVersion)
      ensures eventType in schemas && AllParse(schemas[eventType]) ==>
                exists k: nat :: IsLatest(schemas[eventType], k)
                  && Judged(schemas[eventType][k].schema, newSchema, r)
    {
      if eventType !in schemas {
        return Success(());
      }
      var latest := GetLatest(eventType);
      if latest.Failure? {
        return Failure(latest.error);
      }
      ghost var k: nat :| IsLatest(schemas[eventType], k) && latest.value == schemas[eventType][k];
      r := Judge(latest.value.schema, newSchema);
    }

    /** The comparison with the latest schema. */
    static method Judge(prior: Schema, next: Schema) returns (r: Result<(), Error>)
      ensures Judged(prior, next, r)
    {
      var oldRequired, newRequired := ToSet(prior.required), ToSet(next.required);
      DifferenceEmpty(oldRequired, newRequired);
      if oldRequired - newRequired != {} {
        return Failure(RemovedRequired);
      }
      DifferenceEmpty(oldRequired, next.properties.Keys);
      DifferenceEmpty(newRequired, prior.properties.Keys);
      if (oldRequired - next.properties.Keys) + (newRequired - prior.properties.Keys) != {} {
        return Failure(Renamed);
      }
      var todo := prior.properties.Keys * next.properties.Keys;
      while todo != {}
        invariant todo <= prior.properties.Keys * next.properties.Keys
        invariant forall prop :: prop in prior.properties && prop !in todo ==> !TypeClash(prior, next, prop)
        decreases |todo|
      {
        var prop :| prop in todo;
        if TypeClash(prior, next, prop) {
          return Failure(TypeChanged);
        }
        todo := todo - {prop};
      }
      return Success(());
    }
  }

  lemma DifferenceEmpty(xs: set<string>, ys: set<string>)
    ensures xs - ys == {} <==> xs <= ys
  {
    if xs - ys == {} {
      forall x | x in xs
        ensures x in ys
      {
        assert x !in xs - ys;
      }
    }
  }
}
