/** What a chain of checks, each against the latest version only, guarantees over all versions. */
module SchemaEvolution {
  import opened Wrappers
  import opened Messages
  import opened Versions
  import opened SchemaRegistry

  // ---------------------------------------------------------------------------------------------
  // Validity: sections 6.5.3 (required) and 6.1.1 (type) of JSON Schema Validation draft 2020-12, and
  // section 10.3.2.1 (properties) of JSON Schema Core draft 2020-12

  datatype Json = JNull | JBool(b: bool) | JNumber(n: real) | JString(s: string) | JArray | JObject

  predicate HasType(v: Json, t: TypeName) {
    match t
    case TNull => v.JNull?
    case TBoolean => v.JBool?
    case TInteger => v.JNumber? && v.n == v.n.Floor as real
    case TNumber => v.JNumber?
    case TString => v.JString?
    case TArray => v.JArray?
    case TObject => v.JObject?
  }

  type Payload = map<string, Json>

  predicate Validates(schema: Schema, payload: Payload) {
    && (forall f :: f in schema.required ==> f in payload)
    && (forall p :: p in schema.properties && p in payload && schema.properties[p].Some? ==>
          HasType(payload[p], schema.properties[p].value))
  }

  /** Every payload valid under the newer schema is valid under the older one. */
  ghost predicate Readable(older: Schema, newer: Schema) {
    forall payload: Payload :: Validates(newer, payload) ==> Validates(older, payload)
  }

  /** Every value of the first type has the second. */
  predicate Narrower(t: TypeName, u: TypeName) {
    t == u || (t.TInteger? && u.TNumber?)
  }

  function Sample(t: TypeName): (v: Json)
    ensures HasType(v, t)
  {
    match t
    case TNull => JNull
    case TBoolean => JBool(true)
    case TInteger => JNumber(0.0)
    case TNumber => JNumber(0.5)
    case TString => JString("")
    case TArray => JArray
    case TObject => JObject
  }

  lemma NarrowerMeansSubset(t: TypeName, u: TypeName)
    ensures Narrower(t, u) <==> forall v :: HasType(v, t) ==> HasType(v, u)
  {
    if !Narrower(t, u) {
      assert HasType(Sample(t), t) && !HasType(Sample(t), u) by {
        assert 0.5 != (0.5).Floor as real;
      }
    }
  }

  /** The newer schema still declares the older one's typed properties, with types no wider. */
  predicate KeepsTypes(older: Schema, newer: Schema) {
    forall p :: p in older.properties && older.properties[p].Some? ==>
      p in newer.properties && newer.properties[p].Some?
      && Narrower(newer.properties[p].value, older.properties[p].value)
  }

  /** A payload that gives each required field a value of its declared type. */
  function Minimal(schema: Schema): (payload: Payload)
    ensures Validates(schema, payload)
    ensures payload.Keys == ToSet(schema.required)
  {
    map f | f in ToSet(schema.required) ::
      if f in schema.properties && schema.properties[f].Some? then Sample(schema.properties[f].value) else JNull
  }

  /** A value the newer schema admits for p and the older one does not. */
  function Clash(older: Schema, newer: Schema, p: string): Json
    requires p in older.properties && older.properties[p].Some?
  {
    if p in newer.properties && newer.properties[p].Some? then Sample(newer.properties[p].value)
    else if older.properties[p].value.TNull? then JObject else JNull
  }

  lemma ClashBreaksOlder(older: Schema, newer: Schema, p: string)
    requires p in older.properties && older.properties[p].Some?
    requires !(p in newer.properties && newer.properties[p].Some?
               && Narrower(newer.properties[p].value, older.properties[p].value))
    ensures !Readable(older, newer)
  {
    var payload := Minimal(newer)[p := Clash(older, newer, p)];
    assert 0.5 != (0.5).Floor as real;
    assert Validates(newer, payload);
    assert !HasType(payload[p], older.properties[p].value);
    assert !Validates(older, payload);
  }

  /** For any two schemas: what it takes that the newer one's payloads are all valid under the older one. */
  lemma ReadableExactly(older: Schema, newer: Schema)
    ensures Readable(older, newer) <==> ToSet(older.required) <= ToSet(newer.required) && KeepsTypes(older, newer)
  {
    if Readable(older, newer) {
      forall f | f in ToSet(older.required)
        ensures f in ToSet(newer.required)
      {
        assert Validates(older, Minimal(newer));
      }
      forall p | p in older.properties && older.properties[p].Some?
        ensures p in newer.properties && newer.properties[p].Some?
        ensures Narrower(newer.properties[p].value, older.properties[p].value)
      {
        if !(p in newer.properties && newer.properties[p].Some?
             && Narrower(newer.properties[p].value, older.properties[p].value)) {
          ClashBreaksOlder(older, newer, p);
        }
      }
    }
    if ToSet(older.required) <= ToSet(newer.required) && KeepsTypes(older, newer) {
      forall payload: Payload | Validates(newer, payload)
        ensures Validates(older, payload)
      {
        assert forall f :: f in older.required ==> f in ToSet(older.required);
      }
    }
  }

  // ---------------------------------------------------------------------------------------------
  // Chains of releases

  predicate Ascending(releases: Table) {
    && AllParse(releases)
    && forall i, j :: 0 <= i < j < |releases| ==>
         Less(Tuple(releases[i].version).value, Tuple(releases[j].version).value)
  }

  /** Each release has a higher version than those before, and passed the check before it was registered. */
  ghost predicate Released(releases: Table) {
    && Ascending(releases)
    && forall i :: 0 < i < |releases| ==> Admitted(releases, i)
  }

  ghost predicate Admitted(releases: Table, i: nat)
    requires i < |releases|
  {
    exists k: nat :: IsLatest(releases[..i], k) && MayFollow(releases[k].schema, releases[i].schema)
  }

  /** The table after registering the releases one after the other. */
  function RegisterAll(releases: Table): Table {
    if releases == [] then []
    else
      var e := releases[|releases| - 1];
      Store(RegisterAll(releases[..|releases| - 1]), e.version, e.schema)
  }

  lemma AscendingIsDistinct(releases: Table)
    requires Ascending(releases)
    ensures Distinct(releases)
  {
    forall i, j | 0 <= i < j < |releases|
      ensures releases[i].version != releases[j].version
    {
      LessIrreflexive(Tuple(releases[j].version).value);
    }
  }

  /** Registering distinct versions one after the other yields them in that order. */
  lemma {:induction false} ReleasesFormTable(releases: Table)
    requires Distinct(releases)
    ensures RegisterAll(releases) == releases
  {
    if releases != [] {
      var n := |releases| - 1;
      assert Distinct(releases[..n]);
      ReleasesFormTable(releases[..n]);
      ReleaseAppends(releases[..n], releases[n]);
    }
  }

  lemma {:induction false} ReleaseAppends(table: Table, e: Versioned)
    requires forall i :: 0 <= i < |table| ==> table[i].version != e.version
    ensures Store(table, e.version, e.schema) == table + [e]
  {
    if table != [] {
      forall i | 0 <= i < |table[1..]|
        ensures table[1..][i].version != e.version
      {
        assert table[1..][i] == table[i + 1];
      }
      ReleaseAppends(table[1..], e);
    }
  }

  /** Each release may follow the one before it. */
  predicate Following(releases: Table) {
    forall i :: 0 < i < |releases| ==> MayFollow(releases[i - 1].schema, releases[i].schema)
  }

  lemma PredecessorIsLatest(releases: Table, i: nat)
    requires Ascending(releases) && 0 < i <= |releases|
    ensures IsLatest(releases[..i], i - 1)
  {
    var t := Tuple(releases[i - 1].version).value;
    forall j | 0 <= j < i
      ensures !Less(t, Tuple(releases[..i][j].version).value)
      ensures j < i - 1 ==> Less(Tuple(releases[..i][j].version).value, t)
    {
      TrichotomyOfTuples(t, Tuple(releases[j].version).value);
    }
  }

  lemma LatestIsPredecessor(releases: Table, i: nat, k: nat)
    requires Ascending(releases) && 0 < i <= |releases| && IsLatest(releases[..i], k)
    ensures k == i - 1
  {
    PredecessorIsLatest(releases, i);
    LatestIsUnique(releases[..i], k, i - 1);
  }

  lemma AdmittedExactly(releases: Table, i: nat)
    requires Ascending(releases) && 0 < i < |releases|
    ensures Admitted(releases, i) <==> MayFollow(releases[i - 1].schema, releases[i].schema)
  {
    if Admitted(releases, i) {
      var k: nat :| IsLatest(releases[..i], k) && MayFollow(releases[k].schema, releases[i].schema);
      LatestIsPredecessor(releases, i, k);
    }
    if MayFollow(releases[i - 1].schema, releases[i].schema) {
      PredecessorIsLatest(releases, i);
    }
  }

  /** In an ascending chain, being checked against the latest version means being checked against the predecessor. */
  lemma ReleasedExactly(releases: Table)
    requires Ascending(releases)
    ensures Released(releases) <==> Following(releases)
  {
    if Released(releases) {
      forall i | 0 < i < |releases|
        ensures MayFollow(releases[i - 1].schema, releases[i].schema)
      {
        assert Admitted(releases, i);
        AdmittedExactly(releases, i);
      }
    }
    if Following(releases) {
      forall i | 0 < i < |releases|
        ensures Admitted(releases, i)
      {
        AdmittedExactly(releases, i);
      }
    }
  }

  /** Nothing that was ever required stops being required. */
  lemma {:induction false} RequiredOnlyGrows(releases: Table, i: nat, j: nat)
    requires Following(releases) && i <= j < |releases|
    ensures ToSet(releases[i].schema.required) <= ToSet(releases[j].schema.required)
    decreases j
  {
    if i < j {
      assert MayFollow(releases[j - 1].schema, releases[j].schema);
      RequiredOnlyGrows(releases, i, j - 1);
    }
  }

  predicate AllTyped(releases: Table) {
    forall i, p :: 0 <= i < |releases| && p in releases[i].schema.properties ==> releases[i].schema.properties[p].Some?
  }

  /** A field required at version i is declared in every later version, and in version i itself if a later one exists. */
  lemma RequiredStaysDeclared(releases: Table, i: nat, j: nat, f: string)
    requires Following(releases) && i <= j < |releases| && f in releases[i].schema.required
    requires i < j || j + 1 < |releases|
    ensures f in releases[j].schema.properties
  {
    assert f in ToSet(releases[i].schema.required);
    if i < j {
      RequiredOnlyGrows(releases, i, j - 1);
      assert MayFollow(releases[j - 1].schema, releases[j].schema);
      assert f in ToSet(releases[j - 1].schema.required);
    } else {
      assert MayFollow(releases[i].schema, releases[i + 1].schema);
      assert f in ToSet(releases[i + 1].schema.required);
    }
  }

  /** And its type never changes again. */
  lemma {:induction false} RequiredKeepsType(releases: Table, i: nat, j: nat, f: string)
    requires Following(releases) && AllTyped(releases) && i < j < |releases| && f in releases[i].schema.required
    ensures f in releases[i].schema.properties && f in releases[j].schema.properties
    ensures releases[j].schema.properties[f] == releases[i].schema.properties[f]
    decreases j
  {
    RequiredStaysDeclared(releases, i, i, f);
    RequiredStaysDeclared(releases, i, j, f);
    assert MayFollow(releases[j - 1].schema, releases[j].schema);
    if i < j - 1 {
      RequiredKeepsType(releases, i, j - 1, f);
    }
    assert !TypeClash(releases[j - 1].schema, releases[j].schema, f);
  }

  /**
    For a chain of checked releases, which of the earlier versions can read the newest: exactly those whose
    typed properties the newest still declares, with types no wider. Requiredness is never in the way.
  */
  lemma ChainReadableExactly(releases: Table, i: nat, j: nat)
    requires Following(releases) && i <= j < |releases|
    ensures Readable(releases[i].schema, releases[j].schema) <==> KeepsTypes(releases[i].schema, releases[j].schema)
  {
    RequiredOnlyGrows(releases, i, j);
    ReadableExactly(releases[i].schema, releases[j].schema);
  }

  predicate DropsNothing(releases: Table) {
    forall i :: 0 < i < |releases| ==> releases[i - 1].schema.properties.Keys <= releases[i].schema.properties.Keys
  }

  lemma {:induction false} UndroppedKeepTypes(releases: Table, i: nat, j: nat)
    requires Following(releases) && AllTyped(releases) && DropsNothing(releases) && i <= j < |releases|
    ensures forall p :: p in releases[i].schema.properties ==>
      p in releases[j].schema.properties && releases[j].schema.properties[p] == releases[i].schema.properties[p]
    decreases j
  {
    if i < j {
      UndroppedKeepTypes(releases, i, j - 1);
      assert MayFollow(releases[j - 1].schema, releases[j].schema);
      forall p | p in releases[i].schema.properties
        ensures p in releases[j].schema.properties
        ensures releases[j].schema.properties[p] == releases[i].schema.properties[p]
      {
        assert p in releases[j - 1].schema.properties.Keys;
        assert !TypeClash(releases[j - 1].schema, releases[j].schema, p);
      }
    }
  }

  /** If no release drops a property, and all properties are typed, every version reads every later one. */
  lemma UndroppedIsReadable(releases: Table, i: nat, j: nat)
    requires Following(releases) && AllTyped(releases) && DropsNothing(releases) && i <= j < |releases|
    ensures Readable(releases[i].schema, releases[j].schema)
  {
    UndroppedKeepTypes(releases, i, j);
    ChainReadableExactly(releases, i, j);
  }

  /** All of it, for a chain of releases as the registry makes them: ascending, each checked against the latest. */
  lemma ReleasesEvolve(releases: Table, i: nat, j: nat, f: string)
    requires Released(releases) && i < j < |releases|
    ensures RegisterAll(releases) == releases
    ensures ToSet(releases[i].schema.required) <= ToSet(releases[j].schema.required)
    ensures f in releases[i].schema.required && AllTyped(releases) ==>
              && f in releases[i].schema.properties && f in releases[j].schema.properties
              && releases[j].schema.properties[f] == releases[i].schema.properties[f]
    ensures Readable(releases[i].schema, releases[j].schema) <==> KeepsTypes(releases[i].schema, releases[j].schema)
    ensures AllTyped(releases) && DropsNothing(releases) ==> Readable(releases[i].schema, releases[j].schema)
  {
    AscendingIsDistinct(releases);
    ReleasesFormTable(releases);
    ReleasedExactly(releases);
    RequiredOnlyGrows(releases, i, j);
    ChainReadableExactly(releases, i, j);
    if AllTyped(releases) {
      if f in releases[i].schema.required {
        RequiredKeepsType(releases, i, j, f);
      }
      if DropsNothing(releases) {
        UndroppedIsReadable(releases, i, j);
      }
    }
  }

  const TEXT := Schema([], map["a" := Some(TString)])
  const NOTHING := Schema([], map[])
  const NUMBER := Schema([], map["a" := Some(TInteger)])

  /**
    Checking against the latest version only does not see a type that changes by way of a gap: under any
    three ascending versions these schemas are released, although the third could not follow the first.
  */
  lemma GapChangesType(releases: Table)
    requires Ascending(releases) && |releases| == 3
    requires releases[0].schema == TEXT && releases[1].schema == NOTHING && releases[2].schema == NUMBER
    ensures Released(releases) && AllTyped(releases)
    ensures !Readable(releases[0].schema, releases[2].schema)
    ensures !MayFollow(releases[0].schema, releases[2].schema)
  {
    GapClashes();
    GapFollows(releases);
    ReleasedExactly(releases);
  }

  lemma OnePart(parts: seq<string>)
    requires |parts| == 1
    ensures ParseAll(parts) == match ParseInt(parts[0]) case Some(a) => Some([a]) case None => None
  {
    assert parts[1..] == [];
    if ParseInt(parts[0]).Some? {
      assert [ParseInt(parts[0]).value] + [] == [ParseInt(parts[0]).value];
    }
  }

  lemma SingleDigit(version: string)
    requires Digit(version)
    ensures Tuple(version) == Some([version[0] as int - '0' as int])
  {
    assert version[..0] == "" && Split("") == [""] && "" + [version[0]] == version;
    assert Split(version) == [version];
    assert !IsSpace(version[0]) && Strip(version) == version;
    OnePart([version]);
  }

  predicate Digit(version: string) {
    |version| == 1 && '0' <= version[0] <= '9'
  }

  lemma LessOfSingles(a: int, b: int)
    ensures Less([a], [b]) <==> a < b
  {
    assert [a][1..] == [] && [b][1..] == [];
  }

  lemma DigitsAscend(v: string, w: string)
    requires Digit(v) && Digit(w) && v[0] < w[0]
    ensures Tuple(v).Some? && Tuple(w).Some? && Less(Tuple(v).value, Tuple(w).value)
  {
    SingleDigit(v);
    SingleDigit(w);
    LessOfSingles(v[0] as int - '0' as int, w[0] as int - '0' as int);
  }

  function Gap(u: string, v: string, w: string): Table {
    [Versioned(u, TEXT), Versioned(v, NOTHING), Versioned(w, NUMBER)]
  }

  /** Such releases exist: under versions 1, 2 and 3, say, or any three ascending digits. */
  lemma GapIsReleased(u: string, v: string, w: string)
    requires Digit(u) && Digit(v) && Digit(w) && u[0] < v[0] < w[0]
    ensures Released(Gap(u, v, w)) && AllTyped(Gap(u, v, w))
    ensures !Readable(TEXT, NUMBER) && !MayFollow(TEXT, NUMBER)
  {
    GapAscends(u, v, w);
    GapChangesType(Gap(u, v, w));
  }

  lemma ThreeAscend(releases: Table)
    requires |releases| == 3 && AllParse(releases)
    requires Less(Tuple(releases[0].version).value, Tuple(releases[1].version).value)
    requires Less(Tuple(releases[0].version).value, Tuple(releases[2].version).value)
    requires Less(Tuple(releases[1].version).value, Tuple(releases[2].version).value)
    ensures Ascending(releases)
  {}

  lemma GapAscends(u: string, v: string, w: string)
    requires Digit(u) && Digit(v) && Digit(w) && u[0] < v[0] < w[0]
    ensures Ascending(Gap(u, v, w))
  {
    DigitsAscend(u, v);
    DigitsAscend(u, w);
    DigitsAscend(v, w);
    ThreeAscend(Gap(u, v, w));
  }

  lemma GapFollows(releases: Table)
    requires |releases| == 3
    requires releases[0].schema == TEXT && releases[1].schema == NOTHING && releases[2].schema == NUMBER
    ensures Following(releases) && AllTyped(releases)
  {
    GapClashes();
  }

  lemma GapClashes()
    ensures MayFollow(TEXT, NOTHING) && MayFollow(NOTHING, NUMBER) && !MayFollow(TEXT, NUMBER)
    ensures !Readable(TEXT, NUMBER)
  {
    assert "a" in TEXT.properties && !Narrower(TInteger, TString);
    ReadableExactly(TEXT, NUMBER);
    assert TypeClash(TEXT, NUMBER, "a");
  }

  // ---------------------------------------------------------------------------------------------
  // The latest version and the order of registration

  /** Nothing else shares the highest tuple. */
  predicate UniqueTop(table: Table, k: nat)
    requires AllParse(table) && k < |table|
  {
    forall j :: 0 <= j < |table| && Tuple(table[j].version) == Tuple(table[k].version) ==> table[j] == table[k]
  }

  lemma MembersOfPermutation(table: Table, other: Table)
    requires multiset(table) == multiset(other)
    ensures forall e :: e in table <==> e in other
  {
    forall e
      ensures e in table <==> e in other
    {
      assert e in table <==> e in multiset(table);
      assert e in other <==> e in multiset(other);
    }
  }

  /** With a unique highest tuple, every order of registration yields the same latest version. */
  lemma LatestIgnoresOrder(table: Table, k: nat, other: Table, l: nat)
    requires IsLatest(table, k) && UniqueTop(table, k)
    requires multiset(other) == multiset(table) && IsLatest(other, l)
    ensures other[l] == table[k]
  {
    MembersOfPermutation(table, other);
    assert other[l] in table && table[k] in other;
    var i :| 0 <= i < |table| && table[i] == other[l];
    var j :| 0 <= j < |other| && other[j] == table[k];
    TrichotomyOfTuples(Tuple(table[k].version).value, Tuple(table[i].version).value);
  }

  /** Without one, the entry that is registered first wins, so the order decides. */
  lemma OrderDecidesTies(table: Table, k: nat, j: nat) returns (other: Table)
    requires IsLatest(table, k) && j < |table|
    requires Tuple(table[j].version) == Tuple(table[k].version) && table[j] != table[k]
    ensures multiset(other) == multiset(table) && IsLatest(other, 0) && other[0] != table[k]
  {
    other := [table[j]] + (table[..j] + table[j + 1..]);
    assert table == table[..j] + [table[j]] + table[j + 1..];
    MembersOfPermutation(table, other);
    forall i | 0 <= i < |other|
      ensures Tuple(other[i].version).Some?
      ensures !Less(Tuple(other[0].version).value, Tuple(other[i].version).value)
    {
      assert other[i] in table;
      var m :| 0 <= m < |table| && table[m] == other[i];
    }
  }

  /** `get_latest` does not depend on the order of registration exactly when one entry alone has the highest tuple. */
  lemma LatestOrderIndependentExactly(table: Table, k: nat)
    requires IsLatest(table, k)
    ensures UniqueTop(table, k) <==>
      forall other: Table, l: nat :: multiset(other) == multiset(table) && IsLatest(other, l) ==> other[l] == table[k]
  {
    if UniqueTop(table, k) {
      forall other: Table, l: nat | multiset(other) == multiset(table) && IsLatest(other, l)
        ensures other[l] == table[k]
      {
        LatestIgnoresOrder(table, k, other, l);
      }
    } else {
      var j: nat :| j < |table| && Tuple(table[j].version) == Tuple(table[k].version) && table[j] != table[k];
      var other := OrderDecidesTies(table, k, j);
    }
  }
}
