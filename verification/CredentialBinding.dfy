/** The binding guard: two values have the same canonical form exactly when they agree up to the
  order of object keys, so comparing digests compares bindings. */
module CredentialBinding {

  /** Values as JSON can carry them; a date is known by its ISO text. */
  datatype Json =
    | Null
    | Bool(b: bool)
    | Num(n: real)
    | Str(s: string)
    | Date(iso: string)
    | Arr(items: seq<Json>)
    | Obj(fields: seq<(string, Json)>)

  // ---------------------------------------------------------------- key order

  /** Keys are sorted character by character. */
  predicate Less(a: string, b: string) {
    b != "" && (a == "" || a[0] < b[0] || (a[0] == b[0] && Less(a[1..], b[1..])))
  }

  lemma {:induction false} LessTotal(a: string, b: string)
    ensures Less(a, b) || Less(b, a) || a == b
    ensures !(Less(a, b) && Less(b, a)) && !(Less(a, b) && a == b)
  {
    if a != "" && b != "" {
      LessTotal(a[1..], b[1..]);
      assert a == [a[0]] + a[1..] && b == [b[0]] + b[1..];
    }
  }

  lemma {:induction false} LessTransitive(a: string, b: string, c: string)
    requires Less(a, b) && Less(b, c)
    ensures Less(a, c)
  {
    if a != "" && a[0] == b[0] && b[0] == c[0] { LessTransitive(a[1..], b[1..], c[1..]); }
  }

  /** Keys are in the order of a dictionary: by the first character in which they differ, and the
      shorter one first when there is none. */
  lemma {:induction false} LessIsLexicographic(a: string, b: string)
    ensures Less(a, b) <==> exists i :: 0 <= i <= |a| && i < |b| && a[..i] == b[..i] && (i == |a| || a[i] < b[i])
  {
    if a == "" {
      if b != "" { assert a[..0] == b[..0]; }
    } else if b != "" {
      LessIsLexicographic(a[1..], b[1..]);
      if a[0] < b[0] { assert a[..0] == b[..0]; }
      if a[0] == b[0] {
        if i :| 0 <= i <= |a[1..]| && i < |b[1..]| && a[1..][..i] == b[1..][..i] && (i == |a[1..]| || a[1..][i] < b[1..][i]) {
          assert a[..i + 1] == [a[0]] + a[1..][..i] && b[..i + 1] == [b[0]] + b[1..][..i];
        }
      }
      if i :| 0 <= i <= |a| && i < |b| && a[..i] == b[..i] && (i == |a| || a[i] < b[i]) {
        if i > 0 {
          assert a[0] == a[..i][0] == b[..i][0] == b[0];
          assert a[1..][..i - 1] == a[..i][1..] && b[1..][..i - 1] == b[..i][1..];
          assert i - 1 < |b[1..]| && (i - 1 == |a[1..]| || a[1..][i - 1] < b[1..][i - 1]);
        }
      }
    }
  }

  // ---------------------------------------------------------------- the canonical form

  type Fields = seq<(string, Json)>

  function Keys(fields: Fields): set<string> { set i | 0 <= i < |fields| :: fields[i].0 }

  predicate Distinct(fields: Fields) {
    forall i, j :: 0 <= i < j < |fields| ==> fields[i].0 != fields[j].0
  }

  /** No object has two fields of one name. */
  predicate WellFormed(v: Json) {
    match v
    case Arr(items) => forall i :: 0 <= i < |items| ==> WellFormed(items[i])
    case Obj(fields) => Distinct(fields) && forall i :: 0 <= i < |fields| ==> WellFormed(fields[i].1)
    case _ => true
  }

  function InsertField(fields: Fields, f: (string, Json)): Fields {
    if fields == [] || Less(f.0, fields[0].0) then [f] + fields
    else [fields[0]] + InsertField(fields[1..], f)
  }

  function SortFields(fields: Fields): Fields {
    if fields == [] then [] else InsertField(SortFields(fields[1..]), fields[0])
  }

  /** `canonicalize` */
  function Canonicalize(v: Json): Json
    decreases v, 1
  {
    match v
    case Date(iso) => Str(iso)
    case Arr(items) => Arr(seq(|items|, i requires 0 <= i < |items| => Canonicalize(items[i])))
    case Obj(fields) => Obj(SortFields(CanonicalFields(v)))
    case _ => v
  }

  function CanonicalFields(v: Json): (r: Fields)
    requires v.Obj?
    ensures |r| == |v.fields|
    ensures forall i :: 0 <= i < |r| ==> r[i] == (v.fields[i].0, Canonicalize(v.fields[i].1))
    decreases v, 0
  {
    seq(|v.fields|, i requires 0 <= i < |v.fields| => (v.fields[i].0, Canonicalize(v.fields[i].1)))
  }

  function TextOf(v: Json): Json { if v.Date? then Str(v.iso) else v }

  /** Agreement up to the order of object keys, defined without sorting anything. */
  predicate Agree(v: Json, w: Json)
    decreases v
  {
    match v
    case Arr(items) => w.Arr? && |items| == |w.items| && forall i :: 0 <= i < |items| ==> Agree(items[i], w.items[i])
    case Obj(fields) =>
      && w.Obj? && Keys(fields) == Keys(w.fields)
      && forall i, j :: 0 <= i < |fields| && 0 <= j < |w.fields| && fields[i].0 == w.fields[j].0 ==>
           Agree(fields[i].1, w.fields[j].1)
    case _ => TextOf(v) == TextOf(w)
  }

  // ---------------------------------------------------------------- sorting fields

  predicate Ascending(fields: Fields) {
    forall i, j :: 0 <= i < j < |fields| ==> Less(fields[i].0, fields[j].0)
  }

  lemma {:induction false} InsertKeepsMembers(fields: Fields, f: (string, Json))
    ensures forall p :: p in InsertField(fields, f) <==> p == f || p in fields
  {
    if fields != [] && !Less(f.0, fields[0].0) {
      InsertKeepsMembers(fields[1..], f);
      assert fields == [fields[0]] + fields[1..];
    }
  }

  lemma {:induction false} InsertKeepsAscending(fields: Fields, f: (string, Json))
    requires Ascending(fields) && forall p :: p in fields ==> p.0 != f.0
    ensures Ascending(InsertField(fields, f))
  {
    if fields == [] {
    } else if Less(f.0, fields[0].0) {
      forall j | 0 <= j < |fields| ensures Less(f.0, fields[j].0) {
        if j > 0 { LessTransitive(f.0, fields[0].0, fields[j].0); }
      }
    } else {
      var rest := fields[1..];
      assert fields[0] in fields && forall p :: p in rest ==> p in fields;
      LessTotal(f.0, fields[0].0);
      InsertKeepsAscending(rest, f);
      InsertKeepsMembers(rest, f);
      var r := InsertField(rest, f);
      forall j | 0 <= j < |r| ensures Less(fields[0].0, r[j].0) {
        assert r[j] in r;
        if r[j] in rest { var k :| 0 <= k < |rest| && rest[k] == r[j]; assert fields[k + 1] == r[j]; }
      }
    }
  }

  lemma {:induction false} SortIs(fields: Fields)
    requires Distinct(fields)
    ensures Ascending(SortFields(fields))
    ensures forall p :: p in SortFields(fields) <==> p in fields
  {
    if fields != [] {
      var rest := fields[1..];
      assert fields == [fields[0]] + rest;
      SortIs(rest);
      InsertKeepsMembers(SortFields(rest), fields[0]);
      forall p | p in SortFields(rest) ensures p.0 != fields[0].0 {
        var k :| 0 <= k < |rest| && rest[k] == p;
        assert fields[k + 1] == p;
      }
      InsertKeepsAscending(SortFields(rest), fields[0]);
    }
  }

  /** Fields in ascending order are determined by which fields there are. */
  lemma {:induction false} SameMembersSameOrder(a: Fields, b: Fields)
    requires Ascending(a) && Ascending(b) && forall p :: p in a <==> p in b
    ensures a == b
  {
    if a != [] || b != [] {
      NeitherEmpty(a, b);
      assert a[0] in b && b[0] in a;
      SameFirst(a, b);
      forall p ensures p in a[1..] <==> p in b[1..] {
        TailMembers(a, p);
        TailMembers(b, p);
      }
      SameMembersSameOrder(a[1..], b[1..]);
      assert a == [a[0]] + a[1..] && b == [b[0]] + b[1..];
    }
  }

  lemma NeitherEmpty(a: Fields, b: Fields)
    requires a != [] || b != []
    requires forall p :: p in a <==> p in b
    ensures a != [] && b != []
  {
    var p := if a != [] then a[0] else b[0];
    assert p in a && p in b;
  }

  lemma SameFirst(a: Fields, b: Fields)
    requires a != [] && b != [] && Ascending(a) && Ascending(b)
    requires a[0] in b && b[0] in a
    ensures a[0] == b[0]
  {
    LessTotal(a[0].0, b[0].0);
  }

  lemma TailMembers(a: Fields, p: (string, Json))
    requires a != [] && Ascending(a)
    ensures p in a[1..] <==> p in a && p != a[0]
  {
    LessTotal(a[0].0, a[0].0);
    assert a == [a[0]] + a[1..];
    forall i | 0 <= i < |a[1..]| ensures a[1..][i] != a[0] {
      assert a[1..][i] == a[i + 1] && Less(a[0].0, a[i + 1].0);
    }
  }

  lemma SortedSameIff(a: Fields, b: Fields)
    requires Distinct(a) && Distinct(b)
    ensures SortFields(a) == SortFields(b) <==> forall p :: p in a <==> p in b
  {
    SortIs(a);
    SortIs(b);
    if forall p :: p in a <==> p in b { SameMembersSameOrder(SortFields(a), SortFields(b)); }
  }

  // ---------------------------------------------------------------- canonical form decides equality

  /** Fields with distinct names are the same set of fields when they have the same names and agree
      wherever names agree. */
  lemma SameFieldsIff(a: Fields, b: Fields)
    requires Distinct(a) && Distinct(b)
    ensures (forall p :: p in a <==> p in b) <==>
      && Keys(a) == Keys(b)
      && forall i, j :: 0 <= i < |a| && 0 <= j < |b| && a[i].0 == b[j].0 ==> a[i].1 == b[j].1
  {
    if forall p :: p in a <==> p in b {
      forall k ensures k in Keys(a) <==> k in Keys(b) {
        if k in Keys(a) { var i :| 0 <= i < |a| && a[i].0 == k; assert a[i] in b; }
        if k in Keys(b) { var i :| 0 <= i < |b| && b[i].0 == k; assert b[i] in a; }
      }
      forall i, j | 0 <= i < |a| && 0 <= j < |b| && a[i].0 == b[j].0 ensures a[i].1 == b[j].1 {
        assert a[i] in b;
      }
    }
    if Keys(a) == Keys(b)
       && forall i, j :: 0 <= i < |a| && 0 <= j < |b| && a[i].0 == b[j].0 ==> a[i].1 == b[j].1
    {
      forall p ensures p in a <==> p in b {
        if p in a { var i :| 0 <= i < |a| && a[i] == p; assert p.0 in Keys(b); }
        if p in b { var j :| 0 <= j < |b| && b[j] == p; assert p.0 in Keys(a); }
      }
    }
  }

  /** The canonical forms of two values are equal exactly when the values agree up to the order of
      object keys, at every depth. */
  lemma {:induction false} CanonicalIff(v: Json, w: Json)
    requires WellFormed(v) && WellFormed(w)
    ensures Canonicalize(v) == Canonicalize(w) <==> Agree(v, w)
    decreases v
  {
    match v {
      case Arr(items) =>
        if w.Arr? && |items| == |w.items| {
          forall i | 0 <= i < |items|
            ensures Canonicalize(items[i]) == Canonicalize(w.items[i]) <==> Agree(items[i], w.items[i])
          {
            CanonicalIff(items[i], w.items[i]);
          }
          ArraysEqual(v, w);
        } else if w.Arr? {
          assert |Canonicalize(v).items| != |Canonicalize(w).items|;
        }
      case Obj(fields) =>
        if w.Obj? {
          forall i, j | 0 <= i < |fields| && 0 <= j < |w.fields|
            ensures Canonicalize(fields[i].1) == Canonicalize(w.fields[j].1) <==> Agree(fields[i].1, w.fields[j].1)
          {
            CanonicalIff(fields[i].1, w.fields[j].1);
          }
          ObjectsEqual(v, w);
        }
      case _ =>
    }
  }

  lemma ArraysEqual(v: Json, w: Json)
    requires v.Arr? && w.Arr? && |v.items| == |w.items|
    ensures Canonicalize(v) == Canonicalize(w) <==>
      forall i :: 0 <= i < |v.items| ==> Canonicalize(v.items[i]) == Canonicalize(w.items[i])
  {
    var a, b := Canonicalize(v).items, Canonicalize(w).items;
    assert forall i :: 0 <= i < |a| ==> a[i] == Canonicalize(v.items[i]);
    assert forall i :: 0 <= i < |b| ==> b[i] == Canonicalize(w.items[i]);
  }

  lemma ObjectsEqual(v: Json, w: Json)
    requires v.Obj? && w.Obj? && Distinct(v.fields) && Distinct(w.fields)
    ensures Canonicalize(v) == Canonicalize(w) <==>
      && Keys(v.fields) == Keys(w.fields)
      && forall i, j :: 0 <= i < |v.fields| && 0 <= j < |w.fields| && v.fields[i].0 == w.fields[j].0 ==>
           Canonicalize(v.fields[i].1) == Canonicalize(w.fields[j].1)
  {
    var a, b := CanonicalFields(v), CanonicalFields(w);
    SortedSameIff(a, b);
    SameFieldsIff(a, b);
    SameKeys(v.fields, a);
    SameKeys(w.fields, b);
  }

  lemma SameKeys(a: Fields, b: Fields)
    requires |a| == |b| && forall i :: 0 <= i < |a| ==> a[i].0 == b[i].0
    ensures Keys(a) == Keys(b)
  {
    forall k ensures k in Keys(a) <==> k in Keys(b) {
      if k in Keys(a) { var i :| 0 <= i < |a| && a[i].0 == k; assert b[i].0 == k; }
      if k in Keys(b) { var i :| 0 <= i < |b| && b[i].0 == k; assert a[i].0 == k; }
    }
  }

  // ---------------------------------------------------------------- the binding guard

  /** What of a credential the guard sees: a field may be missing. */
  type Credential = map<string, Json>

  const ANCHORS: seq<string> := ["credentialKey", "credentialGeneration"]

  const RESTORED: seq<string> := [
    "providerKey", "credentialMethodKey", "externalReference",
    "providerProfile", "providerConfigurationId", "oauthCredentialBinding"]

  function BindingFields(includeIdentityAnchors: bool): seq<string> {
    if includeIdentityAnchors then ANCHORS + RESTORED else RESTORED
  }

  /** A missing field counts as null. */
  function Field(c: Credential, name: string): Json { if name in c then c[name] else Null }

  function Projection(c: Credential, names: seq<string>): (v: Json)
    ensures v.Obj? && |v.fields| == |names|
    ensures forall i :: 0 <= i < |names| ==> v.fields[i] == (names[i], Field(c, names[i]))
  {
    Obj(seq(|names|, i requires 0 <= i < |names| => (names[i], Field(c, names[i]))))
  }

  /** `credentialBindingMatches`, with the digest of a canonical text as a parameter. */
  predicate Matches<D(==)>(digest: Json -> D, current: Credential, candidate: Credential, includeIdentityAnchors: bool) {
    var names := BindingFields(includeIdentityAnchors);
    digest(Canonicalize(Projection(current, names))) == digest(Canonicalize(Projection(candidate, names)))
  }

  ghost predicate Injective<D(!new)>(digest: Json -> D) {
    forall v, w :: digest(v) == digest(w) ==> v == w
  }

  predicate NoRepeats(names: seq<string>) { forall i, j :: 0 <= i < j < |names| ==> names[i] != names[j] }

  /** The names differ already in their lengths. */
  const LENGTHS: seq<nat> := [13, 20, 11, 19, 17, 15, 23, 22]

  lemma NameLengths()
    ensures forall i :: 0 <= i < 8 ==> |(ANCHORS + RESTORED)[i]| == LENGTHS[i]
    ensures forall i :: 0 <= i < 6 ==> |RESTORED[i]| == LENGTHS[i + 2]
  {
    forall i | 0 <= i < 6 ensures |RESTORED[i]| == LENGTHS[i + 2] {}
    forall i | 0 <= i < 2 ensures |ANCHORS[i]| == LENGTHS[i] {}
    forall i | 0 <= i < 8 ensures |(ANCHORS + RESTORED)[i]| == LENGTHS[i] {}
  }

  lemma LengthsDiffer()
    ensures forall i, j :: 0 <= i < j < 8 ==> LENGTHS[i] != LENGTHS[j]
  {}

  lemma FieldNamesDiffer(includeIdentityAnchors: bool)
    ensures NoRepeats(BindingFields(includeIdentityAnchors))
  {
    NameLengths();
    LengthsDiffer();
    var names := BindingFields(includeIdentityAnchors);
    var offset := if includeIdentityAnchors then 0 else 2;
    forall i, j | 0 <= i < j < |names| ensures names[i] != names[j] {
      assert |names[i]| == LENGTHS[i + offset] && |names[j]| == LENGTHS[j + offset];
    }
  }

  lemma ProjectionsAgreeIff(a: Credential, b: Credential, names: seq<string>)
    requires NoRepeats(names)
    ensures Agree(Projection(a, names), Projection(b, names)) <==>
      forall i :: 0 <= i < |names| ==> Agree(Field(a, names[i]), Field(b, names[i]))
  {
    var v, w := Projection(a, names), Projection(b, names);
    SameKeys(v.fields, w.fields);
    if Agree(v, w) {
      forall i | 0 <= i < |names| ensures Agree(Field(a, names[i]), Field(b, names[i])) {
        assert v.fields[i].0 == w.fields[i].0;
      }
    }
  }

  ghost predicate AgreeOn(current: Credential, candidate: Credential, name: string) {
    Agree(if name in current then current[name] else Null, if name in candidate then candidate[name] else Null)
  }

  ghost predicate SameBinding(current: Credential, candidate: Credential) {
    && AgreeOn(current, candidate, "providerKey") && AgreeOn(current, candidate, "credentialMethodKey")
    && AgreeOn(current, candidate, "externalReference") && AgreeOn(current, candidate, "providerProfile")
    && AgreeOn(current, candidate, "providerConfigurationId") && AgreeOn(current, candidate, "oauthCredentialBinding")
  }

  ghost predicate SameIdentity(current: Credential, candidate: Credential) {
    AgreeOn(current, candidate, "credentialKey") && AgreeOn(current, candidate, "credentialGeneration")
  }

  lemma NamedFieldsAgree(current: Credential, candidate: Credential, includeIdentityAnchors: bool)
    ensures var names := BindingFields(includeIdentityAnchors);
      (forall i :: 0 <= i < |names| ==> Agree(Field(current, names[i]), Field(candidate, names[i])))
      <==> SameBinding(current, candidate) && (includeIdentityAnchors ==> SameIdentity(current, candidate))
  {
    var names, offset := BindingFields(includeIdentityAnchors), if includeIdentityAnchors then 2 else 0;
    assert forall name :: Agree(Field(current, name), Field(candidate, name)) <==> AgreeOn(current, candidate, name);
    assert |names| == offset + 6;
    assert names[offset] == "providerKey" && names[offset + 1] == "credentialMethodKey";
    assert names[offset + 2] == "externalReference" && names[offset + 3] == "providerProfile";
    assert names[offset + 4] == "providerConfigurationId" && names[offset + 5] == "oauthCredentialBinding";
    if includeIdentityAnchors { assert names[0] == "credentialKey" && names[1] == "credentialGeneration"; }
  }

  /** The guard lets an update pass exactly when the six binding fields and, if identity anchors are
      included, the two identity fields agree up to the order of object keys; a missing field
      counts as null. */
  lemma MatchesIff<D(!new)>(digest: Json -> D, current: Credential, candidate: Credential, includeIdentityAnchors: bool)
    requires Injective(digest)
    requires forall k :: k in current ==> WellFormed(current[k])
    requires forall k :: k in candidate ==> WellFormed(candidate[k])
    ensures Matches(digest, current, candidate, includeIdentityAnchors) <==>
      SameBinding(current, candidate) && (includeIdentityAnchors ==> SameIdentity(current, candidate))
  {
    var names := BindingFields(includeIdentityAnchors);
    FieldNamesDiffer(includeIdentityAnchors);
    CanonicalIff(Projection(current, names), Projection(candidate, names));
    ProjectionsAgreeIff(current, candidate, names);
    NamedFieldsAgree(current, candidate, includeIdentityAnchors);
  }
}
