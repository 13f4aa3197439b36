/** JSON values: reading one by path, and equality that ignores the order of keys. */
module JsonValue {
  import opened Wrappers
  import JsonPath

  datatype Number = NaN | Infinite(negative: bool) | Finite(value: real)

  datatype Field = Field(key: string, value: Json)

  /** An object's own properties in insertion order. */
  datatype Json =
    | Null
    | Bool(flag: bool)
    | Num(number: Number)
    | Str(text: string)
    | Arr(items: seq<Json>)
    | Obj(fields: seq<Field>)

  function IndexOf(fields: seq<Field>, key: string): (i: nat)
    ensures i <= |fields| && (i < |fields| ==> fields[i].key == key)
    ensures forall j :: 0 <= j < i ==> fields[j].key != key
  {
    if fields == [] || fields[0].key == key then 0 else 1 + IndexOf(fields[1..], key)
  }

  predicate HasOwn(fields: seq<Field>, key: string) { IndexOf(fields, key) < |fields| }

  ghost predicate DistinctKeys(fields: seq<Field>) {
    forall i, j :: 0 <= i < j < |fields| ==> fields[i].key != fields[j].key
  }

  /** No object names a key twice, at any depth. */
  ghost predicate WellFormed(j: Json)
    decreases j
  {
    match j
    case Arr(items) => forall i :: 0 <= i < |items| ==> WellFormed(items[i])
    case Obj(fields) => DistinctKeys(fields) && forall i :: 0 <= i < |fields| ==> WellFormed(fields[i].value)
    case _ => true
  }

  /** `===` on values that are not objects. */
  predicate StrictlyEqual(a: Json, b: Json) {
    match (a, b)
    case (Null, Null) => true
    case (Bool(x), Bool(y)) => x == y
    case (Num(x), Num(y)) => x == y && !x.NaN?
    case (Str(x), Str(y)) => x == y
    case _ => false
  }

  predicate StructurallyEqual(a: Json, b: Json)
    decreases a
  {
    if StrictlyEqual(a, b) then true
    else if a.Num? && b.Num? then a.number.NaN? && b.number.NaN?
    else if a.Arr? || b.Arr? then
      a.Arr? && b.Arr? && |a.items| == |b.items|
      && forall i :: 0 <= i < |a.items| ==> StructurallyEqual(a.items[i], b.items[i])
    else if !a.Obj? || !b.Obj? then false
    else
      |a.fields| == |b.fields|
      && forall i :: 0 <= i < |a.fields| ==>
           HasOwn(b.fields, a.fields[i].key)
           && StructurallyEqual(a.fields[i].value, b.fields[IndexOf(b.fields, a.fields[i].key)].value)
  }

  // ---- What it decides ----

  /** A JSON value with objects as maps. */
  datatype Value =
    | VNull
    | VBool(flag: bool)
    | VNum(number: Number)
    | VStr(text: string)
    | VArr(items: seq<Value>)
    | VObj(fields: map<string, Value>)

  function Keys(fields: seq<Field>): set<string> { set i | 0 <= i < |fields| :: fields[i].key }

  function Denote(j: Json): Value
    decreases j
  {
    match j
    case Null => VNull
    case Bool(b) => VBool(b)
    case Num(n) => VNum(n)
    case Str(s) => VStr(s)
    case Arr(items) => VArr(seq(|items|, i requires 0 <= i < |items| => Denote(items[i])))
    case Obj(fields) => VObj(map k | k in Keys(fields) && HasOwn(fields, k) :: Denote(fields[IndexOf(fields, k)].value))
  }

  lemma KeysAreOwn(fields: seq<Field>, k: string)
    ensures k in Keys(fields) <==> HasOwn(fields, k)
  {
  }

  lemma OwnIndex(fields: seq<Field>, i: nat)
    requires DistinctKeys(fields) && i < |fields|
    ensures IndexOf(fields, fields[i].key) == i
  {
  }

  lemma {:induction false} KeysCount(fields: seq<Field>)
    requires DistinctKeys(fields)
    ensures |Keys(fields)| == |fields|
  {
    if fields != [] {
      var front, last := fields[..|fields| - 1], fields[|fields| - 1];
      KeysCount(front);
      assert Keys(fields) == Keys(front) + {last.key};
    }
  }

  /** As many keys on both sides, and every left key on the right: the key sets are equal. */
  lemma SameKeys(a: seq<Field>, b: seq<Field>)
    requires DistinctKeys(a) && DistinctKeys(b) && |a| == |b|
    requires forall i :: 0 <= i < |a| ==> HasOwn(b, a[i].key)
    ensures Keys(a) == Keys(b)
  {
    KeysCount(a);
    KeysCount(b);
    forall k | k in Keys(a)
      ensures k in Keys(b)
    {
      KeysAreOwn(b, k);
    }
    SubsetOfSameSize(Keys(a), Keys(b));
  }

  lemma SubsetOfSameSize<T>(a: set<T>, b: set<T>)
    requires a <= b && |a| == |b|
    ensures a == b
  {
    assert b == a + (b - a);
    assert b - a == {};
  }

  lemma DenoteField(fields: seq<Field>, i: nat)
    requires DistinctKeys(fields) && i < |fields|
    ensures fields[i].key in Denote(Obj(fields)).fields
    ensures Denote(Obj(fields)).fields[fields[i].key] == Denote(fields[i].value)
  {
    OwnIndex(fields, i);
    KeysAreOwn(fields, fields[i].key);
  }

  lemma DenoteKeys(fields: seq<Field>)
    ensures Denote(Obj(fields)).fields.Keys == Keys(fields)
  {
    forall k | k in Keys(fields)
      ensures HasOwn(fields, k)
    {
      KeysAreOwn(fields, k);
    }
  }

  /** The left value at `i` equals the right value under its key. */
  ghost predicate FieldAgrees(a: seq<Field>, b: seq<Field>, i: nat)
    requires i < |a|
  {
    HasOwn(b, a[i].key) && Denote(a[i].value) == Denote(b[IndexOf(b, a[i].key)].value)
  }

  lemma FieldOfMaps(a: seq<Field>, b: seq<Field>, i: nat)
    requires DistinctKeys(a) && DistinctKeys(b) && i < |a| && HasOwn(b, a[i].key)
    ensures var m, n, k := Denote(Obj(a)).fields, Denote(Obj(b)).fields, a[i].key;
            k in m && k in n && (FieldAgrees(a, b, i) <==> m[k] == n[k])
  {
    DenoteField(a, i);
    DenoteField(b, IndexOf(b, a[i].key));
  }

  lemma AgreeingMapsEqual(a: seq<Field>, b: seq<Field>)
    requires DistinctKeys(a) && DistinctKeys(b) && Keys(a) == Keys(b)
    requires forall i :: 0 <= i < |a| ==> FieldAgrees(a, b, i)
    ensures Denote(Obj(a)) == Denote(Obj(b))
  {
    var m, n := Denote(Obj(a)).fields, Denote(Obj(b)).fields;
    DenoteKeys(a);
    DenoteKeys(b);
    forall k | k in m
      ensures m[k] == n[k]
    {
      KeysAreOwn(a, k);
      FieldOfMaps(a, b, IndexOf(a, k));
    }
  }

  lemma EqualMapsAgree(a: seq<Field>, b: seq<Field>, i: nat)
    requires DistinctKeys(a) && DistinctKeys(b) && i < |a| && Denote(Obj(a)) == Denote(Obj(b))
    ensures FieldAgrees(a, b, i)
  {
    DenoteKeys(a);
    DenoteKeys(b);
    assert a[i].key in Keys(a);
    KeysAreOwn(b, a[i].key);
    FieldOfMaps(a, b, i);
  }

  lemma ObjectsEqual(a: seq<Field>, b: seq<Field>)
    ensures StructurallyEqual(Obj(a), Obj(b)) <==>
              |a| == |b| && forall i :: 0 <= i < |a| ==>
                HasOwn(b, a[i].key) && StructurallyEqual(a[i].value, b[IndexOf(b, a[i].key)].value)
  {
  }

  lemma EqualMapsEqualSize(a: seq<Field>, b: seq<Field>)
    requires DistinctKeys(a) && DistinctKeys(b) && Denote(Obj(a)) == Denote(Obj(b))
    ensures |a| == |b|
  {
    DenoteKeys(a);
    DenoteKeys(b);
    KeysCount(a);
    KeysCount(b);
  }

  lemma ObjectsEqualIff(a: seq<Field>, b: seq<Field>)
    requires DistinctKeys(a) && DistinctKeys(b)
    requires forall i, j :: 0 <= i < |a| && 0 <= j < |b| ==>
               (StructurallyEqual(a[i].value, b[j].value) <==> Denote(a[i].value) == Denote(b[j].value))
    ensures StructurallyEqual(Obj(a), Obj(b)) <==> Denote(Obj(a)) == Denote(Obj(b))
  {
    ObjectsEqual(a, b);
    if StructurallyEqual(Obj(a), Obj(b)) {
      SameKeys(a, b);
      AgreeingMapsEqual(a, b);
    }
    if Denote(Obj(a)) == Denote(Obj(b)) {
      EqualMapsEqualSize(a, b);
      forall i | 0 <= i < |a|
        ensures HasOwn(b, a[i].key) && StructurallyEqual(a[i].value, b[IndexOf(b, a[i].key)].value)
      {
        EqualMapsAgree(a, b, i);
      }
    }
  }

  lemma ArraysEqualIff(a: seq<Json>, b: seq<Json>)
    requires |a| == |b| ==>
               forall i :: 0 <= i < |a| ==> (StructurallyEqual(a[i], b[i]) <==> Denote(a[i]) == Denote(b[i]))
    ensures StructurallyEqual(Arr(a), Arr(b)) <==> Denote(Arr(a)) == Denote(Arr(b))
  {
    var x, y := Denote(Arr(a)).items, Denote(Arr(b)).items;
    assert |x| == |a| && |y| == |b|;
    assert forall i :: 0 <= i < |a| ==> x[i] == Denote(a[i]);
    assert forall i :: 0 <= i < |b| ==> y[i] == Denote(b[i]);
  }

  /** Structural equality holds exactly when the two values are equal with objects read as maps. */
  lemma {:induction false} EqualIffSameValue(a: Json, b: Json)
    requires WellFormed(a) && WellFormed(b)
    ensures StructurallyEqual(a, b) <==> Denote(a) == Denote(b)
    decreases a
  {
    if a.Arr? && b.Arr? {
      if |a.items| == |b.items| {
        forall i | 0 <= i < |a.items|
          ensures StructurallyEqual(a.items[i], b.items[i]) <==> Denote(a.items[i]) == Denote(b.items[i])
        {
          EqualIffSameValue(a.items[i], b.items[i]);
        }
      }
      ArraysEqualIff(a.items, b.items);
    } else if a.Obj? && b.Obj? {
      forall i, j | 0 <= i < |a.fields| && 0 <= j < |b.fields|
        ensures StructurallyEqual(a.fields[i].value, b.fields[j].value)
           <==> Denote(a.fields[i].value) == Denote(b.fields[j].value)
      {
        EqualIffSameValue(a.fields[i].value, b.fields[j].value);
      }
      ObjectsEqualIff(a.fields, b.fields);
    }
  }

  lemma IsEquivalence(a: Json, b: Json, c: Json)
    requires WellFormed(a) && WellFormed(b) && WellFormed(c)
    ensures StructurallyEqual(a, a)
    ensures StructurallyEqual(a, b) <==> StructurallyEqual(b, a)
    ensures StructurallyEqual(a, b) && StructurallyEqual(b, c) ==> StructurallyEqual(a, c)
  {
    EqualIffSameValue(a, a);
    EqualIffSameValue(a, b);
    EqualIffSameValue(b, a);
    EqualIffSameValue(b, c);
    EqualIffSameValue(a, c);
  }

  /** Putting an object's keys in another order gives an equal object. */
  lemma KeyOrderIsIgnored(a: seq<Field>, b: seq<Field>)
    requires WellFormed(Obj(a)) && WellFormed(Obj(b)) && multiset(a) == multiset(b)
    ensures StructurallyEqual(Obj(a), Obj(b))
  {
    assert |a| == |multiset(a)| == |multiset(b)| == |b|;
    forall i | 0 <= i < |a|
      ensures HasOwn(b, a[i].key) && StructurallyEqual(a[i].value, b[IndexOf(b, a[i].key)].value)
    {
      assert a[i] in multiset(b);
      var j :| 0 <= j < |b| && b[j] == a[i];
      OwnIndex(b, j);
      IsEquivalence(a[i].value, a[i].value, a[i].value);
    }
  }

  // ---- Reading by path ----

  /** One step: an array only by index, anything else only by its own keys. */
  function Walk1(current: Json, s: JsonPath.Segment): Option<Json> {
    match s
    case Name(name) =>
      if current.Obj? && HasOwn(current.fields, name) then Some(current.fields[IndexOf(current.fields, name)].value)
      else None
    case Index(index) => if current.Arr? && index < |current.items| then Some(current.items[index]) else None
  }

  function Walk(root: Json, segments: seq<JsonPath.Segment>): Option<Json> {
    if segments == [] then Some(root)
    else match Walk1(root, segments[0])
      case Some(next) => Walk(next, segments[1..])
      case None => None
  }

  function Read(root: Json, path: string): Option<Json> {
    match JsonPath.Parse(path)
    case Some(segments) => Walk(root, segments)
    case None => None
  }

  /** `w` is the member of `v` under that key, or the element of it at that index. */
  ghost predicate Child(v: Json, s: JsonPath.Segment, w: Json) {
    match s
    case Name(name) => v.Obj? && Field(name, w) in v.fields
    case Index(index) => v.Arr? && index < |v.items| && v.items[index] == w
  }

  /** A trail from the root, one child at a time. */
  ghost predicate Trail(root: Json, segments: seq<JsonPath.Segment>, trail: seq<Json>) {
    && |trail| == |segments| + 1 && trail[0] == root
    && forall i :: 0 <= i < |segments| ==> Child(trail[i], segments[i], trail[i + 1])
  }

  ghost predicate Leads(root: Json, segments: seq<JsonPath.Segment>, value: Json) {
    exists trail :: Trail(root, segments, trail) && trail[|segments|] == value
  }

  lemma ChildIsStep(v: Json, s: JsonPath.Segment, w: Json)
    requires WellFormed(v)
    ensures Child(v, s, w) <==> Walk1(v, s) == Some(w)
    ensures Child(v, s, w) ==> WellFormed(w)
  {
    if v.Obj? && s.Name? {
      if i :| 0 <= i < |v.fields| && v.fields[i] == Field(s.name, w) {
        OwnIndex(v.fields, i);
      }
    }
  }

  lemma LeadsOn(root: Json, segments: seq<JsonPath.Segment>, next: Json, value: Json)
    requires segments != [] && Child(root, segments[0], next) && Leads(next, segments[1..], value)
    ensures Leads(root, segments, value)
  {
    var trail :| Trail(next, segments[1..], trail) && trail[|segments| - 1] == value;
    var whole := [root] + trail;
    forall i | 0 <= i < |segments|
      ensures Child(whole[i], segments[i], whole[i + 1])
    {
      if i > 0 {
        assert Child(trail[i - 1], segments[1..][i - 1], trail[i - 1 + 1]);
      }
    }
    assert Trail(root, segments, whole);
  }

  lemma LeadsBack(root: Json, segments: seq<JsonPath.Segment>, value: Json) returns (next: Json)
    requires segments != [] && Leads(root, segments, value)
    ensures Child(root, segments[0], next) && Leads(next, segments[1..], value)
  {
    var trail :| Trail(root, segments, trail) && trail[|segments|] == value;
    next := trail[0 + 1];
    assert Child(trail[0], segments[0], trail[0 + 1]);
    forall i | 0 <= i < |segments| - 1
      ensures Child(trail[1..][i], segments[1..][i], trail[1..][i + 1])
    {
      assert Child(trail[i + 1], segments[i + 1], trail[i + 1 + 1]);
    }
    assert Trail(next, segments[1..], trail[1..]);
  }

  /** A lookup finds a value exactly when a trail of own members and elements in range leads to it. */
  lemma {:induction false} WalkFollows(root: Json, segments: seq<JsonPath.Segment>, value: Json)
    requires WellFormed(root)
    ensures Walk(root, segments) == Some(value) <==> Leads(root, segments, value)
    decreases |segments|
  {
    if segments == [] {
      assert Trail(root, [], [root]);
    } else {
      if Leads(root, segments, value) {
        var next := LeadsBack(root, segments, value);
        ChildIsStep(root, segments[0], next);
        WalkFollows(next, segments[1..], value);
      }
      if Walk(root, segments) == Some(value) {
        var next := Walk1(root, segments[0]).value;
        ChildIsStep(root, segments[0], next);
        WalkFollows(next, segments[1..], value);
        LeadsOn(root, segments, next, value);
      }
    }
  }

  /** The value at a path: the path is in the grammar, and its segments lead there. */
  ghost predicate IsAt(root: Json, path: string, value: Json) {
    var segments := JsonPath.Parse(path);
    segments.Some? && Leads(root, segments.value, value)
  }

  lemma ReadIsAt(root: Json, path: string, value: Json)
    requires WellFormed(root)
    ensures Read(root, path) == Some(value) <==> IsAt(root, path, value)
  {
    var segments := JsonPath.Parse(path);
    if segments.Some? {
      WalkFollows(root, segments.value, value);
    }
  }

  lemma IsAtIsWellFormed(root: Json, path: string, value: Json)
    requires WellFormed(root) && IsAt(root, path, value)
    ensures WellFormed(value)
  {
    LeadsToWellFormed(root, JsonPath.Parse(path).value, value);
  }

  lemma {:induction false} LeadsToWellFormed(root: Json, segments: seq<JsonPath.Segment>, value: Json)
    requires WellFormed(root) && Leads(root, segments, value)
    ensures WellFormed(value)
    decreases |segments|
  {
    if segments != [] {
      var next := LeadsBack(root, segments, value);
      ChildIsStep(root, segments[0], next);
      LeadsToWellFormed(next, segments[1..], value);
    }
  }

  method ReadJsonPath(root: Json, path: string) returns (r: Option<Json>)
    ensures r == Read(root, path)
  {
    var segments := JsonPath.ParseJsonPath(path);
    if segments.None? {
      return None;
    }
    var current := root;
    for i := 0 to |segments.value|
      invariant Walk(root, segments.value) == Walk(current, segments.value[i..])
    {
      var segment := segments.value[i];
      if segment.Name? {
        if current.Arr? || !current.Obj? || !HasOwn(current.fields, segment.name) {
          return None;
        }
        current := current.fields[IndexOf(current.fields, segment.name)].value;
      } else {
        if !current.Arr? || segment.index >= |current.items| {
          return None;
        }
        current := current.items[segment.index];
      }
    }
    r := Some(current);
  }

  /** Both missing, or both found and equal. */
  ghost predicate SameRead(x: Option<Json>, y: Option<Json>) {
    && x.Some? == y.Some?
    && (x.Some? ==> WellFormed(x.value) && WellFormed(y.value) && StructurallyEqual(x.value, y.value))
  }

  lemma StepSame(a: Json, b: Json, s: JsonPath.Segment)
    requires WellFormed(a) && WellFormed(b) && StructurallyEqual(a, b)
    ensures SameRead(Walk1(a, s), Walk1(b, s))
  {
    if a.Obj? && s.Name? {
      SameKeys(a.fields, b.fields);
      KeysAreOwn(a.fields, s.name);
      KeysAreOwn(b.fields, s.name);
    }
  }

  /** Equal values read equal along every path. */
  lemma {:induction false} EqualValuesReadEqual(a: Json, b: Json, segments: seq<JsonPath.Segment>)
    requires WellFormed(a) && WellFormed(b) && StructurallyEqual(a, b)
    ensures SameRead(Walk(a, segments), Walk(b, segments))
    decreases |segments|
  {
    if segments != [] {
      StepSame(a, b, segments[0]);
      if Walk1(a, segments[0]).Some? {
        EqualValuesReadEqual(Walk1(a, segments[0]).value, Walk1(b, segments[0]).value, segments[1..]);
      }
    }
  }

  /** No array is longer than 2^53. */
  ghost predicate ArraysFit(j: Json)
    decreases j
  {
    match j
    case Arr(items) => |items| <= JsonPath.TWO53 && forall i :: 0 <= i < |items| ==> ArraysFit(items[i])
    case Obj(fields) => forall i :: 0 <= i < |fields| ==> ArraysFit(fields[i].value)
    case _ => true
  }

  /** Rounding an index to a double never changes what is read: no array reaches where it starts. */
  lemma {:induction false} RoundingReadsTheSame(root: Json, segments: seq<JsonPath.Segment>)
    requires ArraysFit(root)
    ensures Walk(root, JsonPath.Doubled(segments)) == Walk(root, segments)
    decreases |segments|
  {
    if segments != [] {
      var s, d := segments[0], JsonPath.Doubled(segments);
      assert d[1..] == JsonPath.Doubled(segments[1..]);
      if s.Index? {
        JsonPath.SmallIsExact(s.index);
      }
      assert Walk1(root, d[0]) == Walk1(root, s);
      if Walk1(root, s).Some? {
        RoundingReadsTheSame(Walk1(root, s).value, segments[1..]);
      }
    }
  }
}
