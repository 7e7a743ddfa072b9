/**
  sdk/gentool/util.js and sdk/gentool/generator-cxx.js: what the generated operator==, std::hash and copy
  constructor of an interface compute, on objects whose members may be other generated classes, held
  by value or by shared pointer.
 */
module GeneratedOps {
  import opened Wrappers

  // ---------- Interfaces ----------

  type ClassName = string

  datatype Kind = Primitive | Class(name: ClassName) | ClassPtr(name: ClassName)

  datatype Property = Property(kind: Kind, isStatic: bool, partOfIdentity: bool, hasMemberVar: bool, hasGetter: bool)

  datatype Interface = Interface(properties: seq<Property>, copyable: bool)

  type Classes = map<ClassName, Interface>

  predicate IsCompared(p: Property) {
    !p.isStatic && p.partOfIdentity && (p.hasMemberVar || p.hasGetter)
  }

  /** The positions of the compared properties among the first `n`. */
  function ComparedUpTo(i: Interface, n: nat): (r: seq<nat>)
    requires n <= |i.properties|
    ensures forall k | k in r :: k < n && IsCompared(i.properties[k])
    ensures forall k: nat | k < n && IsCompared(i.properties[k]) :: k in r
  {
    if n == 0 then [] else ComparedUpTo(i, n - 1) + if IsCompared(i.properties[n - 1]) then [n - 1] else []
  }

  function Compared(i: Interface): seq<nat> {
    ComparedUpTo(i, |i.properties|)
  }

  lemma {:induction false} ComparedAscends(i: Interface, n: nat)
    requires n <= |i.properties|
    ensures forall j, k | 0 <= j < k < |ComparedUpTo(i, n)| :: ComparedUpTo(i, n)[j] < ComparedUpTo(i, n)[k]
  {
    if n > 0 {
      ComparedAscends(i, n - 1);
      var before, r := ComparedUpTo(i, n - 1), ComparedUpTo(i, n);
      forall j, k | 0 <= j < k < |r|
        ensures r[j] < r[k]
      {
        if k < |before| {
          assert r[k] == before[k] && r[j] == before[j];
        } else {
          assert r[k] == n - 1 && r[j] in before;
        }
      }
    }
  }

  datatype ComparedProperty = ComparedProperty(position: nat, useGetter: bool)

  method MakeEqualityOperatorComparedProperties(i: Interface) returns (r: seq<ComparedProperty>)
    ensures |r| == |Compared(i)|
    ensures forall k | 0 <= k < |r| :: r[k].position == Compared(i)[k]
    ensures forall c | c in r :: c.position < |i.properties| && c.useGetter == !i.properties[c.position].hasMemberVar
    ensures forall j, k | 0 <= j < k < |r| :: r[j].position < r[k].position
    ensures forall n | 0 <= n < |i.properties| ::
      (exists k :: 0 <= k < |r| && r[k].position == n) <==>
        var p := i.properties[n]; !p.isStatic && p.partOfIdentity && (p.hasMemberVar || p.hasGetter)
  {
    ComparedAscends(i, |i.properties|);
    r := [];
    var n := 0;
    while n < |i.properties|
      invariant 0 <= n <= |i.properties|
      invariant |r| == |ComparedUpTo(i, n)|
      invariant forall k | 0 <= k < |r| :: r[k].position == ComparedUpTo(i, n)[k]
      invariant forall c | c in r :: c.position < |i.properties| && c.useGetter == !i.properties[c.position].hasMemberVar
    {
      var p := i.properties[n];
      n := n + 1;
      if !p.isStatic && p.partOfIdentity {
        if p.hasMemberVar {
          r := r + [ComparedProperty(n - 1, false)];
        } else if p.hasGetter {
          r := r + [ComparedProperty(n - 1, true)];
        }
      }
    }
    assert forall k | 0 <= k < |r| :: Compared(i)[k] in Compared(i);
    forall m | 0 <= m < |i.properties| && IsCompared(i.properties[m])
      ensures exists k :: 0 <= k < |r| && r[k].position == m
    {
      assert m in Compared(i);
      var k :| 0 <= k < |Compared(i)| && Compared(i)[k] == m;
      assert r[k].position == m;
    }
  }

  /** What is hashed is read like what is compared, and hashed by its type's hasher. */
  datatype HashedProperty = HashedProperty(position: nat, useGetter: bool, hasher: Kind)

  method MakeHashOperatorHashedProperties(i: Interface, compared: seq<ComparedProperty>) returns (r: seq<HashedProperty>)
    requires forall c | c in compared :: c.position < |i.properties|
    ensures |r| == |compared|
    ensures forall k | 0 <= k < |r| ::
      r[k] == HashedProperty(compared[k].position, compared[k].useGetter, i.properties[compared[k].position].kind)
  {
    r := [];
    var n := 0;
    while n < |compared|
      invariant 0 <= n <= |compared| && |r| == n
      invariant forall k | 0 <= k < n ::
        r[k] == HashedProperty(compared[k].position, compared[k].useGetter, i.properties[compared[k].position].kind)
    {
      assert compared[n] in compared;
      var p := compared[n];
      r := r + [HashedProperty(p.position, p.useGetter, i.properties[p.position].kind)];
      n := n + 1;
    }
  }

  // ---------- Objects ----------

  datatype Float = NaN | Zero(negative: bool) | Number(value: real)

  datatype Scalar = Int(i: int) | Float(f: Float) | Bool(b: bool) | Text(s: string)

  datatype Value = Scalar(scalar: Scalar) | Member(object_: Object) | Shared(target: Option<Object>)

  /** One value per property: that of the member variable or, without one, what the getter returns. */
  datatype Object = Object(class_: ClassName, address: nat, values: seq<Value>)

  predicate WellTyped(classes: Classes, o: Object)
    decreases o
  {
    && o.class_ in classes
    && |o.values| == |classes[o.class_].properties|
    && forall k | 0 <= k < |o.values| :: Fits(classes, o.values[k], classes[o.class_].properties[k].kind)
  }

  predicate Fits(classes: Classes, v: Value, kind: Kind)
    decreases v
  {
    match v
    case Scalar(_) => kind.Primitive?
    case Member(o) => kind == Class(o.class_) && WellTyped(classes, o)
    case Shared(None) => kind.ClassPtr?
    case Shared(Some(o)) => kind == ClassPtr(o.class_) && WellTyped(classes, o)
  }

  // ---------- operator== ----------

  /** == on floating-point numbers: NaN equals nothing, and the two zeros are equal. */
  predicate ScalarEq(a: Scalar, b: Scalar) {
    if a.Float? && b.Float? then
      !a.f.NaN? && !b.f.NaN? && (a.f == b.f || (a.f.Zero? && b.f.Zero?))
    else a == b
  }

  predicate OperatorEq(classes: Classes, a: Object, b: Object)
    requires WellTyped(classes, a) && WellTyped(classes, b) && a.class_ == b.class_
    decreases a
  {
    var i := classes[a.class_];
    if !i.copyable then a.address == b.address
    else forall k | k in Compared(i) :: PropertyEq(classes, a.values[k], b.values[k], i.properties[k].kind)
  }

  predicate PropertyEq(classes: Classes, v: Value, w: Value, kind: Kind)
    requires Fits(classes, v, kind) && Fits(classes, w, kind)
    decreases v
  {
    match kind
    case Primitive => ScalarEq(v.scalar, w.scalar)
    case Class(_) => OperatorEq(classes, v.object_, w.object_)
    case ClassPtr(_) => v.target.Some? == w.target.Some? && (v.target.None? || OperatorEq(classes, v.target.value, w.target.value))
  }

  /**
    What the generated operator compares: addresses when the class cannot be copied, and otherwise each property
    of the identity. Numbers are compared as numbers, members by their own operator, and pointers by what they
    point to.
   */
  lemma EqualIffPropertiesAre(classes: Classes, a: Object, b: Object)
    requires WellTyped(classes, a) && WellTyped(classes, b) && a.class_ == b.class_
    ensures var i := classes[a.class_];
      OperatorEq(classes, a, b) <==>
        if !i.copyable then a.address == b.address
        else forall k | 0 <= k < |i.properties| ::
          var p := i.properties[k];
          !p.isStatic && p.partOfIdentity && (p.hasMemberVar || p.hasGetter) ==> SameProperty(classes, a.values[k], b.values[k])
  {
    var i := classes[a.class_];
    forall k | 0 <= k < |i.properties|
      ensures Fits(classes, a.values[k], i.properties[k].kind) && Fits(classes, b.values[k], i.properties[k].kind)
      ensures PropertyEq(classes, a.values[k], b.values[k], i.properties[k].kind) == SameProperty(classes, a.values[k], b.values[k])
    {
    }
  }

  /** Two values of one property, compared as C++ compares them. */
  ghost predicate SameProperty(classes: Classes, v: Value, w: Value) {
    match (v, w)
    case (Scalar(Float(Zero(_))), Scalar(Float(Zero(_)))) => true
    case (Scalar(s), Scalar(t)) => s == t && s != Scalar.Float(NaN)
    case (Member(o), Member(p)) => WellTyped(classes, o) && WellTyped(classes, p) && o.class_ == p.class_ && OperatorEq(classes, o, p)
    case (Shared(None), Shared(None)) => true
    case (Shared(Some(o)), Shared(Some(p))) => WellTyped(classes, o) && WellTyped(classes, p) && o.class_ == p.class_ && OperatorEq(classes, o, p)
    case _ => false
  }

  // ---------- std::hash ----------

  /** The library's hash functions: of scalars, which agree on equal ones, and of addresses. */
  datatype Hashes = Hashes(scalar: Scalar -> bv64, pointer: nat -> bv64)

  ghost predicate AgreesWithEq(hashes: Hashes) {
    forall a, b | ScalarEq(a, b) :: hashes.scalar(a) == hashes.scalar(b)
  }

  function Mix(result: bv64, hash: bv64): bv64 {
    result ^ (hash + 0x9e3779b9 + (result << 6) + (result >> 2))
  }

  function HashOf(classes: Classes, hashes: Hashes, o: Object): bv64
    requires WellTyped(classes, o)
    decreases o, 1, 0
  {
    var i := classes[o.class_];
    if !i.copyable then hashes.pointer(o.address) else HashFirst(classes, hashes, o, |Compared(i)|)
  }

  /** The result after the first `n` hashed properties. */
  function HashFirst(classes: Classes, hashes: Hashes, o: Object, n: nat): bv64
    requires WellTyped(classes, o) && n <= |Compared(classes[o.class_])|
    decreases o, 0, n
  {
    if n == 0 then 0
    else
      var k := Compared(classes[o.class_])[n - 1];
      assert k in Compared(classes[o.class_]);
      Mix(HashFirst(classes, hashes, o, n - 1), PropertyHash(classes, hashes, o.values[k], classes[o.class_].properties[k].kind))
  }

  function PropertyHash(classes: Classes, hashes: Hashes, v: Value, kind: Kind): bv64
    requires Fits(classes, v, kind)
    decreases v, 2, 0
  {
    match kind
    case Primitive => hashes.scalar(v.scalar)
    case Class(_) => HashOf(classes, hashes, v.object_)
    case ClassPtr(_) => if v.target.Some? then HashOf(classes, hashes, v.target.value) else 0
  }

  /**
    The hash is the address's for a class that cannot be copied. Otherwise it starts at 0 and takes in one
    compared property after the other, with 64-bit additions, shifts and exclusive or.
   */
  lemma HashTakesInEach(classes: Classes, hashes: Hashes, o: Object, n: nat)
    requires WellTyped(classes, o) && n < |Compared(classes[o.class_])|
    ensures var i := classes[o.class_];
      && HashOf(classes, hashes, o) == (if !i.copyable then hashes.pointer(o.address) else HashFirst(classes, hashes, o, |Compared(i)|))
      && HashFirst(classes, hashes, o, 0) == 0
      && var k, before := Compared(i)[n], HashFirst(classes, hashes, o, n);
         && k < |o.values| && Fits(classes, o.values[k], i.properties[k].kind)
         && TakesIn(before, PropertyHash(classes, hashes, o.values[k], i.properties[k].kind), HashFirst(classes, hashes, o, n + 1))
  {
    var i := classes[o.class_];
    var k := Compared(i)[n];
    assert k in Compared(i);
    MixIs(HashFirst(classes, hashes, o, n), PropertyHash(classes, hashes, o.values[k], i.properties[k].kind));
    hide Mix, TakesIn, Compared, PropertyHash;
  }

  /** The combination of hashes that the generated code uses. */
  ghost predicate TakesIn(before: bv64, hash: bv64, after: bv64) {
    after == before ^ (hash + 0x9e3779b9 + (before << 6) + (before >> 2))
  }

  lemma MixIs(result: bv64, hash: bv64)
    ensures TakesIn(result, hash, Mix(result, hash))
  {
  }

  /** The emitted hasher, from the generator's two lists on. */
  method HashOperator(classes: Classes, hashes: Hashes, o: Object) returns (result: bv64)
    requires WellTyped(classes, o)
    ensures result == HashOf(classes, hashes, o)
  {
    hide Mix;
    var i := classes[o.class_];
    if !i.copyable {
      return hashes.pointer(o.address);
    }
    var compared := MakeEqualityOperatorComparedProperties(i);
    var hashed := MakeHashOperatorHashedProperties(i, compared);
    result := 0;
    var n := 0;
    while n < |hashed|
      invariant 0 <= n <= |hashed| == |Compared(i)|
      invariant result == HashFirst(classes, hashes, o, n)
    {
      assert Compared(i)[n] in Compared(i);
      result := Mix(result, PropertyHash(classes, hashes, o.values[hashed[n].position], hashed[n].hasher));
      n := n + 1;
    }
  }

  // ---------- Copies ----------

  /** The property is a member variable of each object. */
  predicate IsHeld(p: Property) {
    p.hasMemberVar && !p.isStatic
  }

  /**
    `b` is a copy of `a` by the generated copy constructor, defaulted or not, made when all addresses
    from `next` on were free: scalars are copied, members copy-constructed, and pointers replaced by
    pointers to new copies of what they point to, for which they must not be null. Properties without
    a member variable are up to their getters.
   */
  predicate IsCopy(classes: Classes, next: nat, a: Object, b: Object)
    requires WellTyped(classes, a) && WellTyped(classes, b)
    decreases a
  {
    && a.class_ == b.class_
    && classes[a.class_].copyable
    && forall k | 0 <= k < |a.values| && IsHeld(classes[a.class_].properties[k]) ::
         ValueCopied(classes, next, a.values[k], b.values[k], classes[a.class_].properties[k].kind)
  }

  predicate ValueCopied(classes: Classes, next: nat, v: Value, w: Value, kind: Kind)
    requires Fits(classes, v, kind) && Fits(classes, w, kind)
    decreases v
  {
    match kind
    case Primitive => v == w
    case Class(_) => IsCopy(classes, next, v.object_, w.object_)
    case ClassPtr(_) =>
      v.target.Some? && w.target.Some? && w.target.value.address >= next && IsCopy(classes, next, v.target.value, w.target.value)
  }

  /** The addresses of the objects that an object points to, directly or through others. */
  ghost function Targets(classes: Classes, o: Object): set<nat>
    requires WellTyped(classes, o)
    decreases o
  {
    set k, p | 0 <= k < |o.values| && IsHeld(classes[o.class_].properties[k]) && p in TargetsIn(classes, o.values[k], classes[o.class_].properties[k].kind) :: p
  }

  ghost function TargetsIn(classes: Classes, v: Value, kind: Kind): set<nat>
    requires Fits(classes, v, kind)
    decreases v
  {
    match kind
    case Primitive => {}
    case Class(_) => Targets(classes, v.object_)
    case ClassPtr(_) => if v.target.Some? then {v.target.value.address} + Targets(classes, v.target.value) else {}
  }

  // ---------- Equality is an equivalence ----------

  /** No NaN where operator== looks. */
  predicate NoNaN(classes: Classes, o: Object)
    requires WellTyped(classes, o)
    decreases o
  {
    var i := classes[o.class_];
    i.copyable ==> forall k | k in Compared(i) :: NoNaNIn(classes, o.values[k], i.properties[k].kind)
  }

  predicate NoNaNIn(classes: Classes, v: Value, kind: Kind)
    requires Fits(classes, v, kind)
    decreases v
  {
    match v
    case Scalar(s) => s != Scalar.Float(NaN)
    case Member(o) => NoNaN(classes, o)
    case Shared(None) => true
    case Shared(Some(o)) => NoNaN(classes, o)
  }

  /** operator== is reflexive exactly on the objects in which it looks at no NaN. */
  lemma {:induction false} ReflexiveIffNoNaN(classes: Classes, o: Object)
    requires WellTyped(classes, o)
    ensures OperatorEq(classes, o, o) <==> NoNaN(classes, o)
    decreases o
  {
    var i := classes[o.class_];
    forall k | k in Compared(i)
      ensures PropertyEq(classes, o.values[k], o.values[k], i.properties[k].kind) <==> NoNaNIn(classes, o.values[k], i.properties[k].kind)
    {
      match o.values[k]
      case Scalar(_) =>
      case Member(m) => ReflexiveIffNoNaN(classes, m);
      case Shared(None) =>
      case Shared(Some(m)) => ReflexiveIffNoNaN(classes, m);
    }
  }

  lemma {:induction false} Symmetric(classes: Classes, a: Object, b: Object)
    requires WellTyped(classes, a) && WellTyped(classes, b) && a.class_ == b.class_
    ensures OperatorEq(classes, a, b) <==> OperatorEq(classes, b, a)
    decreases a
  {
    var i := classes[a.class_];
    forall k | k in Compared(i)
      ensures PropertyEq(classes, a.values[k], b.values[k], i.properties[k].kind)
         <==> PropertyEq(classes, b.values[k], a.values[k], i.properties[k].kind)
    {
      var v, w := a.values[k], b.values[k];
      match i.properties[k].kind
      case Primitive =>
      case Class(_) => Symmetric(classes, v.object_, w.object_);
      case ClassPtr(_) => if v.target.Some? && w.target.Some? { Symmetric(classes, v.target.value, w.target.value); }
    }
  }

  lemma {:induction false} Transitive(classes: Classes, a: Object, b: Object, c: Object)
    requires WellTyped(classes, a) && WellTyped(classes, b) && WellTyped(classes, c) && a.class_ == b.class_ == c.class_
    requires OperatorEq(classes, a, b) && OperatorEq(classes, b, c)
    ensures OperatorEq(classes, a, c)
    decreases a
  {
    var i := classes[a.class_];
    if i.copyable {
      forall k | k in Compared(i)
        ensures PropertyEq(classes, a.values[k], c.values[k], i.properties[k].kind)
      {
        var v, w, x := a.values[k], b.values[k], c.values[k];
        assert PropertyEq(classes, v, w, i.properties[k].kind) && PropertyEq(classes, w, x, i.properties[k].kind);
        match i.properties[k].kind
        case Primitive =>
        case Class(_) => Transitive(classes, v.object_, w.object_, x.object_);
        case ClassPtr(_) => if v.target.Some? { Transitive(classes, v.target.value, w.target.value, x.target.value); }
      }
    }
  }

  // ---------- Equal objects hash equal ----------

  lemma {:induction false} EqualHashEqual(classes: Classes, hashes: Hashes, a: Object, b: Object)
    requires WellTyped(classes, a) && WellTyped(classes, b) && a.class_ == b.class_
    requires AgreesWithEq(hashes) && OperatorEq(classes, a, b)
    ensures HashOf(classes, hashes, a) == HashOf(classes, hashes, b)
    decreases a, 1, 0
  {
    var i := classes[a.class_];
    if i.copyable {
      EqualHashFirst(classes, hashes, a, b, |Compared(i)|);
    }
  }

  lemma {:induction false} EqualHashFirst(classes: Classes, hashes: Hashes, a: Object, b: Object, n: nat)
    requires WellTyped(classes, a) && WellTyped(classes, b) && a.class_ == b.class_ && classes[a.class_].copyable
    requires AgreesWithEq(hashes) && OperatorEq(classes, a, b) && n <= |Compared(classes[a.class_])|
    ensures HashFirst(classes, hashes, a, n) == HashFirst(classes, hashes, b, n)
    decreases a, 0, n
  {
    hide Mix, AgreesWithEq;
    if n > 0 {
      var i := classes[a.class_];
      var k := Compared(i)[n - 1];
      assert k in Compared(i);
      EqualHashFirst(classes, hashes, a, b, n - 1);
      EqualPropertyHash(classes, hashes, a.values[k], b.values[k], i.properties[k].kind);
    }
  }

  lemma {:induction false} EqualPropertyHash(classes: Classes, hashes: Hashes, v: Value, w: Value, kind: Kind)
    requires Fits(classes, v, kind) && Fits(classes, w, kind) && PropertyEq(classes, v, w, kind) && AgreesWithEq(hashes)
    ensures PropertyHash(classes, hashes, v, kind) == PropertyHash(classes, hashes, w, kind)
    decreases v, 2, 0
  {
    match kind
    case Primitive => assert ScalarEq(v.scalar, w.scalar);
    case Class(_) => EqualHashEqual(classes, hashes, v.object_, w.object_);
    case ClassPtr(_) => if v.target.Some? { EqualHashEqual(classes, hashes, v.target.value, w.target.value); }
  }

  // ---------- A copy equals its source ----------

  lemma {:induction false} EqualHasNoNaN(classes: Classes, a: Object, b: Object)
    requires WellTyped(classes, a) && WellTyped(classes, b) && a.class_ == b.class_ && OperatorEq(classes, a, b)
    ensures NoNaN(classes, a)
    decreases a
  {
    var i := classes[a.class_];
    if i.copyable {
      forall k | k in Compared(i)
        ensures NoNaNIn(classes, a.values[k], i.properties[k].kind)
      {
        EqualValueHasNoNaN(classes, a.values[k], b.values[k], i.properties[k].kind);
      }
    }
  }

  lemma {:induction false} EqualValueHasNoNaN(classes: Classes, v: Value, w: Value, kind: Kind)
    requires Fits(classes, v, kind) && Fits(classes, w, kind) && PropertyEq(classes, v, w, kind)
    ensures NoNaNIn(classes, v, kind)
    decreases v
  {
    match kind
    case Primitive =>
    case Class(_) => EqualHasNoNaN(classes, v.object_, w.object_);
    case ClassPtr(_) => if v.target.Some? { EqualHasNoNaN(classes, v.target.value, w.target.value); }
  }

  /** Where a compared property has no member variable, at any depth, the getters of both give equal values. */
  predicate GettersAgree(classes: Classes, a: Object, b: Object)
    requires WellTyped(classes, a) && WellTyped(classes, b) && a.class_ == b.class_
    decreases a
  {
    var i := classes[a.class_];
    forall k | k in Compared(i) ::
      if i.properties[k].hasMemberVar then GettersAgreeIn(classes, a.values[k], b.values[k], i.properties[k].kind)
      else PropertyEq(classes, a.values[k], b.values[k], i.properties[k].kind)
  }

  predicate GettersAgreeIn(classes: Classes, v: Value, w: Value, kind: Kind)
    requires Fits(classes, v, kind) && Fits(classes, w, kind)
    decreases v
  {
    match kind
    case Primitive => true
    case Class(_) => GettersAgree(classes, v.object_, w.object_)
    case ClassPtr(_) => v.target.Some? && w.target.Some? ==> GettersAgree(classes, v.target.value, w.target.value)
  }

  /**
    A generated copy equals its source exactly when operator== meets no NaN in the source and what it
    reads through getters agrees: nested members and pointed-to objects are copied deeply enough.
   */
  lemma {:induction false} CopyEqualsIffNoNaN(classes: Classes, next: nat, a: Object, b: Object)
    requires WellTyped(classes, a) && WellTyped(classes, b) && IsCopy(classes, next, a, b)
    ensures OperatorEq(classes, a, b) <==> NoNaN(classes, a) && GettersAgree(classes, a, b)
    decreases a
  {
    var i := classes[a.class_];
    forall k | k in Compared(i)
      ensures PropertyEq(classes, a.values[k], b.values[k], i.properties[k].kind) <==>
        && NoNaNIn(classes, a.values[k], i.properties[k].kind)
        && if i.properties[k].hasMemberVar then GettersAgreeIn(classes, a.values[k], b.values[k], i.properties[k].kind)
           else PropertyEq(classes, a.values[k], b.values[k], i.properties[k].kind)
    {
      var v, w := a.values[k], b.values[k];
      if IsHeld(i.properties[k]) {
        assert ValueCopied(classes, next, v, w, i.properties[k].kind);
        CopiedValueEquals(classes, next, v, w, i.properties[k].kind);
      } else if PropertyEq(classes, v, w, i.properties[k].kind) {
        EqualValueHasNoNaN(classes, v, w, i.properties[k].kind);
      }
    }
  }

  lemma {:induction false} CopiedValueEquals(classes: Classes, next: nat, v: Value, w: Value, kind: Kind)
    requires Fits(classes, v, kind) && Fits(classes, w, kind) && ValueCopied(classes, next, v, w, kind)
    ensures PropertyEq(classes, v, w, kind) <==> NoNaNIn(classes, v, kind) && GettersAgreeIn(classes, v, w, kind)
    decreases v
  {
    match kind
    case Primitive =>
    case Class(_) => CopyEqualsIffNoNaN(classes, next, v.object_, w.object_);
    case ClassPtr(_) => CopyEqualsIffNoNaN(classes, next, v.target.value, w.target.value);
  }

  // ---------- A copy is deep ----------

  lemma {:induction false} CopyPointsToNew(classes: Classes, next: nat, a: Object, b: Object)
    requires WellTyped(classes, a) && WellTyped(classes, b) && IsCopy(classes, next, a, b)
    ensures forall p | p in Targets(classes, b) :: p >= next
    decreases a
  {
    var i := classes[a.class_];
    forall k, p | 0 <= k < |b.values| && IsHeld(i.properties[k]) && p in TargetsIn(classes, b.values[k], i.properties[k].kind)
      ensures p >= next
    {
      var v, w := a.values[k], b.values[k];
      assert ValueCopied(classes, next, v, w, i.properties[k].kind);
      CopiedValuePointsToNew(classes, next, v, w, i.properties[k].kind);
    }
  }

  lemma {:induction false} CopiedValuePointsToNew(classes: Classes, next: nat, v: Value, w: Value, kind: Kind)
    requires Fits(classes, v, kind) && Fits(classes, w, kind) && ValueCopied(classes, next, v, w, kind)
    ensures forall p | p in TargetsIn(classes, w, kind) :: p >= next
    decreases v
  {
    match kind
    case Primitive =>
    case Class(_) => CopyPointsToNew(classes, next, v.object_, w.object_);
    case ClassPtr(_) => CopyPointsToNew(classes, next, v.target.value, w.target.value);
  }

  /** A copy shares no object with its source, at any depth. */
  lemma CopySharesNothing(classes: Classes, next: nat, a: Object, b: Object)
    requires WellTyped(classes, a) && WellTyped(classes, b) && IsCopy(classes, next, a, b)
    requires forall p | p in Targets(classes, a) :: p < next
    ensures Targets(classes, a) !! Targets(classes, b)
  {
    hide Targets, IsCopy;
    CopyPointsToNew(classes, next, a, b);
  }

  // ---------- When there is a copy ----------

  /** Every class involved is copyable, and no pointer, at any depth, is null. */
  predicate NoNull(classes: Classes, o: Object)
    requires WellTyped(classes, o)
    decreases o
  {
    && classes[o.class_].copyable
    && forall k | 0 <= k < |o.values| && IsHeld(classes[o.class_].properties[k]) ::
         NoNullIn(classes, o.values[k], classes[o.class_].properties[k].kind)
  }

  predicate NoNullIn(classes: Classes, v: Value, kind: Kind)
    requires Fits(classes, v, kind)
    decreases v
  {
    match kind
    case Primitive => true
    case Class(_) => NoNull(classes, v.object_)
    case ClassPtr(_) => v.target.Some? && NoNull(classes, v.target.value)
  }

  lemma {:induction false} CopiedHasNoNull(classes: Classes, next: nat, a: Object, b: Object)
    requires WellTyped(classes, a) && WellTyped(classes, b) && IsCopy(classes, next, a, b)
    ensures NoNull(classes, a)
    decreases a
  {
    var i := classes[a.class_];
    forall k | 0 <= k < |a.values| && IsHeld(i.properties[k])
      ensures NoNullIn(classes, a.values[k], i.properties[k].kind)
    {
      var v, w := a.values[k], b.values[k];
      assert ValueCopied(classes, next, v, w, i.properties[k].kind);
      match i.properties[k].kind
      case Primitive =>
      case Class(_) => CopiedHasNoNull(classes, next, v.object_, w.object_);
      case ClassPtr(_) => CopiedHasNoNull(classes, next, v.target.value, w.target.value);
    }
  }

  /** The object with everything it points to moved up by `next` addresses. */
  function Moved(o: Object, next: nat): (r: Object)
    ensures r.class_ == o.class_ && r.address == o.address && |r.values| == |o.values|
    decreases o
  {
    o.(values := seq(|o.values|, k requires 0 <= k < |o.values| => MovedValue(o.values[k], next)))
  }

  function MovedValue(v: Value, next: nat): Value
    decreases v
  {
    match v
    case Scalar(_) => v
    case Member(o) => Member(Moved(o, next))
    case Shared(None) => v
    case Shared(Some(o)) =>
      var target := Moved(o, next);
      Shared(Some(target.(address := target.address + next)))
  }

  lemma {:induction false} MovedIsWellTyped(classes: Classes, o: Object, next: nat)
    requires WellTyped(classes, o)
    ensures WellTyped(classes, Moved(o, next))
    decreases o
  {
    forall k | 0 <= k < |o.values|
      ensures Fits(classes, MovedValue(o.values[k], next), classes[o.class_].properties[k].kind)
    {
      var kind := classes[o.class_].properties[k].kind;
      assert Fits(classes, o.values[k], kind);
      MovedFits(classes, o.values[k], next, kind);
    }
  }

  lemma {:induction false} MovedFits(classes: Classes, v: Value, next: nat, kind: Kind)
    requires Fits(classes, v, kind)
    ensures Fits(classes, MovedValue(v, next), kind)
    decreases v
  {
    match v
    case Scalar(_) =>
    case Member(o) => MovedIsWellTyped(classes, o, next);
    case Shared(None) =>
    case Shared(Some(o)) => MovedIsWellTyped(classes, o, next); Elsewhere(classes, Moved(o, next), o.address + next);
  }

  lemma Elsewhere(classes: Classes, o: Object, address: nat)
    requires WellTyped(classes, o)
    ensures WellTyped(classes, o.(address := address))
  {
  }

  lemma {:induction false} MovedIsCopy(classes: Classes, o: Object, next: nat)
    requires WellTyped(classes, o) && NoNull(classes, o)
    ensures WellTyped(classes, Moved(o, next)) && IsCopy(classes, next, o, Moved(o, next))
    decreases o
  {
    var i := classes[o.class_];
    MovedIsWellTyped(classes, o, next);
    forall k | 0 <= k < |o.values| && IsHeld(i.properties[k])
      ensures ValueCopied(classes, next, o.values[k], Moved(o, next).values[k], i.properties[k].kind)
    {
      var v := o.values[k];
      assert NoNullIn(classes, v, i.properties[k].kind);
      match i.properties[k].kind
      case Primitive =>
      case Class(_) => MovedIsCopy(classes, v.object_, next);
      case ClassPtr(_) =>
        MovedIsCopy(classes, v.target.value, next);
        CopyElsewhere(classes, next, v.target.value, Moved(v.target.value, next), v.target.value.address + next);
    }
  }

  lemma CopyElsewhere(classes: Classes, next: nat, a: Object, b: Object, address: nat)
    requires WellTyped(classes, a) && WellTyped(classes, b) && IsCopy(classes, next, a, b)
    ensures WellTyped(classes, b.(address := address)) && IsCopy(classes, next, a, b.(address := address))
  {
    Elsewhere(classes, b, address);
  }

  /** An object can be copied, into whatever is free, exactly when none of its pointers, at any depth, is null. */
  lemma CopyExistsIffNoNull(classes: Classes, next: nat, a: Object)
    requires WellTyped(classes, a)
    ensures (exists b :: WellTyped(classes, b) && IsCopy(classes, next, a, b)) <==> NoNull(classes, a)
  {
    hide IsCopy, NoNull;
    if NoNull(classes, a) {
      MovedIsCopy(classes, a, next);
      var b := Moved(a, next);
      assert WellTyped(classes, b) && IsCopy(classes, next, a, b);
    }
    if b :| WellTyped(classes, b) && IsCopy(classes, next, a, b) {
      CopiedHasNoNull(classes, next, a, b);
    }
  }
}
