/**
 * The recursive write-once validator. A new object is only ever compared with its immediate
 * predecessor; this module proves for which schemas that is enough to protect a whole history.
 */
module WriteOnce {
  import opened Wrappers
  import opened Objects

  datatype Verdict = Accepted | Overwritten(field: string, kind: string) | TypeMismatch(field: string)

  predicate SameType<A>(next: Value<A>, prior: Value<A>)
  {
    if next.Atom? then prior.Atom? && prior.ty == next.ty
    else if next.Object? then prior.Object? && prior.cls == next.cls
    else prior.Null?
  }

  function ValidateWriteOnce<A(==)>(path: string, next: Value<A>, prior: Value<A>): Verdict
    decreases prior, 1
  {
    if next.Null? || prior.Null? then Accepted
    else if !SameType(next, prior) then TypeMismatch(path)
    else if !next.Object? then Accepted
    else ValidateFields(path, next.cls.fields, next.fields, prior.fields)
  }

  function ValidateFields<A(==)>(path: string, fields: seq<Field>, nexts: seq<Value<A>>, priors: seq<Value<A>>): Verdict
    decreases priors, 0
  {
    if |fields| == 0 || |nexts| == 0 || |priors| == 0 then Accepted
    else
      var f, next, prior := fields[0], nexts[0], priors[0];
      var fieldPath := path + "." + f.name;
      if f.immutable && prior != next then Overwritten(fieldPath, "immutable")
      else if f.writeOnce && !prior.Null? && prior != next then Overwritten(fieldPath, "write once")
      else
        var verdict := ValidateWriteOnce(fieldPath, next, prior);
        if !verdict.Accepted? then verdict else ValidateFields(path, fields[1..], nexts[1..], priors[1..])
  }

  // ---- What acceptance means ----

  /** `next` keeps every protected field of `prior`, at every depth where both are present. */
  predicate Keeps<A(==)>(next: Value<A>, prior: Value<A>)
    decreases prior, 1
  {
    next.Null? || prior.Null? || (SameType(next, prior) && (next.Object? ==> KeepsFields(next.cls.fields, next.fields, prior.fields)))
  }

  predicate KeepsFields<A(==)>(fields: seq<Field>, nexts: seq<Value<A>>, priors: seq<Value<A>>)
    decreases priors, 0
  {
    forall i :: 0 <= i < |fields| && i < |nexts| && i < |priors| ==>
      Unchanged(fields[i], nexts[i], priors[i]) && Keeps(nexts[i], priors[i])
  }

  predicate Unchanged<A(==)>(f: Field, next: Value<A>, prior: Value<A>)
  {
    && (f.immutable ==> prior == next)
    && (f.writeOnce && !prior.Null? ==> prior == next)
  }

  lemma {:induction false} AcceptedMeansKeeps<A>(path: string, next: Value<A>, prior: Value<A>)
    ensures ValidateWriteOnce(path, next, prior).Accepted? <==> Keeps(next, prior)
    decreases prior, 1
  {
    if next.Object? && prior.Object? && SameType(next, prior) {
      FieldsAcceptedMeansKeeps(path, next.cls.fields, next.fields, prior.fields);
    }
  }

  lemma {:induction false} FieldsAcceptedMeansKeeps<A>(path: string, fields: seq<Field>, nexts: seq<Value<A>>, priors: seq<Value<A>>)
    ensures ValidateFields(path, fields, nexts, priors).Accepted? <==> KeepsFields(fields, nexts, priors)
    decreases priors, 0
  {
    if |fields| > 0 && |nexts| > 0 && |priors| > 0 {
      AcceptedMeansKeeps(path + "." + fields[0].name, nexts[0], priors[0]);
      FieldsAcceptedMeansKeeps(path, fields[1..], nexts[1..], priors[1..]);
      KeepsFieldsHeadTail(fields, nexts, priors);
    }
  }

  lemma {:induction false} KeepsFieldsHeadTail<A>(fields: seq<Field>, nexts: seq<Value<A>>, priors: seq<Value<A>>)
    requires |fields| > 0 && |nexts| > 0 && |priors| > 0
    ensures KeepsFields(fields, nexts, priors) <==>
              Unchanged(fields[0], nexts[0], priors[0]) && Keeps(nexts[0], priors[0])
              && KeepsFields(fields[1..], nexts[1..], priors[1..])
  {
  }

  lemma {:induction false} KeepsReflexive<A>(v: Value<A>)
    ensures Keeps(v, v)
    decreases v
  {
    if v.Object? {
      forall i | 0 <= i < |v.fields| ensures Keeps(v.fields[i], v.fields[i]) {
        KeepsReflexive(v.fields[i]);
      }
    }
  }

  // ---- Which schemas make acceptance transitive ----

  predicate Protected(f: Field) { f.immutable || f.writeOnce }

  /** The type has at least two values. */
  predicate Varies(ty: Type)
    decreases ty, 1
  {
    match ty
    case AtomType(_) => true
    case ObjectType(cls) => exists i :: 0 <= i < |cls.fields| && FieldVaries(cls.fields[i])
  }

  predicate FieldVaries(f: Field)
    decreases f, 2
  {
    f.optional || Varies(f.ty)
  }

  /** Some pair of values of the type is rejected. */
  predicate CanReject(ty: Type)
    decreases ty, 1
  {
    match ty
    case AtomType(_) => false
    case ObjectType(cls) => exists i :: 0 <= i < |cls.fields| && FieldCanReject(cls.fields[i])
  }

  predicate FieldCanReject(f: Field)
    decreases f, 2
  {
    if Protected(f) then FieldVaries(f) else CanReject(f.ty)
  }

  /**
   * Every unprotected field that may be null holds nothing the validator could ever reject, at
   * every depth reached through unprotected required fields.
   */
  predicate HistorySafe(ty: Type)
    decreases ty, 1
  {
    match ty
    case AtomType(_) => true
    case ObjectType(cls) => forall i :: 0 <= i < |cls.fields| ==> FieldHistorySafe(cls.fields[i])
  }

  predicate FieldHistorySafe(f: Field)
    decreases f, 2
  {
    Protected(f) || (if f.optional then !CanReject(f.ty) else HistorySafe(f.ty))
  }

  /** A type without variation has a single value. */
  lemma {:induction false} SingleValued<A>(ty: Type, v: Value<A>, w: Value<A>)
    requires !Varies(ty) && HasType(v, ty) && HasType(w, ty)
    ensures v == w
    decreases v
  {
    if ty.ObjectType? {
      forall i | 0 <= i < |ty.cls.fields| ensures v.fields[i] == w.fields[i] {
        assert !FieldVaries(ty.cls.fields[i]);
        assert FieldTyped(v.fields[i], ty.cls.fields[i]) && FieldTyped(w.fields[i], ty.cls.fields[i]);
        SingleValued(ty.cls.fields[i].ty, v.fields[i], w.fields[i]);
      }
      assert v.fields == w.fields;
    }
  }

  lemma {:induction false} NeverRejected<A>(ty: Type, next: Value<A>, prior: Value<A>)
    requires !CanReject(ty) && HasType(next, ty) && HasType(prior, ty)
    ensures Keeps(next, prior)
    decreases prior
  {
    if ty.ObjectType? {
      forall i | 0 <= i < |ty.cls.fields|
        ensures Unchanged(ty.cls.fields[i], next.fields[i], prior.fields[i]) && Keeps(next.fields[i], prior.fields[i])
      {
        var f := ty.cls.fields[i];
        assert !FieldCanReject(f);
        assert FieldTyped(next.fields[i], f) && FieldTyped(prior.fields[i], f);
        if Protected(f) {
          SingleValued(f.ty, next.fields[i], prior.fields[i]);
          KeepsReflexive(prior.fields[i]);
        } else if !next.fields[i].Null? && !prior.fields[i].Null? {
          NeverRejected(f.ty, next.fields[i], prior.fields[i]);
        }
      }
    }
  }

  /** On a history-safe type, being accepted step by step is being accepted against any ancestor. */
  lemma {:induction false} KeepsTransitive<A>(ty: Type, a: Value<A>, b: Value<A>, c: Value<A>)
    requires HistorySafe(ty) && HasType(a, ty) && HasType(b, ty) && HasType(c, ty)
    requires Keeps(b, a) && Keeps(c, b)
    ensures Keeps(c, a)
    decreases a
  {
    if ty.ObjectType? {
      forall i | 0 <= i < |ty.cls.fields|
        ensures Unchanged(ty.cls.fields[i], c.fields[i], a.fields[i]) && Keeps(c.fields[i], a.fields[i])
      {
        var f := ty.cls.fields[i];
        assert FieldHistorySafe(f);
        assert FieldTyped(a.fields[i], f) && FieldTyped(b.fields[i], f) && FieldTyped(c.fields[i], f);
        assert Unchanged(f, b.fields[i], a.fields[i]) && Keeps(b.fields[i], a.fields[i]);
        assert Unchanged(f, c.fields[i], b.fields[i]) && Keeps(c.fields[i], b.fields[i]);
        if Protected(f) {
          KeepsReflexive(a.fields[i]);
        } else if f.optional {
          if !a.fields[i].Null? && !c.fields[i].Null? {
            NeverRejected(f.ty, c.fields[i], a.fields[i]);
          }
        } else {
          KeepsTransitive(f.ty, a.fields[i], b.fields[i], c.fields[i]);
        }
      }
    }
  }

  // ---- And that exactly these schemas do ----

  function Default<A>(ty: Type, x: A): (v: Value<A>)
    ensures HasType(v, ty)
    decreases ty, 1
  {
    match ty
    case AtomType(name) => Atom(name, x)
    case ObjectType(cls) => Object(cls, DefaultFields(cls.fields, x))
  }

  function DefaultFields<A>(fields: seq<Field>, x: A): (vs: seq<Value<A>>)
    ensures FieldsTyped(vs, fields)
    decreases fields, 0
  {
    seq(|fields|, i requires 0 <= i < |fields| => Default(fields[i].ty, x))
  }

  /** Replacing one field of a well-typed object by a well-typed value. */
  lemma {:induction false} WithField<A>(cls: Class, vs: seq<Value<A>>, i: nat, v: Value<A>)
    requires FieldsTyped(vs, cls.fields) && i < |vs| && FieldTyped(v, cls.fields[i])
    ensures HasType(Object(cls, vs[i := v]), ObjectType(cls))
  {
  }

  lemma {:induction false} TwoValues<A>(ty: Type, x: A, y: A) returns (v: Value<A>)
    requires x != y && Varies(ty)
    ensures HasType(v, ty) && v != Default(ty, x)
    decreases ty
  {
    match ty
    case AtomType(name) => v := Atom(name, y);
    case ObjectType(cls) =>
      var i :| 0 <= i < |cls.fields| && FieldVaries(cls.fields[i]);
      var vs := DefaultFields(cls.fields, x);
      var w: Value<A> := Null;
      if !cls.fields[i].optional {
        w := TwoValues(cls.fields[i].ty, x, y);
      }
      WithField(cls, vs, i, w);
      v := Object(cls, vs[i := w]);
      assert v.fields[i] == w != vs[i];
  }

  lemma {:induction false} RejectedPair<A>(ty: Type, x: A, y: A) returns (next: Value<A>, prior: Value<A>)
    requires x != y && CanReject(ty)
    ensures HasType(next, ty) && HasType(prior, ty) && !Keeps(next, prior)
    decreases ty
  {
    var cls := ty.cls;
    var i :| 0 <= i < |cls.fields| && FieldCanReject(cls.fields[i]);
    var f, vs := cls.fields[i], DefaultFields(cls.fields, x);
    prior := Object(cls, vs);
    var n: Value<A> := Null;
    if !Protected(f) {
      var p;
      n, p := RejectedPair(f.ty, x, y);
      WithField(cls, vs, i, p);
      prior := Object(cls, vs[i := p]);
    } else if !f.optional {
      n := TwoValues(f.ty, x, y);
    }
    WithField(cls, vs, i, n);
    next := Object(cls, vs[i := n]);
    assert next.fields[i] == n;
    assert !(Unchanged(f, next.fields[i], prior.fields[i]) && Keeps(next.fields[i], prior.fields[i]));
  }

  /** For every other schema a null step in the middle launders an overwrite. */
  lemma {:induction false} UnsafeHistory<A>(ty: Type, x: A, y: A) returns (a: Value<A>, b: Value<A>, c: Value<A>)
    requires x != y && !HistorySafe(ty)
    ensures HasType(a, ty) && HasType(b, ty) && HasType(c, ty)
    ensures Keeps(b, a) && Keeps(c, b) && !Keeps(c, a)
    decreases ty
  {
    var cls := ty.cls;
    var i :| 0 <= i < |cls.fields| && !FieldHistorySafe(cls.fields[i]);
    var f, vs := cls.fields[i], DefaultFields(cls.fields, x);
    var p, q, r: Value<A> := Null, Null, Null;
    if f.optional {
      r, p := RejectedPair(f.ty, x, y);
    } else {
      p, q, r := UnsafeHistory(f.ty, x, y);
    }
    WithField(cls, vs, i, p);
    WithField(cls, vs, i, q);
    WithField(cls, vs, i, r);
    a, b, c := Object(cls, vs[i := p]), Object(cls, vs[i := q]), Object(cls, vs[i := r]);
    forall j | 0 <= j < |vs| && j != i ensures Keeps(vs[j], vs[j]) {
      KeepsReflexive(vs[j]);
    }
    assert c.fields[i] == r && a.fields[i] == p;
    assert !Keeps(c.fields[i], a.fields[i]);
  }

  ghost predicate TransitiveOn<A(!new)>(ty: Type)
  {
    forall a: Value<A>, b: Value<A>, c: Value<A> ::
      HasType(a, ty) && HasType(b, ty) && HasType(c, ty) && Keeps(b, a) && Keeps(c, b) ==> Keeps(c, a)
  }

  /** Checking against the predecessor alone protects the history exactly for history-safe types. */
  lemma {:induction false} TransitiveIff<A(!new)>(ty: Type, x: A, y: A)
    requires x != y
    ensures TransitiveOn<A>(ty) <==> HistorySafe(ty)
  {
    if HistorySafe(ty) {
      forall a: Value<A>, b: Value<A>, c: Value<A>
        | HasType(a, ty) && HasType(b, ty) && HasType(c, ty) && Keeps(b, a) && Keeps(c, b)
        ensures Keeps(c, a)
      {
        KeepsTransitive(ty, a, b, c);
      }
    } else {
      var a, b, c := UnsafeHistory(ty, x, y);
    }
  }

  /** In a history accepted step by step, every version keeps the protected fields of every earlier one. */
  lemma {:induction false} HistoryProtected<A>(ty: Type, history: seq<Value<A>>, i: nat, j: nat)
    requires HistorySafe(ty) && i <= j < |history|
    requires forall k :: 0 <= k < |history| ==> HasType(history[k], ty)
    requires forall k :: 0 <= k < |history| - 1 ==> ValidateWriteOnce("", history[k + 1], history[k]).Accepted?
    ensures Keeps(history[j], history[i])
    decreases j
  {
    if i == j {
      KeepsReflexive(history[i]);
    } else {
      HistoryProtected(ty, history, i, j - 1);
      AcceptedMeansKeeps("", history[j - 1 + 1], history[j - 1]);
      KeepsTransitive(ty, history[i], history[j - 1], history[j]);
    }
  }
}
