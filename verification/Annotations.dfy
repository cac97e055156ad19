/** Comparing the annotations of a service contract with those of an implementation. */
module Annotations {

  /** A class, or one of the special forms of `typing` that are not classes. */
  datatype Origin = ClassOrigin(id: nat) | SpecialOrigin(form: nat)

  /**
   An annotation.  `Any` also stands for a missing one; `Arguments` is the parameter list of a
   callable; `Opaque` has neither an origin nor the nature of a class (a type variable, say).
   */
  datatype Ann =
    | Any
    | Class(id: nat)
    | Opaque(token: nat)
    | Arguments(items: seq<Ann>)
    | Union(arms: seq<Ann>)
    | Generic(origin: Origin, args: seq<Ann>)

  /** `issubclass(actual, expected)`, false where Python raises. */
  type Subclass = (nat, nat) -> bool

  /** The arms of a union; anything else is its own single arm. */
  function Arms(a: Ann): seq<Ann> {
    if a.Union? then a.arms else [a]
  }

  predicate OriginFits(sub: Subclass, expected: Origin, actual: Origin, covariance: bool) {
    || expected == actual
    || (covariance && expected.ClassOrigin? && actual.ClassOrigin? && sub(actual.id, expected.id))
  }

  /** `_annotations_match`: parameters may be widened by the implementation, results narrowed. */
  predicate Match(sub: Subclass, expected: Ann, actual: Ann, covariance: bool)
    decreases expected, actual, 1
  {
    if expected.Any? || actual.Any? || expected == actual then true
    else if expected.Arguments? || actual.Arguments? then
      && expected.Arguments? && actual.Arguments? && |expected.items| == |actual.items|
      && (forall i {:trigger Match(sub, expected.items[i], actual.items[i], covariance)} ::
            0 <= i < |expected.items| ==> Match(sub, expected.items[i], actual.items[i], covariance))
    else if expected.Union? || actual.Union? then
      if covariance then
        forall j {:trigger Covered(sub, expected, actual, j)} ::
          0 <= j < |Arms(actual)| ==> Covered(sub, expected, actual, j)
      else
        forall i {:trigger Accepted(sub, expected, actual, i)} ::
          0 <= i < |Arms(expected)| ==> Accepted(sub, expected, actual, i)
    else if !expected.Generic? || !actual.Generic? then
      covariance && expected.Class? && actual.Class? && sub(actual.id, expected.id)
    else
      && OriginFits(sub, expected.origin, actual.origin, covariance)
      && (|expected.args| == 0 || |actual.args| == 0
          || (&& |expected.args| == |actual.args|
              && forall i {:trigger Match(sub, expected.args[i], actual.args[i], covariance)} ::
                   0 <= i < |expected.args| ==> Match(sub, expected.args[i], actual.args[i], covariance)))
  }

  /** Some arm of the expected annotation matches this arm of the actual result. */
  predicate Covered(sub: Subclass, expected: Ann, actual: Ann, j: nat)
    requires j < |Arms(actual)| && (expected.Union? || actual.Union?)
    decreases expected, actual, 0
  {
    exists i {:trigger Match(sub, Arms(expected)[i], Arms(actual)[j], true)} ::
      0 <= i < |Arms(expected)| && Match(sub, Arms(expected)[i], Arms(actual)[j], true)
  }

  /** Some arm of the actual parameter takes this arm of the expected one. */
  predicate Accepted(sub: Subclass, expected: Ann, actual: Ann, i: nat)
    requires i < |Arms(expected)| && (expected.Union? || actual.Union?)
    decreases expected, actual, 0
  {
    exists j {:trigger Match(sub, Arms(expected)[i], Arms(actual)[j], false)} ::
      0 <= j < |Arms(actual)| && Match(sub, Arms(expected)[i], Arms(actual)[j], false)
  }

  // ------------------------------------------------------------ the result position is a preorder

  /** No wildcard anywhere, and every generic has its parameters. */
  predicate Full(a: Ann) {
    match a
    case Any => false
    case Class(_) => true
    case Opaque(_) => true
    case Arguments(items) => forall i :: 0 <= i < |items| ==> Full(items[i])
    case Union(arms) => forall i :: 0 <= i < |arms| ==> Full(arms[i])
    case Generic(_, args) => args != [] && forall i :: 0 <= i < |args| ==> Full(args[i])
  }

  ghost predicate Transitive(sub: Subclass) {
    forall a, b, c :: sub(a, b) && sub(b, c) ==> sub(a, c)
  }

  lemma MatchReflexive(sub: Subclass, a: Ann, covariance: bool)
    ensures Match(sub, a, a, covariance)
  {
  }

  /** In result position, and for anything but parameter lists, every actual arm needs an expected one. */
  lemma ArmFor(sub: Subclass, expected: Ann, actual: Ann, j: nat) returns (i: nat)
    requires !expected.Any? && !actual.Any? && !expected.Arguments? && !actual.Arguments?
    requires Match(sub, expected, actual, true) && j < |Arms(actual)|
    ensures i < |Arms(expected)| && Match(sub, Arms(expected)[i], Arms(actual)[j], true)
  {
    if expected == actual {
      i := j;
      MatchReflexive(sub, Arms(actual)[j], true);
    } else if expected.Union? || actual.Union? {
      assert Covered(sub, expected, actual, j);
      i :| 0 <= i < |Arms(expected)| && Match(sub, Arms(expected)[i], Arms(actual)[j], true);
    } else {
      i := 0;
      assert j == 0;
    }
  }

  lemma ArmThatTakes(sub: Subclass, expected: Ann, actual: Ann, i: nat) returns (j: nat)
    requires !expected.Any? && !actual.Any? && !expected.Arguments? && !actual.Arguments?
    requires Match(sub, expected, actual, false) && i < |Arms(expected)|
    ensures j < |Arms(actual)| && Match(sub, Arms(expected)[i], Arms(actual)[j], false)
  {
    if expected == actual {
      j := i;
      MatchReflexive(sub, Arms(actual)[i], false);
    } else if expected.Union? || actual.Union? {
      assert Accepted(sub, expected, actual, i);
      j :| 0 <= j < |Arms(actual)| && Match(sub, Arms(expected)[i], Arms(actual)[j], false);
    } else {
      j := 0;
      assert i == 0;
    }
  }

  lemma FullArms(a: Ann)
    requires Full(a)
    ensures forall i :: 0 <= i < |Arms(a)| ==> Full(Arms(a)[i])
  {
  }

  /**
   An implementation of an implementation is an implementation: on full annotations the check in
   result position is transitive whenever `issubclass` is (and it is always reflexive).
   */
  lemma {:induction false} MatchTransitive(sub: Subclass, e: Ann, b: Ann, a: Ann)
    requires Transitive(sub) && Full(e) && Full(b) && Full(a)
    requires Match(sub, e, b, true) && Match(sub, b, a, true)
    ensures Match(sub, e, a, true)
    decreases e, b, a, 1
  {
    if e == b || b == a || e == a {
    } else if b.Arguments? {
      forall i | 0 <= i < |e.items| ensures Match(sub, e.items[i], a.items[i], true) {
        MatchTransitive(sub, e.items[i], b.items[i], a.items[i]);
      }
    } else if e.Union? || b.Union? || a.Union? {
      MatchTransitiveUnion(sub, e, b, a);
    } else if b.Generic? {
      forall i | 0 <= i < |e.args| ensures Match(sub, e.args[i], a.args[i], true) {
        MatchTransitive(sub, e.args[i], b.args[i], a.args[i]);
      }
    }
  }

  lemma {:induction false} MatchTransitiveUnion(sub: Subclass, e: Ann, b: Ann, a: Ann)
    requires Transitive(sub) && Full(e) && Full(b) && Full(a)
    requires Match(sub, e, b, true) && Match(sub, b, a, true)
    requires !e.Arguments? && !b.Arguments? && !a.Arguments? && (e.Union? || b.Union? || a.Union?)
    ensures Match(sub, e, a, true)
    decreases e, b, a, 0
  {
    FullArms(e);
    FullArms(b);
    FullArms(a);
    if e.Union? || a.Union? {
      forall j | 0 <= j < |Arms(a)| ensures Covered(sub, e, a, j) {
        var k := ArmFor(sub, b, a, j);
        var i := ArmFor(sub, e, b, k);
        MatchTransitive(sub, Arms(e)[i], Arms(b)[k], Arms(a)[j]);
      }
    } else {
      var k := ArmFor(sub, b, a, 0);
      var i := ArmFor(sub, e, b, k);
      MatchTransitive(sub, e, Arms(b)[k], a);
    }
  }

  // ------------------------------------------------------------ what a match means

  /** No union, no wildcard and no missing parameters: what the type of a value can be. */
  predicate Ground(a: Ann) {
    match a
    case Any => false
    case Class(_) => true
    case Opaque(_) => true
    case Arguments(items) => forall i :: 0 <= i < |items| ==> Ground(items[i])
    case Union(_) => false
    case Generic(_, args) => args != [] && forall i :: 0 <= i < |args| ==> Ground(args[i])
  }

  /** A value of this ground type is one the annotation speaks of; a parameter list is never one of a union. */
  predicate Admits(sub: Subclass, a: Ann, v: Ann) {
    match a
    case Any => true
    case Class(id) => v.Class? && (v.id == id || sub(v.id, id))
    case Opaque(_) => v == a
    case Arguments(items) =>
      v.Arguments? && |v.items| == |items| && forall i :: 0 <= i < |items| ==> Admits(sub, items[i], v.items[i])
    case Union(arms) => !v.Arguments? && exists i :: 0 <= i < |arms| && Admits(sub, arms[i], v)
    case Generic(origin, args) =>
      && v.Generic?
      && (v.origin == origin
          || (v.origin.ClassOrigin? && origin.ClassOrigin? && sub(v.origin.id, origin.id)))
      && |v.args| == |args| && forall i :: 0 <= i < |args| ==> Admits(sub, args[i], v.args[i])
  }

  lemma GroundAdmitsItself(sub: Subclass, v: Ann)
    requires Ground(v)
    ensures Admits(sub, v, v) && Full(v)
  {
  }

  /** Against a ground type the check in result position asks whether its values are admitted. */
  lemma {:induction false} MatchIffAdmits(sub: Subclass, e: Ann, v: Ann)
    requires Full(e) && Ground(v)
    ensures Match(sub, e, v, true) <==> Admits(sub, e, v)
    decreases e
  {
    if e == v {
      GroundAdmitsItself(sub, v);
    } else {
      match e
      case Arguments(items) =>
        if v.Arguments? && |items| == |v.items| {
          forall i | 0 <= i < |items| {
            MatchIffAdmits(sub, items[i], v.items[i]);
          }
        }
      case Union(arms) =>
        forall i | 0 <= i < |arms| {
          MatchIffAdmits(sub, arms[i], v);
        }
        if !v.Arguments? {
          assert Match(sub, e, v, true) <==> Covered(sub, e, v, 0);
          if i :| 0 <= i < |arms| && Admits(sub, arms[i], v) {
            assert Match(sub, Arms(e)[i], Arms(v)[0], true);
          }
        }
      case Generic(_, args) =>
        if v.Generic? && |args| == |v.args| {
          forall i | 0 <= i < |args| {
            MatchIffAdmits(sub, args[i], v.args[i]);
          }
        }
      case _ =>
    }
  }

  /** The arms of a union, or the annotation itself, are ground types. */
  predicate GroundArms(a: Ann) {
    forall i :: 0 <= i < |Arms(a)| ==> Ground(Arms(a)[i]) && !Arms(a)[i].Arguments?
  }

  ghost predicate Narrower(sub: Subclass, e: Ann, a: Ann) {
    forall v {:trigger Admits(sub, e, v)} :: Ground(v) && Admits(sub, a, v) ==> Admits(sub, e, v)
  }

  /**
   The meaning of the check in result position: what matches returns nothing the contract does not
   speak of, and a union of ground types that returns nothing else matches.
   */
  lemma ResultMatchIsNarrowing(sub: Subclass, e: Ann, a: Ann)
    requires Transitive(sub) && Full(e) && Full(a)
    ensures Match(sub, e, a, true) ==> Narrower(sub, e, a)
    ensures GroundArms(a) && !e.Arguments? ==> (Match(sub, e, a, true) <==> Narrower(sub, e, a))
  {
    if Match(sub, e, a, true) {
      forall v | Ground(v) && Admits(sub, a, v) ensures Admits(sub, e, v) {
        GroundAdmitsItself(sub, v);
        MatchIffAdmits(sub, a, v);
        MatchIffAdmits(sub, e, v);
        MatchTransitive(sub, e, a, v);
      }
    }
    if GroundArms(a) && !e.Arguments? && Narrower(sub, e, a) {
      forall j | 0 <= j < |Arms(a)|
        ensures Match(sub, e, Arms(a)[j], true)
        ensures (e.Union? || a.Union?) ==> Covered(sub, e, a, j)
      {
        var v := Arms(a)[j];
        GroundAdmitsItself(sub, v);
        assert Admits(sub, a, v);
        MatchIffAdmits(sub, e, v);
        if e.Union? || a.Union? {
          var i := ArmFor(sub, e, v, 0);
        }
      }
      assert !a.Union? ==> Arms(a)[0] == a;
    }
  }

  /** In parameter position subclasses play no part. */
  lemma {:induction false} ParameterCheckKnowsNoSubclasses(sub: Subclass, e: Ann, a: Ann)
    ensures Match(sub, e, a, false) <==> Match(OnlyItself, e, a, false)
    decreases e, a
  {
    if e.Any? || a.Any? || e == a {
    } else if e.Arguments? && a.Arguments? {
      if |e.items| == |a.items| {
        forall i | 0 <= i < |e.items| {
          ParameterCheckKnowsNoSubclasses(sub, e.items[i], a.items[i]);
        }
      }
    } else if !e.Arguments? && !a.Arguments? {
      if e.Union? || a.Union? {
        forall i, j | 0 <= i < |Arms(e)| && 0 <= j < |Arms(a)| {
          ParameterCheckKnowsNoSubclasses(sub, Arms(e)[i], Arms(a)[j]);
        }
        forall i | 0 <= i < |Arms(e)| ensures Accepted(sub, e, a, i) <==> Accepted(OnlyItself, e, a, i) {
        }
      } else if e.Generic? && a.Generic? && |e.args| == |a.args| {
        forall i | 0 <= i < |e.args| {
          ParameterCheckKnowsNoSubclasses(sub, e.args[i], a.args[i]);
        }
      }
    }
  }

  /** Without proper subclasses, a ground type matches itself and no other, in either position. */
  lemma {:induction false} GroundMatchIsEquality(e: Ann, a: Ann, covariance: bool)
    requires Ground(e) && Ground(a)
    ensures Match(OnlyItself, e, a, covariance) <==> e == a
    decreases e
  {
    if e.Arguments? && a.Arguments? && |e.items| == |a.items| {
      forall i | 0 <= i < |e.items| {
        GroundMatchIsEquality(e.items[i], a.items[i], covariance);
      }
    } else if e.Generic? && a.Generic? && |e.args| == |a.args| {
      forall i | 0 <= i < |e.args| {
        GroundMatchIsEquality(e.args[i], a.args[i], covariance);
      }
    }
  }

  // ------------------------------------------------------------ the two positions are dual

  /** So the check in result position is a preorder on full annotations. */
  lemma ResultCheckIsPreorder(sub: Subclass)
    requires Transitive(sub)
    ensures forall a :: Match(sub, a, a, true)
    ensures forall e, b, a {:trigger Match(sub, e, b, true), Match(sub, b, a, true)} ::
              Full(e) && Full(b) && Full(a) && Match(sub, e, b, true) && Match(sub, b, a, true) ==>
                Match(sub, e, a, true)
  {
    forall a ensures Match(sub, a, a, true) {
      MatchReflexive(sub, a, true);
    }
    forall e, b, a | Full(e) && Full(b) && Full(a) && Match(sub, e, b, true) && Match(sub, b, a, true)
      ensures Match(sub, e, a, true)
    {
      MatchTransitive(sub, e, b, a);
    }
  }

  /** The subclass relation under which only a class itself is its subclass. */
  predicate OnlyItself(actual: nat, expected: nat) {
    actual == expected
  }

  /** Without proper subclasses, the parameter check is the result check the other way round. */
  lemma {:induction false} PositionsAreDual(e: Ann, a: Ann)
    ensures Match(OnlyItself, e, a, false) <==> Match(OnlyItself, a, e, true)
    decreases e, a
  {
    if e.Any? || a.Any? || e == a {
    } else if e.Arguments? && a.Arguments? {
      if |e.items| == |a.items| {
        forall i | 0 <= i < |e.items| {
          PositionsAreDual(e.items[i], a.items[i]);
        }
      }
    } else if !e.Arguments? && !a.Arguments? {
      if e.Union? || a.Union? {
        forall i, j | 0 <= i < |Arms(e)| && 0 <= j < |Arms(a)| {
          PositionsAreDual(Arms(e)[i], Arms(a)[j]);
        }
        ArmByArm(e, a);
      } else if e.Generic? && a.Generic? && |e.args| == |a.args| {
        forall i | 0 <= i < |e.args| {
          PositionsAreDual(e.args[i], a.args[i]);
        }
      }
    }
  }

  lemma ArmByArm(e: Ann, a: Ann)
    requires !e.Any? && !a.Any? && e != a && !e.Arguments? && !a.Arguments? && (e.Union? || a.Union?)
    requires forall i, j :: 0 <= i < |Arms(e)| && 0 <= j < |Arms(a)| ==>
               (Match(OnlyItself, Arms(e)[i], Arms(a)[j], false) <==> Match(OnlyItself, Arms(a)[j], Arms(e)[i], true))
    ensures Match(OnlyItself, e, a, false) <==> Match(OnlyItself, a, e, true)
  {
    forall i | 0 <= i < |Arms(e)| ensures Accepted(OnlyItself, e, a, i) <==> Covered(OnlyItself, a, e, i) {
    }
  }

  // ------------------------------------------------------------ wildcards and equality

  /** `w` is `a` with some subterms replaced by the wildcard. */
  predicate Widens(w: Ann, a: Ann) {
    w.Any? ||
    match a
    case Any => false
    case Class(_) => w == a
    case Opaque(_) => w == a
    case Arguments(items) =>
      w.Arguments? && |w.items| == |items| && forall i :: 0 <= i < |items| ==> Widens(w.items[i], items[i])
    case Union(arms) =>
      w.Union? && |w.arms| == |arms| && forall i :: 0 <= i < |arms| ==> Widens(w.arms[i], arms[i])
    case Generic(origin, args) =>
      w.Generic? && w.origin == origin && |w.args| == |args|
      && forall i :: 0 <= i < |args| ==> Widens(w.args[i], args[i])
  }

  lemma WidensArms(w: Ann, a: Ann)
    requires Widens(w, a) && !w.Any?
    ensures |Arms(w)| == |Arms(a)| && forall i :: 0 <= i < |Arms(a)| ==> Widens(Arms(w)[i], Arms(a)[i])
  {
  }

  /** Replacing any subterms by the wildcard, on either side, never turns a match into a mismatch. */
  lemma {:induction false} WideningKeepsMatch(sub: Subclass, e: Ann, a: Ann, e': Ann, a': Ann, covariance: bool)
    requires Match(sub, e, a, covariance) && Widens(e', e) && Widens(a', a)
    ensures Match(sub, e', a', covariance)
    decreases e, a
  {
    if e'.Any? || a'.Any? || e' == a' {
    } else if e.Arguments? {
      forall i | 0 <= i < |e.items| ensures Match(sub, e'.items[i], a'.items[i], covariance) {
        WideningKeepsMatch(sub, e.items[i], a.items[i], e'.items[i], a'.items[i], covariance);
      }
    } else if e.Union? || a.Union? {
      WidensArms(e', e);
      WidensArms(a', a);
      if covariance {
        forall j | 0 <= j < |Arms(a')| ensures Covered(sub, e', a', j) {
          var i := ArmFor(sub, e, a, j);
          WideningKeepsMatch(sub, Arms(e)[i], Arms(a)[j], Arms(e')[i], Arms(a')[j], true);
        }
      } else {
        forall i | 0 <= i < |Arms(e')| ensures Accepted(sub, e', a', i) {
          var j := ArmThatTakes(sub, e, a, i);
          WideningKeepsMatch(sub, Arms(e)[i], Arms(a)[j], Arms(e')[i], Arms(a')[j], false);
        }
      }
    } else if e.Generic? && a.Generic? {
      if e.args != [] && a.args != [] {
        forall i | 0 <= i < |e.args| ensures Match(sub, e'.args[i], a'.args[i], covariance) {
          WideningKeepsMatch(sub, e.args[i], a.args[i], e'.args[i], a'.args[i], covariance);
        }
      }
    }
  }

  /** Python's own equality of annotations: a union is the set of its arms. */
  predicate SameAnnotation(x: Ann, y: Ann)
    decreases x, y, 1
  {
    match (x, y)
    case (Arguments(s), Arguments(t)) =>
      |s| == |t| && forall i {:trigger SameAnnotation(s[i], t[i])} :: 0 <= i < |s| ==> SameAnnotation(s[i], t[i])
    case (Union(s), Union(t)) =>
      && (forall i {:trigger ArmInRight(x, y, i)} :: 0 <= i < |s| ==> ArmInRight(x, y, i))
      && (forall j {:trigger ArmInLeft(x, y, j)} :: 0 <= j < |t| ==> ArmInLeft(x, y, j))
    case (Generic(o, s), Generic(p, t)) =>
      o == p && |s| == |t|
      && forall i {:trigger SameAnnotation(s[i], t[i])} :: 0 <= i < |s| ==> SameAnnotation(s[i], t[i])
    case _ => x == y
  }

  predicate ArmInRight(x: Ann, y: Ann, i: nat)
    requires x.Union? && y.Union? && i < |x.arms|
    decreases x, y, 0
  {
    exists j {:trigger SameAnnotation(x.arms[i], y.arms[j])} ::
      0 <= j < |y.arms| && SameAnnotation(x.arms[i], y.arms[j])
  }

  predicate ArmInLeft(x: Ann, y: Ann, j: nat)
    requires x.Union? && y.Union? && j < |y.arms|
    decreases x, y, 0
  {
    exists i {:trigger SameAnnotation(x.arms[i], y.arms[j])} ::
      0 <= i < |x.arms| && SameAnnotation(x.arms[i], y.arms[j])
  }

  lemma {:induction false} SameItself(x: Ann)
    ensures SameAnnotation(x, x)
  {
    match x
    case Arguments(s) =>
      forall i | 0 <= i < |s| ensures SameAnnotation(s[i], s[i]) {
        SameItself(s[i]);
      }
    case Union(s) =>
      forall i | 0 <= i < |s| ensures ArmInRight(x, x, i) && ArmInLeft(x, x, i) {
        SameItself(s[i]);
      }
    case Generic(_, s) =>
      forall i | 0 <= i < |s| ensures SameAnnotation(s[i], s[i]) {
        SameItself(s[i]);
      }
    case _ =>
  }

  /** Unions with the same arms are the same, in whatever order and however often the arms are written. */
  lemma SameArmsSame(s: seq<Ann>, t: seq<Ann>)
    requires forall a :: a in s <==> a in t
    ensures SameAnnotation(Union(s), Union(t))
  {
    var x, y := Union(s), Union(t);
    forall i | 0 <= i < |s| ensures ArmInRight(x, y, i) {
      assert s[i] in t;
      var j :| 0 <= j < |t| && t[j] == s[i];
      SameItself(s[i]);
      assert SameAnnotation(x.arms[i], y.arms[j]);
    }
    forall j | 0 <= j < |t| ensures ArmInLeft(x, y, j) {
      assert t[j] in s;
      var i :| 0 <= i < |s| && s[i] == t[j];
      SameItself(t[j]);
      assert SameAnnotation(x.arms[i], y.arms[j]);
    }
  }

  /** The equality test could ignore the order of union arms without changing any answer. */
  lemma {:induction false} EqualityAddsNothing(sub: Subclass, x: Ann, y: Ann, covariance: bool)
    requires SameAnnotation(x, y)
    ensures Match(sub, x, y, covariance)
    decreases x, y, 1
  {
    match x
    case Arguments(s) =>
      forall i | 0 <= i < |s| ensures Match(sub, s[i], y.items[i], covariance) {
        EqualityAddsNothing(sub, s[i], y.items[i], covariance);
      }
    case Union(s) =>
      SameUnionsMatch(sub, x, y, covariance);
    case Generic(o, s) =>
      forall i | 0 <= i < |s| ensures Match(sub, s[i], y.args[i], covariance) {
        EqualityAddsNothing(sub, s[i], y.args[i], covariance);
      }
    case _ =>
  }

  lemma {:induction false} SameUnionsMatch(sub: Subclass, x: Ann, y: Ann, covariance: bool)
    requires SameAnnotation(x, y) && x.Union? && y.Union?
    ensures Match(sub, x, y, covariance)
    decreases x, y, 0
  {
    if covariance {
      forall j | 0 <= j < |y.arms| ensures Covered(sub, x, y, j) {
        assert ArmInLeft(x, y, j);
        var i :| 0 <= i < |x.arms| && SameAnnotation(x.arms[i], y.arms[j]);
        EqualityAddsNothing(sub, Arms(x)[i], Arms(y)[j], true);
      }
    } else {
      forall i | 0 <= i < |x.arms| ensures Accepted(sub, x, y, i) {
        assert ArmInRight(x, y, i);
        var j :| 0 <= j < |y.arms| && SameAnnotation(x.arms[i], y.arms[j]);
        EqualityAddsNothing(sub, Arms(x)[i], Arms(y)[j], false);
      }
    }
  }
}
