/** The positional source of Audio.cpp: construction, the copy constructor and
    `setPosition`, each of which recomputes the cached pan before returning.

    The pan is `dot(normalize(right), normalize(position - listener))`, where
    `right` is the cross product of the listener direction with the fixed up
    vector. Math::Vector3D is not part of this model; its normalisation
    divides by the Euclidean length, which needs a square root, so the length
    enters as a parameter characterised by `IsLength`. Everything else (the
    cross product, the difference, the dot products) is modelled exactly,
    over `real` rather than `float`. */
module Positional {
  import opened AudioTypes

  /** The state of the process-wide listener a pan computation reads. */
  datatype Listener = Listener(position: Vector3, direction: Vector3)

  /** The up vector the pan computation hard-codes. */
  const Up: Vector3 := Vector3(0.0, 1.0, 0.0)

  function Dot(a: Vector3, b: Vector3): real {
    a.x * b.x + a.y * b.y + a.z * b.z
  }

  function Sub(a: Vector3, b: Vector3): Vector3 {
    Vector3(a.x - b.x, a.y - b.y, a.z - b.z)
  }

  function Scale(v: Vector3, c: real): Vector3 {
    Vector3(c * v.x, c * v.y, c * v.z)
  }

  /** The component formula the source writes out for the listener's right
      axis, `dir x up`. */
  function Cross(d: Vector3, u: Vector3): Vector3 {
    Vector3(d.y * u.z - d.z * u.y,
            -(d.x * u.z - d.z * u.x),
            d.x * u.y - d.y * u.x)
  }

  /** `length` is the Euclidean length: never negative, and its square is
      the vector's dot product with itself. */
  ghost predicate IsLength(length: Vector3 -> real) {
    forall v :: 0.0 <= length(v) && length(v) * length(v) == Dot(v, v)
  }

  /** `normalize` / `normalized` of a vector of non-zero length. */
  function Normalized(v: Vector3, length: Vector3 -> real): Vector3
    requires length(v) != 0.0
  {
    Scale(v, 1.0 / length(v))
  }

  /** The right axis (before normalisation) of a listener looking along `dir`. */
  function RightAxis(dir: Vector3): (r: Vector3)
    ensures Dot(r, dir) == 0.0 && Dot(r, Up) == 0.0
    ensures r.y == 0.0
  {
    var r := Cross(dir, Up);
    CrossPerpendicular(dir, Up);
    r
  }

  /** The hand-written components really form a vector perpendicular to both
      operands, so the right axis is orthogonal to where the listener looks
      and to the up vector. */
  lemma CrossPerpendicular(d: Vector3, u: Vector3)
    ensures Dot(Cross(d, u), d) == 0.0
    ensures Dot(Cross(d, u), u) == 0.0
  {
    var c := Cross(d, u);
    assert Dot(c, d) == (d.y * u.z - d.z * u.y) * d.x
                      - (d.x * u.z - d.z * u.x) * d.y
                      + (d.x * u.y - d.y * u.x) * d.z;
    assert Dot(c, u) == (d.y * u.z - d.z * u.y) * u.x
                      - (d.x * u.z - d.z * u.x) * u.y
                      + (d.x * u.y - d.y * u.x) * u.z;
  }

  /** The geometry for which both normalised vectors exist: the listener does
      not look straight up or down, and the source is not where the listener
      stands. Outside it the source normalises a zero vector. */
  predicate NonDegenerate(listener: Listener, position: Vector3) {
    var right := RightAxis(listener.direction);
    var rel := Sub(position, listener.position);
    Dot(right, right) > 0.0 && Dot(rel, rel) > 0.0
  }

  /** A vector with a positive dot square has a positive length. */
  lemma LengthPositive(length: Vector3 -> real, v: Vector3)
    requires IsLength(length) && Dot(v, v) > 0.0
    ensures length(v) > 0.0
  {
    assert length(v) * length(v) == Dot(v, v);
  }

  /** Scaling both operands scales their dot product by both factors. */
  lemma ScaleDot(v: Vector3, w: Vector3, c: real, d: real)
    ensures Dot(Scale(v, c), Scale(w, d)) == c * d * Dot(v, w)
  {
    assert Dot(Scale(v, c), Scale(w, d))
        == (c * d) * (v.x * w.x) + (c * d) * (v.y * w.y) + (c * d) * (v.z * w.z);
  }

  /** A normalised vector has unit length. */
  lemma NormalizedIsUnit(length: Vector3 -> real, v: Vector3)
    requires IsLength(length) && Dot(v, v) > 0.0
    ensures length(v) > 0.0
    ensures Dot(Normalized(v, length), Normalized(v, length)) == 1.0
  {
    LengthPositive(length, v);
    var c := 1.0 / length(v);
    ScaleDot(v, v, c, c);
    assert c * length(v) == 1.0;
    assert Dot(v, v) == length(v) * length(v);
    assert c * c * Dot(v, v) == (c * length(v)) * (c * length(v));
  }

  /** The Cauchy-Schwarz inequality in three dimensions, through Lagrange's
      identity: the squared dot product falls short of the product of the
      squared lengths by the squared length of the cross product. */
  lemma CauchySchwarz(a: Vector3, b: Vector3)
    ensures Dot(a, b) * Dot(a, b) <= Dot(a, a) * Dot(b, b)
  {
    var c := Cross(a, b);
    assert Dot(a, a) * Dot(b, b) - Dot(a, b) * Dot(a, b) == Dot(c, c);
  }

  /** A real whose square is at most 1 lies in [-1, 1]. */
  lemma SquareAtMostOne(x: real)
    requires x * x <= 1.0
    ensures -1.0 <= x <= 1.0
  {
  }

  /** `calculateValues`: the cosine of the angle between the listener's right
      axis and the direction from the listener to the source. */
  function Pan(listener: Listener, position: Vector3, length: Vector3 -> real): (p: real)
    requires IsLength(length) && NonDegenerate(listener, position)
    ensures -1.0 <= p <= 1.0
  {
    var right := RightAxis(listener.direction);
    var rel := Sub(position, listener.position);
    NormalizedIsUnit(length, right);
    NormalizedIsUnit(length, rel);
    var p := Dot(Normalized(right, length), Normalized(rel, length));
    CauchySchwarz(Normalized(right, length), Normalized(rel, length));
    SquareAtMostOne(p);
    p
  }

  /** How far the source lies along the listener's (unnormalised) right axis. */
  function Side(listener: Listener, position: Vector3): real {
    Dot(RightAxis(listener.direction), Sub(position, listener.position))
  }

  /** The pan has the sign of the source's offset along the right axis: a
      source on the listener's right pans right, one on the left pans left,
      and one on neither side (ahead, behind, above or below) is centred. */
  lemma PanSign(listener: Listener, position: Vector3, length: Vector3 -> real)
    requires IsLength(length) && NonDegenerate(listener, position)
    ensures Pan(listener, position, length) > 0.0 <==> Side(listener, position) > 0.0
    ensures Pan(listener, position, length) < 0.0 <==> Side(listener, position) < 0.0
  {
    var right := RightAxis(listener.direction);
    var rel := Sub(position, listener.position);
    LengthPositive(length, right);
    LengthPositive(length, rel);
    var c := 1.0 / length(right);
    var d := 1.0 / length(rel);
    ScaleDot(right, rel, c, d);
    assert c * d > 0.0;
    assert Pan(listener, position, length) == (c * d) * Dot(right, rel);
  }

  /** The right axis of any direction, written out: the up vector is fixed,
      so only the horizontal part of the direction matters. */
  lemma RightAxisHorizontal(dir: Vector3)
    ensures RightAxis(dir) == Vector3(-dir.z, 0.0, dir.x)
  {
  }

  /** A listener looking horizontally down the negative z axis (from
      anywhere, with any vertical tilt) has +x as its right axis, so a source
      pans right exactly when it lies at larger x than the listener and left
      exactly when at smaller x. */
  lemma FacingMinusZRightIsPlusX(listener: Listener, position: Vector3, length: Vector3 -> real)
    requires IsLength(length) && NonDegenerate(listener, position)
    requires listener.direction.x == 0.0 && listener.direction.z < 0.0
    ensures RightAxis(listener.direction) == Vector3(-listener.direction.z, 0.0, 0.0)
    ensures Pan(listener, position, length) > 0.0 <==> position.x > listener.position.x
    ensures Pan(listener, position, length) < 0.0 <==> position.x < listener.position.x
  {
    RightAxisHorizontal(listener.direction);
    PanSign(listener, position, length);
    assert Side(listener, position) == -listener.direction.z * (position.x - listener.position.x);
  }

  /** The position constructors: the falloff fields are whatever the caller
      (or uninitialised memory) supplies; the pan is the one for the given
      position as the listener sees it now. */
  function NewSource(listener: Listener, length: Vector3 -> real, position: Vector3,
                     falloutType: AudioFallout, medDistance: real, maxDistance: real): (r: AudioSource)
    requires IsLength(length) && NonDegenerate(listener, position)
    ensures r.PanInRange()
    ensures r.position == position && r.pan == Pan(listener, r.position, length)
    ensures r.falloutType == falloutType && r.medDistance == medDistance && r.maxDistance == maxDistance
  {
    AudioSource(falloutType, position, medDistance, maxDistance, Pan(listener, position, length))
  }

  /** `setPosition`: stores the new position and recomputes the pan for it;
      the falloff kind and radii are kept. */
  function SetPosition(src: AudioSource, listener: Listener, length: Vector3 -> real, position: Vector3): (r: AudioSource)
    requires IsLength(length) && NonDegenerate(listener, position)
    ensures r.PanInRange()
    ensures r.position == position && r.pan == Pan(listener, r.position, length)
    ensures r.falloutType == src.falloutType
    ensures r.medDistance == src.medDistance && r.maxDistance == src.maxDistance
  {
    src.(position := position, pan := Pan(listener, position, length))
  }

  /** The copy constructor: copies falloff kind, position and radii but not
      the cached pan, which it recomputes against the listener as it is now. */
  function CopySource(src: AudioSource, listener: Listener, length: Vector3 -> real): (r: AudioSource)
    requires IsLength(length) && NonDegenerate(listener, src.position)
    ensures r.PanInRange()
    ensures r.position == src.position && r.falloutType == src.falloutType
    ensures r.medDistance == src.medDistance && r.maxDistance == src.maxDistance
    ensures r.pan == Pan(listener, r.position, length)
  {
    AudioSource(src.falloutType, src.position, src.medDistance, src.maxDistance, Pan(listener, src.position, length))
  }

  /** The recomputation ignores the cached pan: the original's pan never
      reaches the copy, and a source moved with `setPosition` is
      indistinguishable from one constructed at its new position with the
      same falloff fields. The pan is recomputed only by these three
      operations, so a listener that moves afterwards leaves every existing
      pan stale. */
  lemma RecomputedPanIgnoresCache(src: AudioSource, q: real, listener: Listener, length: Vector3 -> real, position: Vector3)
    requires IsLength(length) && NonDegenerate(listener, src.position) && NonDegenerate(listener, position)
    ensures CopySource(src.(pan := q), listener, length) == CopySource(src, listener, length)
    ensures SetPosition(src.(pan := q), listener, length, position)
         == NewSource(listener, length, position, src.falloutType, src.medDistance, src.maxDistance)
  {
  }
}
