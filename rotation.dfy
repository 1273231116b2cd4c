/** The rotation snap rule of the meme editor (src/components/MemeCreator.tsx:307-316):
    a raw rotation within 5 degrees of one of the listed angles becomes exactly that
    angle; the angles are tried in list order and the first hit wins. */
module Rotation {

  const SNAP_ANGLES: seq<real> := [0.0, 90.0, 180.0, 270.0, -90.0, -180.0, -270.0]
  const SNAP_WINDOW: real := 5.0

  function Abs(r: real): real { if r < 0.0 then -r else r }

  /** `r` is within the snap window of `angle`. */
  predicate Near(r: real, angle: real) {
    Abs(r - angle) < SNAP_WINDOW
  }

  /** No angle before index `k` is near `r`. */
  predicate NoneNearBefore(r: real, angles: seq<real>, k: int)
    requires 0 <= k <= |angles|
  {
    forall i :: 0 <= i < k ==> !Near(r, angles[i])
  }

  /** The rule over any list of angles: the first angle near `r`, or `r` itself. */
  function SnapFrom(r: real, angles: seq<real>): (s: real)
    ensures NoneNearBefore(r, angles, |angles|) ==> s == r
    ensures forall k :: 0 <= k < |angles| && Near(r, angles[k]) && NoneNearBefore(r, angles, k) ==> s == angles[k]
    ensures s == r || (s in angles && Near(r, s))
    decreases |angles|
  {
    if angles == [] then r
    else if Near(r, angles[0]) then angles[0]
    else
      var s := SnapFrom(r, angles[1..]);
      assert forall k :: 0 < k <= |angles| && NoneNearBefore(r, angles, k) ==> NoneNearBefore(r, angles[1..], k - 1);
      s
  }

  /** The rule with the editor's seven angles. */
  function Snap(r: real): (s: real)
    ensures s == r || (s in SNAP_ANGLES && Near(r, s))
    ensures (forall a | a in SNAP_ANGLES :: !Near(r, a)) ==> s == r
  {
    SnapFrom(r, SNAP_ANGLES)
  }

  /** The `for ... break` loop of the mouse-move handler. */
  method SnapRotation(raw: real) returns (rotation: real)
    ensures rotation == Snap(raw)
    ensures rotation == raw || (rotation in SNAP_ANGLES && Near(raw, rotation))
  {
    rotation := raw;
    for i := 0 to |SNAP_ANGLES|
      invariant rotation == raw
      invariant NoneNearBefore(raw, SNAP_ANGLES, i)
    {
      if Abs(rotation - SNAP_ANGLES[i]) < SNAP_WINDOW {
        rotation := SNAP_ANGLES[i];
        break;
      }
    }
  }

  /** The seven windows are disjoint, so at most one angle can be near a rotation
      and "first in list order" is "the only one". */
  lemma WindowsDisjoint(r: real, i: int, j: int)
    requires 0 <= i < |SNAP_ANGLES| && 0 <= j < |SNAP_ANGLES| && i != j
    ensures !(Near(r, SNAP_ANGLES[i]) && Near(r, SNAP_ANGLES[j]))
  {
    assert Abs(SNAP_ANGLES[i] - SNAP_ANGLES[j]) >= 90.0;
  }

  /** A rotation near a snap angle is stored as exactly that angle; a rotation near
      none is stored unchanged. */
  lemma SnapExact(r: real)
    ensures forall k :: 0 <= k < |SNAP_ANGLES| && Near(r, SNAP_ANGLES[k]) ==> Snap(r) == SNAP_ANGLES[k]
    ensures (forall k :: 0 <= k < |SNAP_ANGLES| ==> !Near(r, SNAP_ANGLES[k])) ==> Snap(r) == r
  {
    forall k | 0 <= k < |SNAP_ANGLES| && Near(r, SNAP_ANGLES[k]) ensures Snap(r) == SNAP_ANGLES[k] {
      forall i | 0 <= i < k ensures !Near(r, SNAP_ANGLES[i]) {
        WindowsDisjoint(r, i, k);
      }
    }
  }

  /** Snapping a stored rotation again changes nothing. */
  lemma SnapIdempotent(r: real)
    ensures Snap(Snap(r)) == Snap(r)
  {
    SnapExact(r);
    if k :| 0 <= k < |SNAP_ANGLES| && Near(r, SNAP_ANGLES[k]) {
      SnapExact(SNAP_ANGLES[k]);
      assert Near(SNAP_ANGLES[k], SNAP_ANGLES[k]);
    } else {
      assert Snap(r) == r;
    }
  }

  /** A raw angle of 92 degrees is stored as 90. */
  lemma SnapNinetyTwo()
    ensures Snap(92.0) == 90.0
  {
    SnapExact(92.0);
    assert Near(92.0, SNAP_ANGLES[1]);
  }
}
