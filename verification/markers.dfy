/** The marker rule the two scanpath renderers share (the PIL renderer in
    eyetracking_analyzer/visualizer.py and the canvas renderer in script.js):
    the first fixation is drawn green, the last red, every other one blue, and
    the first-fixation test is made before the last-fixation test. */
module Markers {

  /** A colour with 8-bit channels and an opacity between 0 and 1. */
  datatype Rgba = Rgba(r: nat, g: nat, b: nat, alpha: real)

  const White := Rgba(255, 255, 255, 1.0)
  const Green := Rgba(46, 204, 113, 1.0)
  const Red := Rgba(231, 76, 60, 1.0)
  const Blue := Rgba(52, 152, 219, 1.0)

  datatype Role = Start | End | Interior

  /** Role of the marker at index i of n markers. */
  function RoleOf(i: nat, n: nat): (role: Role)
    requires i < n
    ensures role == Start <==> i == 0
    ensures role == End <==> i == n - 1 && n > 1
    ensures role == Interior <==> 0 < i < n - 1
  {
    if i == 0 then Start else if i == n - 1 then End else Interior
  }

  function RoleColor(role: Role): (c: Rgba)
    ensures c.alpha == 1.0
  {
    match role
    case Start => Green
    case End => Red
    case Interior => Blue
  }

  /** The three colours are pairwise distinct, so the fill alone tells the
      first, the last and the interior markers apart. */
  lemma RoleColorInjective(a: Role, b: Role)
    requires a != b
    ensures RoleColor(a) != RoleColor(b)
  {
  }

  /** Exactly one marker is the start and, from two markers on, exactly one is
      the end; a single marker is the start, never the end. */
  lemma RolesOfSequence(n: nat)
    requires n >= 1
    ensures RoleOf(0, n) == Start
    ensures forall i :: 0 < i < n ==> RoleOf(i, n) != Start
    ensures n == 1 ==> forall i :: 0 <= i < n ==> RoleOf(i, n) != End
    ensures n > 1 ==> RoleOf(n - 1, n) == End && forall i :: 0 <= i < n - 1 ==> RoleOf(i, n) != End
  {
  }
}
