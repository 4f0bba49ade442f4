/** How an animated widget approaches its place: each step leaves five sixths of the way,
    and close enough counts as there. */
module Motions {

  /** Position, rotation and scale. */
  datatype Pose = Pose(x: real, y: real, z: real, rx: real, ry: real, rz: real, s: real)

  /** Where a widget is to be, and where it is shown. */
  datatype Motion = Motion(goal: Pose, now: Pose)

  const AT_REST := Motion(Pose(0.0, 0.0, 0.0, 0.0, 0.0, 0.0, 1.0), Pose(0.0, 0.0, 0.0, 0.0, 0.0, 0.0, 1.0))
  const ZOOMS := 5.0

  function Towards(goal: real, now: real): real { (goal + now * ZOOMS) / (ZOOMS + 1.0) }

  /** The animation a step further. */
  function Stepped(m: Motion): Motion {
    m.(now := Pose(Towards(m.goal.x, m.now.x), Towards(m.goal.y, m.now.y), Towards(m.goal.z, m.now.z),
                   Towards(m.goal.rx, m.now.rx), Towards(m.goal.ry, m.now.ry), Towards(m.goal.rz, m.now.rz),
                   Towards(m.goal.s, m.now.s)))
  }

  function Finished(m: Motion): Motion { m.(now := m.goal) }

  /** Is |now - goal| / goal above one percent? The quotient with a negative goal never is,
      and the one with goal zero is unless both are. */
  predicate ScaleIsOff(goal: real, now: real) {
    if goal > 0.0 then now - goal > 0.01 * goal || goal - now > 0.01 * goal else goal == 0.0 && now != 0.0
  }

  function Length2(x: real, y: real, z: real): real { x * x + y * y + z * z }

  /** Checks if the widget is good enough: lengths up to 0.01 are. */
  predicate Settled(m: Motion) {
    && !ScaleIsOff(m.goal.s, m.now.s)
    && Length2(m.now.x - m.goal.x, m.now.y - m.goal.y, m.now.z - m.goal.z) <= 0.0001
    && Length2(m.now.rx - m.goal.rx, m.now.ry - m.goal.ry, m.now.rz - m.goal.rz) <= 0.0001
  }

  /** What one round of the animation makes of a motion. */
  function Moved(m: Motion): Motion { if Settled(Stepped(m)) then Finished(Stepped(m)) else Stepped(m) }

  // ------------------------------------------------------------ animations end

  function After(m: Motion, k: nat): Motion { if k == 0 then m else Stepped(After(m, k - 1)) }

  /** What is left of the way after k steps. */
  function Left(k: nat): real { if k == 0 then 1.0 else Left(k - 1) * 5.0 / 6.0 }

  /** Where k steps lead from start. */
  function Walked(goal: real, start: real, k: nat): real { goal + Left(k) * (start - goal) }

  function WalkedPose(g: Pose, n: Pose, k: nat): Pose {
    Pose(Walked(g.x, n.x, k), Walked(g.y, n.y, k), Walked(g.z, n.z, k),
         Walked(g.rx, n.rx, k), Walked(g.ry, n.ry, k), Walked(g.rz, n.rz, k), Walked(g.s, n.s, k))
  }

  lemma {:induction false} AfterIsWalked(m: Motion, k: nat)
    ensures After(m, k) == Motion(m.goal, WalkedPose(m.goal, m.now, k))
  {
    var g, n := m.goal, m.now;
    if k > 0 {
      AfterIsWalked(m, k - 1);
      WalkStep(g.x, n.x, k); WalkStep(g.y, n.y, k); WalkStep(g.z, n.z, k);
      WalkStep(g.rx, n.rx, k); WalkStep(g.ry, n.ry, k); WalkStep(g.rz, n.rz, k);
      WalkStep(g.s, n.s, k);
    }
  }

  lemma WalkStep(goal: real, start: real, k: nat)
    requires k > 0
    ensures Towards(goal, Walked(goal, start, k - 1)) == Walked(goal, start, k)
  {
    var q, d := Left(k - 1), start - goal;
    assert (q * d) * 5.0 / 6.0 == (q * 5.0 / 6.0) * d;
  }

  lemma {:induction false} LeftShrinks(k: nat)
    ensures 0.0 < Left(k) && Left(k) * (1.0 + k as real / 5.0) <= 1.0
  {
    if k > 0 {
      LeftShrinks(k - 1);
      var q, r := Left(k - 1), (k - 1) as real;
      assert Left(k) * (1.0 + k as real / 5.0) == q * (1.0 + r / 6.0);
      Larger(q, 1.0 + r / 6.0, 1.0 + r / 5.0);
    }
  }

  lemma Larger(q: real, a: real, b: real)
    requires 0.0 < q && a <= b
    ensures q * a <= q * b
  {
  }

  /** Any way gets as short as wanted. */
  lemma GetsShort(d: real, eps: real) returns (k: nat)
    requires d >= 0.0 && eps > 0.0
    ensures Left(k) * d <= eps
  {
    var r := d / eps;
    Quotient(d, eps);
    k := (5.0 * r).Floor + 1;
    LeftShrinks(k);
    var b := 1.0 + k as real / 5.0;
    Larger(eps, r, b);
    Larger(Left(k), d, eps * b);
    assert Left(k) * (eps * b) == eps * (Left(k) * b);
    Larger(eps, Left(k) * b, 1.0);
  }

  lemma Quotient(d: real, eps: real)
    requires d >= 0.0 && eps > 0.0
    ensures d / eps >= 0.0 && eps * (d / eps) == d
  {
  }

  function Abs(x: real): real { if x < 0.0 then -x else x }

  lemma CloseAfter(goal: real, start: real, k: nat, total: real, eps: real)
    requires Abs(start - goal) <= total && Left(k) * total <= eps
    ensures -eps <= Walked(goal, start, k) - goal <= eps
  {
    LeftShrinks(k);
    var q, d := Left(k), start - goal;
    Larger(q, d, total);
    Larger(q, -d, total);
    assert q * -d == -(q * d);
  }

  lemma SmallSquare(x: real, eps: real)
    requires -eps <= x <= eps
    ensures x * x <= eps * eps
  {
    Scaled(eps - x, 0.0, eps + x);
    assert (eps - x) * (eps + x) == eps * eps - x * x;
  }

  lemma Scaled(q: real, a: real, b: real)
    requires 0.0 <= q && a <= b
    ensures q * a <= q * b
  {
  }

  predicate Ends(m: Motion, k: nat) { Settled(After(m, k)) }

  /** An animation ends, however far it has to go, exactly when its goal is not scale zero
      or the scale is zero from the start. */
  lemma AnimationsEnd(m: Motion)
    ensures (exists k: nat :: Ends(m, k)) <==> m.goal.s != 0.0 || m.now.s == 0.0
  {
    if m.goal.s != 0.0 || m.now.s == 0.0 {
      var k := EndsAfter(m);
      assert Ends(m, k);
    } else {
      forall k: nat ensures !Ends(m, k) {
        AfterIsWalked(m, k);
        LeftShrinks(k);
        NonZero(Left(k), m.now.s);
      }
    }
  }

  lemma NonZero(q: real, d: real)
    requires q > 0.0 && d != 0.0
    ensures q * d != 0.0
  {
  }

  lemma EndsAfter(m: Motion) returns (k: nat)
    requires m.goal.s != 0.0 || m.now.s == 0.0
    ensures Settled(After(m, k))
  {
    var g, n := m.goal, m.now;
    var total := Distance(g, n);
    var eps := if g.s > 0.0 && 0.01 * g.s < 0.005 then 0.01 * g.s else 0.005;
    k := GetsShort(total, eps);
    AfterIsWalked(m, k);
    WalksClose(g, n, k, total, eps);
    CloseIsSettled(g, WalkedPose(g, n, k), eps);
  }

  lemma Distance(g: Pose, a: Pose) returns (total: real)
    ensures total >= 0.0 && Close(g, a, total)
  {
    total := Abs(a.x - g.x) + Abs(a.y - g.y) + Abs(a.z - g.z) + Abs(a.rx - g.rx) + Abs(a.ry - g.ry)
             + Abs(a.rz - g.rz) + Abs(a.s - g.s);
  }

  /** No component is off by more than eps. */
  predicate Close(g: Pose, a: Pose, eps: real) {
    && Abs(a.x - g.x) <= eps && Abs(a.y - g.y) <= eps && Abs(a.z - g.z) <= eps
    && Abs(a.rx - g.rx) <= eps && Abs(a.ry - g.ry) <= eps && Abs(a.rz - g.rz) <= eps && Abs(a.s - g.s) <= eps
  }

  lemma WalksClose(g: Pose, n: Pose, k: nat, total: real, eps: real)
    requires Close(g, n, total) && Left(k) * total <= eps
    ensures Close(g, WalkedPose(g, n, k), eps)
    ensures g.s == n.s ==> WalkedPose(g, n, k).s == g.s
  {
    CloseAfter(g.x, n.x, k, total, eps); CloseAfter(g.y, n.y, k, total, eps); CloseAfter(g.z, n.z, k, total, eps);
    CloseAfter(g.rx, n.rx, k, total, eps); CloseAfter(g.ry, n.ry, k, total, eps);
    CloseAfter(g.rz, n.rz, k, total, eps); CloseAfter(g.s, n.s, k, total, eps);
  }

  lemma CloseIsSettled(g: Pose, a: Pose, eps: real)
    requires Close(g, a, eps) && eps <= 0.005 && (g.s > 0.0 ==> eps <= 0.01 * g.s) && (g.s == 0.0 ==> a.s == 0.0)
    ensures Settled(Motion(g, a))
  {
    ShortLength(a.x - g.x, a.y - g.y, a.z - g.z);
    ShortLength(a.rx - g.rx, a.ry - g.ry, a.rz - g.rz);
  }

  lemma ShortLength(x: real, y: real, z: real)
    requires -0.005 <= x <= 0.005 && -0.005 <= y <= 0.005 && -0.005 <= z <= 0.005
    ensures Length2(x, y, z) <= 0.0001
  {
    SmallSquare(x, 0.005);
    SmallSquare(y, 0.005);
    SmallSquare(z, 0.005);
  }

  lemma SquareBounds(x: real)
    requires x * x <= 0.0001
    ensures -0.01 <= x <= 0.01
  {
    if x > 0.01 {
      Scaled(x, 0.01, x);
    } else if x < -0.01 {
      Scaled(-x, 0.01, -x);
    }
  }

  lemma LengthBounds(x: real, y: real, z: real)
    requires Length2(x, y, z) <= 0.0001
    ensures -0.01 <= x <= 0.01 && -0.01 <= y <= 0.01 && -0.01 <= z <= 0.01
  {
    NotNegative(x);
    NotNegative(y);
    NotNegative(z);
    SquareBounds(x);
    SquareBounds(y);
    SquareBounds(z);
  }

  lemma NotNegative(x: real)
    ensures x * x >= 0.0
  {
  }

  /** What counts as there is within a hundredth of the goal in every component, and within
      one percent of its scale if that is positive: a finished widget jumps no further. */
  lemma SettledIsClose(m: Motion)
    requires Settled(m)
    ensures var g, n := m.goal, m.now;
            && Abs(n.x - g.x) <= 0.01 && Abs(n.y - g.y) <= 0.01 && Abs(n.z - g.z) <= 0.01
            && Abs(n.rx - g.rx) <= 0.01 && Abs(n.ry - g.ry) <= 0.01 && Abs(n.rz - g.rz) <= 0.01
            && (g.s > 0.0 ==> Abs(n.s - g.s) <= 0.01 * g.s) && (g.s == 0.0 ==> n.s == 0.0)
  {
    var g, n := m.goal, m.now;
    LengthBounds(n.x - g.x, n.y - g.y, n.z - g.z);
    LengthBounds(n.rx - g.rx, n.ry - g.ry, n.rz - g.rz);
  }
}
