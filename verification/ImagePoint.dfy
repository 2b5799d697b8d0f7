/** The pinhole projection and the measurement model of the Kalman filter built on it. */
module ImagePoint {
  import opened Types
  import opened Vectors

  datatype CameraModel = CameraModel(principalPoint: Point2, focalLength: real)

  /** A point in camera space, seen through the pinhole. */
  function Project(cam: CameraModel, p: Vec3): Point2
    requires p.z != 0.0
  {
    Point2(p.x / p.z * cam.focalLength + cam.principalPoint.x,
           p.y / p.z * cam.focalLength + cam.principalPoint.y)
  }

  function CameraPoint(translation: Vec3, rotation: Mat3, objectPoint: Vec3): Vec3 {
    Add(Times(rotation, objectPoint), translation)
  }

  /** `projectPoint`; the rotation is given as a matrix. */
  function ProjectPoint(cam: CameraModel, translation: Vec3, rotation: Mat3, objectPoint: Vec3): Point2
    requires CameraPoint(translation, rotation, objectPoint).z != 0.0
  {
    Project(cam, CameraPoint(translation, rotation, objectPoint))
  }

  /** The pose with its combined rotation, and the beacon, that the filter estimates. */
  datatype State = State(position: Vec3, rotation: Mat3, beacon: Vec3)
  {
    function Point(): Vec3 {
      CameraPoint(position, rotation, beacon)
    }
  }

  /** One row of the Jacobian: its columns for position, incremental rotation,
      linear velocity, angular velocity and beacon. */
  datatype Row = Row(position: Vec3, rotation: Vec3, velocity: Vec3, angularVelocity: Vec3, beacon: Vec3)

  datatype Jacobian = Jacobian(u: Row, v: Row)

  /** The two 2x3 blocks that are computed on their own. */
  datatype Block = Block(u: Vec3, v: Vec3)

  /** The position columns of the two rows. */
  function PositionU(f: real, p: Vec3): Vec3
    requires p.z != 0.0
  {
    Vec3(f / p.z, 0.0, -p.x * f / (p.z * p.z))
  }

  function PositionV(f: real, p: Vec3): Vec3
    requires p.z != 0.0
  {
    Vec3(0.0, f / p.z, -p.y * f / (p.z * p.z))
  }

  class ImagePointMeasurement {
    var variance: real
    var measurement: Point2
    const cam: CameraModel
    var beacon: Vec3
    var rotatedObjPoint: Vec3
    var rotatedTranslatedPoint: Vec3
    var xlate: Vec3
    var rot: Mat3

    constructor (cam: CameraModel)
      ensures this.cam == cam && variance == 2.0
    {
      this.cam := cam;
      variance := 2.0;
    }

    /** The cached values are those of this state. */
    ghost predicate Caches(s: State)
      reads this
    {
      && beacon == s.beacon && rot == s.rotation && xlate == s.position
      && rotatedObjPoint == Times(s.rotation, s.beacon)
      && rotatedTranslatedPoint == s.Point()
    }

    method UpdateFromState(s: State)
      modifies this
      ensures Caches(s)
      ensures variance == old(variance) && measurement == old(measurement)
    {
      beacon := s.beacon;
      rot := s.rotation;
      rotatedObjPoint := Times(rot, beacon);
      rotatedTranslatedPoint := Add(rotatedObjPoint, s.position);
      xlate := s.position;
    }

    method SetMeasurement(m: Point2)
      modifies this`measurement
      ensures measurement == m
    {
      measurement := m;
    }

    /** Only a positive variance is taken over, so it stays positive. */
    method SetVariance(s: real)
      modifies this`variance
      ensures variance == if s > 0.0 then s else old(variance)
      ensures old(variance) > 0.0 ==> variance > 0.0
    {
      if s > 0.0 {
        variance := s;
      }
    }

    /** Does not use the cache. */
    function GetResidual(s: State): Point2
      requires s.Point().z != 0.0
      reads this
    {
      var predicted := ProjectPoint(cam, s.position, s.rotation, s.beacon);
      Point2(measurement.x - predicted.x, measurement.y - predicted.y)
    }

    /** The depth as the beacon block computes it. */
    function BeaconDepth(): real
      reads this
    {
      beacon.z * rot.z.z + beacon.y * rot.z.y + beacon.x * rot.z.x + xlate.z
    }

    function GetBeaconJacobian(): Block
      requires BeaconDepth() != 0.0
      reads this
    {
      var v1 := rot.x.z * beacon.z + rot.x.y * beacon.y + beacon.x * rot.x.x + xlate.x;
      var v2 := BeaconDepth();
      var v3 := 1.0 / (v2 * v2);
      var v4 := 1.0 / v2;
      var v5 := rot.y.z * beacon.z + beacon.y * rot.y.y + beacon.x * rot.y.x + xlate.y;
      var f := cam.focalLength;
      Block(
        Vec3(rot.x.x * v4 * f - v1 * rot.z.x * v3 * f,
             rot.x.y * v4 * f - v1 * rot.z.y * v3 * f,
             rot.x.z * v4 * f - v1 * rot.z.z * v3 * f),
        Vec3(rot.y.x * v4 * f - v5 * rot.z.x * v3 * f,
             rot.y.y * v4 * f - v5 * rot.z.y * v3 * f,
             rot.y.z * v4 * f - v5 * rot.z.z * v3 * f))
    }

    function GetRotationJacobian(): Block
      requires rotatedTranslatedPoint.z != 0.0
      reads this
    {
      var x := rotatedTranslatedPoint.x;
      var y := rotatedTranslatedPoint.y;
      var obj := rotatedObjPoint;
      var zRecip := 1.0 / rotatedTranslatedPoint.z;
      var main0 := x * obj.y * -1.0 * zRecip;
      var main1 := y * obj.x * 1.0 * zRecip;
      var other0 := (obj.x * x * zRecip + obj.z) * 1.0;
      var other1 := (obj.y * y * zRecip + obj.z) * -1.0;
      var last0 := obj.y * -1.0;
      var last1 := obj.x * 1.0;
      var f := cam.focalLength;
      Block(
        Vec3(main0 * zRecip * f, other0 * zRecip * f, last0 * zRecip * f),
        Vec3(other1 * zRecip * f, main1 * zRecip * f, last1 * zRecip * f))
    }

    function GetJacobian(): Jacobian
      requires rotatedTranslatedPoint.z != 0.0 && BeaconDepth() != 0.0
      reads this
    {
      var p, f := rotatedTranslatedPoint, cam.focalLength;
      var rotation, beacon := GetRotationJacobian(), GetBeaconJacobian();
      Jacobian(
        Row(PositionU(f, p), rotation.u, ZERO, ZERO, beacon.u),
        Row(PositionV(f, p), rotation.v, ZERO, ZERO, beacon.v))
    }
  }

  // ----- The Jacobian is the derivative of the projection

  /** A change of the filter's state. */
  datatype Change = Change(position: Vec3, rotation: Vec3, velocity: Vec3, angularVelocity: Vec3, beacon: Vec3)

  function Apply(row: Row, d: Change): real {
    Dot(row.position, d.position) + Dot(row.rotation, d.rotation) + Dot(row.velocity, d.velocity)
    + Dot(row.angularVelocity, d.angularVelocity) + Dot(row.beacon, d.beacon)
  }

  /** How the change moves the camera-space point: the translation, the small rotation
      of the rotated beacon, and the rotated change of the beacon. */
  function Moves(s: State, d: Change): Vec3 {
    Add(Add(d.position, Cross(d.rotation, Times(s.rotation, s.beacon))), Times(s.rotation, d.beacon))
  }

  /** The matrix (1 + [w]) R of a rotation followed by a small one. */
  function Turned(r: Mat3, w: Vec3): Mat3 {
    Mat3(
      Vec3(r.x.x + w.y * r.z.x - w.z * r.y.x, r.x.y + w.y * r.z.y - w.z * r.y.y, r.x.z + w.y * r.z.z - w.z * r.y.z),
      Vec3(r.y.x + w.z * r.x.x - w.x * r.z.x, r.y.y + w.z * r.x.y - w.x * r.z.y, r.y.z + w.z * r.x.z - w.x * r.z.z),
      Vec3(r.z.x + w.x * r.y.x - w.y * r.x.x, r.z.y + w.x * r.y.y - w.y * r.x.y, r.z.z + w.x * r.y.z - w.y * r.x.z))
  }

  lemma DotOfAdd(r: Vec3, a: Vec3, b: Vec3)
    ensures Dot(r, Add(a, b)) == Dot(r, a) + Dot(r, b)
  {
  }

  lemma DotOfTurnedRow(a: Vec3, b: Vec3, c: Vec3, p: real, q: real, v: Vec3)
    ensures Dot(Vec3(a.x + p * b.x - q * c.x, a.y + p * b.y - q * c.y, a.z + p * b.z - q * c.z), v)
            == Dot(a, v) + p * Dot(b, v) - q * Dot(c, v)
  {
  }

  lemma TurnedTimes(r: Mat3, w: Vec3, v: Vec3)
    ensures Times(Turned(r, w), v) == Add(Times(r, v), Cross(w, Times(r, v)))
  {
    DotOfTurnedRow(r.x, r.z, r.y, w.y, w.z, v);
    DotOfTurnedRow(r.y, r.x, r.z, w.z, w.x, v);
    DotOfTurnedRow(r.z, r.y, r.x, w.x, w.y, v);
  }

  /** The state after a change. */
  function Moved(s: State, d: Change): State {
    State(Add(s.position, d.position), Turned(s.rotation, d.rotation), Add(s.beacon, d.beacon))
  }

  /** What turning the pose and moving the beacon at once adds; it is of second order. */
  function Beyond(s: State, d: Change): Vec3 {
    Cross(d.rotation, Times(s.rotation, d.beacon))
  }

  /** Where the camera-space point goes, exactly. */
  lemma PointMoves(s: State, d: Change)
    ensures Moved(s, d).Point() == Add(s.Point(), Add(Moves(s, d), Beyond(s, d)))
  {
    TurnedTimes(s.rotation, d.rotation, Add(s.beacon, d.beacon));
    DotOfAdd(s.rotation.x, s.beacon, d.beacon);
    DotOfAdd(s.rotation.y, s.beacon, d.beacon);
    DotOfAdd(s.rotation.z, s.beacon, d.beacon);
    CrossOfAdd(d.rotation, Times(s.rotation, s.beacon), Times(s.rotation, d.beacon));
  }

  lemma CrossOfAdd(w: Vec3, a: Vec3, b: Vec3)
    ensures Cross(w, Add(a, b)) == Add(Cross(w, a), Cross(w, b))
  {
  }

  /** The linear part of the change of one image coordinate, with q the reciprocal of the depth. */
  function Linear(f: real, q: real, x: real, dx: real, dz: real): real {
    f * q * dx - x * f * q * q * dz
  }

  lemma ScaledByDepth(f: real, q: real, z: real, x: real, dx: real, dz: real)
    requires q * z == 1.0
    ensures Linear(f, q, x, dx, dz) * z == f * dx - f * x * q * dz
  {
    assert f * q * dx * z == f * dx * (q * z);
    assert x * f * q * q * dz * z == f * x * q * dz * (q * z);
  }

  lemma ScaledByNewDepth(f: real, q: real, r: real, z: real, x: real, dx: real, dz: real)
    requires q * z == 1.0 && r * (z + dz) == 1.0
    ensures ((x + dx) * r * f - x * q * f) * (z + dz) == f * dx - f * x * q * dz
  {
    assert (x + dx) * r * f * (z + dz) == (x + dx) * f * (r * (z + dz));
    assert x * q * f * (z + dz) == x * f * (q * z) + f * x * q * dz;
  }

  /** The change of an image coordinate times the new depth is this linear part of it times the old depth. */
  predicate Exact(before: real, after: real, z: real, dz: real, linear: real) {
    (after - before) * (z + dz) == linear * z
  }

  /** The change of one image coordinate against its linear part. */
  lemma CoordinateExact(f: real, c: real, z: real, x: real, dx: real, dz: real, before: real, after: real)
    requires z != 0.0 && z + dz != 0.0
    requires before == x / z * f + c && after == (x + dx) / (z + dz) * f + c
    ensures Exact(before, after, z, dz, Linear(f, 1.0 / z, x, dx, dz))
  {
    var q, r := 1.0 / z, 1.0 / (z + dz);
    assert (x + dx) / (z + dz) == (x + dx) * r;
    assert x / z == x * q;
    assert after - before == (x + dx) * r * f - x * q * f;
    ScaledByDepth(f, q, z, x, dx, dz);
    ScaledByNewDepth(f, q, r, z, x, dx, dz);
  }

  lemma LinearAdds(f: real, q: real, x: real, dx: real, dz: real, ex: real, ez: real)
    ensures Linear(f, q, x, dx, dz) + Linear(f, q, x, ex, ez) == Linear(f, q, x, dx + ex, dz + ez)
  {
    assert f * q * (dx + ex) == f * q * dx + f * q * ex;
    assert x * f * q * q * (dz + ez) == x * f * q * q * dz + x * f * q * q * ez;
  }

  /** The position columns. */
  lemma PositionPart(f: real, z: real, x: real, dx: real, dz: real)
    requires z != 0.0
    ensures f / z * dx + -x * f / (z * z) * dz == Linear(f, 1.0 / z, x, dx, dz)
  {
    var q := 1.0 / z;
    assert f / z == f * q;
    ReciprocalOfSquare(z, -x * f);
  }

  lemma ReciprocalOfSquare(z: real, a: real)
    requires z != 0.0
    ensures z * z != 0.0 && 1.0 / (z * z) == 1.0 / z * (1.0 / z)
    ensures a / (z * z) == a * (1.0 / z * (1.0 / z))
  {
    var q, p := 1.0 / z, 1.0 / (z * z);
    assert q * z == 1.0 && p * (z * z) == 1.0;
    assert q * q * (z * z) == (q * z) * (q * z);
    assert p * (z * z) * (q * q) == q * q;
    assert p * ((z * q) * (z * q)) == q * q;
    assert p == q * q;
  }

  /** The rotation columns of the first image row; r is the rotated beacon. */
  lemma RotationPartU(f: real, q: real, x: real, r: Vec3, row: Vec3, w: Vec3)
    requires row.x == x * r.y * -1.0 * q * q * f
    requires row.y == (r.x * x * q + r.z) * 1.0 * q * f
    requires row.z == r.y * -1.0 * q * f
    ensures Dot(row, w) == Linear(f, q, x, Cross(w, r).x, Cross(w, r).z)
  {
  }

  /** And of the second. */
  lemma RotationPartV(f: real, q: real, y: real, r: Vec3, row: Vec3, w: Vec3)
    requires row.x == (r.y * y * q + r.z) * -1.0 * q * f
    requires row.y == y * r.x * 1.0 * q * q * f
    requires row.z == r.x * 1.0 * q * f
    ensures Dot(row, w) == Linear(f, q, y, Cross(w, r).y, Cross(w, r).z)
  {
  }

  /** One column of the beacon block; m and k are the matrix entries of the image row and the depth row. */
  lemma BeaconColumn(f: real, q: real, x: real, m: real, k: real, d: real)
    ensures (m * q * f - x * k * (q * q) * f) * d == Linear(f, q, x, m * d, k * d)
  {
  }

  /** The beacon columns of one row; m and k are the matrix rows of the image axis and the depth. */
  function BeaconRow(f: real, z: real, x: real, m: Vec3, k: Vec3): Vec3
    requires z != 0.0
  {
    Vec3(m.x * (1.0 / z) * f - x * k.x * (1.0 / (z * z)) * f,
         m.y * (1.0 / z) * f - x * k.y * (1.0 / (z * z)) * f,
         m.z * (1.0 / z) * f - x * k.z * (1.0 / (z * z)) * f)
  }

  lemma BeaconPart(f: real, z: real, x: real, m: Vec3, k: Vec3, d: Vec3)
    requires z != 0.0
    ensures Dot(BeaconRow(f, z, x, m, k), d) == Linear(f, 1.0 / z, x, Dot(m, d), Dot(k, d))
  {
    var q, row := 1.0 / z, BeaconRow(f, z, x, m, k);
    ReciprocalOfSquare(z, 1.0);
    BeaconEntry(f, z, q, x, m.x, k.x, d.x);
    BeaconEntry(f, z, q, x, m.y, k.y, d.y);
    BeaconEntry(f, z, q, x, m.z, k.z, d.z);
    LinearAdds(f, q, x, m.x * d.x, k.x * d.x, m.y * d.y, k.y * d.y);
    LinearAdds(f, q, x, m.x * d.x + m.y * d.y, k.x * d.x + k.y * d.y, m.z * d.z, k.z * d.z);
  }

  lemma BeaconEntry(f: real, z: real, q: real, x: real, m: real, k: real, d: real)
    requires z != 0.0 && q == 1.0 / z && 1.0 / (z * z) == q * q
    ensures (m * (1.0 / z) * f - x * k * (1.0 / (z * z)) * f) * d == Linear(f, q, x, m * d, k * d)
  {
    BeaconColumn(f, q, x, m, k, d);
  }

  /** The depth that the beacon block computes is the cached one. */
  lemma SameDepth(m: ImagePointMeasurement, s: State)
    requires m.Caches(s)
    ensures m.BeaconDepth() == m.rotatedTranslatedPoint.z == s.Point().z
  {
  }

  lemma BeaconBlockRows(m: ImagePointMeasurement, s: State)
    requires m.Caches(s) && s.Point().z != 0.0
    ensures m.BeaconDepth() != 0.0
    ensures var p, f := s.Point(), m.cam.focalLength;
      m.GetBeaconJacobian() == Block(BeaconRow(f, p.z, p.x, s.rotation.x, s.rotation.z), BeaconRow(f, p.z, p.y, s.rotation.y, s.rotation.z))
  {
    SameDepth(m, s);
    assert m.rot.x.z * m.beacon.z + m.rot.x.y * m.beacon.y + m.beacon.x * m.rot.x.x + m.xlate.x == s.Point().x;
    assert m.rot.y.z * m.beacon.z + m.beacon.y * m.rot.y.y + m.beacon.x * m.rot.y.x + m.xlate.y == s.Point().y;
  }

  lemma BeaconBlockLinear(m: ImagePointMeasurement, s: State, d: Vec3)
    requires m.Caches(s) && s.Point().z != 0.0
    ensures m.BeaconDepth() != 0.0
    ensures var block, q, f := m.GetBeaconJacobian(), 1.0 / s.Point().z, m.cam.focalLength;
      && Dot(block.u, d) == Linear(f, q, s.Point().x, Dot(s.rotation.x, d), Dot(s.rotation.z, d))
      && Dot(block.v, d) == Linear(f, q, s.Point().y, Dot(s.rotation.y, d), Dot(s.rotation.z, d))
  {
    BeaconBlockRows(m, s);
    BeaconPart(m.cam.focalLength, s.Point().z, s.Point().x, s.rotation.x, s.rotation.z, d);
    BeaconPart(m.cam.focalLength, s.Point().z, s.Point().y, s.rotation.y, s.rotation.z, d);
  }

  lemma RotationBlockLinear(m: ImagePointMeasurement, s: State, w: Vec3)
    requires m.Caches(s) && s.Point().z != 0.0
    ensures var block, q, f := m.GetRotationJacobian(), 1.0 / s.Point().z, m.cam.focalLength;
      var turn := Cross(w, Times(s.rotation, s.beacon));
      && Dot(block.u, w) == Linear(f, q, s.Point().x, turn.x, turn.z)
      && Dot(block.v, w) == Linear(f, q, s.Point().y, turn.y, turn.z)
  {
    var p, f, block := s.Point(), m.cam.focalLength, m.GetRotationJacobian();
    RotationPartU(f, 1.0 / p.z, p.x, m.rotatedObjPoint, block.u, w);
    RotationPartV(f, 1.0 / p.z, p.y, m.rotatedObjPoint, block.v, w);
  }

  lemma PositionRows(f: real, p: Vec3, d: Vec3)
    requires p.z != 0.0
    ensures Dot(PositionU(f, p), d) == Linear(f, 1.0 / p.z, p.x, d.x, d.z)
    ensures Dot(PositionV(f, p), d) == Linear(f, 1.0 / p.z, p.y, d.y, d.z)
  {
    PositionPart(f, p.z, p.x, d.x, d.z);
    PositionPart(f, p.z, p.y, d.y, d.z);
  }

  /** A row is linear when its blocks are. */
  lemma RowLinear(f: real, q: real, x: real, row: Row, d: Change, tx: real, tz: real, sx: real, sz: real)
    requires row.velocity == ZERO && row.angularVelocity == ZERO
    requires Dot(row.position, d.position) == Linear(f, q, x, tx, tz)
    requires Dot(row.rotation, d.rotation) + Dot(row.beacon, d.beacon) == Linear(f, q, x, sx, sz)
    ensures Apply(row, d) == Linear(f, q, x, tx + sx, tz + sz)
  {
    LinearAdds(f, q, x, tx, tz, sx, sz);
    DotZero(d.velocity);
    DotZero(d.angularVelocity);
  }

  lemma DotZero(v: Vec3)
    ensures Dot(ZERO, v) == 0.0
  {
  }

  lemma JacobianRowU(m: ImagePointMeasurement, s: State, d: Change)
    requires m.Caches(s) && s.Point().z != 0.0 && m.BeaconDepth() != 0.0
    ensures Apply(m.GetJacobian().u, d) == Linear(m.cam.focalLength, 1.0 / s.Point().z, s.Point().x, Moves(s, d).x, Moves(s, d).z)
  {
    var p, q, f, row := s.Point(), 1.0 / s.Point().z, m.cam.focalLength, m.GetJacobian().u;
    var turn, shift := Cross(d.rotation, Times(s.rotation, s.beacon)), Times(s.rotation, d.beacon);
    RotationBlockLinear(m, s, d.rotation);
    BeaconBlockLinear(m, s, d.beacon);
    LinearAdds(f, q, p.x, turn.x, turn.z, shift.x, shift.z);
    PositionRows(f, p, d.position);
    RowLinear(f, q, p.x, row, d, d.position.x, d.position.z, turn.x + shift.x, turn.z + shift.z);
  }

  lemma JacobianRowV(m: ImagePointMeasurement, s: State, d: Change)
    requires m.Caches(s) && s.Point().z != 0.0 && m.BeaconDepth() != 0.0
    ensures Apply(m.GetJacobian().v, d) == Linear(m.cam.focalLength, 1.0 / s.Point().z, s.Point().y, Moves(s, d).y, Moves(s, d).z)
  {
    var p, q, f, row := s.Point(), 1.0 / s.Point().z, m.cam.focalLength, m.GetJacobian().v;
    var turn, shift := Cross(d.rotation, Times(s.rotation, s.beacon)), Times(s.rotation, d.beacon);
    RotationBlockLinear(m, s, d.rotation);
    BeaconBlockLinear(m, s, d.beacon);
    LinearAdds(f, q, p.y, turn.y, turn.z, shift.y, shift.z);
    PositionRows(f, p, d.position);
    RowLinear(f, q, p.y, row, d, d.position.y, d.position.z, turn.y + shift.y, turn.z + shift.z);
  }

  /** What the Jacobian makes of a change is the linear part of what the projection does. */
  lemma JacobianLinear(m: ImagePointMeasurement, s: State, d: Change)
    requires m.Caches(s) && s.Point().z != 0.0
    ensures m.BeaconDepth() != 0.0
    ensures var j, q, f, move := m.GetJacobian(), 1.0 / s.Point().z, m.cam.focalLength, Moves(s, d);
      && Apply(j.u, d) == Linear(f, q, s.Point().x, move.x, move.z)
      && Apply(j.v, d) == Linear(f, q, s.Point().y, move.y, move.z)
  {
    SameDepth(m, s);
    JacobianRowU(m, s, d);
    JacobianRowV(m, s, d);
  }

  /** The projection of a point that is moved, against the linear part of the move. */
  lemma ProjectionExact(cam: CameraModel, p: Vec3, move: Vec3)
    requires p.z != 0.0 && p.z + move.z != 0.0
    ensures var f, q, before, after := cam.focalLength, 1.0 / p.z, Project(cam, p), Project(cam, Add(p, move));
      && Exact(before.x, after.x, p.z, move.z, Linear(f, q, p.x, move.x, move.z))
      && Exact(before.y, after.y, p.z, move.z, Linear(f, q, p.y, move.y, move.z))
  {
    var f, c, before, after := cam.focalLength, cam.principalPoint, Project(cam, p), Project(cam, Add(p, move));
    CoordinateExact(f, c.x, p.z, p.x, move.x, move.z, before.x, after.x);
    CoordinateExact(f, c.y, p.z, p.y, move.y, move.z, before.y, after.y);
  }

  /** The Jacobian is exact: for every change of the state, the change of the projected point times
      the new depth is what the Jacobian makes of it times the old depth, in both image axes. */
  lemma JacobianExact(m: ImagePointMeasurement, s: State, d: Change)
    requires m.Caches(s) && s.Point().z != 0.0 && s.Point().z + Moves(s, d).z != 0.0
    ensures m.BeaconDepth() != 0.0
    ensures var j, before, after := m.GetJacobian(), Project(m.cam, s.Point()), Project(m.cam, Add(s.Point(), Moves(s, d)));
      && Exact(before.x, after.x, s.Point().z, Moves(s, d).z, Apply(j.u, d))
      && Exact(before.y, after.y, s.Point().z, Moves(s, d).z, Apply(j.v, d))
  {
    JacobianLinear(m, s, d);
    ProjectionExact(m.cam, s.Point(), Moves(s, d));
  }

  /** How the residual of one and the same measurement changes with the state, exactly: what the Jacobian makes of
      the change, and the second-order part that appears when the pose turns and the beacon moves at once. */
  lemma ResidualExact(m: ImagePointMeasurement, s: State, d: Change)
    requires m.Caches(s) && s.Point().z != 0.0 && Moved(s, d).Point().z != 0.0
    ensures m.BeaconDepth() != 0.0
    ensures var j, q, f, p, beyond := m.GetJacobian(), 1.0 / s.Point().z, m.cam.focalLength, s.Point(), Beyond(s, d);
      var before, after, dz := m.GetResidual(s), m.GetResidual(Moved(s, d)), Moved(s, d).Point().z - p.z;
      && Exact(after.x, before.x, p.z, dz, Apply(j.u, d) + Linear(f, q, p.x, beyond.x, beyond.z))
      && Exact(after.y, before.y, p.z, dz, Apply(j.v, d) + Linear(f, q, p.y, beyond.y, beyond.z))
  {
    var p, q, f, move, beyond := s.Point(), 1.0 / s.Point().z, m.cam.focalLength, Moves(s, d), Beyond(s, d);
    PointMoves(s, d);
    JacobianLinear(m, s, d);
    ProjectionExact(m.cam, p, Add(move, beyond));
    LinearAdds(f, q, p.x, move.x, move.z, beyond.x, beyond.z);
    LinearAdds(f, q, p.y, move.y, move.z, beyond.y, beyond.z);
    ResidualDifference(m, s, Moved(s, d));
    SameDifference(Project(m.cam, p).x, Project(m.cam, Moved(s, d).Point()).x, m.GetResidual(Moved(s, d)).x, m.GetResidual(s).x,
                   p.z, move.z + beyond.z, Linear(f, q, p.x, move.x + beyond.x, move.z + beyond.z));
    SameDifference(Project(m.cam, p).y, Project(m.cam, Moved(s, d).Point()).y, m.GetResidual(Moved(s, d)).y, m.GetResidual(s).y,
                   p.z, move.z + beyond.z, Linear(f, q, p.y, move.y + beyond.y, move.z + beyond.z));
  }

  lemma SameDifference(before: real, after: real, before': real, after': real, z: real, dz: real, linear: real)
    requires Exact(before, after, z, dz, linear) && after' - before' == after - before
    ensures Exact(before', after', z, dz, linear)
  {
  }

  lemma ResidualDifference(m: ImagePointMeasurement, s: State, t: State)
    requires s.Point().z != 0.0 && t.Point().z != 0.0
    ensures var a, b, p, q := m.GetResidual(s), m.GetResidual(t), Project(m.cam, s.Point()), Project(m.cam, t.Point());
      a.x - b.x == q.x - p.x && a.y - b.y == q.y - p.y
  {
  }

  // ----- Where points project to

  /** A point on the optical axis projects to the principal point. */
  lemma AxisProjects(cam: CameraModel, p: Vec3)
    requires p.z != 0.0 && p.x == 0.0 && p.y == 0.0
    ensures Project(cam, p) == cam.principalPoint
  {
    assert 0.0 / p.z == 0.0;
  }

  lemma OnRayIff(u: real, c: real, f: real, x: real, z: real)
    requires z != 0.0
    ensures u - (x / z * f + c) == 0.0 <==> (u - c) * z == f * x
  {
    var q := x / z;
    assert q * z == x;
    assert f * x == q * f * z;
    if (u - c) * z == f * x {
      assert (u - c - q * f) * z == 0.0;
    }
  }

  /** The residual is zero if and only if the measurement lies on the ray of the beacon. */
  lemma ResidualZeroIff(m: ImagePointMeasurement, s: State)
    requires s.Point().z != 0.0
    ensures m.GetResidual(s) == Point2(0.0, 0.0) <==>
            && (m.measurement.x - m.cam.principalPoint.x) * s.Point().z == m.cam.focalLength * s.Point().x
            && (m.measurement.y - m.cam.principalPoint.y) * s.Point().z == m.cam.focalLength * s.Point().y
  {
    var p, c, f := s.Point(), m.cam.principalPoint, m.cam.focalLength;
    OnRayIff(m.measurement.x, c.x, f, p.x, p.z);
    OnRayIff(m.measurement.y, c.y, f, p.y, p.z);
  }

  /** A beacon at the origin of the body is where the pose says. */
  lemma OriginIsPosition(s: State)
    requires s.beacon == ZERO
    ensures s.Point() == s.position
  {
  }

  /** Nothing of second order is left when only one of the two changes. */
  lemma NothingBeyond(s: State, d: Change, f: real, q: real, x: real)
    requires d.rotation == ZERO || d.beacon == ZERO
    ensures Beyond(s, d) == ZERO && Linear(f, q, x, Beyond(s, d).x, Beyond(s, d).z) == 0.0
  {
  }

  /** When the pose turns or the beacon moves, but not both, the Jacobian alone tells how the residual changes. */
  lemma ResidualExactAlone(m: ImagePointMeasurement, s: State, d: Change)
    requires m.Caches(s) && s.Point().z != 0.0 && Moved(s, d).Point().z != 0.0
    requires d.rotation == ZERO || d.beacon == ZERO
    ensures m.BeaconDepth() != 0.0
    ensures var j, dz := m.GetJacobian(), Moved(s, d).Point().z - s.Point().z;
      var before, after := m.GetResidual(s), m.GetResidual(Moved(s, d));
      && Exact(after.x, before.x, s.Point().z, dz, Apply(j.u, d))
      && Exact(after.y, before.y, s.Point().z, dz, Apply(j.v, d))
  {
    ResidualExact(m, s, d);
    NothingBeyond(s, d, m.cam.focalLength, 1.0 / s.Point().z, s.Point().x);
    NothingBeyond(s, d, m.cam.focalLength, 1.0 / s.Point().z, s.Point().y);
  }
}
