/** The transform quantiser, with floats as reals and the integer casts written out. */
module TransformCompressor {

  const WORLD_RANGE_MIN := -2048.0
  const WORLD_RANGE_MAX := 2048.0
  const POSITION_RESOLUTION := (WORLD_RANGE_MAX - WORLD_RANGE_MIN) / 65535.0
  const HALF_RES := POSITION_RESOLUTION * 0.5
  const PI := 3.1415927410125732421875   // pi_v<float>

  // ------------------------------------------------------------------ casts

  /** Conversion to an integer drops the fraction. */
  function Trunc(x: real): int {
    if x >= 0.0 then x.Floor else -((-x).Floor)
  }

  /** The cast to uint16 is defined when the truncated value fits. */
  predicate FitsUint16(x: real) { -1.0 < x < 65536.0 }

  predicate FitsInt16(x: real) { -32769.0 < x < 32768.0 }

  function ToUint16(x: real): (r: int)
    requires FitsUint16(x)
    ensures 0 <= r < 65536
  {
    Trunc(x)
  }

  function ToInt16(x: real): (r: int)
    requires FitsInt16(x)
    ensures -32768 <= r < 32768
  {
    Trunc(x)
  }

  /** static_cast<int16> of a 16-bit field, and back. */
  function Signed(f: int): int { if f < 32768 then f else f - 65536 }

  function Unsigned(i: int): int { i % 65536 }

  // ----------------------------------------------------------- bit packing

  /** Four 16-bit fields, the first in the highest place. */
  function Join(a: int, b: int, c: int, d: int): int {
    ((a * 65536 + b) * 65536 + c) * 65536 + d
  }

  /** (packed >> 16 * k) & 0xFFFF */
  function Field(packed: int, k: nat): (f: int)
    ensures 0 <= f < 65536
    decreases k
  {
    if k == 0 then packed % 65536 else Field(packed / 65536, k - 1)
  }

  lemma JoinFields(a: int, b: int, c: int, d: int)
    requires 0 <= a < 65536 && 0 <= b < 65536 && 0 <= c < 65536 && 0 <= d < 65536
    ensures var p := Join(a, b, c, d);
            Field(p, 3) == a && Field(p, 2) == b && Field(p, 1) == c && Field(p, 0) == d
    ensures 0 <= Join(a, b, c, d) < 0x1_0000_0000_0000_0000
  {
    var p := Join(a, b, c, d);
    var p1, p2 := (a * 65536 + b) * 65536 + c, a * 65536 + b;
    assert p / 65536 == p1 && p1 / 65536 == p2 && p2 / 65536 == a;
    assert Field(p, 1) == Field(p1, 0) && Field(p, 2) == Field(p1, 1) == Field(p2, 0);
    assert Field(p, 3) == Field(p1, 2) == Field(p2, 1) == Field(a, 0);
  }

  lemma FieldUnfold(p: int, k: nat)
    ensures Field(p, k + 1) == Field(p / 65536, k)
  {
  }

  lemma JoinRest(p: int, p1: int, p2: int, p3: int)
    requires 0 <= p < 0x1_0000_0000_0000_0000 && p1 == p / 65536 && p2 == p1 / 65536 && p3 == p2 / 65536
    ensures Join(p3 % 65536, p2 % 65536, p1 % 65536, p % 65536) == p
  {
    assert 0 <= p3 < 65536;
  }

  lemma FieldsJoin(p: int)
    requires 0 <= p < 0x1_0000_0000_0000_0000
    ensures Join(Field(p, 3), Field(p, 2), Field(p, 1), Field(p, 0)) == p
  {
    var p1 := p / 65536;
    var p2 := p1 / 65536;
    var p3 := p2 / 65536;
    FieldUnfold(p, 0);
    FieldUnfold(p, 1);
    FieldUnfold(p1, 0);
    FieldUnfold(p, 2);
    FieldUnfold(p1, 1);
    FieldUnfold(p2, 0);
    JoinRest(p, p1, p2, p3);
  }

  // --------------------------------------------------------------- position

  function Clamp(x: real): real { if x < 0.0 then 0.0 else if x > 1.0 then 1.0 else x }

  function CompressPosition(value: real): int {
    ToUint16(Clamp((value - WORLD_RANGE_MIN) / (WORLD_RANGE_MAX - WORLD_RANGE_MIN)) * 65535.0)
  }

  function ExpandPosition(packed: int): real {
    packed as real / 65535.0 * (WORLD_RANGE_MAX - WORLD_RANGE_MIN) + WORLD_RANGE_MIN + HALF_RES
  }

  function PackPosition(px: real, py: real, pz: real): int
    requires FitsUint16(py * 128.0)
  {
    Join(CompressPosition(px), ToUint16(py * 128.0), CompressPosition(pz), 0)
  }

  function UnPackPosition(packed: int): (real, real, real) {
    (ExpandPosition(Unsigned(Signed(Field(packed, 3)))),
     Signed(Field(packed, 2)) as real / 128.0,
     ExpandPosition(Unsigned(Signed(Field(packed, 1)))))
  }

  function Abs(x: real): real { if x < 0.0 then -x else x }

  lemma SignedUnsigned(f: int)
    requires 0 <= f < 65536
    ensures Unsigned(Signed(f)) == f
  {
  }

  /** The half step added on expansion centres the error, and shifts the last code's
      range one step beyond the world. */
  predicate InRange(x: real) { WORLD_RANGE_MIN <= x <= WORLD_RANGE_MAX + 2.0 * HALF_RES }

  lemma CoordinateError(x: real)
    ensures Abs(ExpandPosition(CompressPosition(x)) - x) <= HALF_RES <==> InRange(x)
  {
  }

  lemma CoordinateRepack(c: int)
    requires 0 <= c < 65536
    ensures CompressPosition(ExpandPosition(c)) == c
  {
  }

  /** Packing and unpacking errs by at most half a resolution step in x and z exactly
      within the world range and one step beyond its upper end; in y it stays below 1/128
      exactly for heights under 256, where the unpacking's signed cast does not wrap. */
  lemma PositionError(px: real, py: real, pz: real)
    requires FitsUint16(py * 128.0)
    ensures var (x, y, z) := UnPackPosition(PackPosition(px, py, pz));
            && (Abs(x - px) <= HALF_RES <==> InRange(px))
            && (Abs(z - pz) <= HALF_RES <==> InRange(pz))
            && (Abs(y - py) < 1.0 / 128.0 <==> py < 256.0)
  {
    var a, b, c := CompressPosition(px), ToUint16(py * 128.0), CompressPosition(pz);
    JoinFields(a, b, c, 0);
    SignedUnsigned(a);
    SignedUnsigned(c);
    CoordinateError(px);
    CoordinateError(pz);
  }

  /** x, y, z and a field left zero, from the highest place down. */
  lemma PositionLayout(px: real, py: real, pz: real)
    requires FitsUint16(py * 128.0)
    ensures var p := PackPosition(px, py, pz);
            && 0 <= p < 0x1_0000_0000_0000_0000
            && Field(p, 3) == CompressPosition(px) && Field(p, 2) == Trunc(py * 128.0)
            && Field(p, 1) == CompressPosition(pz) && Field(p, 0) == 0
  {
    JoinFields(CompressPosition(px), ToUint16(py * 128.0), CompressPosition(pz), 0);
  }

  lemma JoinLast(a: int, b: int, c: int, d: int)
    ensures Join(a, b, c, 0) == Join(a, b, c, d) - d
  {
  }

  lemma HeightRepack(f: int)
    requires 0 <= f < 65536
    ensures var y := Signed(f) as real / 128.0;
            && (FitsUint16(y * 128.0) <==> f < 32768)
            && (f < 32768 ==> ToUint16(y * 128.0) == f)
  {
    assert Signed(f) as real / 128.0 * 128.0 == Signed(f) as real;
  }

  lemma RepackFields(a: int, h: int, c: int)
    requires 0 <= a < 65536 && 0 <= h < 65536 && 0 <= c < 65536
    ensures var (x, y, z) := (ExpandPosition(Unsigned(Signed(a))), Signed(h) as real / 128.0,
              ExpandPosition(Unsigned(Signed(c))));
            && (FitsUint16(y * 128.0) <==> h < 32768)
            && (h < 32768 ==> PackPosition(x, y, z) == Join(a, h, c, 0))
  {
    SignedUnsigned(a);
    SignedUnsigned(c);
    CoordinateRepack(a);
    CoordinateRepack(c);
    HeightRepack(h);
  }

  /** An unpacked position can be packed again exactly when its y field is below 32768,
      and that gives the code back with the unused low field cleared. */
  lemma PositionRepack(p: int)
    requires 0 <= p < 0x1_0000_0000_0000_0000
    ensures var (x, y, z) := UnPackPosition(p);
            && (FitsUint16(y * 128.0) <==> Field(p, 2) < 32768)
            && (Field(p, 2) < 32768 ==> PackPosition(x, y, z) == p - Field(p, 0))
  {
    var a, h, c, d := Field(p, 3), Field(p, 2), Field(p, 1), Field(p, 0);
    RepackFields(a, h, c);
    FieldsJoin(p);
    JoinLast(a, h, c, d);
  }

  // --------------------------------------------------------------- rotation

  function YawScaled(yaw: real): real { (yaw + PI) / (2.0 * PI) * 65535.0 }

  function PitchScaled(pitch: real): real { (pitch + PI / 2.0) / PI * 65535.0 }

  function PackRotation(yaw: real, pitch: real): int
    requires FitsUint16(YawScaled(yaw)) && FitsUint16(PitchScaled(pitch))
  {
    ToUint16(YawScaled(yaw)) * 65536 + ToUint16(PitchScaled(pitch))
  }

  function UnPackRotation(packed: int): (real, real) {
    (Field(packed, 1) as real / 65535.0 * (2.0 * PI) - PI,
     Field(packed, 0) as real / 65535.0 * PI - PI / 2.0)
  }

  /** Yaw above pitch, each a fraction of its range in 65535 steps. */
  lemma RotationLayout(yaw: real, pitch: real)
    requires FitsUint16(YawScaled(yaw)) && FitsUint16(PitchScaled(pitch))
    ensures var p := PackRotation(yaw, pitch);
            && 0 <= p < 0x1_0000_0000
            && Field(p, 1) == Trunc((yaw + PI) / (2.0 * PI) * 65535.0)
            && Field(p, 0) == Trunc((pitch + PI / 2.0) / PI * 65535.0)
  {
    var a, b := ToUint16(YawScaled(yaw)), ToUint16(PitchScaled(pitch));
    JoinFields(0, 0, a, b);
    assert Join(0, 0, a, b) == a * 65536 + b;
  }

  lemma RotationError(yaw: real, pitch: real)
    requires FitsUint16(YawScaled(yaw)) && FitsUint16(PitchScaled(pitch))
    ensures var (y, p) := UnPackRotation(PackRotation(yaw, pitch));
            Abs(y - yaw) < 2.0 * PI / 65535.0 && Abs(p - pitch) < PI / 65535.0
  {
    var a, b := ToUint16(YawScaled(yaw)), ToUint16(PitchScaled(pitch));
    JoinFields(0, 0, a, b);
    assert Join(0, 0, a, b) == a * 65536 + b;
  }

  lemma RotationRepack(p: int)
    requires 0 <= p < 0x1_0000_0000
    ensures var (yaw, pitch) := UnPackRotation(p);
            && FitsUint16(YawScaled(yaw)) && FitsUint16(PitchScaled(pitch))
            && PackRotation(yaw, pitch) == p
  {
    FieldsJoin(p);
    assert Field(p, 1) == p / 65536 by {
      assert Field(p, 1) == Field(p / 65536, 0);
    }
  }

  // --------------------------------------------------------------- velocity

  predicate VelocityFits(v: real) { FitsInt16(v * 100.0) }

  function PackVelocityAndSpeed(vx: real, vy: real, vz: real, speed: real): int
    requires VelocityFits(vx) && VelocityFits(vy) && VelocityFits(vz) && VelocityFits(speed)
  {
    Join(Unsigned(ToInt16(vx * 100.0)), Unsigned(ToInt16(vy * 100.0)),
         Unsigned(ToInt16(vz * 100.0)), Unsigned(ToInt16(speed * 100.0)))
  }

  function UnpackVelocityAndSpeed(packed: int): (real, real, real, real) {
    (Signed(Field(packed, 3)) as real / 100.0, Signed(Field(packed, 2)) as real / 100.0,
     Signed(Field(packed, 1)) as real / 100.0, Signed(Field(packed, 0)) as real / 100.0)
  }

  lemma UnsignedSigned(i: int)
    requires -32768 <= i < 32768
    ensures Signed(Unsigned(i)) == i && 0 <= Unsigned(i) < 65536
  {
  }

  /** The three components and the speed in hundredths, from the highest place down. */
  lemma VelocityLayout(vx: real, vy: real, vz: real, speed: real)
    requires VelocityFits(vx) && VelocityFits(vy) && VelocityFits(vz) && VelocityFits(speed)
    ensures var p := PackVelocityAndSpeed(vx, vy, vz, speed);
            && 0 <= p < 0x1_0000_0000_0000_0000
            && Signed(Field(p, 3)) == Trunc(vx * 100.0) && Signed(Field(p, 2)) == Trunc(vy * 100.0)
            && Signed(Field(p, 1)) == Trunc(vz * 100.0) && Signed(Field(p, 0)) == Trunc(speed * 100.0)
  {
    var a, b, c, d := ToInt16(vx * 100.0), ToInt16(vy * 100.0), ToInt16(vz * 100.0), ToInt16(speed * 100.0);
    UnsignedSigned(a);
    UnsignedSigned(b);
    UnsignedSigned(c);
    UnsignedSigned(d);
    JoinFields(Unsigned(a), Unsigned(b), Unsigned(c), Unsigned(d));
  }

  lemma VelocityError(vx: real, vy: real, vz: real, speed: real)
    requires VelocityFits(vx) && VelocityFits(vy) && VelocityFits(vz) && VelocityFits(speed)
    ensures var (x, y, z, s) := UnpackVelocityAndSpeed(PackVelocityAndSpeed(vx, vy, vz, speed));
            Abs(x - vx) < 0.01 && Abs(y - vy) < 0.01 && Abs(z - vz) < 0.01 && Abs(s - speed) < 0.01
  {
    var a, b, c, d := ToInt16(vx * 100.0), ToInt16(vy * 100.0), ToInt16(vz * 100.0), ToInt16(speed * 100.0);
    UnsignedSigned(a);
    UnsignedSigned(b);
    UnsignedSigned(c);
    UnsignedSigned(d);
    JoinFields(Unsigned(a), Unsigned(b), Unsigned(c), Unsigned(d));
  }

  lemma SpeedRepack(f: int)
    requires 0 <= f < 65536
    ensures var v := Signed(f) as real / 100.0; VelocityFits(v) && Unsigned(ToInt16(v * 100.0)) == f
  {
    assert Signed(f) as real / 100.0 * 100.0 == Signed(f) as real;
    SignedUnsigned(f);
  }

  lemma VelocityRepack(p: int)
    requires 0 <= p < 0x1_0000_0000_0000_0000
    ensures var (x, y, z, s) := UnpackVelocityAndSpeed(p);
            && VelocityFits(x) && VelocityFits(y) && VelocityFits(z) && VelocityFits(s)
            && PackVelocityAndSpeed(x, y, z, s) == p
  {
    var a, b, c, d := Field(p, 3), Field(p, 2), Field(p, 1), Field(p, 0);
    SpeedRepack(a);
    SpeedRepack(b);
    SpeedRepack(c);
    SpeedRepack(d);
    FieldsJoin(p);
  }
}
