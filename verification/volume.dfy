/** The volume screen (`calculateVolume`, `handleInputChange`,
    `handleShapeSelection`): six solids, each with its own input fields; every
    keystroke stores the field and recomputes. π is the positive constant `pi`
    and `parseFloat` the parameter `num` (`None` for NaN, including a field
    not typed yet, where the source reads `undefined`). The two-decimal text
    of the volume is not modelled. */
module Volume {
  import opened Options

  datatype Shape = Cube | Cuboid | Sphere | Cylinder | Cone | Pyramid

  /** The input names the fields store their text under. */
  datatype Field = Side | Length | Width | Height | Radius | BaseLength | BaseWidth

  /** The result line: blank after a shape is picked, 'Invalid input', or a volume. */
  datatype Result = Blank | InvalidInput | Volume(value: real)

  /** The picked shape (none at start, when no inputs are rendered), the
      stored field texts and the result. */
  datatype Screen = Screen(shape: Option<Shape>, values: map<Field, string>, result: Result)

  /** A stored field read with `parseFloat`; an absent field is NaN. */
  function Read(values: map<Field, string>, f: Field, num: string -> Option<real>): Option<real>
  {
    if f in values then num(values[f]) else None
  }

  /** The fields each shape reads. */
  function Fields(shape: Shape): (fs: set<Field>)
    ensures |fs| >= 1
  {
    match shape
    case Cube => {Side}
    case Cuboid => {Length, Width, Height}
    case Sphere => {Radius}
    case Cylinder => {Radius, Height}
    case Cone => {Radius, Height}
    case Pyramid => {BaseLength, BaseWidth, Height}
  }

  function CubeOf(side: real): real { side * side * side }
  function CuboidOf(l: real, w: real, h: real): real { l * w * h }
  function SphereOf(r: real, pi: real): real { (4.0 / 3.0) * pi * (r * r * r) }
  function CylinderOf(r: real, h: real, pi: real): real { pi * (r * r) * h }
  function ConeOf(r: real, h: real, pi: real): real { (1.0 / 3.0) * pi * (r * r) * h }
  function PyramidOf(bl: real, bw: real, h: real): real { (1.0 / 3.0) * bl * bw * h }

  /** The volume formulas; none when a field the shape reads is NaN. */
  function Of(shape: Shape, values: map<Field, string>, num: string -> Option<real>, pi: real): (v: Option<real>)
    ensures v.Some? <==> forall f :: f in Fields(shape) ==> Read(values, f, num).Some?
  {
    var side, l, w, h := Read(values, Side, num), Read(values, Length, num), Read(values, Width, num), Read(values, Height, num);
    var r, bl, bw := Read(values, Radius, num), Read(values, BaseLength, num), Read(values, BaseWidth, num);
    match shape
    case Cube => if side.Some? then Some(CubeOf(side.value)) else None
    case Cuboid => if l.Some? && w.Some? && h.Some? then Some(CuboidOf(l.value, w.value, h.value)) else None
    case Sphere => if r.Some? then Some(SphereOf(r.value, pi)) else None
    case Cylinder => if r.Some? && h.Some? then Some(CylinderOf(r.value, h.value, pi)) else None
    case Cone => if r.Some? && h.Some? then Some(ConeOf(r.value, h.value, pi)) else None
    case Pyramid => if bl.Some? && bw.Some? && h.Some? then Some(PyramidOf(bl.value, bw.value, h.value)) else None
  }

  /** `volume ? volume.toFixed(2) : 'Invalid input'`: NaN and 0 are falsy. */
  function Shown(v: Option<real>): (r: Result)
    ensures r.InvalidInput? <==> v.None? || v.value == 0.0
    ensures r.Volume? ==> r.value == v.value
  {
    if v.Some? && v.value != 0.0 then Volume(v.value) else InvalidInput
  }

  /** `handleInputChange`: the field is stored (other fields kept) and the
      volume recomputed. Inputs exist only once a shape is picked. */
  function InputChange(s: Screen, f: Field, text: string, num: string -> Option<real>, pi: real): (r: Screen)
    requires s.shape.Some?
    ensures r.shape == s.shape
    ensures r.values.Keys == s.values.Keys + {f} && r.values[f] == text
    ensures forall g :: g in s.values && g != f ==> r.values[g] == s.values[g]
    ensures r.result == Shown(Of(s.shape.value, r.values, num, pi))
  {
    var values := s.values[f := text];
    s.(values := values, result := Shown(Of(s.shape.value, values, num, pi)))
  }

  /** `handleShapeSelection`: the shape is picked and every field and the
      result are cleared. */
  function Select(s: Screen, shape: Shape): (r: Screen)
    ensures r.shape == Some(shape) && r.values == map[] && r.result.Blank?
  {
    Screen(Some(shape), map[], Blank)
  }

  /** A field of `shape` other than `f`, for a shape that reads several. */
  function Other(shape: Shape, f: Field): (g: Field)
    requires f in Fields(shape) && |Fields(shape)| >= 2
    ensures g in Fields(shape) && g != f
  {
    match shape
    case Cube => assert false; f
    case Sphere => assert false; f
    case Cylinder => if f == Radius then Height else Radius
    case Cone => if f == Radius then Height else Radius
    case Cuboid => if f == Length then Width else Length
    case Pyramid => if f == BaseLength then BaseWidth else BaseLength
  }

  /** Right after picking a shape, typing into one field of a shape that reads
      several still shows 'Invalid input': the others are not there yet. */
  lemma FirstOfSeveral(s: Screen, shape: Shape, f: Field, text: string, num: string -> Option<real>, pi: real)
    requires f in Fields(shape) && |Fields(shape)| >= 2
    ensures InputChange(Select(s, shape), f, text, num, pi).result.InvalidInput?
  {
    var g := Other(shape, f);
    var values: map<Field, string> := map[][f := text];
    assert InputChange(Select(s, shape), f, text, num, pi).result == Shown(Of(shape, values, num, pi));
    assert Read(values, g, num).None?;
    assert Of(shape, values, num, pi).None?;
  }

  /** A cone is a third of the cylinder on the same radius and height. */
  lemma ConeThirdOfCylinder(values: map<Field, string>, num: string -> Option<real>, pi: real)
    ensures var cone, cylinder := Of(Cone, values, num, pi), Of(Cylinder, values, num, pi);
            cone.Some? == cylinder.Some? && (cone.Some? ==> 3.0 * cone.value == cylinder.value)
  {
  }

  /** A pyramid is a third of the box with its base and height. */
  lemma PyramidThirdOfBox(values: map<Field, string>, num: string -> Option<real>, pi: real)
    requires BaseLength in values && BaseWidth in values && Height in values
    ensures var pyramid := Of(Pyramid, values, num, pi);
            var box := Of(Cuboid, map[Length := values[BaseLength], Width := values[BaseWidth], Height := values[Height]], num, pi);
            pyramid.Some? == box.Some? && (pyramid.Some? ==> 3.0 * pyramid.value == box.value)
  {
  }

  /** Solids of positive size have positive volumes, so they are shown
      rather than reported as 'Invalid input'. */
  lemma PositiveSizes(x: real, y: real, z: real, pi: real)
    requires x > 0.0 && y > 0.0 && z > 0.0 && pi > 0.0
    ensures CubeOf(x) > 0.0 && CuboidOf(x, y, z) > 0.0 && SphereOf(x, pi) > 0.0
    ensures CylinderOf(x, y, pi) > 0.0 && ConeOf(x, y, pi) > 0.0 && PyramidOf(x, y, z) > 0.0
    ensures Shown(Some(SphereOf(x, pi))).Volume? && Shown(Some(CubeOf(x))).Volume?
  {
    Positive3(x, x, x);
    Positive3(x, y, z);
    Positive3(4.0 / 3.0, pi, x * x * x);
    Positive3(x, x, 1.0);
    Positive3(pi, x * x, y);
    Positive3(1.0 / 3.0, pi * (x * x), y);
    Positive3(1.0 / 3.0, x, y);
    Positive3(1.0 / 3.0 * x, y, z);
  }

  lemma Positive3(a: real, b: real, c: real)
    requires a > 0.0 && b > 0.0 && c > 0.0
    ensures a * b > 0.0 && a * b * c > 0.0
  {
  }

  /** Doubling the side of a cube makes it eight times the volume. */
  lemma CubeDoubling(side: real)
    ensures CubeOf(2.0 * side) == 8.0 * CubeOf(side)
  {
  }
}
