/** shader/src/reflect.rs, lines 16-136: the format tables (`ReflectInto<Format>`,
    `type_element_format`) and the element conversion. */
module ReflectFormats {
  import opened Base
  import opened Hal
  import opened SpirvReflect

  /** What each reflected vector format is made of (its channel kind, width
      and count), read off its name; `Undefined` has no shape. */
  function ReflectShape(f: ReflectFormat): FormatShape
    requires f != ReflectFormat.Undefined
  {
    match f
    case R32_UINT => Shape(UInt, 32, 1)
    case R32_SINT => Shape(SInt, 32, 1)
    case R32_SFLOAT => Shape(Float, 32, 1)
    case R32G32_UINT => Shape(UInt, 32, 2)
    case R32G32_SINT => Shape(SInt, 32, 2)
    case R32G32_SFLOAT => Shape(Float, 32, 2)
    case R32G32B32_UINT => Shape(UInt, 32, 3)
    case R32G32B32_SINT => Shape(SInt, 32, 3)
    case R32G32B32_SFLOAT => Shape(Float, 32, 3)
    case R32G32B32A32_UINT => Shape(UInt, 32, 4)
    case R32G32B32A32_SINT => Shape(SInt, 32, 4)
    case R32G32B32A32_SFLOAT => Shape(Float, 32, 4)
  }

  /** `ReflectInto<Format> for ReflectFormat`. `Undefined` is an error; every
      other format keeps its channel kind and width, and so its component
      count up to three, but the four-component formats map to the
      three-component `Rgb32*` formats. */
  function ConvertFormat(f: ReflectFormat): (r: Result<Format>)
    ensures r.Err? <==> f == ReflectFormat.Undefined
    ensures r.Err? ==> r.error == UndefinedFormat
    ensures r.Ok? && ReflectShape(f).components <= 3 ==> ShapeOf(r.value) == ReflectShape(f)
    ensures r.Ok? && ReflectShape(f).components == 4 ==> ShapeOf(r.value) == ReflectShape(f).(components := 3)
  {
    match f
    case Undefined => Err(UndefinedFormat)
    case R32_UINT => Ok(R32Uint)
    case R32_SINT => Ok(R32Int)
    case R32_SFLOAT => Ok(R32Float)
    case R32G32_UINT => Ok(Rg32Uint)
    case R32G32_SINT => Ok(Rg32Int)
    case R32G32_SFLOAT => Ok(Rg32Float)
    case R32G32B32_UINT => Ok(Rgb32Uint)
    case R32G32B32_SINT => Ok(Rgb32Int)
    case R32G32B32_SFLOAT => Ok(Rgb32Float)
    case R32G32B32A32_UINT => Ok(Rgb32Uint)
    case R32G32B32A32_SINT => Ok(Rgb32Int)
    case R32G32B32A32_SFLOAT => Ok(Rgb32Float)
  }

  /** The numeric kind chosen by the type flags: INT is tested before FLOAT. */
  function NumTyOf(flags: set<TypeFlag>, traits: NumericTraits): Result<NumTy> {
    if INT in flags then
      if traits.signedness == 0 then Ok(UInt)
      else if traits.signedness == 1 then Ok(SInt)
      else Err(UnrecognizedSignedness(traits.signedness))
    else if FLOAT in flags then Ok(Float)
    else Err(UnrecognizedNumericType)
  }

  /** The widths the scalar table knows for each numeric kind. */
  predicate KnownWidth(t: NumTy, width: nat) {
    if t == Float then width == 32 || width == 64
    else width == 8 || width == 16 || width == 32 || width == 64
  }

  /** The scalar format of a numeric kind and bit width. */
  function ScalarFormat(t: NumTy, width: u32): (r: Result<Format>)
    ensures r.Ok? <==> KnownWidth(t, width)
    ensures r.Ok? ==> ShapeOf(r.value) == Shape(t, width, 1)
    ensures r.Err? ==> r.error == UnrecognizedWidth(width)
  {
    match t
    case SInt =>
      if width == 8 then Ok(R8Int) else if width == 16 then Ok(R16Int)
      else if width == 32 then Ok(R32Int) else if width == 64 then Ok(R64Int)
      else Err(UnrecognizedWidth(width))
    case UInt =>
      if width == 8 then Ok(R8Uint) else if width == 16 then Ok(R16Uint)
      else if width == 32 then Ok(R32Uint) else if width == 64 then Ok(R64Uint)
      else Err(UnrecognizedWidth(width))
    case Float =>
      if width == 32 then Ok(R32Float) else if width == 64 then Ok(R64Float)
      else Err(UnrecognizedWidth(width))
  }

  /** One scalar format's row of the widening table: its siblings with 2, 3
      and 4 components. The postcondition only names the picked entry as one
      expression; it keeps the proof of `VectorFormat` small and is not a
      property of the model. */
  function Sibling(count: u32, two: Format, three: Format, four: Format): (r: Result<Format>)
    ensures r.Ok? ==> r.value == (if count == 2 then two else if count == 3 then three else four)
  {
    if count == 2 then Ok(two)
    else if count == 3 then Ok(three)
    else if count == 4 then Ok(four)
    else Err(UnrecognizedComponentCount(count))
  }

  /** The vector sibling of a scalar format with `count` components: only the
      one-component formats have siblings, with 2, 3 or 4 components and no
      other count, and a sibling keeps the scalar's kind and width. */
  function VectorFormat(scalar: Format, count: u32): (r: Result<Format>)
    ensures r.Ok? <==> ShapeOf(scalar).components == 1 && 2 <= count <= 4
    ensures r.Ok? ==> ShapeOf(r.value) == ShapeOf(scalar).(components := count)
    ensures r.Err? ==> r.error == UnrecognizedComponentCount(count)
  {
    match scalar
    case R8Int => Sibling(count, Rg8Int, Rgb8Int, Rgba8Int)
    case R16Int => Sibling(count, Rg16Int, Rgb16Int, Rgba16Int)
    case R32Int => Sibling(count, Rg32Int, Rgb32Int, Rgba32Int)
    case R64Int => Sibling(count, Rg64Int, Rgb64Int, Rgba64Int)
    case R8Uint => Sibling(count, Rg8Uint, Rgb8Uint, Rgba8Uint)
    case R16Uint => Sibling(count, Rg16Uint, Rgb16Uint, Rgba16Uint)
    case R32Uint => Sibling(count, Rg32Uint, Rgb32Uint, Rgba32Uint)
    case R64Uint => Sibling(count, Rg64Uint, Rgb64Uint, Rgba64Uint)
    case R32Float => Sibling(count, Rg32Float, Rgb32Float, Rgba32Float)
    case R64Float => Sibling(count, Rg64Float, Rgb64Float, Rgba64Float)
    case _ => Err(UnrecognizedComponentCount(count))
  }

  /** `type_element_format`: the element format of a numeric type. Checked in
      order: the kind (INT before FLOAT, INT needing signedness 0 or 1), then
      the width, then the component count (0 and 1 mean scalar, at most 4).
      Every combination outside the tables is an error, never a default. */
  function TypeElementFormat(flags: set<TypeFlag>, traits: NumericTraits): (r: Result<Format>)
    ensures INT !in flags && FLOAT !in flags ==> r == Err(UnrecognizedNumericType)
    ensures INT in flags && traits.signedness > 1 ==> r == Err(UnrecognizedSignedness(traits.signedness))
    ensures NumTyOf(flags, traits).Ok? && !KnownWidth(NumTyOf(flags, traits).value, traits.width)
            ==> r == Err(UnrecognizedWidth(traits.width))
    ensures (NumTyOf(flags, traits).Ok? && KnownWidth(NumTyOf(flags, traits).value, traits.width)
             && traits.componentCount > 4) ==> r == Err(UnrecognizedComponentCount(traits.componentCount))
    ensures r.Ok? <==> (INT in flags || FLOAT in flags) && (INT in flags ==> traits.signedness <= 1)
                       && NumTyOf(flags, traits).Ok?
                       && KnownWidth(NumTyOf(flags, traits).value, traits.width)
                       && traits.componentCount <= 4
    ensures r.Ok? ==> ShapeOf(r.value).kind == (if INT in flags then (if traits.signedness == 0 then UInt else SInt) else Float)
    ensures r.Ok? ==> ShapeOf(r.value).width == traits.width
    ensures r.Ok? ==> ShapeOf(r.value).components == (if traits.componentCount <= 1 then 1 else traits.componentCount)
  {
    match NumTyOf(flags, traits)
    case Err(e) => Err(e)
    case Ok(numTy) =>
      match ScalarFormat(numTy, traits.width)
      case Err(e) => Err(e)
      case Ok(current) =>
        if traits.componentCount > 1 then VectorFormat(current, traits.componentCount)
        else Ok(current)
  }

  /** Type flags and numeric traits that describe a format's shape. */
  function TraitsOf(f: Format): (NumericTraits, set<TypeFlag>) {
    var s := ShapeOf(f);
    (NumericTraits(if s.kind == SInt then 1 else 0, s.width, s.components),
     if s.kind == Float then {FLOAT} else {INT})
  }

  /** Every format of the table is produced by the numeric type that describes it. */
  lemma TypeElementFormatRoundTrip(f: Format)
    ensures TypeElementFormat(TraitsOf(f).1, TraitsOf(f).0) == Ok(f)
  {
    ShapeOfBounds(f);
    var r := TypeElementFormat(TraitsOf(f).1, TraitsOf(f).0);
    assert r.Ok?;
    ShapeOfInjective(r.value, f);
  }

  /** `ReflectInto<Element<Format>> for ReflectTypeDescription`: the format of the
      type at offset 0. */
  function ConvertElement(td: TypeDescription): (r: Result<Element>)
    ensures r.Ok? <==> TypeElementFormat(td.typeFlags, td.traits).Ok?
    ensures r.Ok? ==> r.value.offset == 0 && Ok(r.value.format) == TypeElementFormat(td.typeFlags, td.traits)
    ensures r.Err? ==> Err(r.error) == TypeElementFormat(td.typeFlags, td.traits)
  {
    match TypeElementFormat(td.typeFlags, td.traits)
    case Err(e) => Err(e)
    case Ok(format) => Ok(Element(format, 0))
  }
}
