/** The gfx_hal types that the reflection code produces. Only the formats that
    the reflection tables can yield are listed. */
module Hal {
  import opened Base

  /** `gfx_hal::format::Format`, restricted to the integer and float vertex formats. */
  datatype Format =
    | R8Int   | Rg8Int   | Rgb8Int   | Rgba8Int
    | R16Int  | Rg16Int  | Rgb16Int  | Rgba16Int
    | R32Int  | Rg32Int  | Rgb32Int  | Rgba32Int
    | R64Int  | Rg64Int  | Rgb64Int  | Rgba64Int
    | R8Uint  | Rg8Uint  | Rgb8Uint  | Rgba8Uint
    | R16Uint | Rg16Uint | Rgb16Uint | Rgba16Uint
    | R32Uint | Rg32Uint | Rgb32Uint | Rgba32Uint
    | R64Uint | Rg64Uint | Rgb64Uint | Rgba64Uint
    | R32Float | Rg32Float | Rgb32Float | Rgba32Float
    | R64Float | Rg64Float | Rgb64Float | Rgba64Float

  /** The numeric kind of a format's channels (the `NumTy` of `type_element_format`). */
  datatype NumTy = SInt | UInt | Float

  datatype FormatShape = Shape(kind: NumTy, width: nat, components: nat)

  /** What each format is made of: channel kind, channel width in bits and
      number of channels. This table is read off the format names and is
      independent of the reflection tables that produce formats. */
  function ShapeOf(f: Format): FormatShape {
    match f
    case R8Int => Shape(SInt, 8, 1)       case Rg8Int => Shape(SInt, 8, 2)
    case Rgb8Int => Shape(SInt, 8, 3)     case Rgba8Int => Shape(SInt, 8, 4)
    case R16Int => Shape(SInt, 16, 1)     case Rg16Int => Shape(SInt, 16, 2)
    case Rgb16Int => Shape(SInt, 16, 3)   case Rgba16Int => Shape(SInt, 16, 4)
    case R32Int => Shape(SInt, 32, 1)     case Rg32Int => Shape(SInt, 32, 2)
    case Rgb32Int => Shape(SInt, 32, 3)   case Rgba32Int => Shape(SInt, 32, 4)
    case R64Int => Shape(SInt, 64, 1)     case Rg64Int => Shape(SInt, 64, 2)
    case Rgb64Int => Shape(SInt, 64, 3)   case Rgba64Int => Shape(SInt, 64, 4)
    case R8Uint => Shape(UInt, 8, 1)      case Rg8Uint => Shape(UInt, 8, 2)
    case Rgb8Uint => Shape(UInt, 8, 3)    case Rgba8Uint => Shape(UInt, 8, 4)
    case R16Uint => Shape(UInt, 16, 1)    case Rg16Uint => Shape(UInt, 16, 2)
    case Rgb16Uint => Shape(UInt, 16, 3)  case Rgba16Uint => Shape(UInt, 16, 4)
    case R32Uint => Shape(UInt, 32, 1)    case Rg32Uint => Shape(UInt, 32, 2)
    case Rgb32Uint => Shape(UInt, 32, 3)  case Rgba32Uint => Shape(UInt, 32, 4)
    case R64Uint => Shape(UInt, 64, 1)    case Rg64Uint => Shape(UInt, 64, 2)
    case Rgb64Uint => Shape(UInt, 64, 3)  case Rgba64Uint => Shape(UInt, 64, 4)
    case R32Float => Shape(Float, 32, 1)  case Rg32Float => Shape(Float, 32, 2)
    case Rgb32Float => Shape(Float, 32, 3) case Rgba32Float => Shape(Float, 32, 4)
    case R64Float => Shape(Float, 64, 1)  case Rg64Float => Shape(Float, 64, 2)
    case Rgb64Float => Shape(Float, 64, 3) case Rgba64Float => Shape(Float, 64, 4)
  }

  /** The formats of one channel kind and width, by number of channels. */
  function FormatsOf(kind: NumTy, width: nat): seq<Format> {
    match kind
    case SInt =>
      if width == 8 then [R8Int, Rg8Int, Rgb8Int, Rgba8Int]
      else if width == 16 then [R16Int, Rg16Int, Rgb16Int, Rgba16Int]
      else if width == 32 then [R32Int, Rg32Int, Rgb32Int, Rgba32Int]
      else if width == 64 then [R64Int, Rg64Int, Rgb64Int, Rgba64Int]
      else []
    case UInt =>
      if width == 8 then [R8Uint, Rg8Uint, Rgb8Uint, Rgba8Uint]
      else if width == 16 then [R16Uint, Rg16Uint, Rgb16Uint, Rgba16Uint]
      else if width == 32 then [R32Uint, Rg32Uint, Rgb32Uint, Rgba32Uint]
      else if width == 64 then [R64Uint, Rg64Uint, Rgb64Uint, Rgba64Uint]
      else []
    case Float =>
      if width == 32 then [R32Float, Rg32Float, Rgb32Float, Rgba32Float]
      else if width == 64 then [R64Float, Rg64Float, Rgb64Float, Rgba64Float]
      else []
  }

  /** The shape table read backwards. */
  lemma ShapeOfInverse(f: Format)
    ensures 1 <= ShapeOf(f).components <= |FormatsOf(ShapeOf(f).kind, ShapeOf(f).width)|
    ensures FormatsOf(ShapeOf(f).kind, ShapeOf(f).width)[ShapeOf(f).components - 1] == f
  {
    match f
    case R8Int => {}      case Rg8Int => {}      case Rgb8Int => {}      case Rgba8Int => {}
    case R16Int => {}     case Rg16Int => {}     case Rgb16Int => {}     case Rgba16Int => {}
    case R32Int => {}     case Rg32Int => {}     case Rgb32Int => {}     case Rgba32Int => {}
    case R64Int => {}     case Rg64Int => {}     case Rgb64Int => {}     case Rgba64Int => {}
    case R8Uint => {}     case Rg8Uint => {}     case Rgb8Uint => {}     case Rgba8Uint => {}
    case R16Uint => {}    case Rg16Uint => {}    case Rgb16Uint => {}    case Rgba16Uint => {}
    case R32Uint => {}    case Rg32Uint => {}    case Rgb32Uint => {}    case Rgba32Uint => {}
    case R64Uint => {}    case Rg64Uint => {}    case Rgb64Uint => {}    case Rgba64Uint => {}
    case R32Float => {}   case Rg32Float => {}   case Rgb32Float => {}   case Rgba32Float => {}
    case R64Float => {}   case Rg64Float => {}   case Rgb64Float => {}   case Rgba64Float => {}
  }

  /** Every format has one to four channels of 8, 16, 32 or 64 bits, and the
      float formats only 32 or 64. */
  lemma ShapeOfBounds(f: Format)
    ensures 1 <= ShapeOf(f).components <= 4
    ensures ShapeOf(f).width == 8 || ShapeOf(f).width == 16 || ShapeOf(f).width == 32 || ShapeOf(f).width == 64
    ensures ShapeOf(f).kind == Float ==> ShapeOf(f).width == 32 || ShapeOf(f).width == 64
  {
    ShapeOfInverse(f);
  }

  /** No two formats have the same shape. */
  lemma ShapeOfInjective(a: Format, b: Format)
    requires ShapeOf(a) == ShapeOf(b)
    ensures a == b
  {
    ShapeOfInverse(a);
    ShapeOfInverse(b);
  }

  /** `gfx_hal::pso::DescriptorType`. */
  datatype DescriptorType =
    | Sampler | CombinedImageSampler | SampledImage | StorageImage
    | UniformTexelBuffer | StorageTexelBuffer | UniformBuffer | StorageBuffer
    | UniformBufferDynamic | StorageBufferDynamic | InputAttachment

  /** One bit of `gfx_hal::pso::ShaderStageFlags`. */
  datatype Stage = Vertex | Hull | Domain | Geometry | Fragment | Compute

  /** `gfx_hal::pso::ShaderStageFlags` as the set of its bits. */
  type StageFlags = set<Stage>

  const ALL_STAGES: StageFlags := {Vertex, Hull, Domain, Geometry, Fragment, Compute}

  /** `ShaderStageFlags::GRAPHICS`: every stage of the graphics pipeline. */
  const GRAPHICS: StageFlags := {Vertex, Hull, Domain, Geometry, Fragment}

  /** `gfx_hal::pso::Element<Format>`: a format and a byte offset. */
  datatype Element = Element(format: Format, offset: u32)

  /** `gfx_hal::pso::AttributeDesc`. */
  datatype AttributeDesc = AttributeDesc(location: u32, binding: u32, element: Element)

  /** `gfx_hal::pso::DescriptorSetLayoutBinding`. */
  datatype DescriptorSetLayoutBinding = DescriptorSetLayoutBinding(
    binding: u32,
    ty: DescriptorType,
    count: nat,
    stageFlags: StageFlags,
    immutableSamplers: bool)

  /** A push-constant range `(ShaderStageFlags, Range<u32>)`: the range is `start..end`. */
  datatype PushConstant = PushConstant(stages: StageFlags, start: u32, end: u32)
}
