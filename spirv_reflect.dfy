/** The types of the spirv-reflect library that the reflection code reads,
    and an abstract record standing for a loaded `ShaderModule`: the binary
    parsing itself is done by that library and is not modelled. */
module SpirvReflect {
  import opened Base

  /** `ReflectFormat`. */
  datatype ReflectFormat =
    | Undefined
    | R32_UINT | R32_SINT | R32_SFLOAT
    | R32G32_UINT | R32G32_SINT | R32G32_SFLOAT
    | R32G32B32_UINT | R32G32B32_SINT | R32G32B32_SFLOAT
    | R32G32B32A32_UINT | R32G32B32A32_SINT | R32G32B32A32_SFLOAT

  /** One bit of `ReflectTypeFlags`; the bits the reflection code never tests are `OTHER`. */
  datatype TypeFlag = VOID | BOOL | INT | FLOAT | VECTOR | MATRIX | OTHER_TYPE(bit: nat)

  /** The numeric part of `ReflectTypeDescriptionTraits`:
      `numeric.scalar.signedness`, `numeric.scalar.width` and `numeric.vector.component_count`. */
  datatype NumericTraits = NumericTraits(signedness: u32, width: u32, componentCount: u32)

  /** `ReflectTypeDescription`: its type flags and numeric traits. */
  datatype TypeDescription = TypeDescription(typeFlags: set<TypeFlag>, traits: NumericTraits)

  /** `ReflectInterfaceVariable`: its location, `array.dims` and optional type description. */
  datatype InterfaceVariable = InterfaceVariable(
    location: u32,
    dims: seq<u32>,
    typeDescription: Option<TypeDescription>)

  /** `ReflectDescriptorType`. */
  datatype ReflectDescriptorType =
    | Sampler | CombinedImageSampler | SampledImage | StorageImage
    | UniformTexelBuffer | StorageTexelBuffer | UniformBuffer | StorageBuffer
    | UniformBufferDynamic | StorageBufferDynamic | InputAttachment
    | AccelerationStructureNV | UndefinedDescriptor

  /** `ReflectDescriptorBinding`: binding index, descriptor type and array count. */
  datatype ReflectDescriptorBinding = ReflectDescriptorBinding(
    binding: u32,
    descriptorType: ReflectDescriptorType,
    count: u32)

  /** `ReflectDescriptorSet`: its bindings in reflection order. */
  datatype ReflectDescriptorSet = ReflectDescriptorSet(bindings: seq<ReflectDescriptorBinding>)

  /** `ReflectBlockVariable` of a push-constant block: byte offset and byte size. */
  datatype BlockVariable = BlockVariable(offset: u32, size: u32)

  /** One bit of `ReflectShaderStageFlags`; the ray-tracing and other bits are `OTHER_STAGE`. */
  datatype ReflectStageBit =
    | VERTEX | TESSELLATION_CONTROL | TESSELLATION_EVALUATION
    | GEOMETRY | FRAGMENT | COMPUTE | OTHER_STAGE(bit: nat)

  /** A loaded `ShaderModule`, as seen through the calls the reflection code makes:
      `get_shader_stage()` and the three fallible `enumerate_*` calls. */
  datatype ShaderModule = ShaderModule(
    shaderStage: set<ReflectStageBit>,
    inputVariables: Result<seq<InterfaceVariable>>,
    descriptorSets: Result<seq<ReflectDescriptorSet>>,
    pushConstantBlocks: Result<seq<BlockVariable>>)
}
