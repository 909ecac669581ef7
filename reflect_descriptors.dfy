/** shader/src/reflect.rs, lines 156-213: descriptor kinds, bindings and sets,
    and push-constant ranges. */
module ReflectDescriptors {
  import opened Base
  import opened Hal
  import opened SpirvReflect

  /** The reflected descriptor kind that bears each gfx_hal descriptor kind's name. */
  function ReflectKindOf(t: DescriptorType): ReflectDescriptorType {
    match t
    case Sampler => ReflectDescriptorType.Sampler
    case CombinedImageSampler => ReflectDescriptorType.CombinedImageSampler
    case SampledImage => ReflectDescriptorType.SampledImage
    case StorageImage => ReflectDescriptorType.StorageImage
    case UniformTexelBuffer => ReflectDescriptorType.UniformTexelBuffer
    case StorageTexelBuffer => ReflectDescriptorType.StorageTexelBuffer
    case UniformBuffer => ReflectDescriptorType.UniformBuffer
    case StorageBuffer => ReflectDescriptorType.StorageBuffer
    case UniformBufferDynamic => ReflectDescriptorType.UniformBufferDynamic
    case StorageBufferDynamic => ReflectDescriptorType.StorageBufferDynamic
    case InputAttachment => ReflectDescriptorType.InputAttachment
  }

  /** `ReflectInto<DescriptorType> for ReflectDescriptorType`: the eleven supported
      kinds map to their namesakes (so the map is one-to-one), the other two fail. */
  function ConvertDescriptorType(t: ReflectDescriptorType): (r: Result<DescriptorType>)
    ensures r.Err? <==> t == AccelerationStructureNV || t == UndefinedDescriptor
    ensures t == AccelerationStructureNV ==> r == Err(AccelerationStructureUnsupported)
    ensures t == UndefinedDescriptor ==> r == Err(UndefinedDescriptorType)
    ensures r.Ok? ==> ReflectKindOf(r.value) == t
  {
    match t
    case Sampler => Ok(DescriptorType.Sampler)
    case CombinedImageSampler => Ok(DescriptorType.CombinedImageSampler)
    case SampledImage => Ok(DescriptorType.SampledImage)
    case StorageImage => Ok(DescriptorType.StorageImage)
    case UniformTexelBuffer => Ok(DescriptorType.UniformTexelBuffer)
    case StorageTexelBuffer => Ok(DescriptorType.StorageTexelBuffer)
    case UniformBuffer => Ok(DescriptorType.UniformBuffer)
    case StorageBuffer => Ok(DescriptorType.StorageBuffer)
    case UniformBufferDynamic => Ok(DescriptorType.UniformBufferDynamic)
    case StorageBufferDynamic => Ok(DescriptorType.StorageBufferDynamic)
    case InputAttachment => Ok(DescriptorType.InputAttachment)
    case AccelerationStructureNV => Err(AccelerationStructureUnsupported)
    case UndefinedDescriptor => Err(UndefinedDescriptorType)
  }

  /** Every gfx_hal descriptor kind is produced, by its namesake. */
  lemma ConvertDescriptorTypeOnto(t: DescriptorType)
    ensures ConvertDescriptorType(ReflectKindOf(t)) == Ok(t)
  {
  }

  /** Two supported reflected kinds never map to the same gfx_hal kind. */
  lemma ConvertDescriptorTypeInjective(a: ReflectDescriptorType, b: ReflectDescriptorType)
    requires ConvertDescriptorType(a).Ok? && ConvertDescriptorType(a) == ConvertDescriptorType(b)
    ensures a == b
  {
  }

  /** `ReflectInto<DescriptorSetLayoutBinding> for ReflectDescriptorBinding`: the
      binding index and count are copied, the kind converted, the stage set to
      VERTEX (corrected later by from_bytes) and immutable samplers never set. */
  function ConvertBinding(b: ReflectDescriptorBinding): (r: Result<DescriptorSetLayoutBinding>)
    ensures r.Ok? <==> ConvertDescriptorType(b.descriptorType).Ok?
    ensures r.Err? ==> Err(r.error) == ConvertDescriptorType(b.descriptorType)
    ensures r.Ok? ==> r.value.binding == b.binding && r.value.count == b.count
                      && ReflectKindOf(r.value.ty) == b.descriptorType
                      && r.value.stageFlags == {Vertex} && !r.value.immutableSamplers
  {
    match ConvertDescriptorType(b.descriptorType)
    case Err(e) => Err(e)
    case Ok(ty) => Ok(DescriptorSetLayoutBinding(b.binding, ty, b.count, {Vertex}, false))
  }

  /** `ReflectInto<Vec<DescriptorSetLayoutBinding>> for ReflectDescriptorSet`: the
      bindings converted one by one, in order; the first failing binding fails the set. */
  function ConvertBindings(bs: seq<ReflectDescriptorBinding>): (r: Result<seq<DescriptorSetLayoutBinding>>)
    ensures r.Ok? <==> forall i :: 0 <= i < |bs| ==> ConvertBinding(bs[i]).Ok?
    ensures r.Ok? ==> |r.value| == |bs| && forall i :: 0 <= i < |bs| ==> Ok(r.value[i]) == ConvertBinding(bs[i])
    ensures r.Err? ==> exists i :: 0 <= i < |bs| && ConvertBinding(bs[i]) == Err(r.error)
                                   && forall k :: 0 <= k < i ==> ConvertBinding(bs[k]).Ok?
  {
    if |bs| == 0 then Ok([])
    else
      match ConvertBinding(bs[0])
      case Err(e) => Err(e)
      case Ok(b) =>
        match ConvertBindings(bs[1..])
        case Err(e) => Err(e)
        case Ok(rest) => Ok([b] + rest)
  }

  /** The descriptor sets converted one by one (the `collect` at lines 315-325). */
  function ConvertSets(sets: seq<ReflectDescriptorSet>): (r: Result<seq<seq<DescriptorSetLayoutBinding>>>)
    ensures r.Ok? <==> forall i :: 0 <= i < |sets| ==> ConvertBindings(sets[i].bindings).Ok?
    ensures r.Ok? ==> |r.value| == |sets|
                      && forall i :: 0 <= i < |sets| ==> Ok(r.value[i]) == ConvertBindings(sets[i].bindings)
    ensures r.Err? ==> exists i :: 0 <= i < |sets| && ConvertBindings(sets[i].bindings) == Err(r.error)
                                   && forall k :: 0 <= k < i ==> ConvertBindings(sets[k].bindings).Ok?
  {
    if |sets| == 0 then Ok([])
    else
      match ConvertBindings(sets[0].bindings)
      case Err(e) => Err(e)
      case Ok(s) =>
        match ConvertSets(sets[1..])
        case Err(e) => Err(e)
        case Ok(rest) => Ok([s] + rest)
  }

  /** `convert_push_constant`: the range starts at the block's byte offset and
      ends at `offset / 4 + size / 4` (integer division). It never fails. */
  function ConvertPushConstant(stage: StageFlags, v: BlockVariable): (r: Result<PushConstant>)
    ensures r.Ok? && r.value.stages == stage
    ensures r.value.start == v.offset && r.value.end - v.offset / 4 == v.size / 4
  {
    Ok(PushConstant(stage, v.offset, v.offset / 4 + v.size / 4))
  }

  /** The start of a converted range is a byte offset and its end counts words,
      so a block that is not at offset 0 can get a range that ends before it starts. */
  lemma PushConstantRangeInverted()
    ensures var r := ConvertPushConstant({Vertex}, BlockVariable(16, 16)).value;
            r.start == 16 && r.end == 8
  {
  }

  /** All push-constant blocks converted in order, with the module's stage. */
  function ConvertPushConstants(stage: StageFlags, blocks: seq<BlockVariable>): (r: Result<seq<PushConstant>>)
    ensures r.Ok? && |r.value| == |blocks|
    ensures forall i :: 0 <= i < |blocks| ==> Ok(r.value[i]) == ConvertPushConstant(stage, blocks[i])
  {
    if |blocks| == 0 then Ok([])
    else
      match ConvertPushConstant(stage, blocks[0])
      case Err(e) => Err(e)
      case Ok(p) =>
        match ConvertPushConstants(stage, blocks[1..])
        case Err(e) => Err(e)
        case Ok(rest) => Ok([p] + rest)
  }
}
