/** shader/src/reflect.rs, lines 240-365: `SpirvShaderDescription` and
    `SpirvShaderDescription::from_bytes`, which assembles the conversions. */
module ShaderReflect {
  import opened Base
  import opened Hal
  import opened SpirvReflect
  import opened ReflectFormats
  import opened ReflectDescriptors
  import opened ReflectStages
  import opened ReflectAttributes

  /** `SpirvShaderDescription`. */
  datatype Description = Description(
    outputAttributes: seq<AttributeDesc>,
    inputAttributes: seq<AttributeDesc>,
    descriptorSets: seq<seq<DescriptorSetLayoutBinding>>,
    stageFlag: StageFlags,
    pushConstants: seq<PushConstant>,
    spirv: seq<byte>)
  {
    /** `Shader::spirv`: the stored byte code. */
    function Spirv(): (r: Result<seq<byte>>)
      ensures r.Ok? && r.value == spirv
    {
      Ok(spirv)
    }

    /** `Shader::reflect`: the description itself. */
    function Reflect(): (r: Result<Description>)
      ensures r.Ok? && r.value == this
    {
      Ok(this)
    }
  }

  /** Every binding of every set with its stage flags replaced by `stage`. */
  function WithStage(sets: seq<seq<DescriptorSetLayoutBinding>>, stage: StageFlags): (r: seq<seq<DescriptorSetLayoutBinding>>)
  {
    seq(|sets|, i requires 0 <= i < |sets| =>
      seq(|sets[i]|, j requires 0 <= j < |sets[i]| => sets[i][j].(stageFlags := stage)))
  }

  /** The fix-up at lines 331-334: overwrites the stage flags of every binding
      of every set, in place. */
  method FixupStageFlags(descriptorSets: seq<seq<DescriptorSetLayoutBinding>>, stageFlag: StageFlags)
    returns (sets: seq<seq<DescriptorSetLayoutBinding>>)
    ensures sets == WithStage(descriptorSets, stageFlag)
    ensures |sets| == |descriptorSets|
    ensures forall i :: 0 <= i < |sets| ==> |sets[i]| == |descriptorSets[i]|
    ensures forall i, j :: 0 <= i < |sets| && 0 <= j < |sets[i]| ==>
              sets[i][j].stageFlags == stageFlag && sets[i][j].(stageFlags := {}) == descriptorSets[i][j].(stageFlags := {})
  {
    sets := descriptorSets;
    for i := 0 to |sets|
      invariant |sets| == |descriptorSets|
      invariant forall k :: 0 <= k < i ==> sets[k] == WithStage(descriptorSets, stageFlag)[k]
      invariant forall k :: i <= k < |sets| ==> sets[k] == descriptorSets[k]
    {
      for j := 0 to |sets[i]|
        invariant |sets| == |descriptorSets| && |sets[i]| == |descriptorSets[i]|
        invariant forall k :: 0 <= k < i ==> sets[k] == WithStage(descriptorSets, stageFlag)[k]
        invariant forall k :: i < k < |sets| ==> sets[k] == descriptorSets[k]
        invariant forall l :: 0 <= l < j ==> sets[i][l] == descriptorSets[i][l].(stageFlags := stageFlag)
        invariant forall l :: j <= l < |sets[i]| ==> sets[i][l] == descriptorSets[i][l]
      {
        sets := sets[i := sets[i][j := sets[i][j].(stageFlags := stageFlag)]];
      }
      assert sets[i] == WithStage(descriptorSets, stageFlag)[i];
    }
  }

  /** The binding `b` is reflected binding `rb` converted, carrying stage `stage`. */
  predicate ConvertedWithStage(b: DescriptorSetLayoutBinding, rb: ReflectDescriptorBinding, stage: StageFlags) {
    b.binding == rb.binding && b.count == rb.count && ReflectKindOf(b.ty) == rb.descriptorType
    && b.stageFlags == stage && !b.immutableSamplers
  }

  /** The sets `sets` are the reflected sets `raw`, set by set and binding by binding. */
  predicate SetsConverted(sets: seq<seq<DescriptorSetLayoutBinding>>, raw: seq<ReflectDescriptorSet>, stage: StageFlags) {
    |sets| == |raw|
    && (forall i :: 0 <= i < |sets| ==> |sets[i]| == |raw[i].bindings|)
    && forall i, j :: 0 <= i < |sets| && 0 <= j < |sets[i]| && j < |raw[i].bindings| ==>
         ConvertedWithStage(sets[i][j], raw[i].bindings[j], stage)
  }

  /** The converted sets with the stage fixed up are the reflected sets converted. */
  lemma WithStageConverted(raw: seq<ReflectDescriptorSet>, sets: seq<seq<DescriptorSetLayoutBinding>>, stage: StageFlags)
    requires ConvertSets(raw) == Ok(sets)
    ensures SetsConverted(WithStage(sets, stage), raw, stage)
  {
    forall i, j | 0 <= i < |sets| && 0 <= j < |sets[i]|
      ensures ConvertedWithStage(WithStage(sets, stage)[i][j], raw[i].bindings[j], stage)
    {
      assert Ok(sets[i]) == ConvertBindings(raw[i].bindings);
      assert Ok(sets[i][j]) == ConvertBinding(raw[i].bindings[j]);
    }
  }

  /** The sets convert exactly when every binding's descriptor kind does. */
  lemma ConvertSetsOk(raw: seq<ReflectDescriptorSet>)
    ensures ConvertSets(raw).Ok? <==>
            forall i, j :: 0 <= i < |raw| && 0 <= j < |raw[i].bindings| ==>
              ConvertDescriptorType(raw[i].bindings[j].descriptorType).Ok?
  {
    if ConvertSets(raw).Err? {
      var i :| 0 <= i < |raw| && ConvertBindings(raw[i].bindings).Err?;
      var j :| 0 <= j < |raw[i].bindings| && ConvertBinding(raw[i].bindings[j]).Err?;
    }
  }

  /** The loaded module's input variables may be expanded without overflow. */
  predicate ModuleFits(loaded: Result<ShaderModule>) {
    loaded.Ok? && loaded.value.inputVariables.Ok? ==> AllLocationsFit(loaded.value.inputVariables.value)
  }

  /** Everything from_bytes needs succeeds: loading, the three enumerations,
      every input variable's type and every binding's descriptor kind. */
  predicate Reflectable(loaded: Result<ShaderModule>) {
    && loaded.Ok?
    && loaded.value.inputVariables.Ok?
    && (forall i :: 0 <= i < |loaded.value.inputVariables.value| ==>
          ConvertAttribute(loaded.value.inputVariables.value[i]).Ok?)
    && loaded.value.descriptorSets.Ok?
    && (forall i, j :: (0 <= i < |loaded.value.descriptorSets.value|
          && 0 <= j < |loaded.value.descriptorSets.value[i].bindings|) ==>
          ConvertDescriptorType(loaded.value.descriptorSets.value[i].bindings[j].descriptorType).Ok?)
    && loaded.value.pushConstantBlocks.Ok?
  }

  /** `SpirvShaderDescription::from_bytes`. `loaded` is what
      `ShaderModule::load_u8_data(data)` returned. On success the byte code is
      kept, the stage comes from the module, the output attributes are the
      input attributes (both are generated from the input variables), every
      binding carries the module's stage and otherwise is its reflected binding
      converted, and every push-constant block becomes one range. Any failure
      of loading, of an enumeration or of a conversion is an error. */
  function FromBytes(data: seq<byte>, loaded: Result<ShaderModule>): (r: Result<Description>)
    requires ModuleFits(loaded)
    ensures r.Ok? <==> Reflectable(loaded)
    ensures loaded.Err? ==> r == Err(Context(LoadData, loaded.error))
    ensures r.Ok? ==> r.value.spirv == data
    ensures r.Ok? ==> r.value.stageFlag == StageFlagsOf(loaded.value.shaderStage)
    ensures r.Ok? ==> r.value.outputAttributes == r.value.inputAttributes
    ensures r.Ok? ==> Attributes(loaded.value.inputVariables.value) == Ok(r.value.inputAttributes)
    ensures r.Ok? ==> SetsConverted(r.value.descriptorSets, loaded.value.descriptorSets.value, r.value.stageFlag)
    ensures r.Ok? ==> |r.value.pushConstants| == |loaded.value.pushConstantBlocks.value|
    ensures r.Ok? ==> forall i :: 0 <= i < |r.value.pushConstants| ==>
              var b := loaded.value.pushConstantBlocks.value[i];
              && r.value.pushConstants[i].stages == r.value.stageFlag
              && r.value.pushConstants[i].start == b.offset
              && r.value.pushConstants[i].end == b.offset / 4 + b.size / 4
  {
    match loaded
    case Err(e) => Err(Context(LoadData, e))
    case Ok(shaderModule) =>
      var stageFlag := StageFlagsOf(shaderModule.shaderStage);
      match shaderModule.inputVariables
      case Err(e) => Err(Context(InputVariables, e))
      case Ok(inputs) =>
        var inputAttributes := Attributes(inputs);
        // line 308 enumerates the input variables a second time for the outputs
        var outputAttributes := Attributes(inputs);
        match shaderModule.descriptorSets
        case Err(e) => Err(Context(DescriptorSets, e))
        case Ok(rawSets) =>
          match ConvertSets(rawSets)
          case Err(e) => ConvertSetsOk(rawSets); Err(Context(DescriptorSetParsing, e))
          case Ok(sets) =>
            WithStageConverted(rawSets, sets, stageFlag);
            ConvertSetsOk(rawSets);
            var descriptorSets := WithStage(sets, stageFlag);
            match shaderModule.pushConstantBlocks
            case Err(e) => Err(Context(PushConstantBlocks, e))
            case Ok(blocks) =>
              var pushConstants := ConvertPushConstants(stageFlag, blocks);
              match inputAttributes
              case Err(e) => Err(Context(InputAttributeParsing, e))
              case Ok(ins) =>
                match outputAttributes
                case Err(e) => Err(Context(OutputAttributeParsing, e))
                case Ok(outs) =>
                  match pushConstants
                  case Err(e) => Err(Context(PushConstantParsing, e))
                  case Ok(ranges) => Ok(Description(outs, ins, descriptorSets, stageFlag, ranges, data))
  }

  /** The steps of `from_bytes` fail in source order, and the first failing
      step names the error: loading, then the input variables, the descriptor
      sets, their conversion, the push-constant blocks and the conversion of
      the input variables into attributes. */
  lemma FromBytesErrors(data: seq<byte>, loaded: Result<ShaderModule>)
    requires ModuleFits(loaded)
    ensures loaded.Err? ==> FromBytes(data, loaded) == Err(Context(LoadData, loaded.error))
    ensures loaded.Ok? && loaded.value.inputVariables.Err? ==>
              FromBytes(data, loaded) == Err(Context(InputVariables, loaded.value.inputVariables.error))
    ensures loaded.Ok? && loaded.value.inputVariables.Ok? && loaded.value.descriptorSets.Err? ==>
              FromBytes(data, loaded) == Err(Context(DescriptorSets, loaded.value.descriptorSets.error))
    ensures (loaded.Ok? && loaded.value.inputVariables.Ok? && loaded.value.descriptorSets.Ok?
             && ConvertSets(loaded.value.descriptorSets.value).Err?) ==>
              FromBytes(data, loaded) == Err(Context(DescriptorSetParsing, ConvertSets(loaded.value.descriptorSets.value).error))
    ensures (loaded.Ok? && loaded.value.inputVariables.Ok? && loaded.value.descriptorSets.Ok?
             && ConvertSets(loaded.value.descriptorSets.value).Ok? && loaded.value.pushConstantBlocks.Err?) ==>
              FromBytes(data, loaded) == Err(Context(PushConstantBlocks, loaded.value.pushConstantBlocks.error))
    ensures (loaded.Ok? && loaded.value.inputVariables.Ok? && loaded.value.descriptorSets.Ok?
             && ConvertSets(loaded.value.descriptorSets.value).Ok? && loaded.value.pushConstantBlocks.Ok?
             && Attributes(loaded.value.inputVariables.value).Err?) ==>
              FromBytes(data, loaded) == Err(Context(InputAttributeParsing, Attributes(loaded.value.inputVariables.value).error))
  {
  }
}
