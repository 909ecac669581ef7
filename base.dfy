/** Shared vocabulary: fixed-width integers, Option, and the fallible Result
    that stands for `Result<T, failure::Error>` throughout the reflection code. */
module Base {

  const U32_LIMIT: int := 0x1_0000_0000

  /** Rust `u32`. */
  type u32 = x: int | 0 <= x < 0x1_0000_0000

  /** Rust `u8`, the element type of SPIR-V byte code buffers. */
  type byte = x: int | 0 <= x < 0x100

  datatype Option<+T> = None | Some(value: T)

  /** The step of `SpirvShaderDescription::from_bytes` whose `map_err` wrapped an error. */
  datatype Phase =
    | LoadData                 // "Failed to reflect data"
    | InputVariables           // "Failed to get input attributes from spirv-reflect"
    | DescriptorSets           // "Failed to get descriptor sets from spirv-reflect"
    | DescriptorSetParsing     // "Failed to parse descriptor sets"
    | PushConstantBlocks       // "Failed to get push constants from spirv-reflect"
    | InputAttributeParsing    // "Error parsing input attributes"
    | OutputAttributeParsing   // "Error parsing output attributes"
    | PushConstantParsing      // "Error parsing push constants"

  /** The errors the core reports; each constructor is one `format_err!`/`bail!` site. */
  datatype Error =
    | UndefinedFormat                              // ReflectFormat::Undefined
    | UnrecognizedSignedness(signedness: u32)      // INT with signedness other than 0 or 1
    | UnrecognizedNumericType                      // neither INT nor FLOAT
    | UnrecognizedWidth(width: u32)                // no scalar format of that width
    | UnrecognizedComponentCount(count: u32)       // no vector sibling with that many components
    | MissingTypeDescription                       // "Unable to reflect vertex element"
    | AccelerationStructureUnsupported             // ReflectDescriptorType::AccelerationStructureNV
    | UndefinedDescriptorType                      // ReflectDescriptorType::Undefined
    | Foreign(message: string)                     // a failure reported by the spirv-reflect library
    | Context(phase: Phase, cause: Error)          // an error wrapped by from_bytes
    | BindingConflict(binding: u32, setIndex: nat) // merge found SameBindingNonEqual

  datatype Result<+T> = Ok(value: T) | Err(error: Error)
}
