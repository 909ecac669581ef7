/** shader/src/lib.rs: the byte-code wrappers `SpirvShader` and
    `SpirvReflectedShader` and their `Shader` accessors. */
module ShaderLib {
  import opened Base
  import opened SpirvReflect
  import opened ShaderReflect

  /** What both constructors assert of their bytes: not empty, and a whole
      number of 32-bit SPIR-V words. */
  predicate IsBytecode(bytes: seq<byte>) {
    |bytes| > 0 && |bytes| % 4 == 0
  }

  /** `SpirvShader`: SPIR-V byte code, stored as given. */
  datatype SpirvShader = SpirvShader(spirv: seq<byte>)
  {
    /** `Shader::spirv` (lines 70-72): the stored bytes. */
    function Spirv(): (r: Result<seq<byte>>)
      ensures r.Ok? && r.value == spirv
    {
      Ok(spirv)
    }
  }

  /** `SpirvShader::new` (lines 62-66); the asserts become its precondition. */
  function NewSpirvShader(bytes: seq<byte>): (r: SpirvShader)
    requires IsBytecode(bytes)
    ensures r.Spirv() == Ok(bytes)
    ensures IsBytecode(r.spirv)
  {
    SpirvShader(bytes)
  }

  /** `SpirvReflectedShader`: byte code and its reflection. */
  datatype SpirvReflectedShader = SpirvReflectedShader(spirv: seq<byte>, reflection: Description)
  {
    /** `Shader::spirv` (lines 103-105): the stored bytes. */
    function Spirv(): (r: Result<seq<byte>>)
      ensures r.Ok? && r.value == spirv
    {
      Ok(spirv)
    }

    /** `Shader::reflect` (lines 107-109): the stored description. */
    function Reflect(): (r: Result<Description>)
      ensures r.Ok? && r.value == reflection
    {
      Ok(reflection)
    }
  }

  /** `SpirvReflectedShader::new` (lines 89-98). `loaded` is what the SPIR-V
      loader returns for `bytes`; besides the byte asserts, the `unwrap` of
      `from_bytes` demands that reflection succeeds. The shader returns
      the bytes it was built from, and a reflection that is `from_bytes` of
      them and that holds the same bytes. */
  function NewReflectedShader(bytes: seq<byte>, loaded: Result<ShaderModule>): (r: SpirvReflectedShader)
    requires IsBytecode(bytes) && ModuleFits(loaded) && Reflectable(loaded)
    ensures r.Spirv() == Ok(bytes)
    ensures r.Reflect() == FromBytes(bytes, loaded)
    ensures r.Reflect().value.spirv == r.Spirv().value
    ensures r.Reflect().value.Spirv() == r.Spirv()
  {
    SpirvReflectedShader(bytes, FromBytes(bytes, loaded).value)
  }
}
