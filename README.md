# rendy shader reflection and layout merging, modelled in Dafny

This project models two parts of rendy, the Rust rendering engine built on gfx-hal.

The first part is the reflection layer of `rendy-shader`. It turns what the spirv-reflect library reports about a SPIR-V module into gfx-hal values:
- vertex element formats;
- vertex attributes, with array inputs expanded to consecutive locations;
- descriptor kinds, bindings and sets;
- shader stage flags;
- push-constant ranges.

`SpirvShaderDescription::from_bytes` assembles these, and the byte-code wrappers `SpirvShader` and `SpirvReflectedShader` hold the result.

The second part is the layout generators of `rendy-graph`: the three-way binding comparison `compare_bindings`, the layout and attributes of one shader, the merge of a pair of shaders into one pipeline layout, and `merge_descriptor_sets`.

Each piece of code keeps its own form in the model:
- Table lookups and iterator pipelines are total functions over datatypes. Each fallible step returns `Result`, with one error constructor per error site.
- The loops are methods. Each method is proved equal to the specification function the rest of the model uses:
  - `convert_stage` (`ConvertStage`);
  - `generate_attributes` (`GenerateAttributes`, with `PushClones`);
  - the stage fix-up of `from_bytes` (`FixupStageFlags`);
  - the pair `layout` (`PairLayout`, built from `CompareRow`, `CompareBlock`, `CompareSets`, `FlattenSets`, `MergeSet`, `FindEqual` and `DedupSecond`);
  - the recursive generator `layout` (`GeneratorLayout`).

Files and modules:
- `base.dfy` (`Base`): `u32`, `byte`, `Option`, `Result` and the error kinds.
- `hal.dfy` (`Hal`): the gfx-hal types. It adds a shape table (channel kind, width and count) for each format. The shape table is independent of the reflection tables and is used to state what a format means.
- `spirv_reflect.dfy` (`SpirvReflect`): the spirv-reflect types. A loaded module is an abstract record: its stage plus three fallible enumerations.
- `reflect_formats.dfy`, `reflect_descriptors.dfy`, `reflect_stages.dfy`, `reflect_attributes.dfy` and `shader_reflect.dfy`: `shader/src/reflect.rs`.
- `graph_reflect.dfy` (`GraphReflect`): `graph/src/reflect.rs`.
- `shader_lib.dfy` (`ShaderLib`): `shader/src/lib.rs`.

Where the system's documentation and its code differ, the model follows the code:
- When a pair merge finds an `Equal` binding, the emitted copy's stage flags are set to `GRAPHICS`. They are not the union of the two shaders' stages.
- The trailing set of a pair merge is added whenever the second shader has any binding, even if every one of them was already merged into the first shader's sets. So a uniform buffer shared by a vertex and a fragment shader yields two sets (`SharedUniformBuffer`).
- No error is raised for a pair without a vertex stage, and `merge_descriptor_sets` does not fold: it returns the first generator's layout.
- A push-constant range starts at the block's byte offset but ends at `offset / 4 + size / 4`, a word count (`PushConstantRangeInverted`).
- The output attributes of a description are generated from the input variables.

## Model

| member | source | states |
|---|---|---|
| ReflectFormats.ConvertFormat | shader/src/reflect.rs:16-34 | `Undefined` is the only error. Formats with 1-3 components keep their kind, width and component count. The 4-component formats map to the 3-component format of the same kind and width. |
| ReflectFormats.ScalarFormat | shader/src/reflect.rs:63-80 | A scalar format exists iff the width is 8/16/32/64 for integers or 32/64 for floats. It has the given kind and width and one channel. Any other width is `UnrecognizedWidth`. |
| ReflectFormats.VectorFormat | shader/src/reflect.rs:82-122 | A sibling exists iff the scalar has one channel and the count is 2-4. The sibling keeps the scalar's kind and width and has `count` channels. Otherwise the result is `UnrecognizedComponentCount(count)`. |
| ReflectFormats.TypeElementFormat | shader/src/reflect.rs:36-126 | The checks run in order: INT or FLOAT (INT wins), signedness 0/1 for INT, a known width, then component count ≤ 4. Each failing check yields its own error. Success happens iff all of them pass. The result's kind, width and channel count (0 and 1 meaning scalar) are those of the type. |
| ReflectFormats.TypeElementFormatRoundTrip | shader/src/reflect.rs:36-126 | Every format in the table is produced by the numeric type that describes its shape. |
| ReflectFormats.ConvertElement | shader/src/reflect.rs:128-136 | The element is the type's format at offset 0. It fails exactly with the format's error. |
| ReflectAttributes.ConvertAttribute | shader/src/reflect.rs:138-151 | A missing type description is an error. Otherwise location and binding both equal the variable's location, and the element is the converted type. |
| ReflectAttributes.Clones | shader/src/reflect.rs:269-273 | `n` clones of the attribute. |
| ReflectAttributes.ClonesAt | shader/src/reflect.rs:269-273 | Clone `k` is the attribute with location advanced by `k`. |
| ReflectAttributes.Expand | shader/src/reflect.rs:266-274 | A variable contributes 1 attribute, or `dims[0]` of them. Attribute `k` is the converted one with location `location + k`. |
| ReflectAttributes.Attributes | shader/src/reflect.rs:259-278 | Success happens iff every variable converts. The output length is the sum of the multiplicities. On failure the error is that of the first failing variable. |
| ReflectAttributes.AttributesAt | shader/src/reflect.rs:264-274 | Attribute `k` of variable `i` sits at the sum of the earlier multiplicities plus `k`, in input order, and is the converted attribute at location `location + k`. |
| ReflectAttributes.AttributeFields | shader/src/reflect.rs:264-273 | Every expanded attribute has location `loc + k`, binding `loc`, element offset 0 and the variable's element format. |
| ReflectAttributes.AttributesFirstError | shader/src/reflect.rs:264-265 | The first variable that fails to convert decides the error of the whole call. |
| ReflectAttributes.PushClones | shader/src/reflect.rs:268-273 | The inner loop appends exactly the `count` clones of the attribute to the output. |
| ReflectAttributes.GenerateAttributes | shader/src/reflect.rs:259-278 | The loop with its early return computes exactly `Attributes`. |
| ReflectDescriptors.ConvertDescriptorType | shader/src/reflect.rs:156-181 | `AccelerationStructureNV` and `Undefined` are the only errors, each with its own message. Every other kind maps to its namesake. |
| ReflectDescriptors.ConvertDescriptorTypeOnto | shader/src/reflect.rs:161-172 | Every gfx-hal descriptor kind is produced by its namesake. |
| ReflectDescriptors.ConvertDescriptorTypeInjective | shader/src/reflect.rs:161-172 | No two reflected kinds map to the same gfx-hal kind. |
| ReflectDescriptors.ConvertBinding | shader/src/reflect.rs:193-203 | The binding fails iff its kind does. It copies binding and count, converts the kind, and has stage VERTEX and no immutable samplers. |
| ReflectDescriptors.ConvertBindings | shader/src/reflect.rs:183-191 | A set converts to a list of the same length and order, or fails with its first failing binding's error. |
| ReflectDescriptors.ConvertSets | shader/src/reflect.rs:315-325 | The sets convert one by one in order. The first failing set decides the error. |
| ReflectDescriptors.ConvertPushConstant | shader/src/reflect.rs:205-213 | The range never fails. It carries the stage, starts at the byte offset and ends `size / 4` after `offset / 4`. |
| ReflectDescriptors.PushConstantRangeInverted | shader/src/reflect.rs:211 | A 16-byte block at offset 16 gets the range 16..8, which ends before it starts. |
| ReflectDescriptors.ConvertPushConstants | shader/src/reflect.rs:336-346 | Every block converts, in order, with the module's stage. |
| ReflectStages.StageFlagsOf | shader/src/reflect.rs:215-238 | A gfx-hal stage is present iff its reflected bit is; tessellation control corresponds to HULL and tessellation evaluation to DOMAIN. |
| ReflectStages.ConvertStage | shader/src/reflect.rs:215-238 | Testing the six bits one at a time yields exactly `StageFlagsOf`. |
| ReflectStages.StageFlagsOfUnion | shader/src/reflect.rs:215-238 | Converting a union of bits gives the union of the conversions. |
| ReflectStages.StageFlagsOfIgnoresOther | shader/src/reflect.rs:215-238 | An unrecognised bit is dropped. |
| ShaderReflect.Description.Spirv | shader/src/reflect.rs:281-283 | `spirv()` of a description returns its stored bytes. |
| ShaderReflect.Description.Reflect | shader/src/reflect.rs:285-287 | `reflect()` of a description returns the description itself. |
| ShaderReflect.FixupStageFlags | shader/src/reflect.rs:331-334 | Rewriting in place sets every binding's stage flags to the module's stage and leaves every other field and every length unchanged. |
| ShaderReflect.WithStageConverted | shader/src/reflect.rs:315-334 | After the fix-up, each binding is its reflected binding converted and carries the module's stage. |
| ShaderReflect.ConvertSetsOk | shader/src/reflect.rs:315-330 | The sets convert iff every binding's descriptor kind does. |
| ShaderReflect.FromBytes | shader/src/reflect.rs:292-364 | See the details after this table. |
| ShaderReflect.FromBytesErrors | shader/src/reflect.rs:292-357 | The steps fail in source order, and the first failing step names the error: `LoadData`, `InputVariables`, `DescriptorSets`, `DescriptorSetParsing`, `PushConstantBlocks`, `InputAttributeParsing`, each carrying its step's own error. |
| GraphReflect.CompareBindingsMeaning | graph/src/reflect.rs:148-161 | `Equal` iff all fields but the stage flags agree. `SameBindingNonEqual` iff the binding index is the same and some compared field differs. `NotEqual` iff the binding indices differ. |
| GraphReflect.CompareBindingsSymmetric | graph/src/reflect.rs:148-153 | The comparison is symmetric, and every binding is `Equal` to itself. |
| GraphReflect.Row | graph/src/reflect.rs:64-85 | The row fails iff some partner is `SameBindingNonEqual`, with the binding index and set index in the error. Otherwise it has one output per partner: `d1` widened to GRAPHICS for `Equal`, `d1` unchanged for `NotEqual`. |
| GraphReflect.Block | graph/src/reflect.rs:63-86 | The block fails iff some first binding clashes, reporting that binding's index. Otherwise its length is the product of the two lengths. |
| GraphReflect.BlockFromFirst | graph/src/reflect.rs:63-86 | Every emitted binding is a first-shader binding, possibly with stages GRAPHICS. |
| GraphReflect.BlockContains | graph/src/reflect.rs:63-86 | For every pair, the block emits `d1` marked by its comparison with `d2`. |
| GraphReflect.SetRow | graph/src/reflect.rs:60-88 | The row over the second shader's sets succeeds iff no first binding clashes with an admitted set, that is, one whose binding count is at least `n` (line 61). |
| GraphReflect.BlockFirstError | graph/src/reflect.rs:63-79 | A failing block reports the first binding of the first shader's set that clashes, with every earlier binding clear, and the set index `n`. |
| GraphReflect.FirstClashShift | graph/src/reflect.rs:60-61 | A non-clashing leading set shifts the first clash by one set. |
| GraphReflect.SetRowError | graph/src/reflect.rs:60-80 | A failing row reports the first clash in iteration order: the first admitted set with a clash, and in it the first clashing binding (`FirstClashAt`). The error carries that binding's index and the set index `n`. |
| GraphReflect.SetRowLength | graph/src/reflect.rs:60-88 | Each first binding is emitted once per admitted second binding. |
| GraphReflect.SetRowFromFirst | graph/src/reflect.rs:60-88 | Every emitted binding is a first-shader binding, possibly widened to GRAPHICS. |
| GraphReflect.SetRowContains | graph/src/reflect.rs:60-88 | Every pair with an admitted set is emitted, marked by its comparison. |
| GraphReflect.Flatten | graph/src/reflect.rs:89-92 | The result holds exactly the bindings of all sets, in both directions of membership. |
| GraphReflect.FirstSets | graph/src/reflect.rs:55-96 | The loop succeeds iff every output set does. Output set `m` is `OutSet(m)`. On failure, the error is that of the first failing set: every earlier set merges. |
| GraphReflect.FirstSetsError | graph/src/reflect.rs:55-96 | A failing outer loop reports the first clash in iteration order: set `n` is the first with a clash, and within it the clash is the set row's first. |
| GraphReflect.DedupInto | graph/src/reflect.rs:101-108 | The dedup loop only appends to what has been pushed. |
| GraphReflect.DedupIntoCovers | graph/src/reflect.rs:101-108 | Every input binding, and every binding already pushed, has an `Equal` binding in the output. |
| GraphReflect.DedupIntoFrom | graph/src/reflect.rs:101-108 | Everything appended is an input binding. |
| GraphReflect.DedupIntoDistinct | graph/src/reflect.rs:101-108 | No two output bindings are `Equal`. |
| GraphReflect.DedupIntoKeeps | graph/src/reflect.rs:101-108 | Input without `Equal` pairs is kept unchanged, in order. |
| GraphReflect.DedupIntoAppend | graph/src/reflect.rs:102-108 | Deduplicating set after set is deduplicating their concatenation. |
| GraphReflect.Dedup | graph/src/reflect.rs:101-108 | The trailing set is empty iff the input is. Every input binding is `Equal` to one of its bindings, it contains only input bindings, and no two are `Equal`. |
| GraphReflect.DedupIdempotent | graph/src/reflect.rs:101-108 | Deduplicating twice is deduplicating once. |
| GraphReflect.KeepFirstFrom | graph/src/reflect.rs:101-108 | The reference filter `KeepFirst`, which keeps exactly the bindings with no earlier `Equal` binding, keeps only input bindings. |
| GraphReflect.KeepFirstHasEqual | graph/src/reflect.rs:101-108 | A binding has an `Equal` binding in `KeepFirst` of a sequence iff it has one in the sequence. |
| GraphReflect.KeepFirstSnoc | graph/src/reflect.rs:104-105 | Filtering a sequence with one more binding appends that binding iff nothing kept so far is `Equal` to it. |
| GraphReflect.DedupIntoKeepFirst | graph/src/reflect.rs:101-108 | Pushing `q` with the find-then-push step onto the filtered `p` gives the filtered `p + q`. |
| GraphReflect.DedupKeepsFirst | graph/src/reflect.rs:101-108 | The trailing set is `KeepFirst` of the second shader's bindings: the first occurrence of each `Equal` class, in input order. |
| GraphReflect.Merge | graph/src/reflect.rs:47-119 | See the details after this table. |
| GraphReflect.MergeSucceeds | graph/src/reflect.rs:59-80 | The merge succeeds iff no first-shader binding clashes with an admitted second-shader set. |
| GraphReflect.ConflictFails | graph/src/reflect.rs:73-79 | A clash fails the whole merge, leaving no partial layout. |
| GraphReflect.MergeError | graph/src/reflect.rs:55-79 | A failed merge reports the first clash in iteration order: the first set `n` of the first shader with a clash, the first admitted second-shader set in it with a clash, and the first clashing binding there. The error is that binding's index and `n`. |
| GraphReflect.MarkedBlockLength | graph/src/reflect.rs:63-86 | The reference block `MarkedBlock` has `|bs1| × |bs2|` entries. |
| GraphReflect.MarkedBlockAt | graph/src/reflect.rs:63-86 | Entry `i × |bs2| + j` of `MarkedBlock` is `bs1[i]` marked by its comparison with `bs2[j]`, so the order is first binding major, partner minor. |
| GraphReflect.BlockMarked | graph/src/reflect.rs:63-86 | A successful block is exactly `MarkedBlock`. |
| GraphReflect.SetRowMarked | graph/src/reflect.rs:60-88 | A successful row is exactly `MarkedRow`: the marked blocks of the admitted second-shader sets, concatenated in set order. |
| GraphReflect.MergedSet | graph/src/reflect.rs:61-86 | Merged set `n` is exactly `MarkedRow` of the first shader's set `n`. It has `|set n| × admitted bindings` entries, each a first-shader binding of set `n`, possibly with stages GRAPHICS. |
| GraphReflect.MergeWithoutSecond | graph/src/reflect.rs:89-93 | With an empty second shader, the merge succeeds. Every output set is all first-shader bindings in order, and no trailing set is added. |
| GraphReflect.MergeMarksShared | graph/src/reflect.rs:66-83 | An `Equal` pair puts `d1` with GRAPHICS stages into merged set `n`. A `NotEqual` pair puts `d1` there unchanged. |
| GraphReflect.SingleLayout | graph/src/reflect.rs:20-25 | One set per descriptor set with its bindings in order, and no push constants. |
| GraphReflect.SingleAttributes | graph/src/reflect.rs:27-35 | The input attributes' elements in order, with stride 0. |
| GraphReflect.LayoutOf | graph/src/reflect.rs:47-51 | A generator's layout can only fail with a binding conflict, and it never has push constants. |
| GraphReflect.AttributesOf | graph/src/reflect.rs:121-123 | A pair's attributes are its first member's, so every generator yields its leftmost description's elements, with stride 0. |
| GraphReflect.MergeDescriptorSets | graph/src/reflect.rs:126-130 | The result fails only with a binding conflict and has no push constants. |
| GraphReflect.MergeDescriptorSetsFirst | graph/src/reflect.rs:126-130 | The result is the first generator's layout, whatever generators follow it. |
| GraphReflect.CompareRow | graph/src/reflect.rs:64-85 | The inner loop with its early return computes `Row`, appended to what was pushed before. |
| GraphReflect.CompareBlock | graph/src/reflect.rs:63-86 | The two inner loops compute `Block`, appended to what was pushed before. |
| GraphReflect.CompareSets | graph/src/reflect.rs:60-88 | The loop over the second shader's sets computes `SetRow`, appended to what was pushed before. |
| GraphReflect.FlattenSets | graph/src/reflect.rs:89-92 | The nested `for_each` pushes exactly `Flatten`. |
| GraphReflect.MergeSet | graph/src/reflect.rs:56-94 | One iteration of the outer loop computes `OutSet`. |
| GraphReflect.FindEqual | graph/src/reflect.rs:104 | The `find` succeeds iff some pushed binding is `Equal`. |
| GraphReflect.DedupSecond | graph/src/reflect.rs:101-108 | The find-then-push loops compute `Dedup(Flatten(...))`. |
| GraphReflect.PairLayout | graph/src/reflect.rs:47-119 | The pair `layout`, with its loops and early return, computes exactly `Merge`. |
| GraphReflect.GeneratorLayout | graph/src/reflect.rs:47-51 | Recursive `layout` of a generator computes `LayoutOf`. |
| GraphReflect.OneSetLayout | graph/src/reflect.rs:20-25 | A shader with one descriptor set has a layout with that one set. |
| GraphReflect.SingletonSetRow | graph/src/reflect.rs:60-86 | One binding against one single-binding set yields a conflict, or that binding marked by its comparison. |
| GraphReflect.SingletonTail | graph/src/reflect.rs:101-113 | A second shader with one binding yields that binding as its trailing set. |
| GraphReflect.SingletonMerge | graph/src/reflect.rs:47-119 | Two one-binding shaders yield a conflict, or the marked first binding followed by the second binding as a set of its own. |
| GraphReflect.SharedUniformBuffer | graph/src/reflect.rs:47-119 | A uniform buffer in both a vertex and a fragment shader merges into `[{UB, GRAPHICS}]`, `[{UB, FRAGMENT}]`. |
| GraphReflect.PushedPerPartner | graph/src/reflect.rs:63-86 | A first binding that is `NotEqual` to both bindings of a second-shader set is pushed twice, once per partner. |
| GraphReflect.ConflictingDescriptors | graph/src/reflect.rs:73-79 | A uniform buffer and a storage buffer at binding 2 give `BindingConflict(2, 0)`. |
| ShaderLib.SpirvShader.Spirv | shader/src/lib.rs:69-73 | `spirv()` returns the stored bytes. |
| ShaderLib.NewSpirvShader | shader/src/lib.rs:62-66 | Requires non-empty bytes whose length is a multiple of 4. `spirv()` of the new shader returns exactly those bytes. |
| ShaderLib.SpirvReflectedShader.Spirv | shader/src/lib.rs:103-105 | `spirv()` returns the stored bytes. |
| ShaderLib.SpirvReflectedShader.Reflect | shader/src/lib.rs:107-109 | `reflect()` returns the stored description. |
| ShaderLib.NewReflectedShader | shader/src/lib.rs:89-98 | Requires the same byte condition plus `from_bytes` succeeding. `spirv()` returns the bytes and `reflect()` returns `from_bytes` of them. The description's own bytes equal `spirv()`. |

`ShaderReflect.FromBytes` succeeds exactly when loading and all three enumerations succeed, every input variable converts, and every descriptor kind converts. Each failure is wrapped in the context of its step, and the first failing step decides the error (`FromBytesErrors`). On success:
- the bytes are kept;
- the stage is the module's;
- the output attributes equal the input attributes, which are `Attributes` of the input variables;
- every binding is its reflected binding converted, with the module's stage;
- every push-constant block becomes `(stage, offset .. offset/4 + size/4)`.

`GraphReflect.Merge`, on success:
- has no push constants;
- has one set per first-shader set, plus one when the second shader has any binding;
- has `OutSet(n)` as set `n`;
- ends with the deduplicated second-shader bindings, which are `KeepFirst` of them (`DedupKeepsFirst`).

## Left out

- `ShaderModule::load_u8_data` and the `enumerate_*` calls are left out: binary SPIR-V parsing is done by the spirv-reflect library, whose code is not part of this model. A loaded module is an input: an abstract record with the stage and three `Result`-valued enumerations. A failure of the library is an opaque `Foreign` error.
- The second `enumerate_input_variables` call of `from_bytes` (line 308) is modelled as the same result as the first, because the module does not change between calls. Its own error message therefore never appears.
- The output variables of a module are never enumerated by the code, so they are not modelled either.
- `Shader::module` is left out: it is a GPU device call through gfx-hal and rendy-factory.
- The default `Shader::reflect`, which panics with `unimplemented!`, is left out, as is the `Shader` trait object itself. Each implementation appears as member functions of its datatype.
- Logging (`log::trace!`) and the serde derive attributes are left out; they have no behaviour.
- `graph/src/lib.rs` is not part of this model: it holds ID newtypes and an older, superseded variant of the reflection module.
- The code generator under `shader/src/codegen`, `rendy/build.rs` and the `dumpshader` example are not part of this model; they are tooling over crates that are not shown.
- The types `crate::node::render::Layout` and `SetLayout` are defined outside the files modelled here. `GraphReflect.Layout` and `GraphReflect.SetLayout` stand for them as records with only the fields the code uses: `sets` and `push_constants` for a layout, `bindings` for a set.
- `Hal.Format` lists only the 40 integer and float formats that the reflection tables can produce, and `Hal.DescriptorType` the 11 kinds the conversion yields. The spirv-reflect `ReflectDescriptorType::Undefined` is named `UndefinedDescriptor`, so that it does not clash with `ReflectFormat::Undefined`.
- ReflectAttributes.Attributes: location arithmetic is not allowed to wrap around. Instead of modelling `u32` overflow at line 271, every member over variables requires `AllLocationsFit` (each `location + dims[0]` fits in 32 bits). This covers every variable, including those after the first variable that fails to convert, which the code never expands.
- GraphReflect.Merge: the code calls `self.0.layout()?` again at lines 53 and 90 and `self.1.layout()?` again at lines 57 and 102. The model reuses the first two results, because a generator's layout is a function of the generator. A failure in a repeated call is thus the same failure as in the first call, which has already returned.
- GraphReflect.LayoutOf: the generic `(S, S)` implementation is modelled as a binary tree of shader descriptions. The Rust type system's demand that both halves have the same type is not modelled.
- GraphReflect.MergeDescriptorSets: an empty iterator panics in the code (`unwrap`); the model makes a non-empty sequence a precondition. The lazy iterator is modelled as a sequence.
- ShaderLib.NewSpirvShader and ShaderLib.NewReflectedShader: the `assert!` panics and the `unwrap` of `from_bytes` are modelled as preconditions rather than as failing calls.
- The `Cow` borrowing of the `spirv()` accessors and the `&` of `reflect()` are modelled as returning the stored values.
