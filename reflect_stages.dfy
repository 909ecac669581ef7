/** shader/src/reflect.rs, lines 215-238: `convert_stage`. */
module ReflectStages {
  import opened Base
  import opened Hal
  import opened SpirvReflect

  /** The reflected stage bit that stands for each gfx_hal stage bit. */
  function ReflectBitOf(s: Stage): ReflectStageBit {
    match s
    case Vertex => VERTEX
    case Hull => TESSELLATION_CONTROL
    case Domain => TESSELLATION_EVALUATION
    case Geometry => GEOMETRY
    case Fragment => FRAGMENT
    case Compute => COMPUTE
  }

  /** The stage flags `convert_stage` computes: a gfx_hal stage is present
      exactly when its reflected bit is. */
  function StageFlagsOf(stage: set<ReflectStageBit>): (r: StageFlags)
    ensures forall s :: s in r <==> ReflectBitOf(s) in stage
  {
    set s | s in ALL_STAGES && ReflectBitOf(s) in stage
  }

  /** `convert_stage`: tests the six known bits one at a time and accumulates
      the matching gfx_hal bits; any other bit is dropped. */
  method ConvertStage(stage: set<ReflectStageBit>) returns (bits: StageFlags)
    ensures forall s :: s in bits <==> ReflectBitOf(s) in stage
    ensures bits == StageFlagsOf(stage)
  {
    bits := {};
    if VERTEX in stage {
      bits := bits + {Vertex};
    }
    if FRAGMENT in stage {
      bits := bits + {Fragment};
    }
    if GEOMETRY in stage {
      bits := bits + {Geometry};
    }
    if COMPUTE in stage {
      bits := bits + {Compute};
    }
    if TESSELLATION_CONTROL in stage {
      bits := bits + {Hull};
    }
    if TESSELLATION_EVALUATION in stage {
      bits := bits + {Domain};
    }
  }

  /** Converting a union of bits gives the union of the conversions. */
  lemma StageFlagsOfUnion(a: set<ReflectStageBit>, b: set<ReflectStageBit>)
    ensures StageFlagsOf(a + b) == StageFlagsOf(a) + StageFlagsOf(b)
  {
  }

  /** A bit outside the six known ones changes nothing. */
  lemma StageFlagsOfIgnoresOther(a: set<ReflectStageBit>, bit: nat)
    ensures StageFlagsOf(a + {OTHER_STAGE(bit)}) == StageFlagsOf(a)
  {
  }
}
