/** shader/src/reflect.rs, lines 138-151 and 259-278: attribute conversion and
    `generate_attributes`. */
module ReflectAttributes {
  import opened Base
  import opened Hal
  import opened SpirvReflect
  import opened ReflectFormats

  /** `ReflectInto<AttributeDesc> for ReflectInterfaceVariable`: location and
      binding are both the variable's location; a variable without a type
      description is an error. */
  function ConvertAttribute(v: InterfaceVariable): (r: Result<AttributeDesc>)
    ensures v.typeDescription.None? ==> r == Err(MissingTypeDescription)
    ensures r.Ok? <==> v.typeDescription.Some? && ConvertElement(v.typeDescription.value).Ok?
    ensures r.Ok? ==> r.value.location == v.location && r.value.binding == v.location
                      && Ok(r.value.element) == ConvertElement(v.typeDescription.value)
  {
    match v.typeDescription
    case None => Err(MissingTypeDescription)
    case Some(td) =>
      match ConvertElement(td)
      case Err(e) => Err(e)
      case Ok(element) => Ok(AttributeDesc(v.location, v.location, element))
  }

  /** The number of attributes a variable expands to: one, or the first array extent. */
  function Multiplicity(v: InterfaceVariable): nat {
    if |v.dims| == 0 then 1 else v.dims[0]
  }

  /** The expanded locations of a variable stay within `u32` (the addition at
      line 271 is not allowed to overflow). */
  predicate LocationsFit(v: InterfaceVariable) {
    |v.dims| > 0 ==> v.location + v.dims[0] <= U32_LIMIT
  }

  predicate AllLocationsFit(vs: seq<InterfaceVariable>) {
    forall i :: 0 <= i < |vs| ==> LocationsFit(vs[i])
  }

  /** The total number of attributes a sequence of variables expands to. */
  function TotalMultiplicity(vs: seq<InterfaceVariable>): nat {
    if |vs| == 0 then 0 else TotalMultiplicity(vs[..|vs| - 1]) + Multiplicity(vs[|vs| - 1])
  }

  /** `n` copies of `a` at consecutive locations starting at its own. */
  function Clones(a: AttributeDesc, n: nat): (r: seq<AttributeDesc>)
    requires a.location + n <= U32_LIMIT
    ensures |r| == n
  {
    if n == 0 then [] else Clones(a, n - 1) + [a.(location := a.location + n - 1)]
  }

  lemma {:induction false} ClonesAt(a: AttributeDesc, n: nat, k: nat)
    requires a.location + n <= U32_LIMIT && k < n
    ensures Clones(a, n)[k] == a.(location := a.location + k)
  {
    if k < n - 1 {
      ClonesAt(a, n - 1, k);
    }
  }

  /** The attributes one converted variable contributes: itself, or one copy per
      element of its first array dimension at consecutive locations. */
  function Expand(v: InterfaceVariable, a: AttributeDesc): (r: seq<AttributeDesc>)
    requires LocationsFit(v) && a.location == v.location
    ensures |r| == Multiplicity(v)
    ensures forall k :: 0 <= k < |r| ==> r[k] == a.(location := a.location + k)
  {
    if |v.dims| == 0 then [a]
    else
      assert forall k :: 0 <= k < v.dims[0] ==> Clones(a, v.dims[0])[k] == a.(location := a.location + k) by {
        forall k | 0 <= k < v.dims[0] {
          ClonesAt(a, v.dims[0], k);
        }
      }
      Clones(a, v.dims[0])
  }

  /** What `generate_attributes` returns: the variables' attributes in input
      order; the first variable that cannot be converted fails the call. */
  function Attributes(vs: seq<InterfaceVariable>): (r: Result<seq<AttributeDesc>>)
    requires AllLocationsFit(vs)
    ensures r.Ok? <==> forall i :: 0 <= i < |vs| ==> ConvertAttribute(vs[i]).Ok?
    ensures r.Ok? ==> |r.value| == TotalMultiplicity(vs)
    ensures r.Err? ==> exists i :: 0 <= i < |vs| && ConvertAttribute(vs[i]) == Err(r.error)
                                   && forall k :: 0 <= k < i ==> ConvertAttribute(vs[k]).Ok?
    decreases |vs|
  {
    if |vs| == 0 then Ok([])
    else
      var init := vs[..|vs| - 1];
      var last := vs[|vs| - 1];
      assert forall i :: 0 <= i < |init| ==> init[i] == vs[i];
      match Attributes(init)
      case Err(e) => Err(e)
      case Ok(prefix) =>
        match ConvertAttribute(last)
        case Err(e) => Err(e)
        case Ok(a) => Ok(prefix + Expand(last, a))
  }

  /** Where variable `i`'s attributes start in the output of `Attributes`. */
  function AttributeOffset(vs: seq<InterfaceVariable>, i: nat): nat
    requires i <= |vs|
  {
    TotalMultiplicity(vs[..i])
  }

  lemma {:induction false} TotalMultiplicityPrefix(vs: seq<InterfaceVariable>, i: nat)
    requires i < |vs|
    ensures TotalMultiplicity(vs[..i]) + Multiplicity(vs[i]) <= TotalMultiplicity(vs)
    decreases |vs|
  {
    var init := vs[..|vs| - 1];
    if i == |vs| - 1 {
      assert vs[..i] == init;
    } else {
      assert init[..i] == vs[..i];
      TotalMultiplicityPrefix(init, i);
    }
  }

  /** One step of `Attributes`: the variables but the last, then the last one. */
  lemma AttributesSnoc(vs: seq<InterfaceVariable>)
    requires AllLocationsFit(vs) && |vs| > 0
    ensures AllLocationsFit(vs[..|vs| - 1]) && LocationsFit(vs[|vs| - 1])
    ensures Attributes(vs).Ok? <==> Attributes(vs[..|vs| - 1]).Ok? && ConvertAttribute(vs[|vs| - 1]).Ok?
    ensures Attributes(vs).Ok? ==>
              Attributes(vs).value == Attributes(vs[..|vs| - 1]).value + Expand(vs[|vs| - 1], ConvertAttribute(vs[|vs| - 1]).value)
  {
    assert forall j :: 0 <= j < |vs| - 1 ==> vs[..|vs| - 1][j] == vs[j];
  }

  /** The attributes of the last variable close the output of `Attributes`. */
  lemma AttributesAtLast(vs: seq<InterfaceVariable>, k: nat)
    requires AllLocationsFit(vs) && Attributes(vs).Ok?
    requires |vs| > 0 && k < Multiplicity(vs[|vs| - 1])
    ensures ConvertAttribute(vs[|vs| - 1]).Ok? && LocationsFit(vs[|vs| - 1])
    ensures AttributeOffset(vs, |vs| - 1) + k < |Attributes(vs).value|
    ensures Attributes(vs).value[AttributeOffset(vs, |vs| - 1) + k]
            == ConvertAttribute(vs[|vs| - 1]).value.(location := vs[|vs| - 1].location + k)
  {
    var init := vs[..|vs| - 1];
    var last := vs[|vs| - 1];
    AttributesSnoc(vs);
    var prefix := Attributes(init).value;
    assert vs[..|vs| - 1] == init;
    assert Attributes(vs).value[|prefix| + k] == Expand(last, ConvertAttribute(last).value)[k];
  }

  /** Attribute `k` of variable `i` sits at `AttributeOffset(vs, i) + k`: it is
      the variable's converted attribute with its location advanced by `k`. */
  lemma {:induction false} AttributesAt(vs: seq<InterfaceVariable>, i: nat, k: nat)
    requires AllLocationsFit(vs) && Attributes(vs).Ok?
    requires i < |vs| && k < Multiplicity(vs[i])
    ensures ConvertAttribute(vs[i]).Ok? && LocationsFit(vs[i])
    ensures AttributeOffset(vs, i) + k < |Attributes(vs).value|
    ensures Attributes(vs).value[AttributeOffset(vs, i) + k]
            == ConvertAttribute(vs[i]).value.(location := vs[i].location + k)
    decreases |vs|
  {
    if i == |vs| - 1 {
      AttributesAtLast(vs, k);
    } else {
      var init := vs[..|vs| - 1];
      AttributesSnoc(vs);
      assert init[..i] == vs[..i];
      assert init[i] == vs[i];
      AttributesAt(init, i, k);
      TotalMultiplicityPrefix(init, i);
      var j := AttributeOffset(init, i) + k;
      assert AttributeOffset(vs, i) == j - k;
      assert Attributes(vs).value[j] == Attributes(init).value[j];
    }
  }

  /** The fields of attribute `k` of variable `i`: location `location + k`,
      binding `location`, and the variable's element format at offset 0. */
  lemma AttributeFields(vs: seq<InterfaceVariable>, i: nat, k: nat)
    requires AllLocationsFit(vs) && Attributes(vs).Ok?
    requires i < |vs| && k < Multiplicity(vs[i])
    ensures vs[i].typeDescription.Some?
    ensures AttributeOffset(vs, i) + k < |Attributes(vs).value|
    ensures var a := Attributes(vs).value[AttributeOffset(vs, i) + k];
            a.location == vs[i].location + k && a.binding == vs[i].location
            && a.element.offset == 0
            && Ok(a.element.format) == TypeElementFormat(vs[i].typeDescription.value.typeFlags,
                                                         vs[i].typeDescription.value.traits)
  {
    AttributesAt(vs, i, k);
  }

  /** The first variable that cannot be converted decides the error of `Attributes`. */
  lemma {:induction false} AttributesFirstError(vs: seq<InterfaceVariable>, i: nat)
    requires AllLocationsFit(vs) && i < |vs|
    requires Attributes(vs[..i]).Ok? && ConvertAttribute(vs[i]).Err?
    ensures Attributes(vs) == Err(ConvertAttribute(vs[i]).error)
    decreases |vs|
  {
    var init := vs[..|vs| - 1];
    AttributesSnoc(vs);
    if i == |vs| - 1 {
      assert init == vs[..i];
    } else {
      assert init[..i] == vs[..i];
      assert init[i] == vs[i];
      AttributesFirstError(init, i);
    }
  }

  /** Solver helper: sequence associativity (no model content). */
  lemma AppendOne<T>(a: seq<T>, b: seq<T>, x: T)
    ensures (a + b) + [x] == a + (b + [x])
  {
  }

  /** The inner loop of `generate_attributes` (lines 268-273): pushes one
      clone of `a` per array element, the `n`-th at location `a.location + n`. */
  method PushClones(out: seq<AttributeDesc>, a: AttributeDesc, count: nat) returns (r: seq<AttributeDesc>)
    requires a.location + count <= U32_LIMIT
    ensures r == out + Clones(a, count)
  {
    r := out;
    for n := 0 to count
      invariant r == out + Clones(a, n)
    {
      var clone := a.(location := a.location + n);
      AppendOne(out, Clones(a, n), clone);
      r := r + [clone];
    }
  }

  /** `generate_attributes`: one pass over the variables, pushing each
      converted attribute, or one clone per array element with its location
      advanced; the first conversion failure returns early. */
  method GenerateAttributes(attributes: seq<InterfaceVariable>) returns (r: Result<seq<AttributeDesc>>)
    requires AllLocationsFit(attributes)
    ensures r == Attributes(attributes)
  {
    var outAttributes: seq<AttributeDesc> := [];
    for i := 0 to |attributes|
      invariant Attributes(attributes[..i]) == Ok(outAttributes)
    {
      var attribute := attributes[i];
      var reflected := ConvertAttribute(attribute);
      if reflected.Err? {
        AttributesFirstError(attributes, i);
        return Err(reflected.error);
      }
      if |attribute.dims| == 0 {
        outAttributes := outAttributes + [reflected.value];
      } else {
        outAttributes := PushClones(outAttributes, reflected.value, attribute.dims[0]);
      }
      AttributesSnoc(attributes[..i + 1]);
      assert attributes[..i + 1][..i] == attributes[..i];
    }
    assert attributes[..|attributes|] == attributes;
    r := Ok(outAttributes);
  }
}
