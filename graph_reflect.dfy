/** graph/src/reflect.rs: the layout generators of one shader and of a pair
    of shaders, and the comparison of descriptor bindings that the pair's
    merge relies on. */
module GraphReflect {
  import opened Base
  import opened Hal
  import opened ShaderReflect

  type Binding = DescriptorSetLayoutBinding

  /** `crate::node::render::SetLayout`: the bindings of one descriptor set. */
  datatype SetLayout = SetLayout(bindings: seq<Binding>)

  /** `crate::node::render::Layout`: descriptor sets and push-constant ranges. */
  datatype Layout = Layout(sets: seq<SetLayout>, pushConstants: seq<PushConstant>)

  /** `BindingEquality`. */
  datatype BindingEquality = Equal | SameBindingNonEqual | NotEqual

  /** Two bindings describe the same descriptor: they agree on every field
      except the stage flags. */
  predicate SameDescriptor(a: Binding, b: Binding) {
    a.(stageFlags := {}) == b.(stageFlags := {})
  }

  /** `compare_bindings` (lines 148-161). */
  function CompareBindings(lhv: Binding, rhv: Binding): BindingEquality {
    if lhv.binding == rhv.binding && lhv.count == rhv.count
       && lhv.immutableSamplers == rhv.immutableSamplers && lhv.ty == rhv.ty then
      Equal
    else if lhv.binding == rhv.binding then
      SameBindingNonEqual
    else
      NotEqual
  }

  /** `Equal` means the same descriptor whatever the stages,
      `SameBindingNonEqual` two different descriptors at one binding index,
      `NotEqual` different binding indices. */
  lemma CompareBindingsMeaning(lhv: Binding, rhv: Binding)
    ensures CompareBindings(lhv, rhv) == Equal <==> SameDescriptor(lhv, rhv)
    ensures CompareBindings(lhv, rhv) == SameBindingNonEqual <==> lhv.binding == rhv.binding && !SameDescriptor(lhv, rhv)
    ensures CompareBindings(lhv, rhv) == NotEqual <==> lhv.binding != rhv.binding
  {
  }

  /** The comparison does not depend on the order of its arguments, and every
      binding is `Equal` to itself. */
  lemma CompareBindingsSymmetric(a: Binding, b: Binding)
    ensures CompareBindings(a, b) == CompareBindings(b, a)
    ensures CompareBindings(a, a) == Equal
  {
  }

  /** The binding the merge emits for `d1` met with `d2`, when they do not clash. */
  function Marked(d1: Binding, d2: Binding): Binding {
    if CompareBindings(d1, d2) == Equal then d1.(stageFlags := GRAPHICS) else d1
  }

  /** `d1` has the same binding index as, but differs from, some binding of `bs2`. */
  predicate Clash(d1: Binding, bs2: seq<Binding>) {
    exists j :: 0 <= j < |bs2| && CompareBindings(d1, bs2[j]) == SameBindingNonEqual
  }

  /** No binding of `bs1` clashes with `bs2`. */
  predicate Clear(bs1: seq<Binding>, bs2: seq<Binding>) {
    forall i :: 0 <= i < |bs1| ==> !Clash(bs1[i], bs2)
  }

  /** `x` is a binding of `bs1`, possibly with its stages widened to GRAPHICS. */
  predicate FromFirst(x: Binding, bs1: seq<Binding>) {
    exists i :: 0 <= i < |bs1| && (x == bs1[i] || x == bs1[i].(stageFlags := GRAPHICS))
  }

  /** `acc` followed by the output of `r`, or the error of `r`. */
  function Then<T>(acc: seq<T>, r: Result<seq<T>>): Result<seq<T>> {
    match r
    case Err(e) => Err(e)
    case Ok(x) => Ok(acc + x)
  }

  /** Solver helper: `Then` is associative (no model content). */
  lemma ThenThen<T>(a: seq<T>, b: seq<T>, r: Result<seq<T>>)
    ensures Then(a, Then(b, r)) == Then(a + b, r)
  {
    if r.Ok? {
      assert a + (b + r.value) == (a + b) + r.value;
    }
  }

  /** The innermost loop of the merge (lines 64-85): `d1` against every binding
      of `bs2`, one output binding per comparison; a clash aborts with the
      binding index of `d1` and the set index `n`. */
  function Row(d1: Binding, bs2: seq<Binding>, n: nat): (r: Result<seq<Binding>>)
    ensures r.Ok? <==> !Clash(d1, bs2)
    ensures r.Err? ==> r.error == BindingConflict(d1.binding, n)
    ensures r.Ok? ==> |r.value| == |bs2| && forall j :: 0 <= j < |bs2| ==> r.value[j] == Marked(d1, bs2[j])
  {
    if |bs2| == 0 then Ok([])
    else
      var rest := Row(d1, bs2[1..], n);
      assert Clash(d1, bs2) <==> CompareBindings(d1, bs2[0]) == SameBindingNonEqual || Clash(d1, bs2[1..]) by {
        if Clash(d1, bs2[1..]) {
          var j :| 0 <= j < |bs2| - 1 && CompareBindings(d1, bs2[1..][j]) == SameBindingNonEqual;
          assert bs2[1..][j] == bs2[j + 1];
        }
        if Clash(d1, bs2) && CompareBindings(d1, bs2[0]) != SameBindingNonEqual {
          var j :| 0 <= j < |bs2| && CompareBindings(d1, bs2[j]) == SameBindingNonEqual;
          assert bs2[1..][j - 1] == bs2[j];
        }
      }
      match CompareBindings(d1, bs2[0])
      case Equal => Then([d1.(stageFlags := GRAPHICS)], rest)
      case SameBindingNonEqual => Err(BindingConflict(d1.binding, n))
      case NotEqual => Then([d1], rest)
  }

  /** The loops over `set_1.bindings` and `set_2.bindings` (lines 63-86): each
      binding of `bs1` against all of `bs2`, in order. */
  function Block(bs1: seq<Binding>, bs2: seq<Binding>, n: nat): (r: Result<seq<Binding>>)
    ensures r.Ok? <==> Clear(bs1, bs2)
    ensures r.Err? ==> exists i :: 0 <= i < |bs1| && Clash(bs1[i], bs2)
                                   && r.error == BindingConflict(bs1[i].binding, n)
    ensures r.Ok? ==> |r.value| == |bs1| * |bs2|
  {
    if |bs1| == 0 then Ok([])
    else
      var rest := Block(bs1[1..], bs2, n);
      assert Clear(bs1, bs2) <==> !Clash(bs1[0], bs2) && Clear(bs1[1..], bs2) by {
        assert forall i :: 1 <= i < |bs1| ==> bs1[1..][i - 1] == bs1[i];
      }
      match Row(bs1[0], bs2, n)
      case Err(e) => Err(e)
      case Ok(row) =>
        assert rest.Err? ==> exists i :: 0 <= i < |bs1| && Clash(bs1[i], bs2)
                                         && rest.error == BindingConflict(bs1[i].binding, n) by {
          if rest.Err? {
            var i :| 0 <= i < |bs1| - 1 && Clash(bs1[1..][i], bs2) && rest.error == BindingConflict(bs1[1..][i].binding, n);
            assert bs1[1..][i] == bs1[i + 1];
          }
        }
        assert |bs1| * |bs2| == |bs2| + (|bs1| - 1) * |bs2|;
        Then(row, rest)
  }

  /** Every binding a block emits is a binding of `bs1`, possibly widened to GRAPHICS. */
  lemma {:induction false} BlockFromFirst(bs1: seq<Binding>, bs2: seq<Binding>, n: nat, m: nat)
    requires Block(bs1, bs2, n).Ok? && m < |Block(bs1, bs2, n).value|
    ensures FromFirst(Block(bs1, bs2, n).value[m], bs1)
    decreases |bs1|
  {
    var row := Row(bs1[0], bs2, n).value;
    var rest := Block(bs1[1..], bs2, n).value;
    assert Block(bs1, bs2, n).value == row + rest;
    if m < |row| {
      assert row[m] == Marked(bs1[0], bs2[m]);
    } else {
      BlockFromFirst(bs1[1..], bs2, n, m - |row|);
      var i :| 0 <= i < |bs1| - 1 && (rest[m - |row|] == bs1[1..][i] || rest[m - |row|] == bs1[1..][i].(stageFlags := GRAPHICS));
      assert bs1[1..][i] == bs1[i + 1];
    }
  }

  /** A failing block reports the first binding of `bs1`, in iteration order,
      that clashes with `bs2`: every earlier binding is clear of `bs2`. */
  lemma {:induction false} BlockFirstError(bs1: seq<Binding>, bs2: seq<Binding>, n: nat)
    requires Block(bs1, bs2, n).Err?
    ensures exists i :: 0 <= i < |bs1| && Clash(bs1[i], bs2) && Block(bs1, bs2, n).error == BindingConflict(bs1[i].binding, n)
                        && forall i' :: 0 <= i' < i ==> !Clash(bs1[i'], bs2)
    decreases |bs1|
  {
    var e := Block(bs1, bs2, n).error;
    var row := Row(bs1[0], bs2, n);
    if row.Err? {
      assert e == row.error;
    } else {
      var tail := bs1[1..];
      var rest := Block(tail, bs2, n);
      assert Block(bs1, bs2, n) == Then(row.value, rest);
      BlockFirstError(tail, bs2, n);
      var i :| 0 <= i < |tail| && Clash(tail[i], bs2) && rest.error == BindingConflict(tail[i].binding, n)
               && forall i' :: 0 <= i' < i ==> !Clash(tail[i'], bs2);
      assert tail[i] == bs1[i + 1];
      forall i' | 0 <= i' < i + 1
        ensures !Clash(bs1[i'], bs2)
      {
        if i' > 0 {
          assert tail[i' - 1] == bs1[i'];
        }
      }
    }
  }

  /** The second shader's sets that the guard at line 61 admits for set index
      `n`: those with at least `n` bindings. */
  predicate Admitted(s2: SetLayout, n: nat) {
    n <= |s2.bindings|
  }

  /** The number of bindings in the admitted sets of `sets2`. */
  function AdmittedBindings(sets2: seq<SetLayout>, n: nat): nat {
    if |sets2| == 0 then 0
    else (if Admitted(sets2[0], n) then |sets2[0].bindings| else 0) + AdmittedBindings(sets2[1..], n)
  }

  /** The loop over the second shader's sets (lines 60-88): the block of
      `bs1` against each admitted set, in order. */
  function SetRow(bs1: seq<Binding>, sets2: seq<SetLayout>, n: nat): (r: Result<seq<Binding>>)
    ensures r.Ok? <==> forall k :: 0 <= k < |sets2| && Admitted(sets2[k], n) ==> Clear(bs1, sets2[k].bindings)
  {
    if |sets2| == 0 then Ok([])
    else
      var rest := SetRow(bs1, sets2[1..], n);
      assert forall k :: 1 <= k < |sets2| ==> sets2[1..][k - 1] == sets2[k];
      if Admitted(sets2[0], n) then
        match Block(bs1, sets2[0].bindings, n)
        case Err(e) => Err(e)
        case Ok(block) => Then(block, rest)
      else
        rest
  }

  /** Binding `i` of `bs1` against admitted set `k` of `sets2` is the first
      clash of the loops at lines 60-86: every earlier admitted set is clear
      of `bs1`, and every earlier binding of `bs1` is clear of set `k`. */
  predicate FirstClashAt(bs1: seq<Binding>, sets2: seq<SetLayout>, n: nat, k: int, i: int) {
    && 0 <= k < |sets2| && Admitted(sets2[k], n) && 0 <= i < |bs1|
    && Clash(bs1[i], sets2[k].bindings)
    && (forall k' :: 0 <= k' < k && Admitted(sets2[k'], n) ==> Clear(bs1, sets2[k'].bindings))
    && (forall i' :: 0 <= i' < i ==> !Clash(bs1[i'], sets2[k].bindings))
  }

  /** The first clash after a leading set that does not clash is the first
      clash with that set put before the others. */
  lemma FirstClashShift(bs1: seq<Binding>, sets2: seq<SetLayout>, n: nat, k: int, i: int)
    requires |sets2| > 0 && FirstClashAt(bs1, sets2[1..], n, k, i)
    requires Admitted(sets2[0], n) ==> Clear(bs1, sets2[0].bindings)
    ensures FirstClashAt(bs1, sets2, n, k + 1, i)
  {
    assert sets2[1..][k] == sets2[k + 1];
    forall k' | 0 <= k' < k + 1 && Admitted(sets2[k'], n)
      ensures Clear(bs1, sets2[k'].bindings)
    {
      if k' > 0 {
        assert sets2[1..][k' - 1] == sets2[k'];
      }
    }
  }

  /** A failing set row reports its first clash in iteration order: the
      binding index of the first binding of `bs1` that clashes with the first
      admitted set any binding clashes with, and the set index `n`. */
  lemma {:induction false} SetRowError(bs1: seq<Binding>, sets2: seq<SetLayout>, n: nat)
    requires SetRow(bs1, sets2, n).Err?
    ensures exists k, i :: FirstClashAt(bs1, sets2, n, k, i)
                           && SetRow(bs1, sets2, n).error == BindingConflict(bs1[i].binding, n)
    decreases |sets2|
  {
    var e := SetRow(bs1, sets2, n).error;
    var head := Block(bs1, sets2[0].bindings, n);
    if Admitted(sets2[0], n) && head.Err? {
      assert e == head.error;
      BlockFirstError(bs1, sets2[0].bindings, n);
      var i :| 0 <= i < |bs1| && Clash(bs1[i], sets2[0].bindings) && head.error == BindingConflict(bs1[i].binding, n)
               && forall i' :: 0 <= i' < i ==> !Clash(bs1[i'], sets2[0].bindings);
      assert FirstClashAt(bs1, sets2, n, 0, i);
    } else {
      var rest := SetRow(bs1, sets2[1..], n);
      assert SetRow(bs1, sets2, n) == (if Admitted(sets2[0], n) then Then(head.value, rest) else rest);
      SetRowError(bs1, sets2[1..], n);
      var k, i :| FirstClashAt(bs1, sets2[1..], n, k, i) && rest.error == BindingConflict(bs1[i].binding, n);
      FirstClashShift(bs1, sets2, n, k, i);
    }
  }

  /** Solver helper: distributivity (no model content). */
  lemma Distribute(a: int, b: int, c: int)
    ensures a * (b + c) == a * b + a * c
  {
  }

  /** A set row emits every binding of `bs1` once per admitted binding. */
  lemma {:induction false} SetRowLength(bs1: seq<Binding>, sets2: seq<SetLayout>, n: nat)
    requires SetRow(bs1, sets2, n).Ok?
    ensures |SetRow(bs1, sets2, n).value| == |bs1| * AdmittedBindings(sets2, n)
    decreases |sets2|
  {
    if |sets2| > 0 {
      SetRowLength(bs1, sets2[1..], n);
      if Admitted(sets2[0], n) {
        var block := Block(bs1, sets2[0].bindings, n).value;
        var rest := SetRow(bs1, sets2[1..], n).value;
        assert SetRow(bs1, sets2, n).value == block + rest;
        Distribute(|bs1|, |sets2[0].bindings|, AdmittedBindings(sets2[1..], n));
      }
    }
  }

  /** Every binding a set row emits is a binding of `bs1`, possibly widened to GRAPHICS. */
  lemma {:induction false} SetRowFromFirst(bs1: seq<Binding>, sets2: seq<SetLayout>, n: nat, m: nat)
    requires SetRow(bs1, sets2, n).Ok? && m < |SetRow(bs1, sets2, n).value|
    ensures FromFirst(SetRow(bs1, sets2, n).value[m], bs1)
    decreases |sets2|
  {
    var rest := SetRow(bs1, sets2[1..], n).value;
    if Admitted(sets2[0], n) {
      var block := Block(bs1, sets2[0].bindings, n).value;
      assert SetRow(bs1, sets2, n).value == block + rest;
      if m < |block| {
        BlockFromFirst(bs1, sets2[0].bindings, n, m);
      } else {
        SetRowFromFirst(bs1, sets2[1..], n, m - |block|);
      }
    } else {
      SetRowFromFirst(bs1, sets2[1..], n, m);
    }
  }

  /** What a clash-free block emits: for each binding of `bs1` in order, one
      copy per binding of `bs2`, marked by that comparison. */
  function MarkedBlock(bs1: seq<Binding>, bs2: seq<Binding>): (r: seq<Binding>)
  {
    if |bs1| == 0 then []
    else seq(|bs2|, j requires 0 <= j < |bs2| => Marked(bs1[0], bs2[j])) + MarkedBlock(bs1[1..], bs2)
  }

  /** What a clash-free set row emits: the marked block of `bs1` against each
      admitted set of `sets2`, in order. */
  function MarkedRow(bs1: seq<Binding>, sets2: seq<SetLayout>, n: nat): seq<Binding>
  {
    if |sets2| == 0 then []
    else (if Admitted(sets2[0], n) then MarkedBlock(bs1, sets2[0].bindings) else []) + MarkedRow(bs1, sets2[1..], n)
  }

  /** Solver helper: multiplication by a successor (no model content). */
  lemma MulSucc(a: nat, b: nat)
    ensures (a + 1) * b == b + a * b
  {
  }

  /** A marked block has one entry per pair. */
  lemma {:induction false} MarkedBlockLength(bs1: seq<Binding>, bs2: seq<Binding>)
    ensures |MarkedBlock(bs1, bs2)| == |bs1| * |bs2|
    decreases |bs1|
  {
    if |bs1| > 0 {
      MarkedBlockLength(bs1[1..], bs2);
      MulSucc(|bs1| - 1, |bs2|);
    }
  }

  /** Position `i * |bs2| + j` of a marked block holds `bs1[i]` marked by
      `bs2[j]`: every first binding is emitted once per partner, in order,
      unchanged for `NotEqual` and widened to GRAPHICS for `Equal`. */
  lemma {:induction false} MarkedBlockAt(bs1: seq<Binding>, bs2: seq<Binding>, i: nat, j: nat)
    requires i < |bs1| && j < |bs2|
    ensures i * |bs2| + j < |MarkedBlock(bs1, bs2)|
            && MarkedBlock(bs1, bs2)[i * |bs2| + j] == Marked(bs1[i], bs2[j])
    decreases |bs1|
  {
    var row := seq(|bs2|, j requires 0 <= j < |bs2| => Marked(bs1[0], bs2[j]));
    assert MarkedBlock(bs1, bs2) == row + MarkedBlock(bs1[1..], bs2);
    if i > 0 {
      var k := (i - 1) * |bs2| + j;
      MarkedBlockAt(bs1[1..], bs2, i - 1, j);
      MulSucc(i - 1, |bs2|);
      assert i * |bs2| + j == |row| + k;
      assert bs1[1..][i - 1] == bs1[i];
    }
  }

  /** A block that succeeds emits exactly the marked block. */
  lemma {:induction false} BlockMarked(bs1: seq<Binding>, bs2: seq<Binding>, n: nat)
    requires Block(bs1, bs2, n).Ok?
    ensures Block(bs1, bs2, n).value == MarkedBlock(bs1, bs2)
    decreases |bs1|
  {
    if |bs1| > 0 {
      BlockMarked(bs1[1..], bs2, n);
      var row := Row(bs1[0], bs2, n).value;
      assert row == seq(|bs2|, j requires 0 <= j < |bs2| => Marked(bs1[0], bs2[j]));
    }
  }

  /** A set row that succeeds emits exactly the marked row: the marked
      blocks against the admitted sets, concatenated in order. */
  lemma {:induction false} SetRowMarked(bs1: seq<Binding>, sets2: seq<SetLayout>, n: nat)
    requires SetRow(bs1, sets2, n).Ok?
    ensures SetRow(bs1, sets2, n).value == MarkedRow(bs1, sets2, n)
    decreases |sets2|
  {
    if |sets2| > 0 {
      SetRowMarked(bs1, sets2[1..], n);
      if Admitted(sets2[0], n) {
        BlockMarked(bs1, sets2[0].bindings, n);
      } else {
        assert [] + MarkedRow(bs1, sets2[1..], n) == MarkedRow(bs1, sets2[1..], n);
      }
    }
  }

  /** All bindings of all sets, set after set (the nested `for_each` at lines
      90-92 and 102-108 visit them in this order). */
  function Flatten(sets: seq<SetLayout>): (r: seq<Binding>)
    ensures forall k, j :: 0 <= k < |sets| && 0 <= j < |sets[k].bindings| ==> sets[k].bindings[j] in r
    ensures forall x :: x in r ==> exists k :: 0 <= k < |sets| && x in sets[k].bindings
  {
    if |sets| == 0 then []
    else
      var rest := Flatten(sets[1..]);
      assert forall k :: 1 <= k < |sets| ==> sets[1..][k - 1] == sets[k];
      sets[0].bindings + rest
  }

  /** The set for index `n` of the first shader (lines 56-95): merged against
      the second shader's sets, or, when the second shader has no sets, every
      binding of every set of the first shader. */
  function OutSet(first: Layout, second: Layout, n: nat): Result<seq<Binding>>
    requires n < |first.sets|
  {
    if |second.sets| == 0 then Ok(Flatten(first.sets))
    else SetRow(first.sets[n].bindings, second.sets, n)
  }

  /** Every set of the first shader from index `n` up to `m` merges. */
  predicate MergesBetween(first: Layout, second: Layout, n: nat, m: nat)
    requires m <= |first.sets|
  {
    forall m' :: n <= m' < m ==> OutSet(first, second, m').Ok?
  }

  /** Solver helper: a merging set `n` extends the run of merging sets that
      precedes a failure from `n + 1` on (no model content). */
  lemma MergesBetweenStep(first: Layout, second: Layout, n: nat, rest: Result<seq<SetLayout>>)
    requires n < |first.sets| && OutSet(first, second, n).Ok?
    requires rest.Err? ==> exists m :: n + 1 <= m < |first.sets| && OutSet(first, second, m) == Err(rest.error)
                                       && MergesBetween(first, second, n + 1, m)
    ensures rest.Err? ==> exists m :: n <= m < |first.sets| && OutSet(first, second, m) == Err(rest.error)
                                     && MergesBetween(first, second, n, m)
  {
    if rest.Err? {
      var m :| n + 1 <= m < |first.sets| && OutSet(first, second, m) == Err(rest.error)
               && MergesBetween(first, second, n + 1, m);
      assert MergesBetween(first, second, n, m);
    }
  }

  /** The outer loop (lines 55-96) from set index `n` on: one output set per
      set of the first shader, in order; the first failing set aborts, and
      its error is the loop's error. */
  function FirstSets(first: Layout, second: Layout, n: nat): (r: Result<seq<SetLayout>>)
    requires n <= |first.sets|
    ensures r.Ok? <==> forall m :: n <= m < |first.sets| ==> OutSet(first, second, m).Ok?
    ensures r.Ok? ==> |r.value| == |first.sets| - n
    ensures r.Ok? ==> forall m :: n <= m < |first.sets| ==> OutSet(first, second, m) == Ok(r.value[m - n].bindings)
    ensures r.Err? ==> exists m :: n <= m < |first.sets| && OutSet(first, second, m) == Err(r.error)
                                   && MergesBetween(first, second, n, m)
    decreases |first.sets| - n
  {
    if n == |first.sets| then Ok([])
    else
      match OutSet(first, second, n)
      case Err(e) => assert MergesBetween(first, second, n, n); Err(e)
      case Ok(out) =>
        var rest := FirstSets(first, second, n + 1);
        MergesBetweenStep(first, second, n, rest);
        Then([SetLayout(out)], rest)
  }

  /** Some binding of `out` is `Equal` to `d` (the `find` at line 104). */
  predicate HasEqual(out: seq<Binding>, d: Binding) {
    exists m :: 0 <= m < |out| && CompareBindings(out[m], d) == Equal
  }

  /** No two bindings of `s` are `Equal`. */
  predicate Distinct(s: seq<Binding>) {
    forall a, b :: 0 <= a < b < |s| ==> CompareBindings(s[a], s[b]) != Equal
  }

  /** Lines 101-108 from a partial output `out` on: each binding of `bs` is
      pushed unless an `Equal` binding has been pushed already. */
  function DedupInto(out: seq<Binding>, bs: seq<Binding>): (r: seq<Binding>)
    ensures |out| <= |r| && r[..|out|] == out
    decreases |bs|
  {
    if |bs| == 0 then out
    else DedupInto(if HasEqual(out, bs[0]) then out else out + [bs[0]], bs[1..])
  }

  /** After deduplication every binding of `bs`, and every binding already
      in `out`, has an `Equal` binding in the output. */
  lemma {:induction false} DedupIntoCovers(out: seq<Binding>, bs: seq<Binding>)
    ensures forall i :: 0 <= i < |bs| ==> HasEqual(DedupInto(out, bs), bs[i])
    ensures forall m :: 0 <= m < |out| ==> HasEqual(DedupInto(out, bs), out[m])
    decreases |bs|
  {
    var r := DedupInto(out, bs);
    forall m | 0 <= m < |out|
      ensures HasEqual(r, out[m])
    {
      assert r[..|out|][m] == r[m];
      CompareBindingsSymmetric(r[m], r[m]);
    }
    if |bs| > 0 {
      var next := if HasEqual(out, bs[0]) then out else out + [bs[0]];
      DedupIntoCovers(next, bs[1..]);
      forall i | 0 <= i < |bs|
        ensures HasEqual(r, bs[i])
      {
        if i == 0 {
          if HasEqual(out, bs[0]) {
            var m :| 0 <= m < |out| && CompareBindings(out[m], bs[0]) == Equal;
            assert r[..|out|][m] == r[m];
          } else {
            assert next[|out|] == bs[0];
            assert r[..|next|][|out|] == r[|out|];
            CompareBindingsSymmetric(bs[0], bs[0]);
          }
        } else {
          assert bs[1..][i - 1] == bs[i];
        }
      }
    }
  }

  /** Deduplication only appends bindings of `bs`. */
  lemma {:induction false} DedupIntoFrom(out: seq<Binding>, bs: seq<Binding>)
    ensures forall m :: |out| <= m < |DedupInto(out, bs)| ==> DedupInto(out, bs)[m] in bs
    decreases |bs|
  {
    if |bs| > 0 {
      var next := if HasEqual(out, bs[0]) then out else out + [bs[0]];
      DedupIntoFrom(next, bs[1..]);
      var r := DedupInto(out, bs);
      forall m | |out| <= m < |r|
        ensures r[m] in bs
      {
        if m < |next| {
          assert r[..|next|][m] == next[m];
        } else {
          assert r[m] in bs[1..];
        }
      }
    }
  }

  /** Deduplication never creates two `Equal` bindings. */
  lemma {:induction false} DedupIntoDistinct(out: seq<Binding>, bs: seq<Binding>)
    requires Distinct(out)
    ensures Distinct(DedupInto(out, bs))
    decreases |bs|
  {
    if |bs| > 0 {
      var next := if HasEqual(out, bs[0]) then out else out + [bs[0]];
      if !HasEqual(out, bs[0]) {
        forall a, b | 0 <= a < b < |next|
          ensures CompareBindings(next[a], next[b]) != Equal
        {
          if b == |out| {
            assert next[b] == bs[0];
            assert next[a] == out[a];
          }
        }
      }
      DedupIntoDistinct(next, bs[1..]);
    }
  }

  /** A sequence without `Equal` pairs is left as it is. */
  lemma {:induction false} DedupIntoKeeps(out: seq<Binding>, bs: seq<Binding>)
    requires Distinct(out + bs)
    ensures DedupInto(out, bs) == out + bs
    decreases |bs|
  {
    if |bs| > 0 {
      var all := out + bs;
      assert !HasEqual(out, bs[0]) by {
        forall m | 0 <= m < |out|
          ensures CompareBindings(out[m], bs[0]) != Equal
        {
          assert all[m] == out[m] && all[|out|] == bs[0];
        }
      }
      assert (out + [bs[0]]) + bs[1..] == all;
      DedupIntoKeeps(out + [bs[0]], bs[1..]);
    }
  }

  /** The trailing set of the merge (lines 101-108): the second shader's
      bindings, each kept unless an `Equal` one was kept before it. */
  function Dedup(bs: seq<Binding>): (r: seq<Binding>)
    ensures |r| == 0 <==> |bs| == 0
    ensures forall i :: 0 <= i < |bs| ==> HasEqual(r, bs[i])
    ensures forall m :: 0 <= m < |r| ==> r[m] in bs
    ensures Distinct(r)
  {
    DedupIntoCovers([], bs);
    DedupIntoFrom([], bs);
    DedupIntoDistinct([], bs);
    DedupInto([], bs)
  }

  /** Deduplicating twice is deduplicating once. */
  lemma DedupIdempotent(bs: seq<Binding>)
    ensures Dedup(Dedup(bs)) == Dedup(bs)
  {
    assert [] + Dedup(bs) == Dedup(bs);
    DedupIntoKeeps([], Dedup(bs));
  }

  /** `bs[i]` is the first binding of `bs` in its `Equal` class. */
  predicate FirstOccurrence(bs: seq<Binding>, i: nat)
    requires i < |bs|
  {
    forall j :: 0 <= j < i ==> CompareBindings(bs[j], bs[i]) != Equal
  }

  /** The subsequence of `bs` made of the first occurrence of each `Equal`
      class, in input order: a reference for the trailing set that does not
      follow the loop. */
  function KeepFirst(bs: seq<Binding>): seq<Binding>
    decreases |bs|
  {
    if |bs| == 0 then []
    else KeepFirst(bs[..|bs| - 1]) + (if FirstOccurrence(bs, |bs| - 1) then [bs[|bs| - 1]] else [])
  }

  /** Every kept binding is a binding of `bs`. */
  lemma {:induction false} KeepFirstFrom(bs: seq<Binding>)
    ensures forall m :: 0 <= m < |KeepFirst(bs)| ==> KeepFirst(bs)[m] in bs
    decreases |bs|
  {
    if |bs| > 0 {
      var init := bs[..|bs| - 1];
      KeepFirstFrom(init);
      forall m | 0 <= m < |KeepFirst(bs)|
        ensures KeepFirst(bs)[m] in bs
      {
        if m < |KeepFirst(init)| {
          assert KeepFirst(bs)[m] == KeepFirst(init)[m];
          assert KeepFirst(init)[m] in init;
        }
      }
    }
  }

  /** Something `Equal` to `x` is kept exactly when something `Equal` to `x` occurs. */
  lemma {:induction false} KeepFirstHasEqual(bs: seq<Binding>, x: Binding)
    ensures HasEqual(KeepFirst(bs), x) <==> exists j :: 0 <= j < |bs| && CompareBindings(bs[j], x) == Equal
    decreases |bs|
  {
    var k := KeepFirst(bs);
    if HasEqual(k, x) {
      var m :| 0 <= m < |k| && CompareBindings(k[m], x) == Equal;
      KeepFirstFrom(bs);
      var j :| 0 <= j < |bs| && bs[j] == k[m];
    }
    if exists j :: 0 <= j < |bs| && CompareBindings(bs[j], x) == Equal {
      var j :| 0 <= j < |bs| && CompareBindings(bs[j], x) == Equal;
      var init := bs[..|bs| - 1];
      var kInit := KeepFirst(init);
      assert k[..|kInit|] == kInit;
      if j == |bs| - 1 && FirstOccurrence(bs, j) {
        assert k[|kInit|] == bs[j];
      } else {
        var j' := j;
        if j == |bs| - 1 {
          j' :| 0 <= j' < j && CompareBindings(bs[j'], bs[j]) == Equal;
        }
        assert init[j'] == bs[j'];
        KeepFirstHasEqual(init, x);
        var m :| 0 <= m < |kInit| && CompareBindings(kInit[m], x) == Equal;
        assert k[m] == kInit[m];
      }
    }
  }

  /** Appending one binding keeps it exactly when nothing `Equal` to it was kept. */
  lemma KeepFirstSnoc(p: seq<Binding>, x: Binding)
    ensures KeepFirst(p + [x]) == KeepFirst(p) + (if HasEqual(KeepFirst(p), x) then [] else [x])
  {
    var p' := p + [x];
    KeepFirstHasEqual(p, x);
    assert p'[..|p'| - 1] == p;
    assert forall j :: 0 <= j < |p| ==> p'[j] == p[j];
    assert p'[|p|] == x;
  }

  /** Deduplicating `q` after the kept bindings of `p` keeps the first
      occurrences of `p + q`. */
  lemma {:induction false} DedupIntoKeepFirst(p: seq<Binding>, q: seq<Binding>)
    ensures DedupInto(KeepFirst(p), q) == KeepFirst(p + q)
    decreases |q|
  {
    if |q| == 0 {
      assert p + q == p;
    } else {
      var x := q[0];
      KeepFirstSnoc(p, x);
      var next := if HasEqual(KeepFirst(p), x) then KeepFirst(p) else KeepFirst(p) + [x];
      assert next + [] == next;
      assert DedupInto(KeepFirst(p), q) == DedupInto(KeepFirst(p + [x]), q[1..]);
      DedupIntoKeepFirst(p + [x], q[1..]);
      assert (p + [x]) + q[1..] == p + q;
    }
  }

  /** The trailing set keeps the first binding of each `Equal` class of `bs`,
      in input order, and nothing else. */
  lemma DedupKeepsFirst(bs: seq<Binding>)
    ensures Dedup(bs) == KeepFirst(bs)
  {
    DedupIntoKeepFirst([], bs);
    assert [] + bs == bs;
  }

  /** Some binding of a set of the first shader clashes with an admitted set
      of the second. */
  predicate MergeConflict(first: Layout, second: Layout) {
    && |second.sets| > 0
    && exists n, k, i :: 0 <= n < |first.sets| && 0 <= k < |second.sets| && Admitted(second.sets[k], n)
                         && 0 <= i < |first.sets[n].bindings|
                         && Clash(first.sets[n].bindings[i], second.sets[k].bindings)
  }

  /** `layout` of a pair (lines 47-119) once both layouts are known: one
      merged set per set of the first shader, then the deduplicated bindings
      of the second shader as one more set if there are any, and no push
      constants. */
  function Merge(first: Layout, second: Layout): (r: Result<Layout>)
    ensures r.Ok? ==> r.value.pushConstants == []
    ensures r.Ok? ==> |r.value.sets| == |first.sets| + (if |Flatten(second.sets)| > 0 then 1 else 0)
    ensures r.Ok? ==> forall n :: 0 <= n < |first.sets| ==> OutSet(first, second, n) == Ok(r.value.sets[n].bindings)
    ensures r.Ok? && |Flatten(second.sets)| > 0 ==> r.value.sets[|first.sets|].bindings == Dedup(Flatten(second.sets))
  {
    match FirstSets(first, second, 0)
    case Err(e) => Err(e)
    case Ok(sets) =>
      var tail := Dedup(Flatten(second.sets));
      Ok(Layout(if |tail| > 0 then sets + [SetLayout(tail)] else sets, []))
  }

  /** The merge fails exactly when some binding of the first shader clashes
      with an admitted set of the second. */
  lemma MergeSucceeds(first: Layout, second: Layout)
    ensures Merge(first, second).Ok? <==> !MergeConflict(first, second)
  {
    if Merge(first, second).Err? {
      MergeError(first, second);
    }
    if MergeConflict(first, second) {
      ConflictFails(first, second);
    }
  }

  lemma ConflictFails(first: Layout, second: Layout)
    requires MergeConflict(first, second)
    ensures Merge(first, second).Err?
  {
    var n, k, i :| 0 <= n < |first.sets| && 0 <= k < |second.sets| && Admitted(second.sets[k], n)
                   && 0 <= i < |first.sets[n].bindings|
                   && Clash(first.sets[n].bindings[i], second.sets[k].bindings);
    var bs1 := first.sets[n].bindings;
    assert !Clear(bs1, second.sets[k].bindings);
    assert SetRow(bs1, second.sets, n).Err?;
    assert OutSet(first, second, n).Err?;
  }

  /** A failing outer loop names the first clash in iteration order. */
  lemma FirstSetsError(first: Layout, second: Layout)
    requires FirstSets(first, second, 0).Err?
    ensures exists n, k, i :: 0 <= n < |first.sets| && FirstClashAt(first.sets[n].bindings, second.sets, n, k, i)
                              && FirstSets(first, second, 0).error == BindingConflict(first.sets[n].bindings[i].binding, n)
                              && forall n', k' :: 0 <= n' < n && 0 <= k' < |second.sets| && Admitted(second.sets[k'], n')
                                   ==> Clear(first.sets[n'].bindings, second.sets[k'].bindings)
  {
    var e := FirstSets(first, second, 0).error;
    var n :| 0 <= n < |first.sets| && OutSet(first, second, n) == Err(e) && MergesBetween(first, second, 0, n);
    var bs1 := first.sets[n].bindings;
    assert SetRow(bs1, second.sets, n) == Err(e);
    SetRowError(bs1, second.sets, n);
    var k, i :| FirstClashAt(bs1, second.sets, n, k, i) && e == BindingConflict(bs1[i].binding, n);
    forall n', k' | 0 <= n' < n && 0 <= k' < |second.sets| && Admitted(second.sets[k'], n')
      ensures Clear(first.sets[n'].bindings, second.sets[k'].bindings)
    {
      assert OutSet(first, second, n').Ok?;
    }
  }

  /** A failed merge reports the first clash in iteration order (lines
      55-79): the first set `n` of the first shader with a clash, and in it the
      first clash of the set row. The error carries that binding's index and
      `n`. */
  lemma MergeError(first: Layout, second: Layout)
    requires Merge(first, second).Err?
    ensures MergeConflict(first, second)
    ensures exists n, k, i :: 0 <= n < |first.sets| && FirstClashAt(first.sets[n].bindings, second.sets, n, k, i)
                              && Merge(first, second).error == BindingConflict(first.sets[n].bindings[i].binding, n)
                              && forall n', k' :: 0 <= n' < n && 0 <= k' < |second.sets| && Admitted(second.sets[k'], n')
                                   ==> Clear(first.sets[n'].bindings, second.sets[k'].bindings)
  {
    assert FirstSets(first, second, 0).Err? && Merge(first, second).error == FirstSets(first, second, 0).error;
    FirstSetsError(first, second);
    var n, k, i :| 0 <= n < |first.sets| && FirstClashAt(first.sets[n].bindings, second.sets, n, k, i);
    assert MergeConflict(first, second);
  }

  /** When the second shader has sets, merged set `n` holds each binding of
      the first shader's set `n` once per admitted binding of the second
      shader, each possibly widened to GRAPHICS and otherwise unchanged; it
      is exactly the marked row of set `n`. */
  lemma MergedSet(first: Layout, second: Layout, n: nat)
    requires Merge(first, second).Ok? && |second.sets| > 0 && n < |first.sets|
    ensures var out := Merge(first, second).value.sets[n].bindings;
            && |out| == |first.sets[n].bindings| * AdmittedBindings(second.sets, n)
            && out == MarkedRow(first.sets[n].bindings, second.sets, n)
            && forall m :: 0 <= m < |out| ==> FromFirst(out[m], first.sets[n].bindings)
  {
    var out := Merge(first, second).value.sets[n].bindings;
    SetRowMarked(first.sets[n].bindings, second.sets, n);
    SetRowLength(first.sets[n].bindings, second.sets, n);
    forall m | 0 <= m < |out|
      ensures FromFirst(out[m], first.sets[n].bindings)
    {
      SetRowFromFirst(first.sets[n].bindings, second.sets, n, m);
    }
  }

  /** Without sets in the second shader, every merged set holds all bindings
      of all sets of the first shader, and no trailing set is added. */
  lemma MergeWithoutSecond(first: Layout, pushConstants: seq<PushConstant>)
    ensures var r := Merge(first, Layout([], pushConstants));
            && r.Ok? && |r.value.sets| == |first.sets|
            && forall n :: 0 <= n < |first.sets| ==> r.value.sets[n].bindings == Flatten(first.sets)
  {
    var second := Layout([], pushConstants);
    assert !MergeConflict(first, second);
    MergeSucceeds(first, second);
  }

  /** A block emits `Marked(bs1[i], bs2[j])` for every pair. */
  lemma {:induction false} BlockContains(bs1: seq<Binding>, bs2: seq<Binding>, n: nat, i: nat, j: nat)
    requires Block(bs1, bs2, n).Ok? && i < |bs1| && j < |bs2|
    ensures Marked(bs1[i], bs2[j]) in Block(bs1, bs2, n).value
    decreases |bs1|
  {
    var row := Row(bs1[0], bs2, n).value;
    var rest := Block(bs1[1..], bs2, n).value;
    assert Block(bs1, bs2, n).value == row + rest;
    if i == 0 {
      assert row[j] == Marked(bs1[0], bs2[j]);
    } else {
      BlockContains(bs1[1..], bs2, n, i - 1, j);
      assert bs1[1..][i - 1] == bs1[i];
    }
  }

  /** A set row emits `Marked(bs1[i], b)` for every binding `b` of every admitted set. */
  lemma {:induction false} SetRowContains(bs1: seq<Binding>, sets2: seq<SetLayout>, n: nat, k: nat, i: nat, j: nat)
    requires SetRow(bs1, sets2, n).Ok? && k < |sets2| && Admitted(sets2[k], n)
    requires i < |bs1| && j < |sets2[k].bindings|
    ensures Marked(bs1[i], sets2[k].bindings[j]) in SetRow(bs1, sets2, n).value
    decreases |sets2|
  {
    var rest := SetRow(bs1, sets2[1..], n).value;
    if k == 0 {
      var block := Block(bs1, sets2[0].bindings, n).value;
      assert SetRow(bs1, sets2, n).value == block + rest;
      BlockContains(bs1, sets2[0].bindings, n, i, j);
    } else {
      assert sets2[1..][k - 1] == sets2[k];
      SetRowContains(bs1, sets2[1..], n, k - 1, i, j);
      if Admitted(sets2[0], n) {
        var block := Block(bs1, sets2[0].bindings, n).value;
        assert SetRow(bs1, sets2, n).value == block + rest;
      }
    }
  }

  /** A descriptor that both shaders declare at set `n` (the second in an
      admitted set) is emitted in merged set `n` with the GRAPHICS stages;
      one paired with a binding at another index is emitted unchanged. */
  lemma MergeMarksShared(first: Layout, second: Layout, n: nat, k: nat, i: nat, j: nat)
    requires Merge(first, second).Ok? && n < |first.sets| && k < |second.sets| && Admitted(second.sets[k], n)
    requires i < |first.sets[n].bindings| && j < |second.sets[k].bindings|
    ensures var d1, d2 := first.sets[n].bindings[i], second.sets[k].bindings[j];
            && (CompareBindings(d1, d2) == Equal ==> d1.(stageFlags := GRAPHICS) in Merge(first, second).value.sets[n].bindings)
            && (CompareBindings(d1, d2) == NotEqual ==> d1 in Merge(first, second).value.sets[n].bindings)
  {
    assert OutSet(first, second, n) == Ok(Merge(first, second).value.sets[n].bindings);
    assert SetRow(first.sets[n].bindings, second.sets, n) == OutSet(first, second, n);
    SetRowContains(first.sets[n].bindings, second.sets, n, k, i, j);
  }

  /** `layout` of one shader description (lines 20-25): one set layout per
      descriptor set, holding that set's bindings, and no push constants. */
  function SingleLayout(d: Description): (r: Result<Layout>)
    ensures r.Ok? && r.value.pushConstants == []
    ensures |r.value.sets| == |d.descriptorSets|
    ensures forall i :: 0 <= i < |d.descriptorSets| ==> r.value.sets[i].bindings == d.descriptorSets[i]
  {
    Ok(Layout(seq(|d.descriptorSets|, i requires 0 <= i < |d.descriptorSets| => SetLayout(d.descriptorSets[i])), []))
  }

  /** `attributes` of one shader description (lines 27-35): the element of
      each input attribute, in order, and stride 0. */
  function SingleAttributes(d: Description): (r: (seq<Element>, u32))
    ensures r.1 == 0 && |r.0| == |d.inputAttributes|
    ensures forall i :: 0 <= i < |d.inputAttributes| ==> r.0[i] == d.inputAttributes[i].element
  {
    (seq(|d.inputAttributes|, i requires 0 <= i < |d.inputAttributes| => d.inputAttributes[i].element), 0)
  }

  /** A `ShaderLayoutGenerator`: one shader description, or a pair of
      generators (the `(S, S)` implementation). */
  datatype Generator = Single(description: Description) | Pair(first: Generator, second: Generator)

  /** The description at the far left of a generator. */
  function Leftmost(g: Generator): Description {
    match g
    case Single(d) => d
    case Pair(a, _) => Leftmost(a)
  }

  /** `ShaderLayoutGenerator::layout`: a pair asks both of its members (the
      first error wins) and merges the two layouts. The only error is a
      binding conflict, and no layout has push constants. */
  function LayoutOf(g: Generator): (r: Result<Layout>)
    ensures r.Err? ==> r.error.BindingConflict?
    ensures r.Ok? ==> r.value.pushConstants == []
  {
    match g
    case Single(d) => SingleLayout(d)
    case Pair(a, b) =>
      match LayoutOf(a)
      case Err(e) => Err(e)
      case Ok(firstLayout) =>
        match LayoutOf(b)
        case Err(e) => Err(e)
        case Ok(secondLayout) =>
          var r := Merge(firstLayout, secondLayout);
          if r.Err? then MergeError(firstLayout, secondLayout); r else r
  }

  /** `ShaderLayoutGenerator::attributes`: a pair's attributes are those of
      its first member (line 122), so every generator yields the attributes
      of its leftmost description, with stride 0. */
  function AttributesOf(g: Generator): (r: (seq<Element>, u32))
    ensures r.1 == 0 && |r.0| == |Leftmost(g).inputAttributes|
    ensures forall i :: 0 <= i < |Leftmost(g).inputAttributes| ==> r.0[i] == Leftmost(g).inputAttributes[i].element
  {
    match g
    case Single(d) => SingleAttributes(d)
    case Pair(a, _) => AttributesOf(a)
  }

  /** `merge_descriptor_sets` (lines 126-130): the layout of the first
      generator only; an empty sequence panics in the code (`unwrap`), so
      it is excluded here. */
  function MergeDescriptorSets(gs: seq<Generator>): (r: Result<Layout>)
    requires |gs| > 0
    ensures r.Err? ==> r.error.BindingConflict?
    ensures r.Ok? ==> r.value.pushConstants == []
  {
    LayoutOf(gs[0])
  }

  /** `merge_descriptor_sets` returns exactly the first generator's `layout`,
      whatever generators follow it. */
  lemma MergeDescriptorSetsFirst(g: Generator, rest: seq<Generator>)
    ensures MergeDescriptorSets([g] + rest) == LayoutOf(g)
  {
  }

  /** The innermost loop of the merge (lines 64-85), pushing onto `out`. */
  method CompareRow(out: seq<Binding>, d1: Binding, bs2: seq<Binding>, n: nat) returns (r: Result<seq<Binding>>)
    ensures r == Then(out, Row(d1, bs2, n))
  {
    var acc := out;
    assert bs2[0..] == bs2;
    for j := 0 to |bs2|
      invariant Then(acc, Row(d1, bs2[j..], n)) == Then(out, Row(d1, bs2, n))
    {
      var d2 := bs2[j];
      assert bs2[j..][0] == d2 && bs2[j..][1..] == bs2[j + 1..];
      match CompareBindings(d1, d2) {
        case Equal =>
          var copy := d1.(stageFlags := GRAPHICS);
          ThenThen(acc, [copy], Row(d1, bs2[j + 1..], n));
          acc := acc + [copy];
        case SameBindingNonEqual =>
          return Err(BindingConflict(d1.binding, n));
        case NotEqual =>
          ThenThen(acc, [d1], Row(d1, bs2[j + 1..], n));
          acc := acc + [d1];
      }
    }
    assert acc + [] == acc;
    r := Ok(acc);
  }

  /** The loops over `set_1.bindings` and `set_2.bindings` (lines 63-86), pushing onto `out`. */
  method CompareBlock(out: seq<Binding>, bs1: seq<Binding>, bs2: seq<Binding>, n: nat) returns (r: Result<seq<Binding>>)
    ensures r == Then(out, Block(bs1, bs2, n))
  {
    var acc := out;
    assert bs1[0..] == bs1;
    for i := 0 to |bs1|
      invariant Then(acc, Block(bs1[i..], bs2, n)) == Then(out, Block(bs1, bs2, n))
    {
      assert bs1[i..][0] == bs1[i] && bs1[i..][1..] == bs1[i + 1..];
      var row := CompareRow(acc, bs1[i], bs2, n);
      match row {
        case Err(e) =>
          return Err(e);
        case Ok(next) =>
          ThenThen(acc, Row(bs1[i], bs2, n).value, Block(bs1[i + 1..], bs2, n));
          acc := next;
      }
    }
    assert acc + [] == acc;
    r := Ok(acc);
  }

  /** The loop over the second shader's sets (lines 60-88), pushing onto `out`. */
  method CompareSets(out: seq<Binding>, bs1: seq<Binding>, sets2: seq<SetLayout>, n: nat) returns (r: Result<seq<Binding>>)
    ensures r == Then(out, SetRow(bs1, sets2, n))
  {
    var acc := out;
    assert sets2[0..] == sets2;
    for k := 0 to |sets2|
      invariant Then(acc, SetRow(bs1, sets2[k..], n)) == Then(out, SetRow(bs1, sets2, n))
    {
      assert sets2[k..][0] == sets2[k] && sets2[k..][1..] == sets2[k + 1..];
      if Admitted(sets2[k], n) {
        var block := CompareBlock(acc, bs1, sets2[k].bindings, n);
        match block {
          case Err(e) =>
            return Err(e);
          case Ok(next) =>
            ThenThen(acc, Block(bs1, sets2[k].bindings, n).value, SetRow(bs1, sets2[k + 1..], n));
            acc := next;
        }
      }
    }
    assert acc + [] == acc;
    r := Ok(acc);
  }

  /** Solver helper: one step of a loop that pushes the elements of `bs` one
      by one (no model content). */
  lemma PushStep<T>(out: seq<T>, bs: seq<T>, t: nat, rest: seq<T>)
    requires t < |bs|
    ensures out + (bs[t..] + rest) == (out + [bs[t]]) + (bs[t + 1..] + rest)
  {
    assert bs[t..] == [bs[t]] + bs[t + 1..];
  }

  /** Solver helper: `Flatten` unfolded at position `s` (no model content). */
  lemma FlattenFirst(sets: seq<SetLayout>, s: nat)
    requires s < |sets|
    ensures Flatten(sets[s..]) == sets[s].bindings + Flatten(sets[s + 1..])
  {
    assert sets[s..][0] == sets[s] && sets[s..][1..] == sets[s + 1..];
  }

  /** The fallback at lines 90-92: every binding of every set, in order. */
  method FlattenSets(sets: seq<SetLayout>) returns (out: seq<Binding>)
    ensures out == Flatten(sets)
  {
    out := [];
    assert sets[0..] == sets;
    for s := 0 to |sets|
      invariant out + Flatten(sets[s..]) == Flatten(sets)
    {
      var bs := sets[s].bindings;
      FlattenFirst(sets, s);
      var rest := Flatten(sets[s + 1..]);
      assert bs[0..] == bs;
      for t := 0 to |bs|
        invariant out + (bs[t..] + rest) == Flatten(sets)
      {
        PushStep(out, bs, t, rest);
        out := out + [bs[t]];
      }
      assert bs[|bs|..] + rest == rest;
    }
    assert out + [] == out;
  }

  /** The body of the outer loop (lines 56-94): the bindings of output set `n`. */
  method MergeSet(first: Layout, second: Layout, n: nat) returns (r: Result<seq<Binding>>)
    requires n < |first.sets|
    ensures r == OutSet(first, second, n)
  {
    if |second.sets| != 0 {
      r := CompareSets([], first.sets[n].bindings, second.sets, n);
      var row := SetRow(first.sets[n].bindings, second.sets, n);
      assert row.Ok? ==> [] + row.value == row.value;
    } else {
      var all := FlattenSets(first.sets);
      r := Ok(all);
    }
  }

  /** The `find` at line 104. */
  method FindEqual(out: seq<Binding>, d: Binding) returns (found: bool)
    ensures found <==> HasEqual(out, d)
  {
    found := false;
    var m := 0;
    while m < |out| && !found
      invariant 0 <= m <= |out|
      invariant found ==> HasEqual(out, d)
      invariant !found ==> forall q :: 0 <= q < m ==> CompareBindings(out[q], d) != Equal
    {
      if CompareBindings(out[m], d) == Equal {
        found := true;
      }
      m := m + 1;
    }
  }

  /** Deduplicating `a + b` is deduplicating `a`, then `b`. */
  lemma {:induction false} DedupIntoAppend(out: seq<Binding>, a: seq<Binding>, b: seq<Binding>)
    ensures DedupInto(out, a + b) == DedupInto(DedupInto(out, a), b)
    decreases |a|
  {
    if |a| == 0 {
      assert a + b == b;
    } else {
      assert (a + b)[0] == a[0] && (a + b)[1..] == a[1..] + b;
      var next := if HasEqual(out, a[0]) then out else out + [a[0]];
      DedupIntoAppend(next, a[1..], b);
    }
  }

  /** Lines 101-108: the second shader's bindings, each pushed unless an
      `Equal` one was pushed before. */
  method DedupSecond(sets: seq<SetLayout>) returns (out: seq<Binding>)
    ensures out == Dedup(Flatten(sets))
  {
    out := [];
    assert sets[0..] == sets;
    for s := 0 to |sets|
      invariant DedupInto(out, Flatten(sets[s..])) == Dedup(Flatten(sets))
    {
      var bs := sets[s].bindings;
      assert sets[s..][0] == sets[s] && sets[s..][1..] == sets[s + 1..];
      var rest := Flatten(sets[s + 1..]);
      DedupIntoAppend(out, bs, rest);
      assert bs[0..] == bs;
      for t := 0 to |bs|
        invariant DedupInto(DedupInto(out, bs[t..]), rest) == Dedup(Flatten(sets))
      {
        var descriptor := bs[t];
        assert bs[t..][0] == descriptor && bs[t..][1..] == bs[t + 1..];
        var found := FindEqual(out, descriptor);
        if !found {
          out := out + [descriptor];
        }
      }
      assert bs[|bs|..] == [];
    }
  }

  /** `layout` of a pair (lines 47-119) once both layouts are known. */
  method PairLayout(first: Layout, second: Layout) returns (r: Result<Layout>)
    ensures r == Merge(first, second)
  {
    var setLayouts: seq<SetLayout> := [];
    for n := 0 to |first.sets|
      invariant Then(setLayouts, FirstSets(first, second, n)) == Then([], FirstSets(first, second, 0))
    {
      var outSet := MergeSet(first, second, n);
      match outSet {
        case Err(e) =>
          return Err(e);
        case Ok(bindings) =>
          ThenThen(setLayouts, [SetLayout(bindings)], FirstSets(first, second, n + 1));
          setLayouts := setLayouts + [SetLayout(bindings)];
      }
    }
    assert setLayouts + [] == setLayouts;
    var sets0 := FirstSets(first, second, 0);
    assert sets0.Ok? ==> [] + sets0.value == sets0.value;
    var tail := DedupSecond(second.sets);
    if |tail| > 0 {
      setLayouts := setLayouts + [SetLayout(tail)];
    }
    r := Ok(Layout(setLayouts, []));
  }

  /** `ShaderLayoutGenerator::layout` of any generator. */
  method GeneratorLayout(g: Generator) returns (r: Result<Layout>)
    ensures r == LayoutOf(g)
  {
    match g {
      case Single(d) =>
        r := SingleLayout(d);
      case Pair(a, b) =>
        var firstLayout := GeneratorLayout(a);
        if firstLayout.Err? {
          return Err(firstLayout.error);
        }
        var secondLayout := GeneratorLayout(b);
        if secondLayout.Err? {
          return Err(secondLayout.error);
        }
        r := PairLayout(firstLayout.value, secondLayout.value);
    }
  }

  /** A shader description with the given descriptor sets and nothing else. */
  function WithSets(sets: seq<seq<Binding>>, stage: StageFlags): Description {
    Description([], [], sets, stage, [], [])
  }

  /** The layout of a shader with one descriptor set. */
  lemma OneSetLayout(bs: seq<Binding>, stage: StageFlags)
    ensures SingleLayout(WithSets([bs], stage)) == Ok(Layout([SetLayout(bs)], []))
  {
    var l := SingleLayout(WithSets([bs], stage)).value;
    assert l.sets == [SetLayout(bs)];
  }

  /** One binding against a single set holding one binding. */
  lemma SingletonSetRow(d1: Binding, d2: Binding)
    ensures SetRow([d1], [SetLayout([d2])], 0)
            == if CompareBindings(d1, d2) == SameBindingNonEqual then Err(BindingConflict(d1.binding, 0)) else Ok([Marked(d1, d2)])
  {
    assert [d2][1..] == [] && [d1][1..] == [] && [SetLayout([d2])][1..] == [];
    assert Row(d1, [], 0) == Ok([]);
    assert [Marked(d1, d2)] + [] == [Marked(d1, d2)];
    assert Block([], [d2], 0) == Ok([]);
    assert SetRow([d1], [], 0) == Ok([]);
  }

  /** The trailing set of a second shader with one binding is that binding. */
  lemma SingletonTail(d2: Binding)
    ensures Dedup(Flatten([SetLayout([d2])])) == [d2]
  {
    assert [SetLayout([d2])][1..] == [];
    assert Flatten([SetLayout([d2])]) == [d2];
    assert !HasEqual([], d2);
    assert [d2][1..] == [] && [] + [d2] == [d2];
    assert DedupInto([d2], []) == [d2];
    assert DedupInto([], [d2]) == [d2];
  }

  /** Two shaders with one binding in one set each: the second shader's
      binding either clashes with the first's, or the merge is the first
      binding, marked by the comparison, then the second binding on its own. */
  lemma SingletonMerge(d1: Binding, d2: Binding)
    ensures Merge(Layout([SetLayout([d1])], []), Layout([SetLayout([d2])], []))
            == if CompareBindings(d1, d2) == SameBindingNonEqual then Err(BindingConflict(d1.binding, 0))
               else Ok(Layout([SetLayout([Marked(d1, d2)]), SetLayout([d2])], []))
  {
    var first := Layout([SetLayout([d1])], []);
    var second := Layout([SetLayout([d2])], []);
    SingletonSetRow(d1, d2);
    SingletonTail(d2);
    assert OutSet(first, second, 0) == SetRow([d1], [SetLayout([d2])], 0);
    assert FirstSets(first, second, 1) == Ok([]);
    if CompareBindings(d1, d2) == SameBindingNonEqual {
      assert FirstSets(first, second, 0) == Err(BindingConflict(d1.binding, 0));
    } else {
      var merged := SetLayout([Marked(d1, d2)]);
      assert [merged] + [] == [merged];
      assert FirstSets(first, second, 0) == Ok([merged]);
      assert [merged] + [SetLayout([d2])] == [merged, SetLayout([d2])];
    }
  }

  /** A first-shader binding is pushed once per `NotEqual` partner, unchanged:
      against a set with two bindings at other indices it appears twice. */
  lemma PushedPerPartner(x: Binding, y: Binding, z: Binding)
    requires x.binding != y.binding && x.binding != z.binding
    ensures var r := Merge(Layout([SetLayout([x])], []), Layout([SetLayout([y, z])], []));
            r.Ok? && r.value.sets[0].bindings == [x, x]
  {
    var first := Layout([SetLayout([x])], []);
    var second := Layout([SetLayout([y, z])], []);
    assert !MergeConflict(first, second) by {
      assert !Clash(x, [y, z]);
    }
    MergeSucceeds(first, second);
    MergedSet(first, second, 0);
    assert [x][1..] == [] && second.sets[1..] == [];
    assert Marked(x, y) == x && Marked(x, z) == x;
    assert MarkedBlock([x], [y, z]) == [x, x];
    assert MarkedRow([x], second.sets, 0) == [x, x] + [];
  }

  /** A uniform buffer that a vertex and a fragment shader both declare at set 0,
      binding 0: the merged set 0 holds it once with the GRAPHICS stages, and
      the fragment shader's copy follows as a set of its own. */
  lemma SharedUniformBuffer()
    ensures var ubVertex := DescriptorSetLayoutBinding(0, UniformBuffer, 1, {Vertex}, false);
            var ubFragment := ubVertex.(stageFlags := {Fragment});
            LayoutOf(Pair(Single(WithSets([[ubVertex]], {Vertex})), Single(WithSets([[ubFragment]], {Fragment}))))
            == Ok(Layout([SetLayout([ubVertex.(stageFlags := GRAPHICS)]), SetLayout([ubFragment])], []))
  {
    var ubVertex := DescriptorSetLayoutBinding(0, UniformBuffer, 1, {Vertex}, false);
    var ubFragment := ubVertex.(stageFlags := {Fragment});
    OneSetLayout([ubVertex], {Vertex});
    OneSetLayout([ubFragment], {Fragment});
    SingletonMerge(ubVertex, ubFragment);
  }

  /** A uniform buffer in the vertex shader and a storage buffer in the
      fragment shader at the same binding 2 of set 0 cannot be merged. */
  lemma ConflictingDescriptors()
    ensures var ub := DescriptorSetLayoutBinding(2, UniformBuffer, 1, {Vertex}, false);
            var sb := DescriptorSetLayoutBinding(2, StorageBuffer, 1, {Fragment}, false);
            LayoutOf(Pair(Single(WithSets([[ub]], {Vertex})), Single(WithSets([[sb]], {Fragment}))))
            == Err(BindingConflict(2, 0))
  {
    var ub := DescriptorSetLayoutBinding(2, UniformBuffer, 1, {Vertex}, false);
    var sb := DescriptorSetLayoutBinding(2, StorageBuffer, 1, {Fragment}, false);
    OneSetLayout([ub], {Vertex});
    OneSetLayout([sb], {Fragment});
    SingletonMerge(ub, sb);
  }
}
