/** The swizzle evaluator of the scanner pipeline: a stage that, for every
    output slot, picks one input slot and hands back fresh, byte-identical
    copies of that slot's buffers, one per item of the batch.  A factory
    reports the stage's capabilities and output names and builds evaluators. */
module Swizzle {

  /** The source's 32-bit signed integer `i32`. */
  newtype i32 = x: int | -0x8000_0000 <= x < 0x8000_0000

  /** Where an evaluator places its output buffers. */
  datatype DeviceType = CPU | GPU

  /** Collaborators of the pipeline that this stage stores but never inspects. */
  type EvaluatorConfig(==)
  type DatasetItemMetadata(==)

  datatype Option<T> = None | Some(value: T)

  /** What the factory tells the pipeline about the stage. */
  datatype EvaluatorCapabilities =
    EvaluatorCapabilities(deviceType: DeviceType, maxDevices: int, warmupSize: int)

  // ---------------------------------------------------------------------
  // Specification functions
  // ---------------------------------------------------------------------

  /** `static_cast<i32>` of a `size_t`: the value modulo 2^32, read as two's complement. */
  function ToI32(n: nat): (r: i32)
    ensures r as int % 0x1_0000_0000 == n % 0x1_0000_0000
    ensures n < 0x8000_0000 ==> r as int == n
  {
    var w := n % 0x1_0000_0000;
    if w < 0x8000_0000 then w as i32 else (w - 0x1_0000_0000) as i32
  }

  /** How many items the per-item loop `for (i32 b = 0; b < input_count; ++b)`
      visits, when `input_count` is the narrowed size of the first input slot:
      a negative count makes the loop run zero times. */
  function InputCount(n: nat): (c: nat)
    ensures c <= n && c < 0x8000_0000
    ensures n < 0x8000_0000 ==> c == n
    ensures n % 0x1_0000_0000 < 0x8000_0000 ==> c == n % 0x1_0000_0000
    ensures n % 0x1_0000_0000 >= 0x8000_0000 ==> c == 0
  {
    var w := ToI32(n);
    if w < 0 then 0 else w as nat
  }

  /** Every mapped input index names an input slot holding at least `count` items. */
  predicate Routable<T>(mapping: seq<i32>, inputs: seq<seq<T>>, count: nat)
  {
    forall i :: 0 <= i < |mapping| ==>
      0 <= mapping[i] as int < |inputs| && count <= |inputs[mapping[i]]|
  }

  /** What each output slot receives: the first `count` items of the input
      slot it is mapped to, slot by slot in declared order. */
  function Route<T>(mapping: seq<i32>, inputs: seq<seq<T>>, count: nat): (r: seq<seq<T>>)
    requires Routable(mapping, inputs, count)
    ensures |r| == |mapping|
    ensures forall i :: 0 <= i < |r| ==> |r[i]| == count
    ensures forall i, b :: 0 <= i < |r| && 0 <= b < count ==> r[i][b] == inputs[mapping[i]][b]
    decreases |mapping|
  {
    if mapping == [] then []
    else
      assert Routable(mapping[1..], inputs, count) by {
        forall i | 0 <= i < |mapping[1..]| ensures 0 <= mapping[1..][i] as int < |inputs| {
          assert mapping[1..][i] == mapping[i + 1];
        }
      }
      [inputs[mapping[0]][..count]] + Route(mapping[1..], inputs, count)
  }

  /** `push_back` of every item of `added[i]`, in order, onto `slots[i]`;
      slots from `|added|` on are not touched. */
  function AppendEach<T>(slots: seq<seq<T>>, added: seq<seq<T>>): (r: seq<seq<T>>)
    requires |added| <= |slots|
    ensures |r| == |slots|
    decreases |added|
  {
    if added == [] then slots
    else [slots[0] + added[0]] + AppendEach(slots[1..], added[1..])
  }

  /** The mapping that first routes by `inner`, then routes that result by `outer`. */
  function Compose(inner: seq<i32>, outer: seq<i32>): (m: seq<i32>)
    requires forall k :: 0 <= k < |outer| ==> 0 <= outer[k] as int < |inner|
    ensures |m| == |outer|
    ensures forall k :: 0 <= k < |m| ==> m[k] == inner[outer[k]]
    decreases |outer|
  {
    if outer == [] then [] else [inner[outer[0]]] + Compose(inner, outer[1..])
  }

  /** Every buffer in `copies` holds exactly the first `sizes[i][b]` bytes of
      the matching buffer in `sources`, and has that many bytes. */
  ghost predicate Copied(copies: seq<seq<array<bv8>>>, sources: seq<seq<array<bv8>>>, sizes: seq<seq<nat>>)
    reads set i, b | 0 <= i < |copies| && 0 <= b < |copies[i]| :: copies[i][b]
    reads set i, b | 0 <= i < |sources| && 0 <= b < |sources[i]| :: sources[i][b]
  {
    |copies| == |sources| == |sizes| &&
    forall i :: 0 <= i < |copies| ==>
      |copies[i]| == |sources[i]| == |sizes[i]| &&
      forall b :: 0 <= b < |copies[i]| ==>
        sizes[i][b] <= sources[i][b].Length &&
        copies[i][b].Length == sizes[i][b] &&
        copies[i][b][..] == sources[i][b][..sizes[i][b]]
  }

  /** No buffer occurs twice in `bufs`. */
  predicate Distinct(bufs: seq<seq<array<bv8>>>)
  {
    forall i, b, j, c ::
      0 <= i < |bufs| && 0 <= b < |bufs[i]| && 0 <= j < |bufs| && 0 <= c < |bufs[j]| && (i != j || b != c)
      ==> bufs[i][b] != bufs[j][c]
  }

  /** Each input buffer an evaluation reads holds at least as many bytes as its recorded size. */
  predicate SizesFit(mapping: seq<i32>, inputBuffers: seq<seq<array<bv8>>>, inputSizes: seq<seq<nat>>, count: nat)
    requires Routable(mapping, inputBuffers, count) && Routable(mapping, inputSizes, count)
  {
    forall i, b :: 0 <= i < |mapping| && 0 <= b < count ==>
      inputSizes[mapping[i]][b] <= inputBuffers[mapping[i]][b].Length
  }

  // ---------------------------------------------------------------------
  // Lemmas about the specification
  // ---------------------------------------------------------------------

  /** Appending keeps each slot's earlier items as a prefix and adds `added[i]`
      after them; slots past `|added|` are unchanged. */
  lemma {:induction false} AppendEachAt<T>(slots: seq<seq<T>>, added: seq<seq<T>>)
    requires |added| <= |slots|
    ensures forall i :: 0 <= i < |added| ==> AppendEach(slots, added)[i] == slots[i] + added[i]
    ensures forall i :: |added| <= i < |slots| ==> AppendEach(slots, added)[i] == slots[i]
    decreases |added|
  {
    if added != [] {
      AppendEachAt(slots[1..], added[1..]);
      var r := AppendEach(slots, added);
      assert r == [slots[0] + added[0]] + AppendEach(slots[1..], added[1..]);
      forall i | 1 <= i < |slots| ensures r[i] == AppendEach(slots[1..], added[1..])[i - 1] { }
    }
  }

  /** Extending a prefix by the next element gives the next prefix. */
  lemma PrefixStep<T>(s: seq<T>, i: nat)
    requires i < |s|
    ensures s[..i] + [s[i]] == s[..i + 1]
  {
  }

  /** Appending one more slot's items updates just that slot. */
  lemma AppendEachStep<T>(slots: seq<seq<T>>, added: seq<seq<T>>, extra: seq<T>)
    requires |added| < |slots|
    ensures AppendEach(slots, added)[|added|] == slots[|added|]
    ensures AppendEach(slots, added + [extra]) == AppendEach(slots, added)[|added| := slots[|added|] + extra]
  {
    var next := added + [extra];
    AppendEachAt(slots, added);
    AppendEachAt(slots, next);
    var lhs := AppendEach(slots, next);
    var rhs := AppendEach(slots, added)[|added| := slots[|added|] + extra];
    forall k | 0 <= k < |slots| ensures lhs[k] == rhs[k] {
      if k < |added| {
        assert next[k] == added[k];
      }
    }
  }

  /** One evaluation's effect on a caller's slot list: every mapped slot grows
      by exactly `count` items, keeps what it held as a prefix, and gets the
      mapped input's items in increasing item order; the other slots, and with
      an empty mapping all slots, are unchanged. */
  lemma {:induction false} SwizzleAppends<T>(slots: seq<seq<T>>, mapping: seq<i32>, inputs: seq<seq<T>>, count: nat)
    requires Routable(mapping, inputs, count) && |mapping| <= |slots|
    ensures var r := AppendEach(slots, Route(mapping, inputs, count));
      |r| == |slots| &&
      (forall i :: 0 <= i < |mapping| ==>
         |r[i]| == |slots[i]| + count && r[i][..|slots[i]|] == slots[i] &&
         forall b :: 0 <= b < count ==> r[i][|slots[i]| + b] == inputs[mapping[i]][b]) &&
      (forall i :: |mapping| <= i < |slots| ==> r[i] == slots[i])
    ensures mapping == [] ==> AppendEach(slots, Route(mapping, inputs, count)) == slots
  {
    var added := Route(mapping, inputs, count);
    AppendEachAt(slots, added);
    var r := AppendEach(slots, added);
    forall i, b | 0 <= i < |mapping| && 0 <= b < count
      ensures r[i][|slots[i]| + b] == inputs[mapping[i]][b]
    {
      assert r[i] == slots[i] + added[i];
    }
  }

  /** Two output slots mapped to the same input receive the same items (fan-out). */
  lemma RouteFanOut<T>(mapping: seq<i32>, inputs: seq<seq<T>>, count: nat, i: nat, j: nat)
    requires Routable(mapping, inputs, count)
    requires i < |mapping| && j < |mapping| && mapping[i] == mapping[j]
    ensures Route(mapping, inputs, count)[i] == Route(mapping, inputs, count)[j]
  {
  }

  /** Two swizzle stages in a row route like one stage whose mapping is their composition. */
  lemma {:induction false} RouteCompose<T>(inner: seq<i32>, outer: seq<i32>, inputs: seq<seq<T>>, count: nat)
    requires Routable(inner, inputs, count)
    requires forall k :: 0 <= k < |outer| ==> 0 <= outer[k] as int < |inner|
    ensures Routable(outer, Route(inner, inputs, count), count)
    ensures Routable(Compose(inner, outer), inputs, count)
    ensures Route(outer, Route(inner, inputs, count), count) == Route(Compose(inner, outer), inputs, count)
  {
    var mid := Route(inner, inputs, count);
    var m := Compose(inner, outer);
    assert Routable(outer, mid, count);
    assert Routable(m, inputs, count) by {
      forall k | 0 <= k < |m| ensures 0 <= m[k] as int < |inputs| && count <= |inputs[m[k]]| {
        assert m[k] == inner[outer[k]];
      }
    }
    var lhs := Route(outer, mid, count);
    var rhs := Route(m, inputs, count);
    forall k | 0 <= k < |outer| ensures lhs[k] == rhs[k] {
      forall b | 0 <= b < count ensures lhs[k][b] == rhs[k][b] {
        calc {
          lhs[k][b];
          mid[outer[k]][b];
          inputs[inner[outer[k]]][b];
          inputs[m[k]][b];
          rhs[k][b];
        }
      }
    }
  }

  /** The example of a `[1, 0, 1]` mapping over two one-item inputs of sizes
      10 and 20: the recorded sizes are 20, 10 and 20. */
  lemma ExampleSizes()
    ensures Route([1, 0, 1], [[10], [20]], 1) == [[20], [10], [20]]
  {
    var r := Route([1, 0, 1], [[10], [20]], 1);
    assert r[0] == [20] && r[1] == [10] && r[2] == [20];
  }

  /** The first `count` buffers of `slot` are pairwise distinct copies of the
      first `count` buffers of `sources`, each cut to its recorded size. */
  ghost predicate SlotCopied(slot: seq<array<bv8>>, sources: seq<array<bv8>>, sizes: seq<nat>, count: nat)
    reads set b | 0 <= b < |slot| :: slot[b]
    reads set b | 0 <= b < |sources| :: sources[b]
  {
    |slot| == count && count <= |sources| && count <= |sizes| &&
    (forall b :: 0 <= b < count ==>
       sizes[b] <= sources[b].Length && slot[b].Length == sizes[b] && slot[b][..] == sources[b][..sizes[b]]) &&
    (forall b, c :: 0 <= b < c < count ==> slot[b] != slot[c])
  }

  /** Adding a slot of distinct buffers, none of which occurs earlier, keeps all buffers distinct. */
  lemma DistinctExtend(bufs: seq<seq<array<bv8>>>, slot: seq<array<bv8>>)
    requires Distinct(bufs)
    requires forall b, c :: 0 <= b < c < |slot| ==> slot[b] != slot[c]
    requires forall k, b, c :: 0 <= k < |bufs| && 0 <= b < |bufs[k]| && 0 <= c < |slot| ==> bufs[k][b] != slot[c]
    ensures Distinct(bufs + [slot])
  {
  }

  /** Adding the copies of one more slot to copies of earlier slots. */
  lemma CopiedExtend(copies: seq<seq<array<bv8>>>, sources: seq<seq<array<bv8>>>, sizes: seq<seq<nat>>,
                     slot: seq<array<bv8>>, slotSources: seq<array<bv8>>, slotSizes: seq<nat>, count: nat)
    requires Copied(copies, sources, sizes)
    requires SlotCopied(slot, slotSources, slotSizes, count)
    ensures Copied(copies + [slot], sources + [slotSources[..count]], sizes + [slotSizes[..count]])
  {
  }

  // ---------------------------------------------------------------------
  // The caller's output vectors
  // ---------------------------------------------------------------------

  /** The caller's `std::vector<std::vector<u8*>>` of output buffers. */
  class BufferSlots {
    var items: seq<seq<array<bv8>>>

    constructor (items: seq<seq<array<bv8>>>)
      ensures this.items == items
    {
      this.items := items;
    }
  }

  /** The caller's `std::vector<std::vector<size_t>>` of output sizes. */
  class SizeSlots {
    var items: seq<seq<nat>>

    constructor (items: seq<seq<nat>>)
      ensures this.items == items
    {
      this.items := items;
    }
  }

  /** `new u8[size]` followed by `memcpy` of `size` bytes; the CUDA path
      (`cudaMalloc` then `cudaMemcpy`) has the same effect on the bytes. */
  method AllocateCopy(src: array<bv8>, size: nat) returns (dst: array<bv8>)
    requires size <= src.Length
    ensures fresh(dst) && dst.Length == size && dst[..] == src[..size]
  {
    dst := new bv8[size];
    var k := 0;
    while k < size
      invariant 0 <= k <= size
      invariant dst[..k] == src[..k]
    {
      dst[k] := src[k];
      k := k + 1;
    }
  }

  // ---------------------------------------------------------------------
  // The evaluator
  // ---------------------------------------------------------------------

  class SwizzleEvaluator {
    const config: EvaluatorConfig
    const deviceType: DeviceType
    const deviceId: i32
    /** Output slot `i` copies input slot `outputToInputIdx[i]`. */
    const outputToInputIdx: seq<i32>
    /** `None` until `Configure` is first called. */
    var metadata: Option<DatasetItemMetadata>

    constructor (config: EvaluatorConfig, deviceType: DeviceType, deviceId: i32, outputToInputIdx: seq<i32>)
      ensures this.config == config && this.deviceType == deviceType
      ensures this.deviceId == deviceId && this.outputToInputIdx == outputToInputIdx
      ensures metadata == None
    {
      this.config := config;
      this.deviceType := deviceType;
      this.deviceId := deviceId;
      this.outputToInputIdx := outputToInputIdx;
      metadata := None;
    }

    /** Stores the metadata; a later call overwrites an earlier one. */
    method Configure(metadata: DatasetItemMetadata)
      modifies this
      ensures this.metadata == Some(metadata)
    {
      this.metadata := Some(metadata);
    }

    /** Appends to output slot `i`, for every item of the batch in order, a
        fresh copy of the item of input slot `outputToInputIdx[i]` and its size.
        The fresh buffers are returned in `copies`, slot by slot.  An empty
        batch only checks the mapped indices: sizes and output slots are never
        read, so nothing is demanded of them and nothing changes. */
    method Evaluate(inputBuffers: seq<seq<array<bv8>>>, inputSizes: seq<seq<nat>>,
                    outputBuffers: BufferSlots, outputSizes: SizeSlots)
      returns (ghost copies: seq<seq<array<bv8>>>)
      requires |inputBuffers| > 0
      requires Routable(outputToInputIdx, inputBuffers, InputCount(|inputBuffers[0]|))
      requires InputCount(|inputBuffers[0]|) > 0 ==>
        Routable(outputToInputIdx, inputSizes, InputCount(|inputBuffers[0]|)) &&
        SizesFit(outputToInputIdx, inputBuffers, inputSizes, InputCount(|inputBuffers[0]|))
      requires InputCount(|inputBuffers[0]|) > 0 ==>
        |outputToInputIdx| <= |outputBuffers.items| && |outputToInputIdx| <= |outputSizes.items|
      modifies outputBuffers, outputSizes
      ensures InputCount(|inputBuffers[0]|) == 0 ==>
        outputSizes.items == old(outputSizes.items) && outputBuffers.items == old(outputBuffers.items) && copies == []
      ensures var count := InputCount(|inputBuffers[0]|);
        count > 0 ==>
        outputSizes.items == AppendEach(old(outputSizes.items), Route(outputToInputIdx, inputSizes, count)) &&
        |copies| == |outputToInputIdx| &&
        outputBuffers.items == AppendEach(old(outputBuffers.items), copies) &&
        Copied(copies, Route(outputToInputIdx, inputBuffers, count), Route(outputToInputIdx, inputSizes, count))
      ensures Distinct(copies)
      ensures forall i, b :: 0 <= i < |copies| && 0 <= b < |copies[i]| ==> fresh(copies[i][b])
      ensures forall i, b :: 0 <= i < |inputBuffers| && 0 <= b < |inputBuffers[i]| ==> unchanged(inputBuffers[i][b])
    {
      var count := InputCount(|inputBuffers[0]|);
      if count == 0 {
        // The per-item loop runs zero times for every output slot; the index
        // check is the precondition on `inputBuffers`.
        copies := [];
        return;
      }
      var numOutputs := |outputToInputIdx|;
      ghost var buffers0 := outputBuffers.items;
      ghost var sizes0 := outputSizes.items;
      ghost var routedBuffers := Route(outputToInputIdx, inputBuffers, count);
      ghost var routedSizes := Route(outputToInputIdx, inputSizes, count);
      copies := [];
      var i := 0;
      while i < numOutputs
        invariant 0 <= i <= numOutputs && |copies| == i
        invariant outputSizes.items == AppendEach(sizes0, routedSizes[..i])
        invariant outputBuffers.items == AppendEach(buffers0, copies)
        invariant Copied(copies, routedBuffers[..i], routedSizes[..i])
        invariant forall k, b :: 0 <= k < i && 0 <= b < |copies[k]| ==> fresh(copies[k][b])
        invariant Distinct(copies)
      {
        ghost var slot := RouteSlot(i, inputBuffers, inputSizes, count, outputBuffers, outputSizes,
                                    buffers0, sizes0, routedBuffers, routedSizes, copies);
        copies := copies + [slot];
        i := i + 1;
      }
      assert routedSizes[..i] == routedSizes && routedBuffers[..i] == routedBuffers;
    }

    /** One pass of the outer loop: output slot `i` receives copies of its
        mapped input slot, and everything the earlier passes did is kept. */
    method RouteSlot(i: nat, inputBuffers: seq<seq<array<bv8>>>, inputSizes: seq<seq<nat>>, count: nat,
                     outputBuffers: BufferSlots, outputSizes: SizeSlots,
                     ghost buffers0: seq<seq<array<bv8>>>, ghost sizes0: seq<seq<nat>>,
                     ghost routedBuffers: seq<seq<array<bv8>>>, ghost routedSizes: seq<seq<nat>>,
                     ghost copies: seq<seq<array<bv8>>>)
      returns (ghost slot: seq<array<bv8>>)
      requires i < |outputToInputIdx| && |copies| == i
      requires Routable(outputToInputIdx, inputBuffers, count) && Routable(outputToInputIdx, inputSizes, count)
      requires SizesFit(outputToInputIdx, inputBuffers, inputSizes, count)
      requires routedBuffers == Route(outputToInputIdx, inputBuffers, count)
      requires routedSizes == Route(outputToInputIdx, inputSizes, count)
      requires |outputToInputIdx| <= |buffers0| && |outputToInputIdx| <= |sizes0|
      requires outputSizes.items == AppendEach(sizes0, routedSizes[..i])
      requires outputBuffers.items == AppendEach(buffers0, copies)
      requires Copied(copies, routedBuffers[..i], routedSizes[..i])
      requires Distinct(copies)
      modifies outputBuffers, outputSizes
      ensures outputSizes.items == AppendEach(sizes0, routedSizes[..i + 1])
      ensures outputBuffers.items == AppendEach(buffers0, copies + [slot])
      ensures Copied(copies + [slot], routedBuffers[..i + 1], routedSizes[..i + 1])
      ensures Distinct(copies + [slot])
      ensures forall b :: 0 <= b < |slot| ==> fresh(slot[b])
    {
      var inputIdx := outputToInputIdx[i];
      assert inputSizes[inputIdx][..count] == routedSizes[i];
      assert inputBuffers[inputIdx][..count] == routedBuffers[i];
      PrefixStep(routedSizes, i);
      PrefixStep(routedBuffers, i);
      assert |AppendEach(buffers0, copies)| == |buffers0|;
      slot := AppendCopies(i, inputBuffers[inputIdx], inputSizes[inputIdx], count, outputBuffers, outputSizes);
      assert outputSizes.items == AppendEach(sizes0, routedSizes[..i + 1]) by {
        AppendEachStep(sizes0, routedSizes[..i], routedSizes[i]);
      }
      assert outputBuffers.items == AppendEach(buffers0, copies + [slot]) by {
        AppendEachStep(buffers0, copies, slot);
      }
      assert Copied(copies + [slot], routedBuffers[..i + 1], routedSizes[..i + 1]) by {
        CopiedExtend(copies, routedBuffers[..i], routedSizes[..i], slot, inputBuffers[inputIdx], inputSizes[inputIdx], count);
      }
      assert Distinct(copies + [slot]) by {
        DistinctExtend(copies, slot);
      }
    }

    /** The inner loop for output slot `i`: pushes, item by item, a fresh copy
        of each of the first `count` source buffers and its size. */
    method AppendCopies(i: nat, sources: seq<array<bv8>>, sizes: seq<nat>, count: nat,
                        outputBuffers: BufferSlots, outputSizes: SizeSlots)
      returns (ghost slot: seq<array<bv8>>)
      requires count <= |sources| && count <= |sizes|
      requires forall b :: 0 <= b < count ==> sizes[b] <= sources[b].Length
      requires i < |outputBuffers.items| && i < |outputSizes.items|
      modifies outputBuffers, outputSizes
      ensures outputSizes.items == old(outputSizes.items)[i := old(outputSizes.items)[i] + sizes[..count]]
      ensures outputBuffers.items == old(outputBuffers.items)[i := old(outputBuffers.items)[i] + slot]
      ensures SlotCopied(slot, sources, sizes, count)
      ensures forall b :: 0 <= b < |slot| ==> fresh(slot[b])
    {
      ghost var buffersBefore := outputBuffers.items;
      ghost var sizesBefore := outputSizes.items;
      slot := [];
      assert sizes[..0] == [] && sizesBefore[i] + [] == sizesBefore[i] && buffersBefore[i] + slot == buffersBefore[i];
      var b := 0;
      while b < count
        invariant 0 <= b <= count && |slot| == b
        invariant outputSizes.items == sizesBefore[i := sizesBefore[i] + sizes[..b]]
        invariant outputBuffers.items == buffersBefore[i := buffersBefore[i] + slot]
        invariant SlotCopied(slot, sources, sizes, b)
        invariant forall c :: 0 <= c < b ==> fresh(slot[c])
      {
        var size := sizes[b];
        var inputBuffer := sources[b];
        // Host and accelerator alike: allocate `size` bytes and copy them.
        var outputBuffer := AllocateCopy(inputBuffer, size);
        outputBuffers.items := outputBuffers.items[i := outputBuffers.items[i] + [outputBuffer]];
        outputSizes.items := outputSizes.items[i := outputSizes.items[i] + [size]];
        assert sizes[..b + 1] == sizes[..b] + [size];
        assert sizesBefore[i] + sizes[..b + 1] == sizesBefore[i] + sizes[..b] + [size];
        assert buffersBefore[i] + (slot + [outputBuffer]) == buffersBefore[i] + slot + [outputBuffer];
        slot := slot + [outputBuffer];
        b := b + 1;
      }
    }
  }

  // ---------------------------------------------------------------------
  // The factory
  // ---------------------------------------------------------------------

  class SwizzleEvaluatorFactory {
    const deviceType: DeviceType
    const outputToInputIdx: seq<i32>
    const outputNames: seq<string>

    /** One output name per output slot. */
    ghost predicate Valid()
    {
      |outputNames| == |outputToInputIdx|
    }

    constructor (deviceType: DeviceType, outputToInputIdx: seq<i32>, outputNames: seq<string>)
      requires |outputNames| == |outputToInputIdx|
      ensures Valid()
      ensures this.deviceType == deviceType && this.outputToInputIdx == outputToInputIdx
      ensures this.outputNames == outputNames
    {
      this.deviceType := deviceType;
      this.outputToInputIdx := outputToInputIdx;
      this.outputNames := outputNames;
    }

    /** The stage runs on the factory's device, on one device at most, with no warm-up batches. */
    function GetCapabilities(): (caps: EvaluatorCapabilities)
      ensures caps.deviceType == deviceType && caps.maxDevices == 1 && caps.warmupSize == 0
    {
      EvaluatorCapabilities(deviceType, 1, 0)
    }

    /** The stored output names, one per output slot. */
    function GetOutputNames(): (names: seq<string>)
      ensures names == outputNames
      ensures Valid() ==> |names| == |outputToInputIdx|
    {
      outputNames
    }

    /** A new, unconfigured evaluator on device 0 of the factory's device type with the factory's mapping. */
    method NewEvaluator(config: EvaluatorConfig) returns (e: SwizzleEvaluator)
      ensures fresh(e) && e.metadata == None
      ensures e.config == config && e.deviceType == deviceType && e.deviceId == 0
      ensures e.outputToInputIdx == outputToInputIdx
      ensures Valid() ==> |e.outputToInputIdx| == |GetOutputNames()|
    {
      e := new SwizzleEvaluator(config, deviceType, 0, outputToInputIdx);
    }
  }
}
