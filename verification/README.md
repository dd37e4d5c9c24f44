# Swizzle evaluator (buffer routing stage) in Dafny

This project models the swizzle evaluator of the scanner video pipeline
(`scanner/evaluators/util/swizzle_evaluator.cpp`) and its factory. The
evaluator is a pipeline stage configured with a mapping `output_to_input_idx`.
Output slot `i` is fed by input slot `output_to_input_idx[i]`. For each batch,
`evaluate` walks the output slots in order. For each item `b` of the batch it
allocates a new buffer of the item's size, copies the bytes, and pushes the new
buffer and its size onto the caller's `output_buffers[i]` and `output_sizes[i]`.
One input may feed several outputs, and every output gets its own copy. The
factory checks that there is one output name per mapped slot. It reports fixed
capabilities and builds evaluators bound to device 0.

Everything is in one module, `Swizzle` (`swizzle_evaluator.dfy`):

- Byte buffers (`u8*`) are `array<bv8>`, so allocation, identity and
  freshness are explicit. The caller's `std::vector<std::vector<u8*>>` and
  `std::vector<std::vector<size_t>>` are the classes `BufferSlots` and
  `SizeSlots`. Each has one `seq` field that `Evaluate` reassigns, as
  `push_back` does.
- `Route` is the specification of where every appended item comes from.
  `AppendEach` specifies what appending does to the caller's slot lists.
  `Copied` states the byte-level relation between copies and sources, and
  `Distinct` states that no buffer occurs twice.
- `Evaluate` is a nested loop. The outer pass is `RouteSlot`, the inner loop
  is `AppendCopies`, and `new u8[size]` + `memcpy` is `AllocateCopy`. Its
  postcondition ties the new state to `AppendEach` and `Route` of the old
  state, and the lemmas prove the properties the source promises about them.
- Integer widths are explicit where they matter. Mapped indices and the device
  id are `i32`. The batch size is `static_cast<i32>` of
  `input_buffers[0].size()` (`ToI32`, `InputCount`).

Two consequences of the code shape the preconditions and postconditions:

- `evaluate` appends to caller-supplied vectors. For a non-empty batch these
  need at least `|output_to_input_idx|` slots, and their earlier contents stay
  as a prefix. For an empty batch (the first input slot is empty, or its size
  narrows to a negative `i32`) only the mapped indices are checked; the sizes
  and the output vectors are never read, so nothing is required of them and
  nothing changes.
- Only the mapped input slots are read, up to the count taken from
  `input_buffers[0]`. The model requires nothing more of the other slots.

## Model

| member | source | states |
|---|---|---|
| `Swizzle.ToI32` | scanner/evaluators/util/swizzle_evaluator.cpp:43 | the narrowing cast agrees with its argument modulo 2^32 and is the identity below 2^31 |
| `Swizzle.InputCount` | scanner/evaluators/util/swizzle_evaluator.cpp:43-49 | the item loop runs at most the size of the first input slot and fewer than 2^31 times: exactly that size modulo 2^32 when the residue is below 2^31, and zero times when the narrowed count is negative (residue at least 2^31) |
| `Swizzle.Route` | scanner/evaluators/util/swizzle_evaluator.cpp:45-51 | one routed slot per mapping entry, each with exactly `count` items, item `b` of slot `i` being item `b` of input slot `mapping[i]` |
| `Swizzle.AppendEach` | scanner/evaluators/util/swizzle_evaluator.cpp:66-67 | `push_back` of each slot's new items onto the matching caller slot; its own contract gives only that the number of slots is kept, and the contents are stated by `AppendEachAt` |
| `Swizzle.AppendEachAt` | scanner/evaluators/util/swizzle_evaluator.cpp:66-67 | appending keeps every earlier item of a slot as a prefix and adds the new items after it; slots past the appended ones are unchanged |
| `Swizzle.AppendEachStep` | scanner/evaluators/util/swizzle_evaluator.cpp:46-68 | finishing one more output slot changes only that slot, by appending its items |
| `Swizzle.SwizzleAppends` | scanner/evaluators/util/swizzle_evaluator.cpp:43-67 | after an evaluation every mapped output slot has grown by exactly the batch count, keeps its old items as a prefix and holds the mapped input's items in increasing item order; slots at or past the mapping length are unchanged, and an empty mapping changes nothing |
| `Swizzle.RouteFanOut` | scanner/evaluators/util/swizzle_evaluator.cpp:46-51 | two output slots mapped to the same input receive the same items |
| `Swizzle.RouteCompose` | scanner/evaluators/util/swizzle_evaluator.cpp:45-51 | routing the result of one swizzle by a second mapping equals one swizzle by the composed mapping (`Compose`); the source never chains two stages, so this law about the routing goes beyond what the code itself does |
| `Swizzle.ExampleSizes` | scanner/evaluators/util/swizzle_evaluator.cpp:45-50 | mapping `[1, 0, 1]` over one-item inputs of sizes 10 and 20 records sizes 20, 10, 20 |
| `Swizzle.DistinctExtend` | scanner/evaluators/util/swizzle_evaluator.cpp:53-66 | adding a slot of pairwise distinct buffers that are new to the earlier slots keeps every buffer distinct |
| `Swizzle.CopiedExtend` | scanner/evaluators/util/swizzle_evaluator.cpp:49-66 | copies of the earlier slots plus copies of one more slot are copies of the extended routing |
| `Swizzle.AllocateCopy` | scanner/evaluators/util/swizzle_evaluator.cpp:53-64 | the new buffer is freshly allocated, exactly `size` bytes long, and equal to the first `size` bytes of the source |
| `Swizzle.BufferSlots.constructor` | scanner/evaluators/util/swizzle_evaluator.cpp:41-42 | a caller's output buffer vector holding exactly the given slots |
| `Swizzle.SizeSlots.constructor` | scanner/evaluators/util/swizzle_evaluator.cpp:41-42 | a caller's output size vector holding exactly the given slots |
| `Swizzle.SwizzleEvaluator.constructor` | scanner/evaluators/util/swizzle_evaluator.cpp:26-32 | stores config, device type, device id and mapping unchanged; metadata not yet set |
| `Swizzle.SwizzleEvaluator.Configure` | scanner/evaluators/util/swizzle_evaluator.cpp:34-36 | the stored metadata is the one passed, whatever was stored before (last write wins) |
| `Swizzle.SwizzleEvaluator.Evaluate` | scanner/evaluators/util/swizzle_evaluator.cpp:38-70 | requires a non-empty input list and every mapped index to be a valid non-negative input index; for an empty batch both output lists are unchanged and no copies are made; for a non-empty batch it also requires enough items, sizes, bytes and output slots, and then output sizes become `AppendEach(old sizes, Route(mapping, input sizes))`; output buffers become the old ones with the fresh copies appended; each copy has its recorded size and the source's first `size` bytes; all copies are pairwise distinct and fresh; input buffers are unchanged |
| `Swizzle.SwizzleEvaluator.RouteSlot` | scanner/evaluators/util/swizzle_evaluator.cpp:46-68 | one outer pass extends the sizes, buffers, copy relation and distinctness established so far by output slot `i` |
| `Swizzle.SwizzleEvaluator.AppendCopies` | scanner/evaluators/util/swizzle_evaluator.cpp:49-68 | slot `i` gets its first `count` source sizes and fresh, pairwise distinct copies of the sources pushed in item order; no other slot changes |
| `Swizzle.SwizzleEvaluatorFactory.constructor` | scanner/evaluators/util/swizzle_evaluator.cpp:72-79 | requires as many output names as mapping entries and stores device type, mapping and names |
| `Swizzle.SwizzleEvaluatorFactory.GetCapabilities` | scanner/evaluators/util/swizzle_evaluator.cpp:81-87 | the factory's device type, at most one device, no warm-up |
| `Swizzle.SwizzleEvaluatorFactory.GetOutputNames` | scanner/evaluators/util/swizzle_evaluator.cpp:89-91 | exactly the stored names, one per mapped output slot |
| `Swizzle.SwizzleEvaluatorFactory.NewEvaluator` | scanner/evaluators/util/swizzle_evaluator.cpp:93-96 | a fresh, unconfigured evaluator with the given config, the factory's device type, device id 0 and the factory's mapping, with one output slot per output name |

## Left out

- The accelerator branch (`cudaMalloc` + `cudaMemcpy`) is modelled as the same allocate-and-copy as the host branch. Buffers carry no memory location, so the model does not say whether a buffer is in host or device memory.
- The fatal abort when the build has no CUDA support (`LOG(FATAL)`) is not modelled. The model is of a build with CUDA support, in which the accelerator branch copies.
- `assert(output_buffer != nullptr)`: allocation in Dafny never fails and arrays are never null, so running out of memory is not modelled.
- The `assert` on the input index is modelled as a precondition of `Evaluate`. With assertions compiled out, an out-of-range index is undefined behaviour, and that is not modelled.
- Sizes are unbounded naturals, not 64-bit `size_t`. No size arithmetic happens in the code.
- Inputs are arrays holding at least the recorded number of bytes; raw-pointer arithmetic and aliasing between inputs are not modelled.
- Aliasing between input and output vectors is not modelled: the inputs are values, so passing the same vector as `input_sizes` and `output_sizes` (or as `input_buffers` and `output_buffers`), where `push_back` would also grow the input being read, is outside the model.
- Freeing the returned buffers is the caller's job and is not modelled. Ownership transfer shows only as the freshness of every returned buffer.
- `EvaluatorConfig` and `DatasetItemMetadata` are opaque types: they are stored and compared, never inspected. A default-constructed metadata is modelled as `None`.
- Running several evaluator instances concurrently is the scheduler's concern and is not modelled.
- The header `scanner/evaluators/util/swizzle_evaluator.h` is not part of this model; the field and type names come from the `.cpp` file.
