# GraphSynap: the NBG/EBG compile, cache, load and run wrapper, in Dafny

This project models `GraphSynap`, the graph back end that hands a network to a closed
vendor accelerator toolchain. The class does four things:

- It compiles the graph to the vendor's NBG format and converts that to the packed EBG format.
- It keeps the EBG in an optional cache file named `<base>.ebg`, and can read it back instead of compiling.
- It loads the EBG into the vendor inference client. With the EBG it passes a JSON shape
  descriptor that gives the byte size of every input and output tensor.
- On each run it copies the input tensors into the client's input slots, predicts, and
  copies the output slots back into the output tensors.

Modules:

- `Decimal`: `std::to_string` of an unsigned size (`NatToString`), and a reader that
  inverts it.
- `Descriptor`: both `to_json` overloads. `Json` and `DescriptorJson` are the reference
  definitions. `ToJson` is the separator loop of graph_synap.cc:44-50 and `ToJsonPair` the
  concatenation of graph_synap.cc:56; both are proved equal to the reference definitions. `JsonIsEntryList` states the entry structure.
- `DescriptorExample`: the one-input/one-output descriptor, character for character.
- `DescriptorParse`: a reader for the descriptor. It is a left inverse of the writer: it
  recovers the sizes from any text the writer produced, so the round-trip and injectivity
  lemmas can be stated. It also accepts texts the writer never produces, such as numerals
  with leading zeros.
- `Runtime`: the inference client (`network_`) with its slot buffers and `load_model` /
  `predict`. The engine's verdicts are parameters.
- `GraphSynap`: the `tensor_sizes` function and its loop, and the vendor toolchain's answers
  as a `Vendor` value. The file system is a `Disk` object holding a path-to-bytes map. The
  pure specifications are `CompileToBinarySpec` and `PrepareSpec`. The class `GraphSynap`
  has the fields `cachePath`, `ebgBuffer`, `ebgSize`, the tensor lists and the client,
  plus a ghost log `vendorCalls` of the vendor calls made so far (`VendorCall`).
  Its methods `SetCachePath`, `CompileToBinary`, `Compile` and `Run` change them in place.

`CompileToBinary` has three modes, chosen by its two pointers:

- both null: read the cache;
- a size pointer only: query the NBG size;
- both: compile, convert and write the cache.

Its method contract ties the new fields and files to `CompileToBinarySpec`. That
function's contract states what each mode promises, including which vendor calls it makes
and in what order. `Compile` is tied to `PrepareSpec` in the same way, plus the load
request it makes.

A failed cache read does not release a held buffer. An unopenable file returns early
and changes nothing. An empty file only sets `ebg_size_` to 0. Only a failed allocation
nulls the buffer (graph_synap.cc:84-100). The contract of `CompileToBinarySpec` states
each of these three outcomes.

## Model

| member | source | states |
|---|---|---|
| `Decimal.NatToString` | src/tim/vx/synap/graph_synap.cc:47 | the numeral `to_string` prints for a size or index is non-empty and all digits, and starts with '0' exactly when the number is 0 |
| `Decimal.NatToStringValue` | src/tim/vx/synap/graph_synap.cc:47 | the numeral denotes the number it was printed from |
| `Decimal.ParseNatToString` | src/tim/vx/synap/graph_synap.cc:47 | reading the digits back from a numeral followed by a non-digit yields the number and leaves the rest |
| `Decimal.NatToStringInjective` | src/tim/vx/synap/graph_synap.cc:47 | different sizes print as different numerals |
| `Descriptor.Json` | src/tim/vx/synap/graph_synap.cc:42-51 | the object always opens with '{' and closes with '}', and it is exactly "{}" iff the size list is empty |
| `Descriptor.JsonIsEntryList` | src/tim/vx/synap/graph_synap.cc:42-51 | for N sizes the object is '{', then N entries joined by single commas with none leading or trailing, then '}'; entry i is `"i":{"dtype":"byte","shape":[sizes[i]]}` |
| `Descriptor.EntriesAreJoined` | src/tim/vx/synap/graph_synap.cc:46-49 | the entries keyed from any offset are the comma join of the per-position entry list |
| `Descriptor.EntriesSnoc` | src/tim/vx/synap/graph_synap.cc:46-49 | one more size appends its entry, keyed by its position, after a comma unless it is the first |
| `Descriptor.ToJson` | src/tim/vx/synap/graph_synap.cc:42-51 | the separator loop (empty separator before the first entry, a comma after it) builds exactly the object `Json` defines |
| `Descriptor.ToJsonPair` | src/tim/vx/synap/graph_synap.cc:54-57 | the two-list descriptor is `{"Inputs": ` + object of inputs + `,"Outputs": ` + object of outputs + `}` |
| `DescriptorExample.DescriptorExample` | src/tim/vx/synap/graph_synap.cc:54-57 | one input of 1024 bytes and one output of 256 bytes give exactly `{"Inputs": {"0":{"dtype":"byte","shape":[1024]}},"Outputs": {"0":{"dtype":"byte","shape":[256]}}}` |
| `DescriptorParse.ParseEntriesStep` | src/tim/vx/synap/graph_synap.cc:47 | one entry is read back as its size, and the following '}' or ',' ends or continues the object |
| `DescriptorParse.ParseEntriesOf` | src/tim/vx/synap/graph_synap.cc:46-50 | the entries of a non-empty list, keyed from i and closed by '}', read back as that list, in order |
| `DescriptorParse.ParseJsonOf` | src/tim/vx/synap/graph_synap.cc:42-51 | every object written for a size list reads back as exactly that list, the empty one included |
| `DescriptorParse.ParseDescriptorOf` | src/tim/vx/synap/graph_synap.cc:54-57 | every descriptor reads back as its input and output size lists |
| `DescriptorParse.DescriptorInjective` | src/tim/vx/synap/graph_synap.cc:54-57 | two descriptors are equal only when their input lists and their output lists are equal |
| `GraphSynap.ByteSizes` | src/tim/vx/synap/graph_synap.cc:60-67 | the size list has one entry per tensor and entry i is the byte size of tensor i |
| `GraphSynap.TensorSizes` | src/tim/vx/synap/graph_synap.cc:60-67 | pushing one byte size per tensor, in order, builds exactly that list |
| `GraphSynap.CompileToBinarySpec` | src/tim/vx/synap/graph_synap.cc:79-153 | cache read: fails iff the path is empty, the file is unreadable or empty, or the allocation fails; a missing path or file leaves the held artifact, an empty file only zeroes the size, a failed allocation nulls the buffer and keeps the file length; on success holds the file's bytes and length; touches no file. Size query: succeeds iff setup and the query succeed with a non-zero size, which it reports; leaves buffer and size alone. Compile: succeeds iff setup, the query, the fill and a non-empty conversion all succeed; then holds the EBG with its length, and writes it to the cache path when one is set; a failure writes nothing. Vendor calls: none for a cache read; otherwise a prefix of Setup, size query, fill, `nbg_to_ebg`; a size query makes only Setup and the query; a fill is attempted iff setup and the query gave a non-zero size; a success made all four |
| `GraphSynap.PrepareSpec` | src/tim/vx/synap/graph_synap.cc:155-168 | with a buffer held nothing is compiled and nothing is written; otherwise the size query and the compile decide; success always leaves a buffer to load. Vendor calls: none with a buffer held; otherwise a prefix of the query's calls followed by the compile's, all of them on success |
| `GraphSynap.CacheRoundTrip` | src/tim/vx/synap/graph_synap.cc:81-103 | after a compile that wrote the cache, a cache read succeeds with the same bytes and length |
| `GraphSynap.CompileThenReadCache` | src/tim/vx/synap/graph_synap.cc:155-168 | after a compile from any state without a buffer (size zero or, after a failed allocation, the file length) with a cache path, a cache read gives back the same artifact, whatever buffer was held meanwhile |
| `GraphSynap.GraphSynap.SetCachePath` | src/tim/vx/synap/graph_synap.cc:69-77 | an empty path returns false and leaves the cache path as it was; any other returns true and sets it to the path + ".ebg" |
| `GraphSynap.GraphSynap.CompileToBinary` | src/tim/vx/synap/graph_synap.cc:79-153 | the new buffer, size, files and reported NBG size are those `CompileToBinarySpec` gives for the old ones, and the call log gains exactly its vendor calls; a buffer without a size pointer is excluded |
| `GraphSynap.GraphSynap.Compile` | src/tim/vx/synap/graph_synap.cc:155-178 | buffer, size and files become `PrepareSpec`'s, and the call log gains exactly its vendor calls (none when a buffer was held); a load is requested only after a successful preparation, with the held buffer, its size and the descriptor of the current input and output byte sizes; success iff preparation and load succeed |
| `GraphSynap.GraphSynap.Run` | src/tim/vx/synap/graph_synap.cc:181-203 | input slot i receives input tensor i's bytes, and predict runs on exactly those copied slots (the client's log of predict calls gains the final input slots); the result is predict's; on failure no output tensor changes; on success output tensor i (for each slot) receives output slot i and the rest keep theirs |

## Left out

- Logging (`VSILOGD`, `VSILOGE`) has no effect on state and is not modelled.
- The destructor, `malloc`, `free` and `memcpy` are not modelled. The EBG buffer is an optional byte sequence. An allocation failure is the `allocOk` parameter. The leak when a cache read replaces a held buffer is not modelled.
- `Setup()`, `vsi_nn_GenerateNBG` and `nbg_to_ebg` are closed vendor code. Their answers are the fields of a `Vendor` value. Both `CompileToBinary` calls in one `Compile` get the same answers.
- `nbg_to_ebg` hands back a pointer and a length. The model has one optional sequence, whose length is the size, so it does not model a reported length that differs from the bytes behind it, whether the buffer is null or not: for a null buffer the model sets the size to 0, while the source keeps whatever count was reported (graph_synap.cc:138).
- The NBG that the fill writes into the caller's buffer goes straight to the transcoder. The model does not return the caller's buffer contents.
- File I/O is a path-to-bytes map. A file that exists but cannot be opened counts as missing. The source does not check the cache write, so in the model the write always succeeds.
- `load_model` and `predict` are the inference engine. Their verdicts and the contents `predict` leaves in the output slots are parameters. Loading a model does not change the slot lists.
- `Runtime.Network.Predict`: that a failed predict leaves the output slots unchanged is a modelling assumption; the engine promises nothing about the slots on failure (graph_synap.cc:190-193), and `Run` does not read them then.
- Tensors are values in a sequence, so two list positions sharing one tensor object (the same `shared_ptr` twice) is not modelled. The copies replace slot and tensor contents whole; a size mismatch between a tensor and its slot is not modelled.
- Integer widths are unbounded. The `int` entry counter in `to_json` and the `size_t` sizes do not wrap.
- `GraphSynap.GraphSynap.CompileToBinary` requires a size pointer whenever a destination buffer is passed: the source dereferences a null size pointer at graph_synap.cc:125. `GraphSynap.GraphSynap.Run` requires each tensor list to be at least as long as its slot list, because the source indexes the tensor lists by slot position without a bound check.
