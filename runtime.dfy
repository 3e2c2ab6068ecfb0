/** The vendor inference client (network_) as far as the graph wrapper uses it: its input
    and output slot buffers, and the models it was asked to load. Whether load_model and
    predict succeed, and what predict leaves in the output slots, are decided by the
    inference engine, so they come in as parameters. */
module Runtime {

  import opened Wrappers

  /** The arguments of one load_model call: the EBG buffer (None for a null pointer),
      its length and the shape descriptor. */
  datatype LoadRequest = LoadRequest(model: Option<seq<byte>>, size: nat, descriptor: string)

  class Network {
    var inputs: seq<seq<byte>>
    var outputs: seq<seq<byte>>
    /** Every load_model call so far, oldest first. */
    var loads: seq<LoadRequest>
    /** The input slots as each predict call found them, oldest first. */
    var predictedOn: seq<seq<seq<byte>>>

    constructor (inputSlots: seq<seq<byte>>, outputSlots: seq<seq<byte>>)
      ensures inputs == inputSlots && outputs == outputSlots && loads == [] && predictedOn == []
    {
      inputs, outputs, loads, predictedOn := inputSlots, outputSlots, [], [];
    }

    /** load_model: records the request; the engine's verdict is accept. */
    method LoadModel(model: Option<seq<byte>>, size: nat, descriptor: string, accept: bool)
      returns (ok: bool)
      modifies this`loads
      ensures ok == accept
      ensures loads == old(loads) + [LoadRequest(model, size, descriptor)]
    {
      loads := loads + [LoadRequest(model, size, descriptor)];
      ok := accept;
    }

    /** predict: runs on the current input slots; on success the output slots hold results,
        on failure they are left alone. */
    method Predict(succeed: bool, results: seq<seq<byte>>) returns (ok: bool)
      requires |results| == |outputs|
      modifies this`outputs, this`predictedOn
      ensures predictedOn == old(predictedOn) + [inputs]
      ensures ok == succeed
      ensures outputs == if ok then results else old(outputs)
    {
      predictedOn := predictedOn + [inputs];
      ok := succeed;
      if ok {
        outputs := results;
      }
    }
  }
}
