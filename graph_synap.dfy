/** GraphSynap: compiles a graph to the vendor's NBG format, converts it to EBG, keeps the
    EBG in an optional cache file, loads it into the inference client and runs it.
    The vendor compiler, the NBG-to-EBG transcoder and the file system are collaborators
    whose answers come in as data: a Vendor value and a Disk object. */
module GraphSynap {

  import opened Wrappers
  import opened Descriptor
  import opened Runtime

  /** The file system as seen through ifstream/ofstream: path to contents; a path with no
      entry cannot be opened for reading. */
  type Files = map<string, seq<byte>>

  /** A graph tensor as this file sees it: the byte size of its spec and its contents. */
  datatype Tensor = Tensor(byteSize: nat, data: seq<byte>)

  /** The answers of the closed vendor toolchain for this graph. */
  datatype Vendor = Vendor(
    /** Setup() */
    setupOk: bool,
    /** vsi_nn_GenerateNBG(graph_, nullptr, size): None when it fails, else the size it reports */
    nbgSize: Option<nat>,
    /** vsi_nn_GenerateNBG(graph_, buf, size): None when it fails, else the NBG it writes */
    nbg: Option<seq<byte>>,
    /** nbg_to_ebg: the EBG buffer it hands back for an NBG, None for a null buffer */
    transcode: seq<byte> -> Option<seq<byte>>)

  /** The held EBG artifact: ebg_buffer_ (None is a null pointer) and ebg_size_. */
  datatype Artifact = Artifact(buffer: Option<seq<byte>>, size: nat)

  /** A call into the vendor toolchain: Setup(), vsi_nn_GenerateNBG asking for the size,
      vsi_nn_GenerateNBG filling a buffer, nbg_to_ebg. */
  datatype VendorCall = Setup | QueryNbgSize | GenerateNbg | NbgToEbg

  /** The vendor calls of a full compile, in the order the source makes them. */
  const FullCompileCalls: seq<VendorCall> := [Setup, QueryNbgSize, GenerateNbg, NbgToEbg]

  /** What one call leaves behind: its verdict, the artifact, the files, the value
      behind the size pointer (None when the pointer is null) and the vendor calls made. */
  datatype Outcome = Outcome(ok: bool, artifact: Artifact, files: Files, size: Option<nat>,
                             calls: seq<VendorCall>)

  /** tensor_sizes: the byte size of each tensor, in order. */
  function ByteSizes(tensors: seq<Tensor>): (sizes: seq<nat>)
    ensures |sizes| == |tensors|
    ensures forall i :: 0 <= i < |tensors| ==> sizes[i] == tensors[i].byteSize
  {
    if |tensors| == 0 then [] else ByteSizes(tensors[..|tensors| - 1]) + [tensors[|tensors| - 1].byteSize]
  }

  /** tensor_sizes as the source writes it, pushing one size per tensor. */
  method TensorSizes(tensors: seq<Tensor>) returns (sizes: seq<nat>)
    ensures sizes == ByteSizes(tensors)
  {
    sizes := [];
    var i := 0;
    while i < |tensors|
      invariant 0 <= i <= |tensors|
      invariant sizes == ByteSizes(tensors[..i])
    {
      assert tensors[..i + 1][..i] == tensors[..i];
      sizes := sizes + [tensors[i].byteSize];
      i := i + 1;
    }
    assert tensors[..i] == tensors;
  }

  /** The EBG the transcoder makes of a successful NBG compile, if it makes a usable one. */
  predicate BuildsEbg(v: Vendor) {
    v.setupOk && v.nbgSize.Some? && v.nbgSize.value > 0 && v.nbg.Some?
    && v.transcode(v.nbg.value).Some? && |v.transcode(v.nbg.value).value| > 0
  }

  /** CompileToBinary(buf, size), where buf tells whether a destination buffer is passed
      and size is the value behind the size pointer, None for a null pointer. Both null
      reads the cache; a size alone asks for the NBG size; both compile, convert and cache. */
  function CompileToBinarySpec(cachePath: string, held: Artifact, files: Files, v: Vendor,
                               allocOk: bool, buf: bool, size: Option<nat>): (r: Outcome)
    requires buf ==> size.Some?
    // Reading the cache: it touches no file and fails on a missing path, an unreadable
    // or empty file, or a failed allocation; on success it holds the file's bytes.
    ensures !buf && size.None? ==> r.files == files && r.size == None
    ensures !buf && size.None? ==>
      (r.ok <==> cachePath != [] && cachePath in files && |files[cachePath]| > 0 && allocOk)
    ensures !buf && size.None? && r.ok ==>
      r.artifact == Artifact(Some(files[cachePath]), |files[cachePath]|)
    ensures !buf && size.None? && (cachePath == [] || cachePath !in files) ==> r.artifact == held
    ensures !buf && size.None? && cachePath in files && cachePath != [] && |files[cachePath]| == 0 ==>
      r.artifact == held.(size := 0)
    ensures !buf && size.None? && cachePath in files && cachePath != [] && |files[cachePath]| > 0 && !allocOk ==>
      r.artifact == Artifact(None, |files[cachePath]|)
    // Asking for the size: the held artifact and the files stay as they are.
    ensures !buf && size.Some? ==> r.artifact == held && r.files == files
    ensures !buf && size.Some? ==>
      (r.ok <==> v.setupOk && v.nbgSize.Some? && v.nbgSize.value > 0)
    ensures !buf && size.Some? && r.ok ==> r.size == v.nbgSize && r.size.value > 0
    // Compiling: success holds a non-empty EBG and, with a cache path, writes it there.
    ensures buf ==> (r.ok <==> BuildsEbg(v))
    ensures buf && r.ok ==>
      r.artifact.buffer == v.transcode(v.nbg.value) && r.artifact.size == |r.artifact.buffer.value| > 0
    ensures buf && r.ok ==>
      r.files == if cachePath != [] then files[cachePath := r.artifact.buffer.value] else files
    ensures buf && !r.ok ==> r.files == files
    // Vendor calls: none for a cache read; otherwise a prefix of the full compile's calls,
    // never a fill from a size query, and a fill only after a size query reported a size.
    ensures !buf && size.None? ==> r.calls == []
    ensures (buf || size.Some?) ==> |r.calls| > 0 && r.calls <= FullCompileCalls
    ensures !buf && size.Some? ==> r.calls == if v.setupOk then [Setup, QueryNbgSize] else [Setup]
    ensures buf ==> (GenerateNbg in r.calls <==> v.setupOk && v.nbgSize.Some? && v.nbgSize.value > 0)
    ensures buf && r.ok ==> r.calls == FullCompileCalls
  {
    if !buf && size.None? then
      if cachePath == [] || cachePath !in files then Outcome(false, held, files, size, [])
      else
        var content := files[cachePath];
        if |content| <= 0 then Outcome(false, held.(size := 0), files, size, [])
        else if !allocOk then Outcome(false, Artifact(None, |content|), files, size, [])
        else Outcome(true, Artifact(Some(content), |content|), files, size, [])
    else if !v.setupOk then Outcome(false, held, files, size, [Setup])
    else if v.nbgSize.None? then Outcome(false, held, files, size, [Setup, QueryNbgSize])
    else if v.nbgSize.value == 0 then Outcome(false, held, files, v.nbgSize, [Setup, QueryNbgSize])
    else if !buf then Outcome(true, held, files, v.nbgSize, [Setup, QueryNbgSize])
    else if v.nbg.None? then Outcome(false, held, files, v.nbgSize, [Setup, QueryNbgSize, GenerateNbg])
    else
      var ebg := v.transcode(v.nbg.value);
      var made := Artifact(ebg, if ebg.Some? then |ebg.value| else 0);
      if made.size == 0 || ebg.None? then Outcome(false, made, files, v.nbgSize, FullCompileCalls)
      else if cachePath != [] then Outcome(true, made, files[cachePath := ebg.value], v.nbgSize, FullCompileCalls)
      else Outcome(true, made, files, v.nbgSize, FullCompileCalls)
  }

  /** The part of Compile before the load: with a buffer held it calls nothing; otherwise
      it asks for the NBG size and then compiles into a buffer of that size. */
  function PrepareSpec(cachePath: string, held: Artifact, files: Files, v: Vendor): (r: Outcome)
    ensures held.buffer.Some? ==> r.ok && r.artifact == held && r.files == files
    ensures held.buffer.None? ==> (r.ok <==> BuildsEbg(v))
    ensures r.ok ==> r.artifact.buffer.Some?
    ensures held.buffer.None? && r.ok ==>
      r.artifact.size > 0 &&
      r.files == if cachePath != [] then files[cachePath := r.artifact.buffer.value] else files
    ensures !r.ok ==> r.files == files
    // With a buffer held no vendor call is made; otherwise the size query comes first and
    // the fill follows only when the query succeeded.
    ensures held.buffer.Some? ==> r.calls == []
    ensures held.buffer.None? ==> |r.calls| > 0 && r.calls <= [Setup, QueryNbgSize] + FullCompileCalls
    ensures held.buffer.None? && r.ok ==> r.calls == [Setup, QueryNbgSize] + FullCompileCalls
  {
    if held.buffer.Some? then Outcome(true, held, files, None, [])
    else
      var query := CompileToBinarySpec(cachePath, held, files, v, true, false, Some(0));
      if !query.ok then query
      else
        var built := CompileToBinarySpec(cachePath, query.artifact, query.files, v, true, true, query.size);
        built.(calls := query.calls + built.calls)
  }

  /** A compile that wrote the cache is read back byte for byte. */
  lemma CacheRoundTrip(cachePath: string, held: Artifact, files: Files, v: Vendor, size: nat)
    requires cachePath != []
    requires CompileToBinarySpec(cachePath, held, files, v, true, true, Some(size)).ok
    ensures var built := CompileToBinarySpec(cachePath, held, files, v, true, true, Some(size));
            var read := CompileToBinarySpec(cachePath, built.artifact, built.files, v, true, false, None);
            read.ok && read.artifact == built.artifact
  {
  }

  /** After a fresh Compile with a cache path (no buffer held, whatever the size), reading
      the cache gives the same artifact, whatever was held before the read. */
  lemma CompileThenReadCache(cachePath: string, held0: Artifact, files: Files, v: Vendor, held: Artifact)
    requires cachePath != []
    requires held0.buffer.None?
    requires PrepareSpec(cachePath, held0, files, v).ok
    ensures var built := PrepareSpec(cachePath, held0, files, v);
            var read := CompileToBinarySpec(cachePath, held, built.files, v, true, false, None);
            read.ok && read.artifact == built.artifact
  {
  }

  /** The file system, which the cache is read from and written to. */
  class Disk {
    var files: Files

    constructor (files: Files)
      ensures this.files == files
    {
      this.files := files;
    }

    /** Opens path for binary reading and reads all of it; None when it cannot be opened. */
    method Read(path: string) returns (content: Option<seq<byte>>)
      ensures content.Some? <==> path in files
      ensures content.Some? ==> content.value == files[path]
    {
      content := if path in files then Some(files[path]) else None;
    }

    /** Creates or truncates path and writes bytes to it. */
    method Write(path: string, bytes: seq<byte>)
      modifies this`files
      ensures files == old(files)[path := bytes]
    {
      files := files[path := bytes];
    }
  }

  class GraphSynap {
    var cachePath: string
    var ebgBuffer: Option<seq<byte>>
    var ebgSize: nat
    var inputsTensor: seq<Tensor>
    var outputsTensor: seq<Tensor>
    const network: Network
    /** Every vendor call made so far, oldest first. */
    ghost var vendorCalls: seq<VendorCall>

    constructor (network: Network, inputs: seq<Tensor>, outputs: seq<Tensor>)
      ensures this.network == network && inputsTensor == inputs && outputsTensor == outputs
      ensures cachePath == [] && ebgBuffer == None && ebgSize == 0 && vendorCalls == []
    {
      this.network := network;
      inputsTensor, outputsTensor := inputs, outputs;
      cachePath, ebgBuffer, ebgSize := [], None, 0;
      vendorCalls := [];
    }

    function Held(): Artifact
      reads this
    {
      Artifact(ebgBuffer, ebgSize)
    }

    /** An empty path is refused and changes nothing; any other path gets the ".ebg" suffix. */
    method SetCachePath(path: string) returns (ok: bool)
      modifies this`cachePath
      ensures ok <==> path != []
      ensures cachePath == if ok then path + ".ebg" else old(cachePath)
    {
      if path != [] {
        cachePath := path + ".ebg";
        return true;
      }
      return false;
    }

    /** CompileToBinary(buf, size); allocOk is whether malloc succeeds. A destination buffer
        without a size pointer is excluded: the source dereferences the null pointer then. */
    method CompileToBinary(disk: Disk, v: Vendor, allocOk: bool, buf: bool, size: Option<nat>)
      returns (ok: bool, sizeOut: Option<nat>)
      requires buf ==> size.Some?
      modifies this`ebgBuffer, this`ebgSize, this`vendorCalls, disk`files
      ensures var r := CompileToBinarySpec(cachePath, old(Held()), old(disk.files), v, allocOk, buf, size);
              ok == r.ok && Held() == r.artifact && disk.files == r.files && sizeOut == r.size
              && vendorCalls == old(vendorCalls) + r.calls
    {
      sizeOut := size;
      if !buf && size.None? {
        if cachePath != [] {
          var content := disk.Read(cachePath);
          if content.None? {
            return false, sizeOut;
          }
          ebgSize := |content.value|;
          if ebgSize <= 0 {
            return false, sizeOut;
          }
          if !allocOk {
            ebgBuffer := None;
            return false, sizeOut;
          }
          ebgBuffer := Some(content.value);
          return true, sizeOut;
        } else {
          return false, sizeOut;
        }
      }

      vendorCalls := vendorCalls + [Setup];
      if !v.setupOk {
        return false, sizeOut;
      }

      if size.Some? {
        vendorCalls := vendorCalls + [QueryNbgSize];
        if v.nbgSize.None? {
          return false, sizeOut;
        }
        sizeOut := v.nbgSize;
        if sizeOut.value == 0 {
          return false, sizeOut;
        }
      }

      if !buf {
        return true, sizeOut;
      }

      vendorCalls := vendorCalls + [GenerateNbg];
      if v.nbg.None? {
        return false, sizeOut;
      }

      vendorCalls := vendorCalls + [NbgToEbg];
      ebgBuffer := v.transcode(v.nbg.value);
      ebgSize := if ebgBuffer.Some? then |ebgBuffer.value| else 0;
      if ebgSize == 0 || ebgBuffer.None? {
        return false, sizeOut;
      }

      if cachePath != [] {
        disk.Write(cachePath, ebgBuffer.value);
      }
      return true, sizeOut;
    }

    /** Compile: makes an EBG unless one is held, then loads it with the descriptor of the
        current tensor sizes; accept is the inference client's verdict on the load. */
    method Compile(disk: Disk, v: Vendor, accept: bool) returns (ok: bool)
      modifies this`ebgBuffer, this`ebgSize, this`vendorCalls, disk`files, network`loads
      ensures old(ebgBuffer).Some? ==> vendorCalls == old(vendorCalls)
      ensures var p := PrepareSpec(cachePath, old(Held()), old(disk.files), v);
              Held() == p.artifact && disk.files == p.files
              && vendorCalls == old(vendorCalls) + p.calls
              && ok == (p.ok && accept)
              && network.loads == old(network.loads)
                 + if p.ok then [LoadRequest(p.artifact.buffer, p.artifact.size,
                                             DescriptorJson(ByteSizes(inputsTensor), ByteSizes(outputsTensor)))]
                   else []
    {
      if ebgBuffer.None? {
        var nbgSize: nat := 0;
        var queried, reported := CompileToBinary(disk, v, true, false, Some(nbgSize));
        if !queried {
          return false;
        }
        nbgSize := reported.value;
        var built, _ := CompileToBinary(disk, v, true, true, Some(nbgSize));
        if !built {
          return false;
        }
      }

      var inputSizes := TensorSizes(inputsTensor);
      var outputSizes := TensorSizes(outputsTensor);
      var descriptor := ToJsonPair(inputSizes, outputSizes);
      ok := network.LoadModel(ebgBuffer, ebgSize, descriptor, accept);
    }

    /** Run: copies input tensor i into input slot i, predicts, and only if that succeeds
        copies output slot i into output tensor i. succeed and results are what predict
        reports and leaves in the output slots. The source indexes the tensor lists by slot
        position, so each list must be at least as long as its slot list. */
    method Run(succeed: bool, results: seq<seq<byte>>) returns (ok: bool)
      requires |network.inputs| <= |inputsTensor|
      requires |network.outputs| <= |outputsTensor|
      requires |results| == |network.outputs|
      modifies network`inputs, network`outputs, network`predictedOn, this`outputsTensor
      ensures network.predictedOn == old(network.predictedOn) + [network.inputs]
      ensures ok == succeed
      ensures |network.inputs| == |old(network.inputs)|
      ensures forall i :: 0 <= i < |network.inputs| ==> network.inputs[i] == inputsTensor[i].data
      ensures network.outputs == if ok then results else old(network.outputs)
      ensures !ok ==> outputsTensor == old(outputsTensor)
      ensures ok ==> |outputsTensor| == |old(outputsTensor)|
      ensures ok ==> forall i :: 0 <= i < |outputsTensor| ==>
        outputsTensor[i] == if i < |results| then old(outputsTensor)[i].(data := results[i])
                            else old(outputsTensor)[i]
    {
      var ix := 0;
      while ix < |network.inputs|
        invariant 0 <= ix <= |network.inputs| == |old(network.inputs)|
        invariant forall i :: 0 <= i < ix ==> network.inputs[i] == inputsTensor[i].data
        invariant network.outputs == old(network.outputs)
        invariant network.predictedOn == old(network.predictedOn)
        invariant outputsTensor == old(outputsTensor)
      {
        network.inputs := network.inputs[ix := inputsTensor[ix].data];
        ix := ix + 1;
      }

      ok := network.Predict(succeed, results);
      if !ok {
        return false;
      }

      ghost var copiedIn := network.inputs;
      ix := 0;
      while ix < |network.outputs|
        invariant 0 <= ix <= |network.outputs| == |results|
        invariant network.inputs == copiedIn && network.outputs == results
        invariant network.predictedOn == old(network.predictedOn) + [copiedIn]
        invariant |outputsTensor| == |old(outputsTensor)|
        invariant forall i :: 0 <= i < |outputsTensor| ==>
          outputsTensor[i] == if i < ix then old(outputsTensor)[i].(data := results[i])
                              else old(outputsTensor)[i]
      {
        outputsTensor := outputsTensor[ix := outputsTensor[ix].(data := network.outputs[ix])];
        ix := ix + 1;
      }
    }
  }
}
