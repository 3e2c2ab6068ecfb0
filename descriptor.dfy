/** The JSON shape descriptor handed to the runtime loader: one object per tensor list,
    keyed by position, each entry giving the tensor's flat byte size. */
module Descriptor {

  import opened Decimal

  /** Text between a key's numeral and the size's numeral. */
  const KeyTail: string := "\":{\"dtype\":\"byte\",\"shape\":["
  /** Text that closes an entry. */
  const EntryClose: string := "]}"
  const InputsOpen: string := "{\"Inputs\": "
  const OutputsOpen: string := ",\"Outputs\": "

  /** The entry for the tensor at position i: "i":{"dtype":"byte","shape":[size]} */
  function Entry(i: nat, size: nat): string {
    "\"" + NatToString(i) + KeyTail + NatToString(size) + EntryClose
  }

  /** The entries for sizes, keyed first, first + 1, ..., separated by single commas. */
  function Entries(sizes: seq<nat>, first: nat): string
    decreases |sizes|
  {
    if |sizes| == 0 then ""
    else if |sizes| == 1 then Entry(first, sizes[0])
    else Entry(first, sizes[0]) + "," + Entries(sizes[1..], first + 1)
  }

  /** to_json(sizes): the object holding one entry per size. */
  function Json(sizes: seq<nat>): (r: string)
    ensures |r| >= 2 && r[0] == '{' && r[|r| - 1] == '}'
    ensures r == "{}" <==> |sizes| == 0
  {
    "{" + Entries(sizes, 0) + "}"
  }

  /** to_json(inputs, outputs): the two-list descriptor. */
  function DescriptorJson(inputs: seq<nat>, outputs: seq<nat>): string {
    InputsOpen + Json(inputs) + OutputsOpen + Json(outputs) + "}"
  }

  /** Concatenation is associative; the proofs about descriptor text regroup with it. */
  lemma ConcatAssoc(a: string, b: string, c: string)
    ensures a + b + c == a + (b + c)
  {
  }

  /** Parts joined with a comma between neighbours and none at either end. */
  function Join(parts: seq<string>): string {
    if |parts| == 0 then "" else if |parts| == 1 then parts[0] else parts[0] + "," + Join(parts[1..])
  }

  /** The entry list, entry i being the one for sizes[i] keyed first + i. */
  function EntryList(sizes: seq<nat>, first: nat): (r: seq<string>)
    ensures |r| == |sizes|
  {
    seq(|sizes|, i requires 0 <= i < |sizes| => Entry(first + i, sizes[i]))
  }

  lemma {:induction false} EntriesAreJoined(sizes: seq<nat>, first: nat)
    ensures Entries(sizes, first) == Join(EntryList(sizes, first))
    decreases |sizes|
  {
    if |sizes| > 1 {
      EntriesAreJoined(sizes[1..], first + 1);
      assert EntryList(sizes, first)[1..] == EntryList(sizes[1..], first + 1);
    }
  }

  /** The object for N sizes holds exactly N entries, the i-th keyed i and sized sizes[i],
      joined by commas with no leading or trailing comma. */
  lemma JsonIsEntryList(sizes: seq<nat>)
    ensures Json(sizes) == "{" + Join(EntryList(sizes, 0)) + "}"
    ensures forall i :: 0 <= i < |sizes| ==> EntryList(sizes, 0)[i] == Entry(i, sizes[i])
  {
    EntriesAreJoined(sizes, 0);
  }

  /** Appending a size appends its entry, after a comma unless it is the first. */
  lemma {:induction false} EntriesSnoc(sizes: seq<nat>, size: nat, first: nat)
    ensures Entries(sizes + [size], first)
         == Entries(sizes, first) + (if |sizes| == 0 then "" else ",") + Entry(first + |sizes|, size)
    decreases |sizes|
  {
    if |sizes| > 1 {
      assert (sizes + [size])[1..] == sizes[1..] + [size];
      EntriesSnoc(sizes[1..], size, first + 1);
    } else if |sizes| == 1 {
      assert (sizes + [size])[1..] == [size];
    }
  }

  /** to_json(sizes) as the source writes it: a loop with a separator that is empty before
      the first entry and a comma after it. */
  method ToJson(sizes: seq<nat>) returns (s: string)
    ensures s == Json(sizes)
  {
    var sep := "";
    s := "{";
    var i := 0;
    while i < |sizes|
      invariant 0 <= i <= |sizes|
      invariant s == "{" + Entries(sizes[..i], 0)
      invariant sep == if i == 0 then "" else ","
    {
      var entry := "\"" + NatToString(i) + KeyTail + NatToString(sizes[i]) + EntryClose;
      assert entry == Entry(i, sizes[i]);
      EntriesSnoc(sizes[..i], sizes[i], 0);
      assert sizes[..i + 1] == sizes[..i] + [sizes[i]];
      ghost var done := Entries(sizes[..i], 0);
      assert s + sep + entry == "{" + (done + sep + entry);
      s := s + sep + entry;
      sep := ",";
      i := i + 1;
    }
    assert sizes[..i] == sizes;
    s := s + "}";
  }

  /** to_json(inputs, outputs). */
  method ToJsonPair(inputs: seq<nat>, outputs: seq<nat>) returns (s: string)
    ensures s == DescriptorJson(inputs, outputs)
  {
    var ins := ToJson(inputs);
    var outs := ToJson(outputs);
    s := InputsOpen + ins + OutputsOpen + outs + "}";
  }
}
