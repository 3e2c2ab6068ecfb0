/** A reader for the shape descriptor, a left inverse of its writer: it recovers the two size
    lists from any text the writer produced, so the text determines the sizes it was built
    from. It also accepts texts the writer never produces (numerals with leading zeros). */
module DescriptorParse {

  import opened Wrappers
  import opened Decimal
  import opened Descriptor

  /** Consumes the literal lit at the front of s. */
  function Expect(lit: string, s: string): (r: Option<string>)
    ensures r.Some? <==> lit <= s
    ensures r.Some? ==> s == lit + r.value
  {
    if lit <= s then Some(s[|lit|..]) else None
  }

  /** Reads the entries keyed i, i + 1, ... and the brace that closes their object. */
  function ParseEntries(s: string, i: nat): Option<(seq<nat>, string)>
    decreases |s|
  {
    match Expect("\"" + NatToString(i) + KeyTail, s)
    case None => None
    case Some(s1) =>
      match ParseNat(s1)
      case None => None
      case Some((size, s2)) =>
        match Expect(EntryClose, s2)
        case None => None
        case Some(s3) =>
          if |s3| > 0 && s3[0] == '}' then Some(([size], s3[1..]))
          else if |s3| > 0 && s3[0] == ',' then
            match ParseEntries(s3[1..], i + 1)
            case None => None
            case Some((sizes, rest)) => Some(([size] + sizes, rest))
          else None
  }

  /** Reads one object written by Json and returns the sizes and the text after it. */
  function ParseJson(s: string): Option<(seq<nat>, string)> {
    match Expect("{", s)
    case None => None
    case Some(s1) =>
      if |s1| > 0 && s1[0] == '}' then Some(([], s1[1..])) else ParseEntries(s1, 0)
  }

  /** Reads a whole descriptor; fails unless it is exactly one. */
  function ParseDescriptor(s: string): Option<(seq<nat>, seq<nat>)> {
    match Expect(InputsOpen, s)
    case None => None
    case Some(s1) =>
      match ParseJson(s1)
      case None => None
      case Some((inputs, s2)) =>
        match Expect(OutputsOpen, s2)
        case None => None
        case Some(s3) =>
          match ParseJson(s3)
          case None => None
          case Some((outputs, s4)) =>
            if s4 == "}" then Some((inputs, outputs)) else None
  }

  lemma ExpectPrefix(lit: string, t: string)
    ensures Expect(lit, lit + t) == Some(t)
  {
    assert lit <= lit + t;
    assert (lit + t)[|lit|..] == t;
  }

  /** One entry is read, then the character after it decides whether the object goes on. */
  lemma ParseEntriesStep(i: nat, size: nat, tail: string)
    requires |tail| > 0 && (tail[0] == '}' || tail[0] == ',')
    ensures ParseEntries(Entry(i, size) + tail, i)
         == if tail[0] == '}' then Some(([size], tail[1..]))
            else match ParseEntries(tail[1..], i + 1)
                 case None => None
                 case Some((more, after)) => Some(([size] + more, after))
  {
    var key := "\"" + NatToString(i) + KeyTail;
    var numeral := NatToString(size);
    var s2 := EntryClose + tail;
    var s1 := numeral + s2;
    assert Entry(i, size) == key + numeral + EntryClose;
    ConcatAssoc(key + numeral, EntryClose, tail);
    ConcatAssoc(key, numeral, EntryClose + tail);
    ExpectPrefix(key, s1);
    assert Expect(key, Entry(i, size) + tail) == Some(s1);
    assert s2[0] == ']';
    ParseNatToString(size, s2);
    ExpectPrefix(EntryClose, tail);
  }

  lemma {:induction false} ParseEntriesOf(sizes: seq<nat>, i: nat, rest: string)
    requires |sizes| > 0
    ensures ParseEntries(Entries(sizes, i) + "}" + rest, i) == Some((sizes, rest))
    decreases |sizes|
  {
    if |sizes| == 1 {
      var tail := "}" + rest;
      assert Entries(sizes, i) == Entry(i, sizes[0]);
      assert Entries(sizes, i) + "}" + rest == Entry(i, sizes[0]) + tail;
      ParseEntriesStep(i, sizes[0], tail);
      assert tail[0] == '}' && tail[1..] == rest && [sizes[0]] == sizes;
    } else {
      var first, others := Entry(i, sizes[0]), Entries(sizes[1..], i + 1);
      var later := others + "}" + rest;
      var tail := "," + later;
      assert Entries(sizes, i) == first + "," + others;
      ConcatAssoc(others, "}", rest);
      ConcatAssoc(first + "," + others, "}", rest);
      ConcatAssoc(first + ",", others, "}" + rest);
      ConcatAssoc(first, ",", others + ("}" + rest));
      ParseEntriesStep(i, sizes[0], tail);
      assert tail[1..] == later;
      ParseEntriesOf(sizes[1..], i + 1, rest);
      assert [sizes[0]] + sizes[1..] == sizes;
    }
  }

  /** Reading an object written by Json gives back its sizes and leaves what follows it. */
  lemma ParseJsonOf(sizes: seq<nat>, rest: string)
    ensures ParseJson(Json(sizes) + rest) == Some((sizes, rest))
  {
    var s := Json(sizes) + rest;
    if |sizes| == 0 {
      assert s == "{" + ("}" + rest);
      ExpectPrefix("{", "}" + rest);
      assert ("}" + rest)[1..] == rest;
    } else {
      assert s == "{" + (Entries(sizes, 0) + "}" + rest);
      ExpectPrefix("{", Entries(sizes, 0) + "}" + rest);
      assert Entries(sizes, 0)[0] == '"';
      ParseEntriesOf(sizes, 0, rest);
    }
  }

  /** Reading a descriptor gives back both size lists. */
  lemma ParseDescriptorOf(inputs: seq<nat>, outputs: seq<nat>)
    ensures ParseDescriptor(DescriptorJson(inputs, outputs)) == Some((inputs, outputs))
  {
    var ins, outs := Json(inputs), Json(outputs);
    var s := DescriptorJson(inputs, outputs);
    assert s == InputsOpen + (ins + (OutputsOpen + (outs + "}")));
    ExpectPrefix(InputsOpen, ins + (OutputsOpen + (outs + "}")));
    ParseJsonOf(inputs, OutputsOpen + (outs + "}"));
    ExpectPrefix(OutputsOpen, outs + "}");
    ParseJsonOf(outputs, "}");
  }

  /** Different size lists give different descriptors. */
  lemma DescriptorInjective(inputs: seq<nat>, outputs: seq<nat>, inputs': seq<nat>, outputs': seq<nat>)
    requires DescriptorJson(inputs, outputs) == DescriptorJson(inputs', outputs')
    ensures inputs == inputs' && outputs == outputs'
  {
    ParseDescriptorOf(inputs, outputs);
    ParseDescriptorOf(inputs', outputs');
  }
}
