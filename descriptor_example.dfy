/** The worked example of the shape descriptor: one input tensor of 1024 bytes and one
    output tensor of 256 bytes. The character-level steps are stated over literals only,
    one concatenation per lemma, which keeps each comparison small. */
module DescriptorExample {

  import opened Decimal
  import opened Descriptor

  /** Key "0" with the text up to the size's numeral. */
  const KeyZero: string := "{\"0\":{\"dtype\":\"byte\",\"shape\":["

  lemma KeyZeroText(key: string)
    requires key == "\"" + NatToString(0) + KeyTail
    ensures "{" + key == KeyZero
  {
    assert NatToString(0) == "0";
  }

  /** The object for a single size, given the size's numeral. */
  lemma JsonSingle(size: nat, numeral: string)
    requires NatToString(size) == numeral
    ensures Json([size]) == KeyZero + numeral + "]}}"
  {
    var key := "\"" + NatToString(0) + KeyTail;
    assert Entries([size], 0) == key + numeral + EntryClose;
    KeyZeroText(key);
    assert EntryClose + "}" == "]}}";
    ConcatAssoc("{", key + numeral, EntryClose);
    ConcatAssoc("{", key, numeral);
    ConcatAssoc("{" + key + numeral, EntryClose, "}");
  }

  lemma Numerals()
    ensures NatToString(1024) == "1024" && NatToString(256) == "256"
  {
    assert NatToString(10) == "10";
    assert NatToString(102) == "102";
    assert NatToString(25) == "25";
  }

  lemma InputObjectText(b: string)
    requires b == "{\"0\":{\"dtype\":\"byte\",\"shape\":[" + "1024" + "]}}"
    ensures b == "{\"0\":{\"dtype\":\"byte\",\"shape\":[1024]}}"
  {
  }

  lemma OutputObjectText(b: string)
    requires b == "{\"0\":{\"dtype\":\"byte\",\"shape\":[" + "256" + "]}}"
    ensures b == "{\"0\":{\"dtype\":\"byte\",\"shape\":[256]}}"
  {
  }

  lemma InputsText(b: string)
    requires b == "{\"0\":{\"dtype\":\"byte\",\"shape\":[1024]}}"
    ensures "{\"Inputs\": " + b == "{\"Inputs\": {\"0\":{\"dtype\":\"byte\",\"shape\":[1024]}}"
  {
  }

  lemma OutputsKeyText(a: string)
    requires a == "{\"Inputs\": {\"0\":{\"dtype\":\"byte\",\"shape\":[1024]}}"
    ensures a + ",\"Outputs\": " == "{\"Inputs\": {\"0\":{\"dtype\":\"byte\",\"shape\":[1024]}},\"Outputs\": "
  {
  }

  lemma OutputsText(a: string, b: string)
    requires a == "{\"Inputs\": {\"0\":{\"dtype\":\"byte\",\"shape\":[1024]}},\"Outputs\": "
    requires b == "{\"0\":{\"dtype\":\"byte\",\"shape\":[256]}}"
    ensures a + b + "}"
         == "{\"Inputs\": {\"0\":{\"dtype\":\"byte\",\"shape\":[1024]}},\"Outputs\": {\"0\":{\"dtype\":\"byte\",\"shape\":[256]}}}"
  {
  }

  /** One input of 1024 bytes and one output of 256 bytes. */
  lemma DescriptorExample()
    ensures DescriptorJson([1024], [256])
         == "{\"Inputs\": {\"0\":{\"dtype\":\"byte\",\"shape\":[1024]}},\"Outputs\": {\"0\":{\"dtype\":\"byte\",\"shape\":[256]}}}"
  {
    Numerals();
    JsonSingle(1024, "1024");
    JsonSingle(256, "256");
    var ins, outs := Json([1024]), Json([256]);
    InputObjectText(ins);
    OutputObjectText(outs);
    assert InputsOpen == "{\"Inputs\": " && OutputsOpen == ",\"Outputs\": ";
    InputsText(ins);
    OutputsKeyText(InputsOpen + ins);
    OutputsText(InputsOpen + ins + OutputsOpen, outs);
  }
}
