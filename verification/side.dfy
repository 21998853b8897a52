/** The buy/sell indicator of a trade and its hand-written codec: the wire form is
    the lower-case word, decoding ignores case, and `Display` uses capitalised names. */
module Sides {
  import opened Wrappers
  import opened Ascii
  import opened JsonValues

  datatype Side = Buy | Sell

  /** Message a rejected string is appended to. */
  const RejectPrefix: string := "side must be either `buy` or `sell`: "

  /** What the decoder reports it expected when given a non-string JSON value. */
  const Expecting: string := "a Side specifier, either Buy or Sell"

  /** The human-readable form, `Buy` or `Sell`. */
  function Display(s: Side): (r: string)
    ensures |r| >= 1 && IsUpper(r[0])
  {
    match s
    case Buy => "Buy"
    case Sell => "Sell"
  }

  /** The wire form: the lower-cased `Display` text, and one of exactly two words. */
  function Encode(s: Side): (r: string)
    ensures r == "buy" || r == "sell"
    ensures r == ToLower(Display(s))
    ensures IsLowerWord(r)
  {
    match s
    case Buy => "buy"
    case Sell => "sell"
  }

  /** Decoding of a JSON string: the input is lower-cased and compared with the two
      wire words; anything else is refused with a message ending in the input as given. */
  function Decode(v: string): (r: Result<Side, JsonError>)
    ensures r == Success(Buy) <==> CaseVariantOf(v, "buy")
    ensures r == Success(Sell) <==> CaseVariantOf(v, "sell")
    ensures r.Failure? <==> !CaseVariantOf(v, "buy") && !CaseVariantOf(v, "sell")
    ensures r.Failure? ==> r.error == Custom(RejectPrefix + v)
  {
    ToLowerIsWordIff(v, "buy");
    ToLowerIsWordIff(v, "sell");
    var lowered := ToLower(v);
    if lowered == "buy" then Success(Buy)
    else if lowered == "sell" then Success(Sell)
    else Failure(Custom(RejectPrefix + v))
  }

  /** The JSON value `Serialize` writes: a JSON string holding the wire word. */
  function EncodeValue(s: Side): (r: JsonValue)
    ensures r == Str("buy") || r == Str("sell")
    ensures r.Str? && r.text == ToLower(Display(s))
  {
    Str(Encode(s))
  }

  /** Decoding of any JSON value: only strings reach `Decode`; every other value is
      a type error carrying the decoder's expectation. */
  function DecodeValue(j: JsonValue): (r: Result<Side, JsonError>)
    ensures r.Success? ==> j.Str?
    ensures !j.Str? ==> r == Failure(InvalidType(Expecting))
    ensures j.Str? ==> r == Decode(j.text)
  {
    match j
    case Str(v) => Decode(v)
    case _ => Failure(InvalidType(Expecting))
  }

  /** Round trip through the wire word. */
  lemma DecodeEncode(s: Side)
    ensures Decode(Encode(s)) == Success(s)
  {
  }

  /** Round trip through the JSON value. */
  lemma DecodeValueEncodeValue(s: Side)
    ensures DecodeValue(EncodeValue(s)) == Success(s)
  {
  }

  /** Encoding never emits anything a decoder would reject, and distinct sides get
      distinct words. */
  lemma EncodeInjective(s: Side, t: Side)
    ensures Encode(s) == Encode(t) <==> s == t
  {
  }

  /** Re-encoding a decoded string yields its lower-case form: encoding is the
      canonical representative of every accepted spelling. */
  lemma EncodeDecode(v: string)
    requires Decode(v).Success?
    ensures Encode(Decode(v).value) == ToLower(v)
  {
    ToLowerIsWordIff(v, "buy");
    ToLowerIsWordIff(v, "sell");
  }

  /** Decoding depends on the input only through its lower-case form: two strings
      that lower-case alike are both accepted, as the same side, or both refused. */
  lemma DecodeDependsOnlyOnLowercase(v: string, u: string)
    requires ToLower(v) == ToLower(u)
    ensures Decode(v).Success? <==> Decode(u).Success?
    ensures Decode(v).Success? ==> Decode(v).value == Decode(u).value
  {
    ToLowerIsWordIff(v, "buy");
    ToLowerIsWordIff(v, "sell");
    ToLowerIsWordIff(u, "buy");
    ToLowerIsWordIff(u, "sell");
  }

  /** Every case variant of a wire word decodes to its side. */
  lemma DecodeIgnoresCase(s: Side, v: string)
    requires CaseVariantOf(v, Encode(s))
    ensures Decode(v) == Success(s)
  {
  }

  /** A refusal names the offending string exactly as it was received. */
  lemma RejectionNamesInput(v: string)
    requires Decode(v).Failure?
    ensures Decode(v).error.Custom?
    ensures |Decode(v).error.message| >= |v|
    ensures Decode(v).error.message[|Decode(v).error.message| - |v|..] == v
  {
  }

  /** The `Display` text is the wire word with its first letter capitalised: so it is
      not the wire form, yet it decodes to the same side. */
  lemma DisplayIsNotWireButDecodes(s: Side)
    ensures |Encode(s)| >= 1 && Display(s) == [UpperChar(Encode(s)[0])] + Encode(s)[1..]
    ensures Display(s) != Encode(s)
    ensures Decode(Display(s)) == Success(s)
  {
    assert Display(s)[0] != Encode(s)[0];
  }

  /** Every casing of the wire words is accepted. */
  lemma AcceptedSpellings()
    ensures Decode("BUY") == Success(Buy)
    ensures Decode("bUy") == Success(Buy)
    ensures Decode("SeLL") == Success(Sell)
  {
  }

  /** Near misses are refused with the input in the message, and a JSON number is
      refused as a type error. */
  lemma RejectedSpellings()
    ensures Decode("long") == Failure(Custom(RejectPrefix + "long"))
    ensures Decode("") == Failure(Custom(RejectPrefix))
    ensures Decode("buys") == Failure(Custom(RejectPrefix + "buys"))
    ensures DecodeValue(Number("1")) == Failure(InvalidType(Expecting))
  {
    assert !CaseVariantOf("long", "buy") && !CaseVariantOf("long", "sell") by {
      assert "long"[0] != "buy"[0] && "long"[0] != UpperChar("buy"[0]);
    }
    assert RejectPrefix + "" == RejectPrefix;
  }
}
