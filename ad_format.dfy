/**
 * The advertising and scan-response data format of the Bluetooth Core
 * Specification, Volume 3, Part C, section 11: a sequence of AD structures,
 * each a Length octet followed by Length octets made of the AD type (one
 * octet) and the AD data (Length - 1 octets). A Length of zero ends the
 * significant part early.
 *
 * This is the reference the application's encoder is compared against; the
 * application itself contains no parser.
 */
module AdFormat {
  import opened Wrappers
  import opened Bytes

  datatype AdStructure = AdStructure(adType: u8, data: seq<u8>)

  /** The Length octet must fit in one byte: type plus data at most 255 octets. */
  predicate Encodable(a: AdStructure)
  {
    |a.data| < 0xff
  }

  /** One AD structure as the standard lays it out. */
  function Encode(a: AdStructure): (b: seq<u8>)
    requires Encodable(a)
    ensures |b| == |a.data| + 2
    ensures b[0] as int == |b| - 1  // the Length octet counts everything after itself
    ensures b[1] == a.adType && b[2..] == a.data
  {
    [(|a.data| + 1) as u8, a.adType] + a.data
  }

  function EncodeAll(xs: seq<AdStructure>): (b: seq<u8>)
    requires forall i :: 0 <= i < |xs| ==> Encodable(xs[i])
  {
    if xs == [] then [] else Encode(xs[0]) + EncodeAll(xs[1..])
  }

  /**
   * What a scanner reads out of a payload: None when a Length octet claims
   * more octets than remain.
   */
  function Parse(b: seq<u8>): (r: Option<seq<AdStructure>>)
    decreases |b|
  {
    if b == [] || b[0] == 0 then Some([])
    else if b[0] as int > |b| - 1 then None
    else
      match Parse(b[1 + b[0] as int..])
      case None => None
      case Some(rest) => Some([AdStructure(b[1], b[2..1 + b[0] as int])] + rest)
  }

  /** Parsing undoes encoding: the format is self-delimiting. */
  lemma {:induction false} ParseEncodeAll(xs: seq<AdStructure>)
    requires forall i :: 0 <= i < |xs| ==> Encodable(xs[i])
    ensures Parse(EncodeAll(xs)) == Some(xs)
  {
    if xs != [] {
      var e, rest := Encode(xs[0]), EncodeAll(xs[1..]);
      var b := e + rest;
      assert b == EncodeAll(xs);
      assert b[0] == e[0] && 1 + b[0] as int == |e|;
      assert b[1 + b[0] as int..] == rest;
      assert b[2..1 + b[0] as int] == xs[0].data;
      ParseEncodeAll(xs[1..]);
      assert [xs[0]] + xs[1..] == xs;
    }
  }

  /**
   * A payload whose first structure claims more octets than the payload
   * holds after the structures before it cannot be parsed.
   */
  lemma {:induction false} ParseOverrun(prefix: seq<AdStructure>, b: seq<u8>)
    requires forall i :: 0 <= i < |prefix| ==> Encodable(prefix[i])
    requires b != [] && b[0] as int > |b| - 1
    ensures Parse(EncodeAll(prefix) + b) == None
  {
    if prefix == [] {
      assert EncodeAll(prefix) + b == b;
    } else {
      var e, rest := Encode(prefix[0]), EncodeAll(prefix[1..]) + b;
      var whole := EncodeAll(prefix) + b;
      assert whole == e + rest;
      assert whole[0] == e[0] && 1 + whole[0] as int == |e| <= |whole|;
      assert whole[1 + whole[0] as int..] == rest;
      ParseOverrun(prefix[1..], b);
      assert Parse(rest) == None;
    }
  }
}
