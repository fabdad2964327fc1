/**
 * REQ_GET_DFS_REFERRAL (section 2.2.2 of MS-DFSC): a 16-bit maximum referral
 * level followed by the requested path as NUL-terminated UTF-16LE.
 */
module Request {
  import opened Wrappers
  import opened Text
  import opened LittleEndian

  datatype RequestGetDfsReferral = RequestGetDfsReferral(maxReferralLevel: uint16, requestFileName: WString)

  /** The wire form of a request: level, the name's code units, two zero bytes. */
  function Encoding(req: RequestGetDfsReferral): seq<byte> {
    U16Bytes(req.maxReferralLevel) + Utf16Bytes(req.requestFileName) + [0, 0]
  }

  /** The decoding constructor; None where a reader runs off the buffer. */
  function Decode(buffer: seq<byte>): Option<RequestGetDfsReferral> {
    var level :- ReadU16(buffer, 0);
    var name :- ReadUtf16Z(buffer, 2);
    Some(RequestGetDfsReferral(level, name.0))
  }

  /**
   * GetBytes: a zeroed buffer of 2 + 2n + 2 bytes, the level at 0 and the
   * name's code units from 2; the terminator is the buffer's zero tail.
   */
  method GetBytes(req: RequestGetDfsReferral) returns (buffer: array<byte>)
    ensures buffer[..] == Encoding(req)
  {
    var name := req.requestFileName;
    var length := 2 + |name| * 2 + 2;
    buffer := new byte[length](_ => 0);
    buffer[0] := req.maxReferralLevel % 0x100;
    buffer[1] := req.maxReferralLevel / 0x100;
    for i := 0 to |name|
      invariant buffer[0] == req.maxReferralLevel % 0x100 && buffer[1] == req.maxReferralLevel / 0x100
      invariant forall k :: 0 <= k < i ==> buffer[2 + 2 * k] == name[k] % 0x100 && buffer[3 + 2 * k] == name[k] / 0x100
      invariant forall k :: 2 + 2 * i <= k < length ==> buffer[k] == 0
    {
      buffer[2 + 2 * i] := name[i] % 0x100;
      buffer[3 + 2 * i] := name[i] / 0x100;
    }
    var body := Utf16Bytes(name);
    var expected := Encoding(req);
    forall k | 0 <= k < length
      ensures buffer[k] == expected[k]
    {
      if k < 2 {
        assert expected[k] == U16Bytes(req.maxReferralLevel)[k];
      } else if k < 2 + 2 * |name| {
        var j := (k - 2) / 2;
        assert expected[k] == body[k - 2];
        if k == 2 + 2 * j {
          assert body[2 * j] == name[j] % 0x100;
        } else {
          assert k == 3 + 2 * j;
          assert body[2 * j + 1] == name[j] / 0x100;
        }
      } else {
        assert expected[k] == 0;
      }
    }
  }

  lemma EncodingLength(req: RequestGetDfsReferral)
    ensures |Encoding(req)| == 2 * |req.requestFileName| + 4
  {
  }

  /**
   * Decoding what GetBytes writes gives the request back exactly when the
   * name holds no NUL: an embedded NUL ends the decoded name early.
   */
  lemma DecodeOfEncoding(req: RequestGetDfsReferral)
    ensures Decode(Encoding(req)) == Some(req) <==> NoNul(req.requestFileName)
  {
    var bytes := Encoding(req);
    ReadU16OfU16Bytes([], req.maxReferralLevel, Utf16Bytes(req.requestFileName) + [0, 0]);
    assert bytes == [] + U16Bytes(req.maxReferralLevel) + (Utf16Bytes(req.requestFileName) + [0, 0]);
    if NoNul(req.requestFileName) {
      ReadUtf16ZOfUtf16Bytes(U16Bytes(req.maxReferralLevel), req.requestFileName, []);
      assert bytes == U16Bytes(req.maxReferralLevel) + Utf16Bytes(req.requestFileName) + [0, 0] + [];
    }
  }
}
