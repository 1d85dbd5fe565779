/** Texts and their bytes agree on where characters end. */
module Utf8Text {
  import opened Text
  import T = TerminalInput
  import R = Repetition

  /** The UTF-8 bytes of a text. */
  function Bytes(s: string): seq<byte> {
    if s == [] then [] else T.Encode(s[0]) + Bytes(s[1..])
  }

  /** One character's bytes: as many as its length says, the first one no continuation, the others all. */
  lemma EncodingShape(c: char)
    ensures |T.Encode(c)| == CharLen(c)
    ensures !(0x80 <= T.Encode(c)[0] <= 0xBF)
    ensures forall i :: 1 <= i < |T.Encode(c)| ==> 0x80 <= T.Encode(c)[i] <= 0xBF
  {
  }

  lemma {:induction false} BytesAreCounted(s: string)
    ensures |Bytes(s)| == ByteLen(s)
  {
    if s != [] {
      EncodingShape(s[0]);
      BytesAreCounted(s[1..]);
    }
  }

  /**
   Looking at one byte tells where a character may be cut, exactly as counting
   characters from the front does.
   */
  lemma {:induction false} BoundariesAgree(s: string, b: nat)
    requires b <= |Bytes(s)|
    ensures R.IsBoundary(Bytes(s), b) <==> IsCharBoundary(s, b)
  {
    hide T.Encode;
    if s != [] && b > 0 {
      EncodingShape(s[0]);
      var head, rest := T.Encode(s[0]), Bytes(s[1..]);
      if b >= |head| {
        BoundariesAgree(s[1..], b - |head|);
        RestStartsCharacter(s[1..]);
        assert b < |Bytes(s)| ==> Bytes(s)[b] == rest[b - |head|];
      }
    }
  }

  lemma RestStartsCharacter(s: string)
    ensures s != [] ==> |Bytes(s)| > 0 && !(0x80 <= Bytes(s)[0] <= 0xBF)
    ensures Bytes(s) == [] ==> s == []
  {
    hide T.Encode;
    if s != [] {
      EncodingShape(s[0]);
    }
  }
}
