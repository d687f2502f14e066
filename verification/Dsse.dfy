/** The DSSE pre-authentication encoding that signatures cover. */
module Dsse {
  import opened Options
  import opened Decimal

  const SPACE: Byte := 32
  const HEADER: Bytes := [68, 83, 83, 69, 118, 49, 32] // "DSSEv1 "

  /** A length in decimal, a space, and that many bytes. */
  function Field(data: Bytes): Bytes {
    Print(|data|) + [SPACE] + data
  }

  function Pae(payloadType: Bytes, payload: Bytes): Bytes {
    HEADER + Field(payloadType) + [SPACE] + Field(payload)
  }

  /** The first position of a space, or the length. */
  function FirstSpace(s: Bytes): (i: nat)
    ensures i <= |s|
  {
    if s == [] || s[0] == SPACE then 0 else 1 + FirstSpace(s[1..])
  }

  /** Read one field: its data and what follows it. */
  function ReadField(s: Bytes): Option<(Bytes, Bytes)> {
    var i := FirstSpace(s);
    if !AllDigits(s[..i]) || i == |s| then None
    else
      var n := Value(s[..i]);
      if i + 1 + n > |s| then None else Some((s[i + 1..i + 1 + n], s[i + 1 + n..]))
  }

  /** A reader for the encoding, which the code itself does not need. */
  function Decode(m: Bytes): Option<(Bytes, Bytes)> {
    if |m| < |HEADER| || m[..|HEADER|] != HEADER then None
    else
      match ReadField(m[|HEADER|..])
      case None => None
      case Some((payloadType, rest)) =>
        if rest == [] || rest[0] != SPACE then None
        else
          match ReadField(rest[1..])
          case None => None
          case Some((payload, tail)) => if tail == [] then Some((payloadType, payload)) else None
  }

  lemma {:induction false} SpaceAfterDigits(digits: Bytes, rest: Bytes)
    requires AllDigits(digits)
    ensures FirstSpace(digits + [SPACE] + rest) == |digits|
  {
    if digits == [] {
    } else {
      assert (digits + [SPACE] + rest)[1..] == digits[1..] + [SPACE] + rest;
      SpaceAfterDigits(digits[1..], rest);
    }
  }

  lemma ReadOfField(data: Bytes, rest: Bytes)
    ensures ReadField(Field(data) + rest) == Some((data, rest))
  {
    var digits := Print(|data|);
    var s := Field(data) + rest;
    assert s == digits + [SPACE] + (data + rest);
    SpaceAfterDigits(digits, data + rest);
    assert s[..|digits|] == digits;
    ValueOfPrint(|data|);
  }

  /** The encoding can be read back: it determines both parts. */
  lemma DecodeOfPae(payloadType: Bytes, payload: Bytes)
    ensures Decode(Pae(payloadType, payload)) == Some((payloadType, payload))
  {
    var m := Pae(payloadType, payload);
    var rest := [SPACE] + Field(payload);
    assert m[..|HEADER|] == HEADER;
    assert m[|HEADER|..] == Field(payloadType) + rest;
    ReadOfField(payloadType, rest);
    assert rest[1..] == Field(payload) + [];
    ReadOfField(payload, []);
  }

  /** A signature over one payload and type is over no other. */
  lemma PaeInjective(t: Bytes, p: Bytes, t': Bytes, p': Bytes)
    requires Pae(t, p) == Pae(t', p')
    ensures t == t' && p == p'
  {
    DecodeOfPae(t, p);
    DecodeOfPae(t', p');
  }
}
