/**
 Writing backwards into the front of a buffer: each piece ends where the one written before it
 starts.
 */
module Encoder {
  import opened Varint
  import opened Decoder

  /** `copy` in front of index i. */
  method PutPayload(dAtA: array<byte>, i: nat, p: seq<byte>) returns (j: nat)
    requires |p| <= i <= dAtA.Length
    modifies dAtA
    ensures j == i - |p|
    ensures dAtA[..] == Splice(old(dAtA[..]), j, i, p)
  {
    j := i - |p|;
    forall k | 0 <= k < |p| {
      dAtA[j + k] := p[k];
    }
  }

  method PutByte(dAtA: array<byte>, i: nat, b: byte)
    requires 1 <= i <= dAtA.Length
    modifies dAtA
    ensures dAtA[..] == Splice(old(dAtA[..]), i - 1, i, [b])
  {
    dAtA[i - 1] := b;
  }

  /** The length and tag in front of a payload that starts at i. */
  method PutHeader(dAtA: array<byte>, i: nat, length: nat, num: nat) returns (j: nat)
    requires 1 <= num <= 15 && length < TWO_64 && 1 + VarintSize(length) <= i <= dAtA.Length
    modifies dAtA
    ensures j == i - 1 - VarintSize(length)
    ensures dAtA[..] == Splice(old(dAtA[..]), j, i, [8 * num + 2] + EncVarint(length))
  {
    hide EncVarint;
    ghost var was := dAtA[..];
    j := EncodeVarint(dAtA, i, length);
    var tag: byte := 8 * num + 2;
    PutByte(dAtA, j, tag);
    j := j - 1;
    SpliceTwice(was, j, j + 1, i, [tag], EncVarint(length));
  }

  /** A whole field of bytes. */
  method PutBytes(dAtA: array<byte>, i: nat, num: nat, p: seq<byte>) returns (j: nat)
    requires 1 <= num <= 15 && LenSize(|p|) <= i <= dAtA.Length && i < TWO_63
    modifies dAtA
    ensures j == i - LenSize(|p|)
    ensures dAtA[..] == Splice(old(dAtA[..]), j, i, LenField(num, p))
  {
    ghost var was := dAtA[..];
    var k := PutPayload(dAtA, i, p);
    j := PutHeader(dAtA, k, |p|, num);
    SpliceTwice(was, j, k, i, [8 * num + 2] + EncVarint(|p|), p);
  }

  /** A field of bytes that is left out when it is empty. */
  method PutOptBytes(dAtA: array<byte>, i: nat, num: nat, p: seq<byte>) returns (j: nat)
    requires 1 <= num <= 15 && |OptField(num, p)| <= i <= dAtA.Length && i < TWO_63
    modifies dAtA
    ensures j == i - |OptField(num, p)|
    ensures dAtA[..] == Splice(old(dAtA[..]), j, i, OptField(num, p))
  {
    j := i;
    if |p| > 0 {
      j := PutBytes(dAtA, i, num, p);
    }
  }

  /** bs stands in front of `end`, and nothing else has changed. */
  ghost predicate Written(was: seq<byte>, now: seq<byte>, i: nat, end: nat, bs: seq<byte>) {
    i + |bs| == end <= |was| && now == Splice(was, i, end, bs)
  }

  lemma NothingWritten(was: seq<byte>, end: nat)
    requires end <= |was|
    ensures Written(was, was, end, end, [])
  {
  }

  /** Writing one more piece in front of what is written. */
  lemma WrittenMore(was: seq<byte>, mid: seq<byte>, now: seq<byte>, j: nat, i: nat, end: nat,
                    front: seq<byte>, back: seq<byte>)
    requires Written(was, mid, i, end, back) && j + |front| == i <= |mid| && now == Splice(mid, j, i, front)
    ensures Written(was, now, j, end, front + back)
  {
    SpliceTwice(was, j, i, end, front, back);
  }
}
