/** Random session identifiers: draws from a secure random source, base64-encodes them and
    draws again while the text holds a character that is not URL-friendly ('+' or '/').

    The random generator is an oracle: an `Entropy` is the whole stream of bytes the
    generator would hand out together with how much of it has been drawn already. The
    loops in the source stop only with probability one; here a method that loops states as
    its precondition that some later draw is acceptable, which is what makes it stop. */
module SessionIds {
  import opened Wrappers
  import opened Base64
  import Text

  /** Size of the byte buffer behind every session id. */
  const SessionIdBytes: nat := 15

  const UrlUnsafeBase64Chars: set<char> := {'+', '/'}

  function Base64StringContainsUrlUnfriendlyChars(base64: string): bool
  {
    Text.IndexOfAny(base64, UrlUnsafeBase64Chars) >= 0
  }

  /** The check finds exactly the texts that hold a '+' or a '/'. */
  lemma UrlUnfriendlyChars(base64: string)
    ensures Base64StringContainsUrlUnfriendlyChars(base64) <==> '+' in base64 || '/' in base64
  {
    var r := Text.IndexOfAny(base64, UrlUnsafeBase64Chars);
    if r >= 0 {
      assert base64[r] in base64;
    }
  }

  datatype Entropy = Entropy(stream: nat -> byte, pos: nat)

  /** The `n` bytes the generator hands out from position `pos` of its stream. */
  function Peek(stream: nat -> byte, pos: nat, n: nat): seq<byte>
  {
    seq(n, (i: int) requires 0 <= i < n => stream(pos + i))
  }

  /** How many bytes `k` draws of `size` bytes take from the stream. */
  function Drawn(size: nat, k: nat): nat
  {
    if k == 0 then 0 else Drawn(size, k - 1) + size
  }

  lemma {:induction false} DrawnIsProduct(size: nat, k: nat)
    ensures Drawn(size, k) == k * size
  {
    if k > 0 {
      DrawnIsProduct(size, k - 1);
    }
  }

  /** The buffer filled by the `k`-th draw of `size` bytes, counting from `e`. */
  function Candidate(e: Entropy, size: nat, k: nat): seq<byte>
  {
    Peek(e.stream, e.pos + Drawn(size, k), size)
  }

  ghost predicate Acceptable(e: Entropy, size: nat, k: nat)
  {
    !Base64StringContainsUrlUnfriendlyChars(Encode(Candidate(e, size, k)))
  }

  /** The first `k` draws from `e` were all rejected. */
  ghost predicate AllRejected(e: Entropy, size: nat, k: nat)
  {
    k == 0 || (AllRejected(e, size, k - 1) && !Acceptable(e, size, k - 1))
  }

  lemma {:induction false} AllRejectedBefore(e: Entropy, size: nat, k: nat, j: nat)
    requires AllRejected(e, size, k) && j < k
    ensures !Acceptable(e, size, j)
  {
    if j < k - 1 {
      AllRejectedBefore(e, size, k - 1, j);
    }
  }

  ghost predicate EventuallyAcceptable(e: Entropy, size: nat)
  {
    exists k: nat :: Acceptable(e, size, k)
  }

  /** From wherever the generator stands, some later session-id draw is URL-friendly. */
  ghost predicate Fair(stream: nat -> byte)
  {
    forall p: nat :: EventuallyAcceptable(Entropy(stream, p), SessionIdBytes)
  }

  predicate IsAlphaNumeric(c: char)
  {
    'A' <= c <= 'Z' || 'a' <= c <= 'z' || '0' <= c <= '9'
  }

  /** What every session id looks like: 20 letters and digits. */
  predicate WellFormedSessionId(id: string)
  {
    && |id| == 20
    && (forall i :: 0 <= i < |id| ==> IsAlphaNumeric(id[i]))
  }

  /** `id` is the base64 text of the `k`-th session-id draw counting from `e`. */
  ghost predicate DrawnSessionId(id: string, e: Entropy, k: nat)
  {
    Decode(id) == Some(Candidate(e, SessionIdBytes, k))
  }

  /** A generator standing `j` session-id draws past `e` makes as its `k`-th draw the
      `(j + k)`-th draw from `e`. */
  lemma LaterDraw(e: Entropy, later: Entropy, j: nat, k: nat)
    requires later.stream == e.stream && later.pos == e.pos + j * SessionIdBytes
    ensures Candidate(later, SessionIdBytes, k) == Candidate(e, SessionIdBytes, j + k)
  {
    DrawnIsProduct(SessionIdBytes, k);
    DrawnIsProduct(SessionIdBytes, j + k);
  }

  /** A base64 text without '+' and '/' uses only letters and digits. */
  lemma UrlFriendlyDigits(s: string)
    requires forall i :: 0 <= i < |s| ==> Value(s[i]).Some?
    requires !Base64StringContainsUrlUnfriendlyChars(s)
    ensures forall i :: 0 <= i < |s| ==> IsAlphaNumeric(s[i])
  {
    UrlUnfriendlyChars(s);
    forall i | 0 <= i < |s| ensures IsAlphaNumeric(s[i]) {
      assert s[i] in s;
    }
  }

  /** A URL-friendly encoding of whole three-byte groups uses only letters and digits
      (the "base62" of the source) and decodes to the bytes it came from. */
  lemma UrlFriendlyEncoding(bs: seq<byte>)
    requires |bs| % 3 == 0
    requires !Base64StringContainsUrlUnfriendlyChars(Encode(bs))
    ensures forall i :: 0 <= i < |Encode(bs)| ==> IsAlphaNumeric(Encode(bs)[i])
    ensures Decode(Encode(bs)) == Some(bs)
  {
    EncodeDigits(bs);
    UrlFriendlyDigits(Encode(bs));
    DecodeEncode(bs);
  }

  /** `randgen.GetBytes(bytes)`: fills the buffer with the next bytes of the stream. */
  method PopulateWithSecureRandomBytes(bytes: array<byte>, e: Entropy) returns (next: Entropy)
    modifies bytes
    ensures bytes[..] == Peek(e.stream, e.pos, bytes.Length)
    ensures next.stream == e.stream && next.pos == e.pos + bytes.Length
  {
    forall i | 0 <= i < bytes.Length {
      bytes[i] := e.stream(e.pos + i);
    }
    next := Entropy(e.stream, e.pos + bytes.Length);
  }

  /** One pass of the do-while body: refill the buffer with the next draw and encode it. */
  method DrawBase64(bytes: array<byte>, e: Entropy, ghost start: Entropy, ghost k: nat) returns (base64Id: string, next: Entropy)
    requires e.stream == start.stream && e.pos == start.pos + Drawn(bytes.Length, k)
    modifies bytes
    ensures bytes[..] == Candidate(start, bytes.Length, k)
    ensures base64Id == Encode(Candidate(start, bytes.Length, k))
    ensures next.stream == start.stream && next.pos == start.pos + Drawn(bytes.Length, k + 1)
  {
    next := PopulateWithSecureRandomBytes(bytes, e);
    base64Id := Encode(bytes[..]);
  }

  /** Draws `size` bytes at a time until their base64 text is URL-friendly. `rejected`
      counts the draws thrown away: the result is the first acceptable draw. */
  method CreateRandomBase62Id(size: nat, e: Entropy) returns (base64Id: string, next: Entropy, ghost rejected: nat)
    requires EventuallyAcceptable(e, size)
    ensures !Base64StringContainsUrlUnfriendlyChars(base64Id)
    ensures base64Id == Encode(Candidate(e, size, rejected))
    ensures forall j: nat :: j < rejected ==> !Acceptable(e, size, j)
    ensures next.stream == e.stream && next.pos == e.pos + Drawn(size, rejected + 1)
  {
    var bytes := new byte[size];
    ghost var goal: nat :| Acceptable(e, size, goal);
    rejected := 0;
    base64Id, next := DrawBase64(bytes, e, e, 0);
    while Base64StringContainsUrlUnfriendlyChars(base64Id)
      invariant bytes.Length == size
      invariant rejected <= goal
      invariant base64Id == Encode(Candidate(e, size, rejected))
      invariant next.stream == e.stream && next.pos == e.pos + Drawn(size, rejected + 1)
      invariant AllRejected(e, size, rejected)
      decreases goal - rejected
    {
      rejected := rejected + 1;
      base64Id, next := DrawBase64(bytes, next, e, rejected);
    }
    forall j: nat | j < rejected ensures !Acceptable(e, size, j) {
      AllRejectedBefore(e, size, rejected, j);
    }
  }

  /** A fresh session id: the first URL-friendly encoding of a 15-byte draw. */
  method CreateRandomSessionId(e: Entropy) returns (base64Id: string, next: Entropy, ghost rejected: nat)
    requires EventuallyAcceptable(e, SessionIdBytes)
    ensures WellFormedSessionId(base64Id)
    ensures Decode(base64Id) == Some(Candidate(e, SessionIdBytes, rejected))
    ensures |Candidate(e, SessionIdBytes, rejected)| == SessionIdBytes
    ensures forall j: nat :: j < rejected ==> !Acceptable(e, SessionIdBytes, j)
    ensures next.stream == e.stream && next.pos == e.pos + (rejected + 1) * SessionIdBytes
  {
    base64Id, next, rejected := CreateRandomBase62Id(SessionIdBytes, e);
    DrawnIsProduct(SessionIdBytes, rejected + 1);
    EncodeLength(Candidate(e, SessionIdBytes, rejected));
    UrlFriendlyEncoding(Candidate(e, SessionIdBytes, rejected));
  }

  /** One draw of `size` bytes, encoded as it comes (no URL-friendliness filter). */
  method CreateRandomBase64Id(e: Entropy, size: nat := 15) returns (base64Id: string, next: Entropy)
    ensures base64Id == Encode(Peek(e.stream, e.pos, size))
    ensures |base64Id| == (size + 2) / 3 * 4
    ensures Decode(base64Id) == Some(Peek(e.stream, e.pos, size))
    ensures next.stream == e.stream && next.pos == e.pos + size
  {
    var data := new byte[size];
    next := PopulateWithSecureRandomBytes(data, e);
    base64Id := Encode(data[..]);
    EncodeLength(data[..]);
    DecodeEncode(data[..]);
  }
}
