/** Small types shared by every module of the model. */
module Prelude {

  datatype Option<+T> = None | Some(value: T)

  datatype Result<+T, +E> = Ok(value: T) | Err(error: E)

  /** An octet. */
  type byte = x: int | 0 <= x < 256

  /** A connection ID; the zero-length ID is `[]`. */
  type Cid = seq<byte>

  /** A stateless reset token (16 octets on the wire). */
  type Token = seq<byte>

  /** An instant of the monotonic clock, in arbitrary ticks. */
  type Time = int

  function Min(a: int, b: int): int {
    if a <= b then a else b
  }

  function Max(a: int, b: int): int {
    if a <= b then b else a
  }

  function SaturatingSub(a: nat, b: nat): nat {
    if a < b then 0 else a - b
  }

  datatype IpAddr = V4(octets: seq<byte>) | V6(octets: seq<byte>)

  datatype SocketAddr = SocketAddr(ip: IpAddr, port: nat)

  lemma Subset<T>(a: set<T>, b: set<T>)
    requires a <= b
    ensures |a| <= |b| && (|a| == |b| ==> a == b)
  {
    assert b == a + (b - a);
    assert |b| == |a| + |b - a|;
    if |a| == |b| {
      assert b - a == {};
    }
  }
}
