/** Bytes, digests, errors and the foreign primitives every other module uses.

    A Rust `String` is its UTF-8 bytes, so text is a byte sequence here: lengths, equality,
    ordering and hashing are all byte-wise in the original too.

    SHA-256 is an arbitrary but fixed total function from bytes to 32-byte digests. Nothing about
    it is assumed; results that need it to be strong return an explicit collision or an explicit
    preimage of the all-zero digest instead (see `Break`). */
module Basics {
  type byte = b: int | 0 <= b < 256
  type Bytes = seq<byte>
  type Text = Bytes

  const HASH_LEN := 32
  type Digest = d: Bytes | |d| == HASH_LEN witness Zeros(HASH_LEN)
  const ZERO_HASH: Digest := Zeros(HASH_LEN)

  function Zeros(n: nat): (z: Bytes)
    ensures |z| == n
    ensures forall i | 0 <= i < n :: z[i] == 0
  {
    if n == 0 then [] else [0] + Zeros(n - 1)
  }

  const SHA256: Bytes -> Digest

  function Sha256(message: Bytes): Digest {
    SHA256(message)
  }

  datatype Option<+T> = None | Some(value: T)

  datatype Result<+T> = Ok(value: T) | Err(error: LogError)

  /** `SecureLogError`, with the message strings replaced by a named cause. */
  datatype LogError =
    | EntryNotFound(entry: nat)
    | StreamNotFound(stream: Text)
    | ChainBroken(seqno: nat, breach: Breach)
    | InclusionMismatch(leafSeqno: nat, segment: nat)
    | SegmentNotFound(segmentId: nat)
    | EmptySegment(emptyStream: Text)
    | Storage(storageCause: Cause)
    | Encoding
    | Invalid(cause: Cause)
    | Panicked

  datatype Breach =
    | PrevHashMismatch
    | ContentMismatch
    | CheckpointDrift
    | SignatureMismatch
    | RolledBack
    | CheckpointMismatch
    | WitnessDivergence

  datatype Cause =
    | DigestLength
    | ReversedRange
    | DeprecatedStream
    | MissingMasterKey
    | UnknownTier
    | UnknownEncoding
    | Unsigned
    | MissingSigner
    | SignFailed
    | VerifyFailed
    | UniqueSeqno
    | WrongSeqno
    | UnknownSegment
    | UnknownStream
    | BadHeadRecord
    | NoSignedSegment
    | EmptyConfig

  /** What someone who defeats a binding argument must have found. */
  datatype Break =
    | Collision(left: Bytes, right: Bytes)
    | ZeroPreimage(message: Bytes)
  {
    predicate Genuine() {
      match this
      case Collision(left, right) => left != right && Sha256(left) == Sha256(right)
      case ZeroPreimage(message) => Sha256(message) == ZERO_HASH
    }
  }

  function DigestFromVec(v: Bytes): (r: Result<Digest>)
    ensures r.Ok? <==> |v| == HASH_LEN
    ensures r.Ok? ==> r.value == v
    ensures r.Err? ==> r.error == Invalid(DigestLength)
  {
    if |v| != HASH_LEN then Err(Invalid(DigestLength)) else Ok(v)
  }

  /** The bytes of an ASCII literal. */
  function Ascii(s: string): (t: Text)
    ensures |t| == |s|
    ensures forall i | 0 <= i < |s| && s[i] < '\U{80}' :: t[i] == s[i] as int
  {
    seq(|s|, i requires 0 <= i < |s| => s[i] as int % 256)
  }

  function Last<T>(s: seq<T>): T
    requires s != []
  {
    s[|s| - 1]
  }

  function Front<T>(s: seq<T>): seq<T>
    requires s != []
  {
    s[..|s| - 1]
  }
}
