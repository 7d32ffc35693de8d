/** Shared vocabulary of the model: results, status codes, machine integers and floats. */
module Foundation {

  datatype Option<+T> = None | Some(value: T)

  /** The status codes that the modelled calls return. */
  datatype Status =
    | Ok
    | InvalidArgument
    | ArithmeticOverflow
    | BufferTooSmall
    | LimitExceeded
    | NumericDomain
    | KernelFailed
    | InvalidTokenId
    | InvalidModelState
    | InvalidLayerState
    | InvalidPleState
    | InvalidRngState
    | IncompatiblePle
    | IncompatiblePleValue
    | IncompatibleModelExec
    | InvalidQsaState
    | Truncated
    | BadMagic
    | UnsupportedVersion
    | MalformedMetadata
    | UnsupportedMetadata
    | DuplicateMetadata
    | MalformedTensor
    | UnsupportedTensorType
    | DuplicateTensor
    | InvalidAlignment
    | SpanOutOfRange
    | InconsistentDataSection
    | TensorOwnershipMismatch

  /** A binary32 value, known only by its bit pattern: every operation on it is a kernel
      that the caller supplies, so what is proved holds for any rounding. */
  datatype F32 = F32(bits: bv32)

  const ZERO: F32 := F32(0)

  type Row = seq<F32>

  const UINT32_MAX: nat := 0xFFFF_FFFF
  const UINT64_MAX: nat := 0xFFFF_FFFF_FFFF_FFFF
  const INT64_MAX: nat := 0x7FFF_FFFF_FFFF_FFFF

  const VOCABULARY_SIZE: nat := 248320

  function Min(a: nat, b: nat): nat { if a < b then a else b }

  /** A kernel writes a fixed number of values; anything else counts as a failed kernel. */
  function Shaped<T>(row: Option<seq<T>>, width: nat): (r: Option<seq<T>>)
    ensures r.Some? ==> r == row && |r.value| == width
  {
    if row.Some? && |row.value| == width then row else None
  }

  predicate AllFinite<F>(finite: F -> bool, row: seq<F>) {
    forall i :: 0 <= i < |row| ==> finite(row[i])
  }

  method CheckFinite<F>(finite: F -> bool, row: seq<F>) returns (ok: bool)
    ensures ok <==> AllFinite(finite, row)
  {
    for i := 0 to |row|
      invariant forall j :: 0 <= j < i ==> finite(row[j])
    {
      if !finite(row[i]) {
        return false;
      }
    }
    ok := true;
  }

  /** The ids below n, in order. */
  function Ids(n: nat): (r: seq<nat>)
    ensures |r| == n && forall i :: 0 <= i < n ==> r[i] == i
  {
    seq(n, i => i)
  }

  function Pow2(k: nat): nat { if k == 0 then 1 else 2 * Pow2(k - 1) }

  function Pow256(n: nat): (r: nat)
    ensures r > 0
  {
    if n == 0 then 1 else 256 * Pow256(n - 1)
  }
}
