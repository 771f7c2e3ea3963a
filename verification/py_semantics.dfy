/**
 * The few pieces of Python and PyTorch behaviour the trainer and the network
 * rely on: the exceptions they can raise, `None`, floor division and modulo,
 * clamping slices, negative indexing and `str.find`.
 */
module PySemantics {

  /** The exceptions the modelled code can raise. */
  datatype PyError =
    | ZeroDivisionError
    | IndexError
      /** A layer received a tensor whose channel count differs from its declared input width. */
    | ChannelMismatch(layer: string, expected: nat, got: nat)
      /** `torch.cat` received tensors whose non-channel dimensions differ. */
    | SizeMismatch
      /** Pooling would produce an empty spatial dimension. */
    | OutputTooSmall(layer: string)
      /** The crop target is larger than the map being cropped. */
    | CropTooLarge

  /** A computation that either returns a value or raises. */
  datatype Result<+T> = Ok(value: T) | Err(error: PyError) {
    predicate IsFailure() {
      Err?
    }

    function PropagateFailure<U>(): Result<U>
      requires Err?
    {
      Err(error)
    }

    function Extract(): T
      requires Ok?
    {
      value
    }
  }

  /** Python's `None` or a value. */
  datatype Option<+T> = None | Some(value: T)

  function Min(a: int, b: int): int {
    if a <= b then a else b
  }

  function Max(a: int, b: int): int {
    if a >= b then a else b
  }

  /** Python's `a // b`: the quotient rounded towards negative infinity. */
  function FloorDiv(a: int, b: int): (q: Result<int>)
    ensures q.Err? <==> b == 0
    ensures q.Err? ==> q.error == ZeroDivisionError
  {
    if b == 0 then Err(ZeroDivisionError)
    else if b > 0 || a % b == 0 then Ok(a / b)
    else Ok(a / b - 1)
  }

  /** Python's `a % b`: the remainder takes the sign of the divisor. */
  function Mod(a: int, b: int): (m: Result<int>)
    ensures m.Err? <==> b == 0
    ensures m.Err? ==> m.error == ZeroDivisionError
    ensures m.Ok? && b > 0 ==> 0 <= m.value < b
    ensures m.Ok? && b < 0 ==> b < m.value <= 0
    ensures m.Ok? ==> (m.value == 0 <==> a % b == 0)
  {
    if b == 0 then Err(ZeroDivisionError)
    else if b < 0 && a % b != 0 then Ok(a % b + b)
    else Ok(a % b)
  }

  /** `a // b` is the largest integer `q` with `q * b` not past `a` on the side of `b`'s sign: `a / b` rounded down. */
  lemma FloorDivRoundsDown(a: int, b: int)
    requires b != 0
    ensures var q := FloorDiv(a, b).value;
      && (b > 0 ==> b * q <= a < b * q + b)
      && (b < 0 ==> b * q + b < a <= b * q)
  {
    var q := FloorDiv(a, b).value;
    if b < 0 && a % b != 0 {
      assert a == b * (a / b) + a % b;
      assert b * q == b * (a / b) - b;
    }
  }

  /** Floor division and modulo fit together as Python promises: `a == b * (a // b) + a % b`. */
  lemma DivModIdentity(a: int, b: int)
    requires b != 0
    ensures a == b * FloorDiv(a, b).value + Mod(a, b).value
  {
    if b < 0 && a % b != 0 {
      calc {
        b * FloorDiv(a, b).value + Mod(a, b).value;
        b * (a / b - 1) + (a % b + b);
        b * (a / b) + a % b;
      }
    }
  }

  /** Where a slice bound lands in a sequence of length `n`: negative bounds count from the end, and both ends clamp. */
  function SliceBound(i: int, n: nat): (k: nat)
    ensures k <= n
    ensures 0 <= i <= n ==> k == i
  {
    if i < 0 then Max(i + n, 0) else Min(i, n)
  }

  /** Python's `s[lo:hi]`: never raises, and an empty window when `lo` lands after `hi`. */
  function Slice<T>(s: seq<T>, lo: int, hi: int): (r: seq<T>)
    ensures |r| == Max(0, SliceBound(hi, |s|) - SliceBound(lo, |s|))
    ensures forall j :: 0 <= j < |r| ==> r[j] == s[SliceBound(lo, |s|) + j]
  {
    var a := SliceBound(lo, |s|);
    var b := SliceBound(hi, |s|);
    if a <= b then s[a..b] else []
  }

  /** Python's `s[i]`, with negative indices counting from the end. */
  function At<T>(s: seq<T>, i: int): (r: Result<T>)
    ensures r.Err? <==> i < -|s| || |s| <= i
    ensures r.Err? ==> r.error == IndexError
    ensures r.Ok? && 0 <= i ==> r.value == s[i]
    ensures r.Ok? && i < 0 ==> r.value == s[|s| + i]
  {
    if i < -|s| || |s| <= i then Err(IndexError)
    else if i < 0 then Ok(s[|s| + i])
    else Ok(s[i])
  }

  /** `sub` occurs in `s` starting at index `i`. */
  predicate OccursAt(s: string, sub: string, i: int) {
    0 <= i && i + |sub| <= |s| && s[i..i + |sub|] == sub
  }

  /** `sub` is a substring of `s`. */
  predicate Contains(s: string, sub: string) {
    exists i | 0 <= i <= |s| - |sub| :: OccursAt(s, sub, i)
  }

  /** The first occurrence of `sub` in `s` at or after `from`, or -1. */
  function FindFrom(s: string, sub: string, from: nat): (r: int)
    decreases |s| - from
    ensures r == -1 || (from <= r && OccursAt(s, sub, r))
    ensures forall j :: from <= j && (r == -1 || j < r) ==> !OccursAt(s, sub, j)
  {
    if from + |sub| > |s| then -1
    else if s[from..from + |sub|] == sub then from
    else FindFrom(s, sub, from + 1)
  }

  /** Python's `s.find(sub)`: the lowest index where `sub` occurs, or -1 when it occurs nowhere. */
  function Find(s: string, sub: string): (r: int)
    ensures r == -1 <==> !Contains(s, sub)
    ensures r != -1 ==> OccursAt(s, sub, r) && forall j :: 0 <= j < r ==> !OccursAt(s, sub, j)
  {
    FindFrom(s, sub, 0)
  }

  /** A string in which some character of `sub` never appears cannot contain `sub`. */
  lemma MissingCharNotContained(s: string, sub: string, k: nat)
    requires k < |sub|
    requires forall j :: 0 <= j < |s| ==> s[j] != sub[k]
    ensures !Contains(s, sub)
  {
    forall i | 0 <= i <= |s| - |sub|
      ensures !OccursAt(s, sub, i)
    {
      assert s[i + k] == s[i..i + |sub|][k];
    }
  }
}
