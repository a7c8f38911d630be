/** Types and facts shared by every part of the model. */
module Common {

  datatype Option<+T> = None | Some(value: T)

  type Byte = b: int | 0 <= b < 0x100
  type Word16 = w: int | 0 <= w < 0x1_0000
  type Word32 = w: int | 0 <= w < 0x1_0000_0000

  /** `u32::wrapping_add`. */
  function WrappingAdd(a: Word32, b: int): (r: Word32)
    requires 0 <= b
  {
    (a + b) % 0x1_0000_0000
  }

  /** `u32::saturating_add(1)`. */
  function SaturatingSucc(a: Word32): Word32 {
    if a == 0xFFFF_FFFF then a else a + 1
  }

  function Min(a: int, b: int): int {
    if a <= b then a else b
  }

  function Max(a: int, b: int): int {
    if a >= b then a else b
  }

  /** An instant, in nanoseconds since the epoch. */
  type Time = int

  const SECOND: int := 1_000_000_000

  /** `chrono::Duration::num_seconds` of `later - earlier`: truncated toward zero. */
  function SecondsBetween(later: Time, earlier: Time): int {
    if later >= earlier then (later - earlier) / SECOND else -((earlier - later) / SECOND)
  }

  ghost predicate Distinct<T>(s: seq<T>) {
    forall i, j :: 0 <= i < j < |s| ==> s[i] != s[j]
  }

  /** A sequence without repetition has as many members as elements. */
  lemma {:induction false} DistinctCardinality<T>(s: seq<T>)
    requires Distinct(s)
    ensures |set x | x in s| == |s|
  {
    if |s| > 0 {
      var n := |s| - 1;
      DistinctCardinality(s[..n]);
      assert (set x | x in s) == (set x | x in s[..n]) + {s[n]};
      assert s[n] !in s[..n];
    }
  }

  /** No more than `n` distinct numbers lie below `n`. */
  lemma {:induction false} Pigeonhole(s: seq<nat>, n: nat)
    requires Distinct(s)
    requires forall i :: 0 <= i < |s| ==> s[i] < n
    ensures |s| <= n
    decreases n
  {
    if |s| > 0 {
      assert s[0] < n;
      if k :| 0 <= k < |s| && s[k] == n - 1 {
        var rest := s[..k] + s[k + 1..];
        forall i | 0 <= i < |rest| ensures rest[i] < n - 1 {
          assert rest[i] == if i < k then s[i] else s[i + 1];
        }
        forall i, j | 0 <= i < j < |rest| ensures rest[i] != rest[j] {
          assert rest[i] == if i < k then s[i] else s[i + 1];
          assert rest[j] == if j < k then s[j] else s[j + 1];
        }
        Pigeonhole(rest, n - 1);
      } else {
        Pigeonhole(s, n - 1);
      }
    }
  }
}
