/** Names in DNS messages: labels, compression pointers, and when following them comes to an end. */
module DnsNames {
  import opened Common

  type Utf8 = seq<Byte> -> bool

  // ----- one step of the decoder -----

  datatype Step =
    | Stop(next: nat)
    | Follow(target: nat, next: nat)
    | Label(next: nat, text: seq<Byte>)
    | Broken

  /** What the decoder finds at an offset: the root, a pointer, a label, or something it gives up on. */
  function StepAt(data: seq<Byte>, offset: nat, utf8: Utf8): Step {
    if offset >= |data| then Broken
    else
      var b: int := data[offset];
      if b == 0 then Stop(offset + 1)
      else if b >= 0xC0 then
        if offset + 1 >= |data| then Broken else Follow(b % 64 * 0x100 + data[offset + 1], offset + 2)
      else if offset + 1 + b > |data| || !utf8(data[offset + 1..offset + 1 + b]) then Broken
      else Label(offset + 1 + b, data[offset + 1..offset + 1 + b])
  }

  /** Where the decoder is one step later, if it goes on. */
  function Onward(step: Step): Option<nat> {
    match step
    case Follow(target, _) => Some(target)
    case Label(next, _) => Some(next)
    case _ => None
  }

  // ----- coming to an end -----

  predicate HaltsWithin(data: seq<Byte>, offset: nat, utf8: Utf8, n: nat)
    decreases n
  {
    n > 0
    && var on := Onward(StepAt(data, offset, utf8));
       on.None? || HaltsWithin(data, on.value, utf8, n - 1)
  }

  /** The decoder returns at all: there is no guard against pointers in a circle. */
  ghost predicate Halts(data: seq<Byte>, offset: nat, utf8: Utf8) {
    exists n: nat :: HaltsWithin(data, offset, utf8, n)
  }

  /** The offset after `k` steps, if the decoder goes that far. */
  function Orbit(data: seq<Byte>, offset: nat, utf8: Utf8, k: nat): Option<nat>
    decreases k
  {
    if k == 0 then Some(offset)
    else
      var on := Onward(StepAt(data, offset, utf8));
      if on.None? then None else Orbit(data, on.value, utf8, k - 1)
  }

  lemma {:induction false} HaltsLonger(data: seq<Byte>, offset: nat, utf8: Utf8, m: nat, n: nat)
    requires HaltsWithin(data, offset, utf8, m) && m <= n
    ensures HaltsWithin(data, offset, utf8, n)
    decreases m
  {
    hide StepAt, Onward;
    var on := Onward(StepAt(data, offset, utf8));
    if on.Some? {
      HaltsLonger(data, on.value, utf8, m - 1, n - 1);
    }
  }

  /** Whoever has not halted after `k` steps is inside the message. */
  lemma {:induction false} OrbitInside(data: seq<Byte>, offset: nat, utf8: Utf8, k: nat, n: nat)
    requires !HaltsWithin(data, offset, utf8, n) && k < n
    ensures Orbit(data, offset, utf8, k).Some? && Orbit(data, offset, utf8, k).value < |data|
    decreases k
  {
    if k > 0 {
      OrbitInside(data, Onward(StepAt(data, offset, utf8)).value, utf8, k - 1, n - 1);
    }
  }

  lemma {:induction false} HaltsFromOrbit(data: seq<Byte>, offset: nat, utf8: Utf8, k: nat, n: nat)
    requires Orbit(data, offset, utf8, k).Some? && HaltsWithin(data, offset, utf8, n)
    ensures k < n && HaltsWithin(data, Orbit(data, offset, utf8, k).value, utf8, n - k)
    decreases k
  {
    hide StepAt, Onward;
    if k > 0 {
      HaltsFromOrbit(data, Onward(StepAt(data, offset, utf8)).value, utf8, k - 1, n - 1);
    }
  }

  lemma {:induction false} OrbitAdds(data: seq<Byte>, offset: nat, utf8: Utf8, i: nat, k: nat)
    requires Orbit(data, offset, utf8, i).Some?
    ensures Orbit(data, offset, utf8, i + k) == Orbit(data, Orbit(data, offset, utf8, i).value, utf8, k)
    decreases i
  {
    hide StepAt, Onward;
    if i > 0 {
      OrbitAdds(data, Onward(StepAt(data, offset, utf8)).value, utf8, i - 1, k);
    }
  }

  /** An offset that comes round to itself never leads to an end. */
  lemma {:induction false} CircleNeverHalts(data: seq<Byte>, offset: nat, utf8: Utf8, k: nat, n: nat)
    requires k > 0 && Orbit(data, offset, utf8, k) == Some(offset)
    ensures !HaltsWithin(data, offset, utf8, n)
    decreases n
  {
    if HaltsWithin(data, offset, utf8, n) {
      HaltsFromOrbit(data, offset, utf8, k, n);
      CircleNeverHalts(data, offset, utf8, k, n - k);
    }
  }

  /** Still going after as many steps as the message has bytes, it has come round to an offset again. */
  lemma LongWalkIsACircle(data: seq<Byte>, offset: nat, utf8: Utf8) returns (i: nat, k: nat)
    requires !HaltsWithin(data, offset, utf8, |data| + 1)
    ensures k > 0 && Orbit(data, offset, utf8, i).Some?
    ensures var at := Orbit(data, offset, utf8, i).value; Orbit(data, at, utf8, k) == Some(at)
  {
    hide HaltsWithin, Orbit;
    forall j: nat | j <= |data|
      ensures Orbit(data, offset, utf8, j).Some? && Orbit(data, offset, utf8, j).value < |data|
    {
      OrbitInside(data, offset, utf8, j, |data| + 1);
    }
    var visited: seq<nat> :=
      seq(|data| + 1, j requires 0 <= j <= |data| && Orbit(data, offset, utf8, j).Some? =>
        Orbit(data, offset, utf8, j).value);
    if Distinct(visited) {
      Pigeonhole(visited, |data|);
      assert false;
    }
    var first, again :| 0 <= first < again < |visited| && visited[first] == visited[again];
    i, k := first, again - first;
    OrbitAdds(data, offset, utf8, i, k);
  }

  /** If the decoder ever halts, it does so within as many steps as the message has bytes, and one. */
  lemma HaltsWithinLength(data: seq<Byte>, offset: nat, utf8: Utf8)
    ensures Halts(data, offset, utf8) <==> HaltsWithin(data, offset, utf8, |data| + 1)
  {
    hide HaltsWithin, Orbit;
    if Halts(data, offset, utf8) && !HaltsWithin(data, offset, utf8, |data| + 1) {
      var n: nat :| HaltsWithin(data, offset, utf8, n);
      var i, k := LongWalkIsACircle(data, offset, utf8);
      HaltsFromOrbit(data, offset, utf8, i, n);
      CircleNeverHalts(data, Orbit(data, offset, utf8, i).value, utf8, k, n - i);
    }
  }

  // ----- pointers to prior occurrences -----

  /**
   * Every pointer that is followed targets something before the start of the run of labels it ends:
   * the prior occurrence of section 4.1.4 of RFC 1035.
   */
  predicate PointsBack(data: seq<Byte>, runStart: nat, offset: nat, utf8: Utf8)
    decreases runStart, |data| - offset
  {
    match StepAt(data, offset, utf8)
    case Follow(target, _) => target < runStart && PointsBack(data, target, target, utf8)
    case Label(next, _) => PointsBack(data, runStart, next, utf8)
    case _ => true
  }

  /** Such a name always comes to an end. */
  lemma {:induction false} PointingBackHalts(data: seq<Byte>, runStart: nat, offset: nat, utf8: Utf8)
    requires PointsBack(data, runStart, offset, utf8)
    ensures Halts(data, offset, utf8)
    decreases runStart, |data| - offset
  {
    var on := Onward(StepAt(data, offset, utf8));
    if on.None? {
      assert HaltsWithin(data, offset, utf8, 1);
    } else {
      if StepAt(data, offset, utf8).Follow? {
        PointingBackHalts(data, on.value, on.value, utf8);
      } else {
        PointingBackHalts(data, runStart, on.value, utf8);
      }
      var n: nat :| HaltsWithin(data, on.value, utf8, n);
      assert HaltsWithin(data, offset, utf8, n + 1);
    }
  }

  /** A pointer to itself, at the place where the first name of a message is, holds the decoder for ever. */
  lemma PointerToItselfNeverHalts(data: seq<Byte>, utf8: Utf8)
    requires |data| >= 14 && data[12] == 0xC0 && data[13] == 12
    ensures !Halts(data, 12, utf8)
  {
    assert StepAt(data, 12, utf8) == Follow(12, 14);
    assert Orbit(data, 12, utf8, 1) == Orbit(data, 12, utf8, 0) == Some(12);
    forall n: nat ensures !HaltsWithin(data, 12, utf8, n) {
      CircleNeverHalts(data, 12, utf8, 1, n);
    }
  }

  // ----- what a name says -----

  /** The labels along the way, or nothing when the way is broken. */
  function Labels(data: seq<Byte>, offset: nat, utf8: Utf8, n: nat): Option<seq<seq<Byte>>>
    requires HaltsWithin(data, offset, utf8, n)
    decreases n
  {
    match StepAt(data, offset, utf8)
    case Stop(_) => Some([])
    case Broken => None
    case Follow(target, _) => Labels(data, target, utf8, n - 1)
    case Label(next, text) =>
      var rest := Labels(data, next, utf8, n - 1);
      if rest.None? then None else Some([text] + rest.value)
  }

  lemma {:induction false} LabelsAnyBound(data: seq<Byte>, offset: nat, utf8: Utf8, m: nat, n: nat)
    requires HaltsWithin(data, offset, utf8, m) && HaltsWithin(data, offset, utf8, n)
    ensures Labels(data, offset, utf8, m) == Labels(data, offset, utf8, n)
    decreases m
  {
    var on := Onward(StepAt(data, offset, utf8));
    if on.Some? {
      LabelsAnyBound(data, on.value, utf8, m - 1, n - 1);
    }
  }

  const DOT: Byte := 46

  function Join(labels: seq<seq<Byte>>): seq<Byte> {
    if labels == [] then []
    else if |labels| == 1 then labels[0]
    else labels[0] + [DOT] + Join(labels[1..])
  }

  ghost predicate DotFree(labels: seq<seq<Byte>>) {
    labels != [] && forall i :: 0 <= i < |labels| ==> 46 !in labels[i]
  }

  /** The first label is what comes before the first dot, and the others are behind it. */
  lemma FirstLabel(labels: seq<seq<Byte>>)
    requires DotFree(labels)
    ensures var name, n := Join(labels), |labels[0]|;
            && n <= |name| && name[..n] == labels[0] && 46 !in name[..n]
            && if |labels| == 1 then n == |name|
               else n < |name| && name[n] == 46 && name[n + 1..] == Join(labels[1..])
  {
  }

  lemma FirstDot(name: seq<Byte>, m: nat, n: nat)
    requires m <= |name| && n <= |name| && 46 !in name[..m] && 46 !in name[..n]
    requires (m < |name| ==> name[m] == 46) && (n < |name| ==> name[n] == 46)
    ensures m == n
  {
    var front, other := name[..n], name[..m];
    assert forall i :: 0 <= i < n ==> front[i] != 46;
    assert forall i :: 0 <= i < m ==> other[i] != 46;
  }

  /** Labels without dots in them: a name says which labels it has. */
  lemma {:induction false} JoinIsInjective(a: seq<seq<Byte>>, b: seq<seq<Byte>>)
    requires DotFree(a) && DotFree(b) && Join(a) == Join(b)
    ensures a == b
    decreases |a|
  {
    hide Join;
    FirstLabel(a);
    FirstLabel(b);
    FirstDot(Join(a), |a[0]|, |b[0]|);
    if |a| > 1 {
      JoinIsInjective(a[1..], b[1..]);
      assert a == [a[0]] + a[1..] && b == [b[0]] + b[1..];
    }
  }

  /** Where the name ends on the wire: behind the root, or behind the first pointer. */
  function WireEnd(data: seq<Byte>, offset: nat, utf8: Utf8): Option<nat>
    decreases |data| - offset
  {
    match StepAt(data, offset, utf8)
    case Stop(next) => Some(next)
    case Follow(_, next) => Some(next)
    case Label(next, _) => WireEnd(data, next, utf8)
    case Broken => None
  }

  datatype Outcome<+T> = Hangs | Returns(value: T)

  /** A decoded name and the offset behind it. */
  datatype Named = Named(name: seq<Byte>, next: nat)

  /** What the decoder answers, or that it never does; a name without labels is not one. */
  function Decoded(data: seq<Byte>, offset: nat, utf8: Utf8): Outcome<Option<Named>> {
    if !HaltsWithin(data, offset, utf8, |data| + 1) then Hangs
    else
      var labels := Labels(data, offset, utf8, |data| + 1);
      var next := WireEnd(data, offset, utf8);
      if labels.None? || labels.value == [] || next.None? then Returns(None)
      else Returns(Some(Named(Join(labels.value), next.value)))
  }

  /** The labels are all there only if the part on the wire is. */
  lemma {:induction false} LabelsNeedWireEnd(data: seq<Byte>, offset: nat, utf8: Utf8, n: nat)
    requires HaltsWithin(data, offset, utf8, n) && Labels(data, offset, utf8, n).Some?
    ensures WireEnd(data, offset, utf8).Some?
    decreases n
  {
    var step := StepAt(data, offset, utf8);
    if step.Label? {
      LabelsNeedWireEnd(data, step.next, utf8, n - 1);
    }
  }

  /** Between two steps of the loop: what is behind and what is ahead make up the name. */
  ghost predicate Underway(data: seq<Byte>, start: nat, offset: nat, utf8: Utf8, left: nat,
                           labels: seq<seq<Byte>>, end: Option<nat>)
  {
    && HaltsWithin(data, start, utf8, |data| + 1) && HaltsWithin(data, offset, utf8, left)
    && (var ahead := Labels(data, offset, utf8, left);
        Labels(data, start, utf8, |data| + 1) == if ahead.None? then None else Some(labels + ahead.value))
    && WireEnd(data, start, utf8) == if end.Some? then end else WireEnd(data, offset, utf8)
  }

  lemma UnderwayStep(data: seq<Byte>, start: nat, offset: nat, utf8: Utf8, left: nat, labels: seq<seq<Byte>>,
                     end: Option<nat>)
    requires Underway(data, start, offset, utf8, left, labels, end)
    ensures left > 0
    ensures var step := StepAt(data, offset, utf8);
            && (step.Follow? ==>
                  Underway(data, start, step.target, utf8, left - 1, labels,
                           if end.None? then Some(step.next) else end))
            && (step.Label? ==> Underway(data, start, step.next, utf8, left - 1, labels + [step.text], end))
            && (step.Broken? ==> Decoded(data, start, utf8) == Returns(None))
            && (step.Stop? ==>
                  Decoded(data, start, utf8)
                  == Returns(if labels == [] then None
                             else Some(Named(Join(labels), if end.None? then step.next else end.value))))
  {
    var step := StepAt(data, offset, utf8);
    if step.Label? {
      var ahead := Labels(data, step.next, utf8, left - 1);
      if ahead.Some? {
        assert labels + ([step.text] + ahead.value) == labels + [step.text] + ahead.value;
      }
    } else if step.Stop? {
      assert labels + [] == labels;
    }
  }

  /** The loop of `decode_name`, on any name on which it ends. */
  method DecodeName(data: seq<Byte>, start: nat, utf8: Utf8) returns (r: Option<Named>)
    requires Halts(data, start, utf8)
    ensures Returns(r) == Decoded(data, start, utf8)
  {
    hide Underway, Decoded, HaltsWithin;
    HaltsWithinLength(data, start, utf8);
    ghost var left: nat := |data| + 1;
    var labels: seq<seq<Byte>> := [];
    var offset: nat, end: Option<nat> := start, None;
    NothingBehind(data, start, utf8);
    while true
      invariant Underway(data, start, offset, utf8, left, labels, end)
      decreases left
    {
      UnderwayStep(data, start, offset, utf8, left, labels, end);
      left := left - 1;
      if offset >= |data| {
        return None;
      }
      var b: int := data[offset];
      if b == 0 {
        if end.None? {
          end := Some(offset + 1);
        }
        break;
      }
      if b >= 0xC0 {
        if offset + 1 >= |data| {
          return None;
        }
        if end.None? {
          end := Some(offset + 2);
        }
        offset := b % 64 * 0x100 + data[offset + 1];
        continue;
      }
      if offset + 1 + b > |data| {
        return None;
      }
      var text := data[offset + 1..offset + 1 + b];
      if !utf8(text) {
        return None;
      }
      labels := labels + [text];
      offset := offset + 1 + b;
    }
    if labels == [] {
      return None;
    }
    r := Some(Named(Join(labels), end.value));
  }

  lemma NothingBehind(data: seq<Byte>, start: nat, utf8: Utf8)
    requires HaltsWithin(data, start, utf8, |data| + 1)
    ensures Underway(data, start, start, utf8, |data| + 1, [], None)
  {
    var ahead := Labels(data, start, utf8, |data| + 1);
    assert ahead.Some? ==> [] + ahead.value == ahead.value;
  }

  // ----- skipping -----

  function Skipped(data: seq<Byte>, offset: nat): Option<nat>
    decreases |data| - offset
  {
    if offset >= |data| then None
    else if data[offset] == 0 then Some(offset + 1)
    else if data[offset] >= 0xC0 then Some(offset + 2)
    else if offset + 1 + data[offset] > |data| then None
    else Skipped(data, offset + 1 + data[offset])
  }

  method SkipName(data: seq<Byte>, start: nat) returns (r: Option<nat>)
    ensures r == Skipped(data, start)
  {
    var offset := start;
    while offset < |data|
      invariant Skipped(data, start) == Skipped(data, offset)
      decreases |data| - offset
    {
      var len := data[offset];
      if len == 0 {
        return Some(offset + 1);
      }
      if len >= 0xC0 {
        return Some(offset + 2);
      }
      if offset + 1 + len > |data| {
        return None;
      }
      offset := offset + 1 + len;
    }
    r := None;
  }

  lemma {:induction false} SkipFindsWireEnd(data: seq<Byte>, offset: nat, utf8: Utf8)
    requires WireEnd(data, offset, utf8).Some?
    ensures Skipped(data, offset) == WireEnd(data, offset, utf8)
    decreases |data| - offset
  {
    var step := StepAt(data, offset, utf8);
    if step.Label? {
      SkipFindsWireEnd(data, step.next, utf8);
    }
  }

  /** Whenever a name decodes, skipping it ends at the same offset. */
  lemma SkipAgreesWithDecode(data: seq<Byte>, offset: nat, utf8: Utf8)
    requires Decoded(data, offset, utf8).Returns? && Decoded(data, offset, utf8).value.Some?
    ensures Skipped(data, offset) == Some(Decoded(data, offset, utf8).value.value.next)
  {
    SkipFindsWireEnd(data, offset, utf8);
  }
}
