/** The country database: ranges sorted once, a lookup by bisection, and codes held once. */
module Geo {
  import opened Common

  datatype Range = Range(start: Word32, end: Word32, country: Word16)

  datatype Database = Database(ranges: seq<Range>, codes: seq<string>)

  /** A line of the list after splitting: the two addresses if they parse, and the third field. */
  datatype Row = Row(first: Option<Word32>, last: Option<Word32>, code: string)

  // ----- codes -----

  function Upper(c: char): char {
    if 'a' <= c <= 'z' then ((c as int) - 32) as char else c
  }

  function Uppercase(s: string): (r: string)
    ensures |r| == |s|
  {
    seq(|s|, i requires 0 <= i < |s| => Upper(s[i]))
  }

  predicate IsCode(code: string) {
    |code| == 2 && ('A' <= code[0] <= 'Z') && ('A' <= code[1] <= 'Z')
  }

  predicate Usable(row: Row) {
    row.first.Some? && row.last.Some? && IsCode(Uppercase(row.code))
  }

  predicate IsLetter(c: char) {
    'A' <= c <= 'Z' || 'a' <= c <= 'z'
  }

  /** A row counts when both addresses parse and its code is two ASCII letters, of either case. */
  lemma UsableIff(row: Row)
    ensures Usable(row)
            <==> row.first.Some? && row.last.Some? && |row.code| == 2 && IsLetter(row.code[0]) && IsLetter(row.code[1])
    ensures Usable(row) ==> forall i :: 0 <= i < 2 ==>
              Uppercase(row.code)[i] as int == row.code[i] as int - if row.code[i] > 'Z' then 32 else 0
  {
  }

  function IndexOf(codes: seq<string>, code: string): (r: Option<nat>)
    ensures r.Some? ==> r.value < |codes| && codes[r.value] == code
    ensures r.None? ==> code !in codes
  {
    if codes == [] then None
    else if codes[0] == code then Some(0)
    else
      var rest := IndexOf(codes[1..], code);
      assert codes == [codes[0]] + codes[1..];
      if rest.Some? then Some(rest.value + 1) else None
  }

  ghost predicate CodesHeldOnce(codes: seq<string>) {
    Distinct(codes) && forall i :: 0 <= i < |codes| ==> IsCode(codes[i])
  }

  function Ordinal(code: string): nat
    requires IsCode(code)
  {
    ((code[0] as int) - 65) * 26 + ((code[1] as int) - 65)
  }

  /** There are 676 two-letter codes, so the index into them never outgrows 16 bits. */
  lemma FewCodes(codes: seq<string>)
    requires CodesHeldOnce(codes)
    ensures |codes| <= 676
  {
    var ordinals: seq<nat> := seq(|codes|, i requires 0 <= i < |codes| => Ordinal(codes[i]));
    forall i, j | 0 <= i < j < |codes| ensures ordinals[i] != ordinals[j] {
      OrdinalIsInjective(codes[i], codes[j]);
    }
    Pigeonhole(ordinals, 676);
  }

  lemma OrdinalIsInjective(a: string, b: string)
    requires IsCode(a) && IsCode(b)
    ensures Ordinal(a) == Ordinal(b) ==> a == b
  {
    if Ordinal(a) == Ordinal(b) {
      assert a == [a[0], a[1]] && b == [b[0], b[1]];
    }
  }

  // ----- sorting -----

  function Insert(sorted: seq<Range>, r: Range): seq<Range> {
    if sorted == [] then [r]
    else
      var n := |sorted| - 1;
      if sorted[n].start <= r.start then sorted + [r] else Insert(sorted[..n], r) + [sorted[n]]
  }

  function Sorted(ranges: seq<Range>): seq<Range> {
    if ranges == [] then []
    else
      var n := |ranges| - 1;
      Insert(Sorted(ranges[..n]), ranges[n])
  }

  ghost predicate Ascending(ranges: seq<Range>) {
    forall i, j :: 0 <= i < j < |ranges| ==> ranges[i].start <= ranges[j].start
  }

  lemma {:induction false} InsertKeepsAll(sorted: seq<Range>, r: Range)
    ensures multiset(Insert(sorted, r)) == multiset(sorted) + multiset{r}
  {
    if sorted != [] {
      var n := |sorted| - 1;
      assert sorted == sorted[..n] + [sorted[n]];
      if sorted[n].start > r.start {
        InsertKeepsAll(sorted[..n], r);
      }
    }
  }

  lemma {:induction false} InsertIsBelow(sorted: seq<Range>, r: Range, bound: Word32)
    requires r.start <= bound && forall i :: 0 <= i < |sorted| ==> sorted[i].start <= bound
    ensures forall i :: 0 <= i < |Insert(sorted, r)| ==> Insert(sorted, r)[i].start <= bound
  {
    if sorted != [] {
      InsertIsBelow(sorted[..|sorted| - 1], r, bound);
    }
  }

  lemma {:induction false} InsertSorts(sorted: seq<Range>, r: Range)
    requires Ascending(sorted)
    ensures Ascending(Insert(sorted, r))
  {
    if sorted != [] && sorted[|sorted| - 1].start > r.start {
      var n := |sorted| - 1;
      InsertSorts(sorted[..n], r);
      InsertIsBelow(sorted[..n], r, sorted[n].start);
    }
  }

  lemma EmptyIsAscending()
    ensures Ascending([])
  {
  }

  lemma {:induction false} SortedSorts(ranges: seq<Range>)
    ensures Ascending(Sorted(ranges)) && multiset(Sorted(ranges)) == multiset(ranges)
  {
    hide Insert, Ascending;
    if ranges == [] {
      EmptyIsAscending();
    } else {
      var n := |ranges| - 1;
      SortedSorts(ranges[..n]);
      InsertSorts(Sorted(ranges[..n]), ranges[n]);
      InsertKeepsAll(Sorted(ranges[..n]), ranges[n]);
      assert ranges == ranges[..n] + [ranges[n]];
    }
  }

  // ----- building -----

  /** The ranges of the usable rows in their order, each with its code spelled out. */
  function Entries(rows: seq<Row>): seq<(Word32, Word32, string)> {
    if rows == [] then []
    else
      var n := |rows| - 1;
      Entries(rows[..n])
      + if Usable(rows[n]) then [(rows[n].first.value, rows[n].last.value, Uppercase(rows[n].code))] else []
  }

  predicate Names(r: Range, codes: seq<string>, entry: (Word32, Word32, string)) {
    r.start == entry.0 && r.end == entry.1 && r.country < |codes| && codes[r.country] == entry.2
  }

  ghost predicate Represents(ranges: seq<Range>, codes: seq<string>, entries: seq<(Word32, Word32, string)>) {
    |ranges| == |entries| && forall i :: 0 <= i < |ranges| ==> Names(ranges[i], codes, entries[i])
  }

  /**
   * Read the rows, keep each code once and let the ranges point at it, and sort at the end. The index
   * is cast to 16 bits, which never loses anything.
   */
  method FromCsv(rows: seq<Row>) returns (db: Database, ghost unsorted: seq<Range>)
    ensures CodesHeldOnce(db.codes)
    ensures Represents(unsorted, db.codes, Entries(rows))
    ensures Ascending(db.ranges) && multiset(db.ranges) == multiset(unsorted)
    ensures forall i :: 0 <= i < |db.ranges| ==> db.ranges[i].country < |db.codes|
  {
    hide Represents, Uppercase, Entries;
    var ranges: seq<Range>, codes: seq<string> := [], [];
    NothingRepresented();
    assert rows[..0] == [];
    for k := 0 to |rows|
      invariant CodesHeldOnce(codes) && Represents(ranges, codes, Entries(rows[..k]))
    {
      var row := rows[k];
      EntriesNext(rows, k);
      if Usable(row) {
        var code := Uppercase(row.code);
        var index := IndexOf(codes, code);
        ghost var before := codes;
        var at := |codes|;
        if index.Some? {
          at := index.value;
        } else {
          codes := codes + [code];
        }
        FewCodes(codes);
        var range := Range(row.first.value, row.last.value, at % 0x1_0000);
        OneRangeMore(ranges, before, codes, Entries(rows[..k]), range, (row.first.value, row.last.value, code));
        ranges := ranges + [range];
      }
    }
    assert rows[..|rows|] == rows;
    SortedSorts(ranges);
    db, unsorted := Database(Sorted(ranges), codes), ranges;
    PointsInside(db.ranges, ranges, codes, Entries(rows));
  }

  lemma EntriesNext(rows: seq<Row>, k: nat)
    requires k < |rows|
    ensures Entries(rows[..k + 1])
            == if Usable(rows[k]) then
                 Entries(rows[..k]) + [(rows[k].first.value, rows[k].last.value, Uppercase(rows[k].code))]
               else Entries(rows[..k])
  {
    assert rows[..k + 1][..k] == rows[..k];
    assert Entries(rows[..k]) + [] == Entries(rows[..k]);
  }

  lemma NothingRepresented()
    ensures Represents([], [], Entries([]))
  {
  }

  lemma OneRangeMore(ranges: seq<Range>, codes: seq<string>, longer: seq<string>,
                     entries: seq<(Word32, Word32, string)>, r: Range, e: (Word32, Word32, string))
    requires Represents(ranges, codes, entries) && codes <= longer && Names(r, longer, e)
    ensures Represents(ranges + [r], longer, entries + [e])
  {
  }

  lemma PointsInside(sorted: seq<Range>, ranges: seq<Range>, codes: seq<string>,
                     entries: seq<(Word32, Word32, string)>)
    requires multiset(sorted) == multiset(ranges) && Represents(ranges, codes, entries)
    ensures forall i :: 0 <= i < |sorted| ==> sorted[i].country < |codes|
  {
    forall i | 0 <= i < |sorted| ensures sorted[i].country < |codes| {
      assert sorted[i] in multiset(ranges);
    }
  }

  // ----- looking up -----

  /** `slice::partition_point` for `start <= address`, by halving. */
  method PartitionPoint(ranges: seq<Range>, address: Word32) returns (p: nat)
    requires Ascending(ranges)
    ensures p <= |ranges|
    ensures forall i :: 0 <= i < p ==> ranges[i].start <= address
    ensures forall i :: p <= i < |ranges| ==> address < ranges[i].start
  {
    var low, high := 0, |ranges|;
    while low < high
      invariant 0 <= low <= high <= |ranges|
      invariant forall i :: 0 <= i < low ==> ranges[i].start <= address
      invariant forall i :: high <= i < |ranges| ==> address < ranges[i].start
    {
      var mid := low + (high - low) / 2;
      if ranges[mid].start <= address {
        low := mid + 1;
      } else {
        high := mid;
      }
    }
    p := low;
  }

  /** The last range that starts at or before the address, if the address is inside it. */
  method Lookup(db: Database, address: Word32) returns (code: Option<string>)
    requires Ascending(db.ranges) && forall i :: 0 <= i < |db.ranges| ==> db.ranges[i].country < |db.codes|
    ensures code == LastStart(db.ranges, db.codes, address)
  {
    var p := PartitionPoint(db.ranges, address);
    LastStartIsPartition(db.ranges, db.codes, address, p);
    if p == 0 {
      return None;
    }
    var range := db.ranges[p - 1];
    code := if address <= range.end then Some(db.codes[range.country]) else None;
  }

  /** The same, said without bisection: what the last range that starts soon enough answers. */
  function LastStart(ranges: seq<Range>, codes: seq<string>, address: Word32): Option<string>
    requires forall i :: 0 <= i < |ranges| ==> ranges[i].country < |codes|
  {
    if ranges == [] then None
    else
      var last := ranges[|ranges| - 1];
      if address < last.start then LastStart(ranges[..|ranges| - 1], codes, address)
      else if address <= last.end then Some(codes[last.country])
      else None
  }

  lemma {:induction false} LastStartIsPartition(ranges: seq<Range>, codes: seq<string>, address: Word32, p: nat)
    requires forall i :: 0 <= i < |ranges| ==> ranges[i].country < |codes|
    requires p <= |ranges| && (forall i :: 0 <= i < p ==> ranges[i].start <= address)
    requires forall i :: p <= i < |ranges| ==> address < ranges[i].start
    ensures LastStart(ranges, codes, address)
            == if p == 0 || address > ranges[p - 1].end then None else Some(codes[ranges[p - 1].country])
  {
    if p < |ranges| {
      LastStartIsPartition(ranges[..|ranges| - 1], codes, address, p);
    }
  }

  // ----- against the list -----

  predicate Inside(r: Range, address: Word32) {
    r.start <= address <= r.end
  }

  /** No address lies in two ranges of the list, and every range holds at least one. */
  ghost predicate Disjoint(ranges: seq<Range>) {
    && (forall i :: 0 <= i < |ranges| ==> ranges[i].start <= ranges[i].end)
    && (forall i, j :: 0 <= i < j < |ranges| ==> ranges[i].end < ranges[j].start || ranges[j].end < ranges[i].start)
  }

  /** Disjointness does not depend on the order. */
  lemma DisjointInAnyOrder(a: seq<Range>, b: seq<Range>)
    requires multiset(a) == multiset(b) && Disjoint(a)
    ensures Disjoint(b)
  {
    forall i | 0 <= i < |b| ensures b[i].start <= b[i].end {
      assert b[i] in multiset(b);
      assert b[i] in a;
    }
    forall i, j | 0 <= i < j < |b| ensures b[i].end < b[j].start || b[j].end < b[i].start {
      if b[i] == b[j] {
        TwiceIsTwice(b, i, j);
        var k, l := TwoPlaces(a, b[i]);
        assert false;
      } else {
        assert b[i] in multiset(b) && b[j] in multiset(b);
        var k :| 0 <= k < |a| && a[k] == b[i];
        var l :| 0 <= l < |a| && a[l] == b[j];
      }
    }
  }

  lemma TwiceIsTwice(b: seq<Range>, i: nat, j: nat)
    requires i < j < |b| && b[i] == b[j]
    ensures multiset(b)[b[i]] >= 2
  {
    assert b == b[..i] + [b[i]] + b[i + 1..j] + [b[j]] + b[j + 1..];
  }

  lemma {:induction false} TwoPlaces(a: seq<Range>, r: Range) returns (i: nat, j: nat)
    requires multiset(a)[r] >= 2
    ensures i < j < |a| && a[i] == r && a[j] == r
  {
    var n := |a| - 1;
    assert a == a[..n] + [a[n]];
    if a[n] == r {
      j := n;
      assert r in a[..n];
      i :| 0 <= i < n && a[i] == r;
    } else {
      i, j := TwoPlaces(a[..n], r);
    }
  }

  /** On disjoint ranges, in whatever order they were listed, the lookup is the linear scan. */
  lemma LookupIsLinearScan(ranges: seq<Range>, codes: seq<string>, listed: seq<Range>, address: Word32)
    requires forall i :: 0 <= i < |ranges| ==> ranges[i].country < |codes|
    requires Ascending(ranges) && multiset(ranges) == multiset(listed) && Disjoint(listed)
    ensures forall i :: 0 <= i < |listed| && Inside(listed[i], address) ==>
              listed[i].country < |codes| && LastStart(ranges, codes, address) == Some(codes[listed[i].country])
    ensures (forall i :: 0 <= i < |listed| ==> !Inside(listed[i], address)) ==>
              LastStart(ranges, codes, address) == None
  {
    DisjointInAnyOrder(listed, ranges);
    forall i | 0 <= i < |listed| && Inside(listed[i], address)
      ensures listed[i].country < |codes| && LastStart(ranges, codes, address) == Some(codes[listed[i].country])
    {
      assert listed[i] in multiset(listed);
      var k :| 0 <= k < |ranges| && ranges[k] == listed[i];
      InsideIsLastStart(ranges, codes, address, k);
    }
    if LastStart(ranges, codes, address).Some? {
      var k := LastStartIsInside(ranges, codes, address);
      assert ranges[k] in multiset(ranges);
      var i :| 0 <= i < |listed| && listed[i] == ranges[k];
      assert Inside(listed[i], address);
    }
  }

  lemma InsideIsLastStart(ranges: seq<Range>, codes: seq<string>, address: Word32, k: nat)
    requires forall i :: 0 <= i < |ranges| ==> ranges[i].country < |codes|
    requires Ascending(ranges) && Disjoint(ranges) && k < |ranges| && Inside(ranges[k], address)
    ensures LastStart(ranges, codes, address) == Some(codes[ranges[k].country])
  {
    forall i | k < i < |ranges| ensures address < ranges[i].start {
    }
    LastStartIsPartition(ranges, codes, address, k + 1);
  }

  lemma {:induction false} LastStartIsInside(ranges: seq<Range>, codes: seq<string>, address: Word32) returns (k: nat)
    requires forall i :: 0 <= i < |ranges| ==> ranges[i].country < |codes|
    requires LastStart(ranges, codes, address).Some?
    ensures k < |ranges| && Inside(ranges[k], address)
  {
    k := |ranges| - 1;
    if address < ranges[k].start {
      k := LastStartIsInside(ranges[..k], codes, address);
    }
  }

  /** Where the next range of a sorted list begins, or one past the last address. */
  function NextStart(ranges: seq<Range>, j: nat): int
    requires j < |ranges|
  {
    if j + 1 < |ranges| then ranges[j + 1].start else 0x1_0000_0000
  }

  /** No range reaches past the end of a later one before the range after that begins. */
  ghost predicate NothingHidden(ranges: seq<Range>) {
    forall i, j :: 0 <= i < j < |ranges| ==>
      Min(ranges[i].end + 1, NextStart(ranges, j)) <= Max(ranges[j].start, ranges[j].end + 1)
  }

  ghost predicate Covered(ranges: seq<Range>, address: Word32) {
    exists k :: 0 <= k < |ranges| && Inside(ranges[k], address)
  }

  lemma NothingHiddenIsAnswered(ranges: seq<Range>, codes: seq<string>, address: Word32)
    requires Ascending(ranges) && forall i :: 0 <= i < |ranges| ==> ranges[i].country < |codes|
    requires NothingHidden(ranges) && Covered(ranges, address)
    ensures LastStart(ranges, codes, address).Some?
  {
    hide LastStart, Ascending;
    var k :| 0 <= k < |ranges| && Inside(ranges[k], address);
    var j := LastToStart(ranges, address, k);
    if k < j {
      assert Min(ranges[k].end + 1, NextStart(ranges, j)) <= Max(ranges[j].start, ranges[j].end + 1);
    }
    LastStartIsPartition(ranges, codes, address, j + 1);
  }

  lemma HiddenIsMissed(ranges: seq<Range>, codes: seq<string>, i: nat, j: nat, address: Word32)
    requires Ascending(ranges) && forall k :: 0 <= k < |ranges| ==> ranges[k].country < |codes|
    requires i < j < |ranges| && address == Max(ranges[j].start, ranges[j].end + 1)
    requires address <= ranges[i].end && address < NextStart(ranges, j)
    ensures Covered(ranges, address) && LastStart(ranges, codes, address).None?
  {
    hide LastStart;
    assert Inside(ranges[i], address);
    LastStartIsPartition(ranges, codes, address, j + 1);
  }

  ghost predicate CoveredIsAnswered(ranges: seq<Range>, codes: seq<string>)
    requires forall i :: 0 <= i < |ranges| ==> ranges[i].country < |codes|
  {
    forall address: Word32 :: Covered(ranges, address) ==> LastStart(ranges, codes, address).Some?
  }

  /** On lists that may overlap: every covered address gets an answer exactly when nothing is hidden. */
  lemma CoveredIsAnsweredIff(ranges: seq<Range>, codes: seq<string>)
    requires Ascending(ranges) && forall i :: 0 <= i < |ranges| ==> ranges[i].country < |codes|
    ensures CoveredIsAnswered(ranges, codes) <==> NothingHidden(ranges)
  {
    hide LastStart, Covered, Ascending;
    if NothingHidden(ranges) {
      forall address: Word32 | Covered(ranges, address) ensures LastStart(ranges, codes, address).Some? {
        NothingHiddenIsAnswered(ranges, codes, address);
      }
    } else {
      var i, j :| 0 <= i < j < |ranges|
        && Min(ranges[i].end + 1, NextStart(ranges, j)) > Max(ranges[j].start, ranges[j].end + 1);
      HiddenIsMissed(ranges, codes, i, j, Max(ranges[j].start, ranges[j].end + 1));
    }
  }

  lemma {:induction false} LastToStart(ranges: seq<Range>, address: Word32, k: nat) returns (j: nat)
    requires Ascending(ranges) && k < |ranges| && ranges[k].start <= address
    ensures k <= j < |ranges| && ranges[j].start <= address < NextStart(ranges, j)
    ensures forall i :: 0 <= i <= j ==> ranges[i].start <= address
    ensures forall i :: j < i < |ranges| ==> address < ranges[i].start
    decreases |ranges| - k
  {
    j := k;
    if k + 1 < |ranges| && ranges[k + 1].start <= address {
      j := LastToStart(ranges, address, k + 1);
    }
  }

  /** Not so on nested ranges: the inner one hides the rest of the outer one. */
  lemma NestedRangeHides(codes: seq<string>)
    requires |codes| == 2
    ensures var ranges := [Range(10, 40, 0), Range(20, 30, 1)];
            Ascending(ranges) && Inside(ranges[0], 35) && LastStart(ranges, codes, 35) == None
  {
    var ranges := [Range(10, 40, 0), Range(20, 30, 1)];
    assert ranges[|ranges| - 1] == Range(20, 30, 1);
  }
}
