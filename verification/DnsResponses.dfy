/** DNS responses: what the engine reads out of one, and that it reads back what was written in. */
module DnsResponses {
  import opened Common
  import opened Packets
  import opened DnsNames

  /** A host name and the address it was given. */
  type Mapping = (seq<Byte>, Ipv4)

  function Be(data: seq<Byte>, at: nat): Word16
    requires at + 2 <= |data|
  {
    FromBe16(data[at], data[at + 1])
  }

  // ----- parsing -----

  /** Question sections after the first are skipped, each with its type and class. */
  function SkipQuestions(data: seq<Byte>, offset: nat, count: nat): Option<nat>
    decreases count
  {
    if count == 0 then Some(offset)
    else
      var next := Skipped(data, offset);
      if next.None? || next.value + 4 > |data| then None else SkipQuestions(data, next.value + 4, count - 1)
  }

  /** The answers from an offset on: parsing ends quietly at the first record that cannot be read. */
  function Answers(data: seq<Byte>, offset: nat, count: nat, queryName: seq<Byte>, utf8: Utf8): Outcome<seq<Mapping>>
    decreases count
  {
    if count == 0 then Returns([])
    else
      match Decoded(data, offset, utf8)
      case Hangs => Hangs
      case Returns(named) =>
        if named.None? || named.value.next + 10 > |data| then Returns([])
        else
          var at := named.value.next + 10;
          var rdlength := Be(data, at - 2);
          var rest := Answers(data, at + rdlength, count - 1, queryName, utf8);
          if rest.Hangs? then Hangs
          else if Be(data, at - 10) == 1 && rdlength == 4 && at + 4 <= |data| && queryName != [] then
            Returns([(queryName, Ipv4(data[at], data[at + 1], data[at + 2], data[at + 3]))] + rest.value)
          else rest
  }

  /** The query name and the offset of whatever follows the first question, if the section can be read. */
  function FirstQuestion(data: seq<Byte>, utf8: Utf8): Outcome<Option<Named>> {
    match Decoded(data, 12, utf8)
    case Hangs => Hangs
    case Returns(named) =>
      var q := if named.Some? then named.value else Named([], 12);
      Returns(if q.next + 4 > |data| then None else Some(Named(q.name, q.next + 4)))
  }

  function Parsed(data: seq<Byte>, utf8: Utf8): Outcome<seq<Mapping>> {
    if |data| < 12 || data[2] / 128 != 1 || Be(data, 6) == 0 then Returns([])
    else
      var questions, answers := Be(data, 4), Be(data, 6);
      if questions == 0 then Answers(data, 12, answers, [], utf8)
      else
        match FirstQuestion(data, utf8)
        case Hangs => Hangs
        case Returns(first) =>
          if first.None? then Returns([])
          else
            var offset := SkipQuestions(data, first.value.next, questions - 1);
            if offset.None? then Returns([])
            else Answers(data, offset.value, answers, first.value.name, utf8)
  }

  /** What is no response, or says that it has no answers, has no addresses. */
  lemma NoResponseFindsNothing(data: seq<Byte>, utf8: Utf8)
    requires |data| < 12 || data[2] < 0x80 || (data[6] == 0 && data[7] == 0)
    ensures Parsed(data, utf8) == Returns([])
  {
    hide Answers, FirstQuestion, SkipQuestions;
  }

  lemma DecodedHalts(data: seq<Byte>, offset: nat, utf8: Utf8)
    requires Decoded(data, offset, utf8).Returns?
    ensures Halts(data, offset, utf8)
  {
    HaltsWithinLength(data, offset, utf8);
  }

  /** What is behind the loop over the answers, and what is ahead of it. */
  ghost predicate Reading(data: seq<Byte>, whole: Outcome<seq<Mapping>>, offset: nat, left: nat, queryName: seq<Byte>,
                          utf8: Utf8, results: seq<Mapping>) {
    var ahead := Answers(data, offset, left, queryName, utf8);
    whole.Returns? && ahead.Returns? && whole.value == results + ahead.value
  }

  /** One record more, given what the decoder of names said about it. */
  lemma ReadingStep(data: seq<Byte>, whole: Outcome<seq<Mapping>>, offset: nat, left: nat, queryName: seq<Byte>,
                    utf8: Utf8, results: seq<Mapping>)
    requires Reading(data, whole, offset, left, queryName, utf8, results) && left > 0
    ensures Halts(data, offset, utf8) && Decoded(data, offset, utf8).Returns?
    ensures var named := Decoded(data, offset, utf8).value;
            if named.None? || named.value.next + 10 > |data| then whole == Returns(results)
            else
              var at := named.value.next + 10;
              Reading(data, whole, at + Be(data, at - 2), left - 1, queryName, utf8,
                      results + (if Be(data, at - 10) == 1 && Be(data, at - 2) == 4 && at + 4 <= |data|
                                    && queryName != []
                                 then [(queryName, Ipv4(data[at], data[at + 1], data[at + 2], data[at + 3]))] else []))
  {
    hide Decoded, Be, Halts;
    DecodedHalts(data, offset, utf8);
    var named := Decoded(data, offset, utf8).value;
    assert results + [] == results;
    if named.Some? && named.value.next + 10 <= |data| {
      var at := named.value.next + 10;
      var rest := Answers(data, at + Be(data, at - 2), left - 1, queryName, utf8);
      if Be(data, at - 10) == 1 && Be(data, at - 2) == 4 && at + 4 <= |data| && queryName != [] {
        var found := (queryName, Ipv4(data[at], data[at + 1], data[at + 2], data[at + 3]));
        assert results + ([found] + rest.value) == (results + [found]) + rest.value;
      }
    }
  }

  /** The answer section, record by record, wherever the names in it come to an end. */
  method ParseAnswers(data: seq<Byte>, start: nat, count: nat, queryName: seq<Byte>, utf8: Utf8)
    returns (results: seq<Mapping>)
    requires Answers(data, start, count, queryName, utf8).Returns?
    ensures Returns(results) == Answers(data, start, count, queryName, utf8)
  {
    hide Decoded, Reading, Be;
    results := [];
    ghost var whole := Answers(data, start, count, queryName, utf8);
    NothingRead(data, start, count, queryName, utf8);
    var offset: nat, left: nat := start, count;
    while left > 0
      invariant Reading(data, whole, offset, left, queryName, utf8, results)
      decreases left
    {
      hide Answers;
      ReadingStep(data, whole, offset, left, queryName, utf8, results);
      var named := DecodeName(data, offset, utf8);
      if named.None? || named.value.next + 10 > |data| {
        return results;
      }
      offset := named.value.next;
      var atype, rdlength := Be(data, offset), Be(data, offset + 8);
      offset := offset + 10;
      if atype == 1 && rdlength == 4 && offset + 4 <= |data| {
        if queryName != [] {
          results := results
                     + [(queryName, Ipv4(data[offset], data[offset + 1], data[offset + 2], data[offset + 3]))];
        }
        offset := offset + rdlength;
      } else {
        offset := offset + rdlength;
      }
      assert results + [] == results;
      left := left - 1;
    }
    AllRead(data, whole, offset, queryName, utf8, results);
  }

  lemma NothingRead(data: seq<Byte>, start: nat, count: nat, queryName: seq<Byte>, utf8: Utf8)
    requires Answers(data, start, count, queryName, utf8).Returns?
    ensures Reading(data, Answers(data, start, count, queryName, utf8), start, count, queryName, utf8, [])
  {
    var whole := Answers(data, start, count, queryName, utf8).value;
    assert [] + whole == whole;
  }

  lemma AllRead(data: seq<Byte>, whole: Outcome<seq<Mapping>>, offset: nat, queryName: seq<Byte>, utf8: Utf8,
                results: seq<Mapping>)
    requires Reading(data, whole, offset, 0, queryName, utf8, results)
    ensures whole == Returns(results)
  {
    assert results + [] == results;
  }

  method ParseDnsResponse(data: seq<Byte>, utf8: Utf8) returns (results: seq<Mapping>)
    requires Parsed(data, utf8).Returns?
    ensures Returns(results) == Parsed(data, utf8)
  {
    hide Decoded, Answers;
    if |data| < 12 || data[2] / 128 != 1 {
      return [];
    }
    var questions, answers := Be(data, 4), Be(data, 6);
    if answers == 0 {
      return [];
    }
    var offset: nat, queryName: seq<Byte> := 12, [];
    if questions > 0 {
      DecodedHalts(data, 12, utf8);
      var named := DecodeName(data, 12, utf8);
      if named.Some? {
        queryName, offset := named.value.name, named.value.next;
      }
      if offset + 4 > |data| {
        return [];
      }
      offset := offset + 4;
    }
    ghost var first := offset;
    var k := 1;
    while k < questions
      invariant 1 <= k <= Max(1, questions)
      invariant questions > 0 ==>
                  SkipQuestions(data, first, questions - 1) == SkipQuestions(data, offset, questions - k)
      invariant questions == 0 ==> offset == 12
    {
      var next := SkipName(data, offset);
      if next.None? || next.value + 4 > |data| {
        return [];
      }
      offset, k := next.value + 4, k + 1;
    }
    results := ParseAnswers(data, offset, answers, queryName, utf8);
  }

  // ----- writing a response -----

  /** How a name is written: its own labels, and then the root or a pointer to the rest of it. */
  datatype Tail = Root | Pointer(target: nat)

  datatype WireName = WireName(labels: seq<seq<Byte>>, tail: Tail)

  datatype Question = Question(name: WireName, kind: Word16, rclass: Word16)

  datatype Record = Record(name: WireName, kind: Word16, rclass: Word16, ttl: Word32, rdata: seq<Byte>)

  datatype Response = Response(
    id: Word16, flags: Word16, question: Question, others: seq<Question>, answers: seq<Record>, counts: Word32,
    trailer: seq<Byte>)

  /** A length byte below 0xC0 starts a label, also beyond the 63 of section 2.3.4 of RFC 1035. */
  predicate Fit(labels: seq<seq<Byte>>) {
    forall i :: 0 <= i < |labels| ==> 1 <= |labels[i]| <= 191
  }

  /** The name fits the wire. */
  predicate Writable(name: WireName) {
    Fit(name.labels) && (name.tail.Pointer? ==> name.tail.target < 0x4000)
  }

  predicate GoodName(name: WireName, utf8: Utf8) {
    Writable(name) && forall i :: 0 <= i < |name.labels| ==> utf8(name.labels[i])
  }

  function LabelBytes(labels: seq<seq<Byte>>): seq<Byte>
    requires Fit(labels)
  {
    if labels == [] then [] else [|labels[0]|] + labels[0] + LabelBytes(labels[1..])
  }

  function TailBytes(tail: Tail): seq<Byte>
    requires tail.Pointer? ==> tail.target < 0x4000
  {
    if tail.Root? then [0] else [0xC0 + tail.target / 0x100, tail.target % 0x100]
  }

  function NameBytes(name: WireName): seq<Byte>
    requires Writable(name)
  {
    LabelBytes(name.labels) + TailBytes(name.tail)
  }

  function QuestionBytes(q: Question): seq<Byte>
    requires Writable(q.name)
  {
    NameBytes(q.name) + (Be16(q.kind) + Be16(q.rclass))
  }

  function QuestionsBytes(qs: seq<Question>): seq<Byte>
    requires forall i :: 0 <= i < |qs| ==> Writable(qs[i].name)
  {
    if qs == [] then [] else QuestionBytes(qs[0]) + QuestionsBytes(qs[1..])
  }

  predicate Recordable(r: Record) {
    Writable(r.name) && |r.rdata| < 0x1_0000
  }

  function RecordBytes(r: Record): seq<Byte>
    requires Recordable(r)
  {
    NameBytes(r.name) + (Be16(r.kind) + Be16(r.rclass) + Be32(r.ttl) + Be16(|r.rdata|) + r.rdata)
  }

  function RecordsBytes(rs: seq<Record>): seq<Byte>
    requires forall i :: 0 <= i < |rs| ==> Recordable(rs[i])
  {
    if rs == [] then [] else RecordBytes(rs[0]) + RecordsBytes(rs[1..])
  }

  /** A response with at least one question, within the counts the header can hold; names are what fits the wire. */
  predicate Sendable(r: Response) {
    && r.flags >= 0x8000 && Writable(r.question.name)
    && |r.others| + 1 < 0x1_0000 && |r.answers| < 0x1_0000
    && (forall i :: 0 <= i < |r.others| ==> Writable(r.others[i].name))
    && (forall i :: 0 <= i < |r.answers| ==> Recordable(r.answers[i]))
  }

  /** The usual one: its first question is written out and not the root. */
  predicate GoodResponse(r: Response, utf8: Utf8) {
    Sendable(r) && r.question.name.labels != [] && r.question.name.tail.Root? && GoodName(r.question.name, utf8)
  }

  function HeaderBytes(r: Response): (h: seq<Byte>)
    requires |r.others| + 1 < 0x1_0000 && |r.answers| < 0x1_0000
    ensures |h| == 12
  {
    Be16(r.id) + Be16(r.flags) + Be16(|r.others| + 1) + Be16(|r.answers|) + Be32(r.counts)
  }

  function Encode(r: Response): seq<Byte>
    requires Sendable(r)
  {
    HeaderBytes(r) + QuestionBytes(r.question) + QuestionsBytes(r.others)
    + RecordsBytes(r.answers) + r.trailer
  }

  // ----- a written name reads back -----

  /** Reading at the offset comes to an end and finds these labels. */
  ghost predicate Reads(data: seq<Byte>, offset: nat, utf8: Utf8, labels: seq<seq<Byte>>) {
    exists n: nat :: HaltsWithin(data, offset, utf8, n) && Labels(data, offset, utf8, n) == Some(labels)
  }

  /** A pointer is valid when there is a name to be read where it points. */
  ghost predicate TailReads(data: seq<Byte>, tail: Tail, utf8: Utf8, labels: seq<seq<Byte>>) {
    if tail.Root? then labels == [] else Reads(data, tail.target, utf8, labels)
  }

  lemma TailReadsBack(data: seq<Byte>, prefix: seq<Byte>, tail: Tail, rest: seq<Byte>, utf8: Utf8,
                      labels: seq<seq<Byte>>)
    requires tail.Pointer? ==> tail.target < 0x4000
    requires data == prefix + (TailBytes(tail) + rest) && TailReads(data, tail, utf8, labels)
    ensures Reads(data, |prefix|, utf8, labels)
    ensures WireEnd(data, |prefix|, utf8) == Some(|prefix| + |TailBytes(tail)|)
  {
    hide Reads, WireEnd, StepAt;
    var at, bytes := |prefix|, TailBytes(tail);
    assert forall i :: 0 <= i < |bytes| ==> data[at + i] == bytes[i];
    if tail.Root? {
      RootReads(data, at, utf8);
    } else {
      PointerFollows(data, at, tail.target, utf8);
      FollowedReads(data, at, tail.target, at + 2, utf8, labels);
    }
  }

  lemma PointerFollows(data: seq<Byte>, at: nat, target: nat, utf8: Utf8)
    requires target < 0x4000 && at + 1 < |data|
    requires data[at] == 0xC0 + target / 0x100 && data[at + 1] == target % 0x100
    ensures StepAt(data, at, utf8) == Follow(target, at + 2)
  {
  }

  lemma RootReads(data: seq<Byte>, at: nat, utf8: Utf8)
    requires at < |data| && data[at] == 0
    ensures Reads(data, at, utf8, []) && WireEnd(data, at, utf8) == Some(at + 1)
  {
    assert HaltsWithin(data, at, utf8, 1) && Labels(data, at, utf8, 1) == Some([]);
  }

  lemma FollowedReads(data: seq<Byte>, at: nat, target: nat, end: nat, utf8: Utf8, labels: seq<seq<Byte>>)
    requires StepAt(data, at, utf8) == Follow(target, end) && Reads(data, target, utf8, labels)
    ensures Reads(data, at, utf8, labels) && WireEnd(data, at, utf8) == Some(end)
  {
    hide StepAt;
    var n: nat :| HaltsWithin(data, target, utf8, n) && Labels(data, target, utf8, n) == Some(labels);
    assert HaltsWithin(data, at, utf8, n + 1) && Labels(data, at, utf8, n + 1) == Some(labels);
  }

  lemma OneLabel(data: seq<Byte>, prefix: seq<Byte>, text: seq<Byte>, onward: seq<Byte>, utf8: Utf8)
    requires 1 <= |text| <= 191 && utf8(text)
    requires data == prefix + ([|text|] + text + onward)
    ensures StepAt(data, |prefix|, utf8) == Label(|prefix| + 1 + |text|, text)
  {
    var at := |prefix|;
    assert data[at] == |text|;
    assert data[at + 1..at + 1 + |text|] == text;
  }

  lemma PrependedLabel(data: seq<Byte>, at: nat, next: nat, text: seq<Byte>, utf8: Utf8, rest: seq<seq<Byte>>)
    requires StepAt(data, at, utf8) == Label(next, text) && Reads(data, next, utf8, rest)
    ensures Reads(data, at, utf8, [text] + rest) && WireEnd(data, at, utf8) == WireEnd(data, next, utf8)
  {
    hide StepAt;
    var n: nat :| HaltsWithin(data, next, utf8, n) && Labels(data, next, utf8, n) == Some(rest);
    assert HaltsWithin(data, at, utf8, n + 1) && Labels(data, at, utf8, n + 1) == Some([text] + rest);
  }

  /** Labels in front of something that reads are read in front of it. */
  lemma {:induction false} LabelsReadBack(data: seq<Byte>, prefix: seq<Byte>, own: seq<seq<Byte>>, rest: seq<Byte>,
                                          utf8: Utf8, tail: seq<seq<Byte>>)
    requires Fit(own) && forall i :: 0 <= i < |own| ==> utf8(own[i])
    requires data == prefix + (LabelBytes(own) + rest)
    requires Reads(data, |prefix| + |LabelBytes(own)|, utf8, tail)
    ensures Reads(data, |prefix|, utf8, own + tail)
    ensures WireEnd(data, |prefix|, utf8) == WireEnd(data, |prefix| + |LabelBytes(own)|, utf8)
    decreases |own|
  {
    hide Reads, WireEnd;
    if own == [] {
      assert own + tail == tail;
    } else {
      var text := own[0];
      var written: seq<Byte> := [|text|] + text;
      var onward := LabelBytes(own[1..]) + rest;
      assert LabelBytes(own) + rest == written + onward;
      assert data == (prefix + written) + onward;
      OneLabel(data, prefix, text, onward, utf8);
      LabelsReadBack(data, prefix + written, own[1..], rest, utf8, tail);
      PrependedLabel(data, |prefix|, |prefix + written|, text, utf8, own[1..] + tail);
      assert [text] + (own[1..] + tail) == own + tail;
    }
  }

  lemma Regroups(data: seq<Byte>, a: seq<Byte>, whole: seq<Byte>, b: seq<Byte>, c: seq<Byte>, d: seq<Byte>)
    requires whole == b + c && data == a + (whole + d)
    ensures data == a + (b + (c + d)) && data == (a + b) + (c + d)
  {
  }

  lemma NameInParts(name: WireName)
    requires Writable(name)
    ensures NameBytes(name) == LabelBytes(name.labels) + TailBytes(name.tail)
    ensures |NameBytes(name)| == |LabelBytes(name.labels)| + |TailBytes(name.tail)|
  {
    hide LabelBytes, TailBytes;
  }

  lemma NameReadsBack(data: seq<Byte>, prefix: seq<Byte>, name: WireName, rest: seq<Byte>, utf8: Utf8,
                      labels: seq<seq<Byte>>)
    requires GoodName(name, utf8) && data == prefix + (NameBytes(name) + rest)
    requires TailReads(data, name.tail, utf8, labels)
    ensures Reads(data, |prefix|, utf8, name.labels + labels)
    ensures var end := WireEnd(data, |prefix|, utf8); end.Some? && end.value == |prefix| + |NameBytes(name)|
  {
    hide Reads, WireEnd, LabelBytes, TailBytes, TailReads, Fit, NameBytes;
    NameInParts(name);
    Regroups(data, prefix, NameBytes(name), LabelBytes(name.labels), TailBytes(name.tail), rest);
    PartsReadBack(data, prefix, name, LabelBytes(name.labels), TailBytes(name.tail), rest, utf8, labels);
  }

  lemma PartsReadBack(data: seq<Byte>, prefix: seq<Byte>, name: WireName, own: seq<Byte>, end: seq<Byte>,
                      rest: seq<Byte>, utf8: Utf8, labels: seq<seq<Byte>>)
    requires GoodName(name, utf8) && TailReads(data, name.tail, utf8, labels)
    requires own == LabelBytes(name.labels) && end == TailBytes(name.tail)
    requires data == prefix + (own + (end + rest)) && data == (prefix + own) + (end + rest)
    ensures Reads(data, |prefix|, utf8, name.labels + labels)
    ensures WireEnd(data, |prefix|, utf8) == Some(|prefix| + (|own| + |end|))
  {
    hide Reads, WireEnd, LabelBytes, TailBytes, TailReads, Fit;
    TailReadsBack(data, prefix + own, name.tail, rest, utf8, labels);
    LabelsReadBack(data, prefix, name.labels, end + rest, utf8, labels);
  }

  /** What reads as some labels decodes to their join. */
  lemma ReadsDecodes(data: seq<Byte>, offset: nat, utf8: Utf8, labels: seq<seq<Byte>>, end: nat)
    requires Reads(data, offset, utf8, labels) && labels != [] && WireEnd(data, offset, utf8) == Some(end)
    ensures Decoded(data, offset, utf8) == Returns(Some(Named(Join(labels), end)))
  {
    hide HaltsWithin, Labels, WireEnd;
    var n: nat :| HaltsWithin(data, offset, utf8, n) && Labels(data, offset, utf8, n) == Some(labels);
    HaltsWithinLength(data, offset, utf8);
    LabelsAnyBound(data, offset, utf8, n, |data| + 1);
  }

  // ----- a written response reads back -----

  /** Every record's name can be read in this message, and is not the root. */
  ghost predicate NamesRead(data: seq<Byte>, records: seq<Record>, utf8: Utf8) {
    forall i :: 0 <= i < |records| ==> NameReads(data, records[i].name, utf8)
  }

  ghost predicate NameReads(data: seq<Byte>, name: WireName, utf8: Utf8) {
    exists labels :: TailReads(data, name.tail, utf8, labels) && name.labels + labels != []
  }

  predicate IsAddress(r: Record) {
    r.kind == 1 && |r.rdata| == 4
  }

  /** The A records' addresses in order, each with the name that was asked for. */
  function Addresses(records: seq<Record>, queryName: seq<Byte>): seq<Mapping> {
    if records == [] then [] else AddressOf(records[0], queryName) + Addresses(records[1..], queryName)
  }

  function AddressOf(r: Record, queryName: seq<Byte>): seq<Mapping> {
    if IsAddress(r) then [(queryName, Ipv4(r.rdata[0], r.rdata[1], r.rdata[2], r.rdata[3]))] else []
  }

  /** The ten bytes between a record's name and its data. */
  function RecordHead(r: Record): (h: seq<Byte>)
    requires |r.rdata| < 0x1_0000
    ensures |h| == 10
  {
    [Hi(r.kind), Lo(r.kind), Hi(r.rclass), Lo(r.rclass), ByteAt(r.ttl, 3), ByteAt(r.ttl, 2), ByteAt(r.ttl, 1),
     ByteAt(r.ttl, 0), Hi(|r.rdata|), Lo(|r.rdata|)]
  }

  lemma RecordInParts(r: Record)
    requires Recordable(r)
    ensures RecordBytes(r) == NameBytes(r.name) + (RecordHead(r) + r.rdata)
  {
    hide NameBytes;
    assert Be16(r.kind) + Be16(r.rclass) + Be32(r.ttl) + Be16(|r.rdata|) + r.rdata == RecordHead(r) + r.rdata;
  }

  /** One record: its type, length and data are where the decoder of names left off. */
  lemma RecordFields(data: seq<Byte>, prefix: seq<Byte>, r: Record, rest: seq<Byte>)
    requires |r.rdata| < 0x1_0000 && data == prefix + (RecordHead(r) + r.rdata + rest)
    ensures var at := |prefix| + 10;
            && at + |r.rdata| <= |data| && Be(data, at - 10) == r.kind && Be(data, at - 2) == |r.rdata|
            && forall i :: 0 <= i < |r.rdata| ==> data[at + i] == r.rdata[i]
  {
    var head := RecordHead(r);
    assert forall i :: 0 <= i < 10 ==> data[|prefix| + i] == head[i];
  }

  /** The decoder finds a name at the offset: it comes to an end, and it is neither broken nor the root. */
  predicate Decodes(data: seq<Byte>, offset: nat, utf8: Utf8) {
    Decoded(data, offset, utf8).Returns? && Decoded(data, offset, utf8).value.Some?
  }

  /** When a written record's name decodes, its type, length and data are where the name ends. */
  lemma RecordIsFound(data: seq<Byte>, prefix: seq<Byte>, r: Record, later: seq<Byte>, utf8: Utf8)
    returns (next: nat)
    requires Recordable(r) && Decodes(data, |prefix|, utf8)
    requires data == prefix + (RecordBytes(r) + later)
    ensures Decoded(data, |prefix|, utf8).value.value.next == next
    ensures next + 10 + |r.rdata| == |prefix| + |RecordBytes(r)| <= |data|
    ensures Be(data, next) == r.kind && Be(data, next + 8) == |r.rdata|
    ensures forall i :: 0 <= i < |r.rdata| ==> data[next + 10 + i] == r.rdata[i]
  {
    hide Decoded, NameBytes, RecordHead, RecordBytes, Be, Skipped;
    var wire := NameBytes(r.name);
    RecordInParts(r);
    assert RecordBytes(r) + later == wire + (RecordHead(r) + r.rdata + later);
    NameSkipped(data, prefix, r.name, RecordHead(r) + r.rdata + later);
    SkipAgreesWithDecode(data, |prefix|, utf8);
    next := |prefix| + |wire|;
    assert data == (prefix + wire) + (RecordHead(r) + r.rdata + later);
    RecordFields(data, prefix + wire, r, later);
  }

  /** The first of the records left is read, and the others are looked for behind it. */
  lemma RecordReadsBack(data: seq<Byte>, prefix: seq<Byte>, r: Record, later: seq<Byte>, count: nat,
                        queryName: seq<Byte>, utf8: Utf8)
    requires Recordable(r) && count > 0 && queryName != [] && Decodes(data, |prefix|, utf8)
    requires data == prefix + (RecordBytes(r) + later)
    ensures Answers(data, |prefix|, count, queryName, utf8)
            == var rest := Answers(data, |prefix| + |RecordBytes(r)|, count - 1, queryName, utf8);
               if rest.Hangs? then Hangs else Returns(AddressOf(r, queryName) + rest.value)
  {
    hide Decoded, RecordBytes, Be;
    var next := RecordIsFound(data, prefix, r, later, utf8);
    var rest := Answers(data, |prefix| + |RecordBytes(r)|, count - 1, queryName, utf8);
    if rest.Returns? {
      assert [] + rest.value == rest.value;
    }
  }

  /** How many of the records from the offset on come before the first whose name does not decode. */
  function Readable(data: seq<Byte>, offset: nat, records: seq<Record>, utf8: Utf8): (m: nat)
    requires forall i :: 0 <= i < |records| ==> Recordable(records[i])
    ensures m <= |records|
    decreases |records|
  {
    if records == [] || !Decodes(data, offset, utf8) then 0
    else 1 + Readable(data, offset + |RecordBytes(records[0])|, records[1..], utf8)
  }

  /** Where the decoder is when it has read that many. */
  function StartOf(offset: nat, records: seq<Record>, m: nat): nat
    requires m <= |records| && forall i :: 0 <= i < |records| ==> Recordable(records[i])
    decreases m
  {
    if m == 0 then offset else StartOf(offset + |RecordBytes(records[0])|, records[1..], m - 1)
  }

  /** What is read of the records at an offset: nothing from the first on whose name does not decode. */
  ghost function ReadUpTo(data: seq<Byte>, offset: nat, records: seq<Record>, queryName: seq<Byte>, utf8: Utf8)
    : Outcome<seq<Mapping>>
    requires forall i :: 0 <= i < |records| ==> Recordable(records[i])
  {
    var m := Readable(data, offset, records, utf8);
    if m < |records| && Decoded(data, StartOf(offset, records, m), utf8).Hangs? then Hangs
    else Returns(Addresses(records[..m], queryName))
  }

  lemma ReadUpToNext(data: seq<Byte>, offset: nat, records: seq<Record>, queryName: seq<Byte>, utf8: Utf8)
    requires records != [] && (forall i :: 0 <= i < |records| ==> Recordable(records[i]))
    requires Decodes(data, offset, utf8)
    ensures ReadUpTo(data, offset, records, queryName, utf8)
            == var rest := ReadUpTo(data, offset + |RecordBytes(records[0])|, records[1..], queryName, utf8);
               if rest.Hangs? then Hangs else Returns(AddressOf(records[0], queryName) + rest.value)
  {
    hide Decoded, RecordBytes, AddressOf;
    var m := Readable(data, offset, records, utf8);
    assert records[..m][0] == records[0] && records[..m][1..] == records[1..][..m - 1];
  }

  lemma {:induction false} RecordsReadUpTo(data: seq<Byte>, prefix: seq<Byte>, records: seq<Record>, rest: seq<Byte>,
                                           queryName: seq<Byte>, utf8: Utf8)
    requires forall i :: 0 <= i < |records| ==> Recordable(records[i])
    requires data == prefix + (RecordsBytes(records) + rest) && queryName != []
    ensures Answers(data, |prefix|, |records|, queryName, utf8)
            == ReadUpTo(data, |prefix|, records, queryName, utf8)
    decreases |records|
  {
    hide Decoded, RecordBytes, Be;
    if records != [] && Decodes(data, |prefix|, utf8) {
      hide Answers, ReadUpTo, Decodes;
      var r, later := records[0], RecordsBytes(records[1..]) + rest;
      assert RecordsBytes(records) + rest == RecordBytes(r) + later;
      assert data == (prefix + RecordBytes(r)) + later;
      RecordsReadUpTo(data, prefix + RecordBytes(r), records[1..], rest, queryName, utf8);
      RecordReadsBack(data, prefix, r, later, |records|, queryName, utf8);
      ReadUpToNext(data, |prefix|, records, queryName, utf8);
    } else {
      assert records[..0] == [];
    }
  }

  lemma {:induction false} QuestionsSkipped(data: seq<Byte>, prefix: seq<Byte>, qs: seq<Question>, rest: seq<Byte>)
    requires forall i :: 0 <= i < |qs| ==> Writable(qs[i].name)
    requires data == prefix + (QuestionsBytes(qs) + rest)
    ensures SkipQuestions(data, |prefix|, |qs|) == Some(|prefix| + |QuestionsBytes(qs)|)
    decreases |qs|
  {
    hide NameBytes, Skipped;
    if qs != [] {
      var name, fixed := NameBytes(qs[0].name), Be16(qs[0].kind) + Be16(qs[0].rclass);
      var later := QuestionsBytes(qs[1..]) + rest;
      assert QuestionsBytes(qs) + rest == name + (fixed + later);
      NameSkipped(data, prefix, qs[0].name, fixed + later);
      assert data == (prefix + name + fixed) + later;
      QuestionsSkipped(data, prefix + name + fixed, qs[1..], rest);
    }
  }

  lemma {:induction false} NameSkipped(data: seq<Byte>, prefix: seq<Byte>, name: WireName, rest: seq<Byte>)
    requires Writable(name) && data == prefix + (NameBytes(name) + rest)
    ensures Skipped(data, |prefix|) == Some(|prefix| + |NameBytes(name)|)
    decreases |name.labels|
  {
    hide Skipped;
    if name.labels == [] {
      TailSkipped(data, prefix, name.tail, rest);
    } else {
      var text, tail := name.labels[0], WireName(name.labels[1..], name.tail);
      var written: seq<Byte> := [|text|] + text;
      assert NameBytes(name) + rest == written + (NameBytes(tail) + rest);
      assert data == (prefix + written) + (NameBytes(tail) + rest);
      assert |prefix + written| <= |data| && data[|prefix|] == |text|;
      LabelSkipped(data, |prefix|, |text|);
      NameSkipped(data, prefix + written, tail, rest);
    }
  }

  lemma TailSkipped(data: seq<Byte>, prefix: seq<Byte>, tail: Tail, rest: seq<Byte>)
    requires tail.Pointer? ==> tail.target < 0x4000
    requires data == prefix + (([] + TailBytes(tail)) + rest)
    ensures Skipped(data, |prefix|) == Some(|prefix| + |TailBytes(tail)|)
  {
    assert data[|prefix|] == TailBytes(tail)[0];
  }

  lemma LabelSkipped(data: seq<Byte>, at: nat, length: nat)
    requires 1 <= length <= 191 && at + 1 + length <= |data| && data[at] == length
    ensures Skipped(data, at) == Skipped(data, at + 1 + length)
  {
  }

  lemma JoinIsSomething(labels: seq<seq<Byte>>)
    requires labels != [] && labels[0] != []
    ensures Join(labels) != []
  {
  }

  lemma HeaderFields(r: Response, data: seq<Byte>, rest: seq<Byte>)
    requires |r.others| + 1 < 0x1_0000 && |r.answers| < 0x1_0000 && r.flags >= 0x8000
    requires data == HeaderBytes(r) + rest
    ensures |data| >= 12 && data[2] / 128 == 1 && Be(data, 4) == |r.others| + 1 && Be(data, 6) == |r.answers|
  {
    var h := HeaderBytes(r);
    assert h == [Hi(r.id), Lo(r.id), Hi(r.flags), Lo(r.flags), Hi(|r.others| + 1), Lo(|r.others| + 1),
                 Hi(|r.answers|), Lo(|r.answers|)] + Be32(r.counts);
    assert forall i :: 0 <= i < 12 ==> data[i] == h[i];
  }

  lemma {:induction false} LabelsAreSomething(data: seq<Byte>, offset: nat, utf8: Utf8, n: nat)
    requires HaltsWithin(data, offset, utf8, n) && Labels(data, offset, utf8, n).Some?
    ensures var labels := Labels(data, offset, utf8, n).value; forall i :: 0 <= i < |labels| ==> labels[i] != []
    decreases n
  {
    var on := Onward(StepAt(data, offset, utf8));
    if on.Some? {
      LabelsAreSomething(data, on.value, utf8, n - 1);
    }
  }

  lemma DecodedIsSomething(data: seq<Byte>, offset: nat, utf8: Utf8)
    requires Decodes(data, offset, utf8)
    ensures Decoded(data, offset, utf8).value.value.name != []
  {
    hide HaltsWithin, Labels, WireEnd, Join;
    LabelsAreSomething(data, offset, utf8, |data| + 1);
    JoinIsSomething(Labels(data, offset, utf8, |data| + 1).value);
  }

  /** The name that was asked for, where the first question can be read. */
  function Asked(data: seq<Byte>, utf8: Utf8): seq<Byte>
    requires Decodes(data, 12, utf8)
  {
    Decoded(data, 12, utf8).value.value.name
  }

  /** When the first question decodes, the rest of the message starts behind it. */
  lemma FirstQuestionReads(r: Response, data: seq<Byte>, rest: seq<Byte>, utf8: Utf8)
    requires Sendable(r) && data == HeaderBytes(r) + (QuestionBytes(r.question) + rest)
    requires Decodes(data, 12, utf8)
    ensures FirstQuestion(data, utf8) == Returns(Some(Named(Asked(data, utf8), 12 + |QuestionBytes(r.question)|)))
    ensures Asked(data, utf8) != []
  {
    hide NameBytes, Decoded, HeaderBytes, Skipped;
    var name, fixed := NameBytes(r.question.name), Be16(r.question.kind) + Be16(r.question.rclass);
    assert QuestionBytes(r.question) + rest == name + (fixed + rest);
    NameSkipped(data, HeaderBytes(r), r.question.name, fixed + rest);
    SkipAgreesWithDecode(data, 12, utf8);
    DecodedIsSomething(data, 12, utf8);
  }

  /** A first question that is written out, and not the root, decodes to its labels joined by dots. */
  lemma GoodQuestionDecodes(r: Response, utf8: Utf8)
    requires GoodResponse(r, utf8)
    ensures Decodes(Encode(r), 12, utf8) && Asked(Encode(r), utf8) == Join(r.question.name.labels)
  {
    hide NameBytes, Decoded, HeaderBytes, QuestionsBytes, RecordsBytes, Reads, WireEnd, Fit;
    var data := Encode(r);
    var wire, fixed := NameBytes(r.question.name), Be16(r.question.kind) + Be16(r.question.rclass);
    var rest := fixed + (QuestionsBytes(r.others) + (RecordsBytes(r.answers) + r.trailer));
    assert data == HeaderBytes(r) + (wire + rest);
    NameReadsBack(data, HeaderBytes(r), r.question.name, rest, utf8, []);
    assert r.question.name.labels + [] == r.question.name.labels;
    ReadsDecodes(data, 12, utf8, r.question.name.labels, 12 + |wire|);
  }

  /** Without the name that was asked for, nothing is found, however far the answers are read. */
  lemma {:induction false} NamelessFindsNothing(data: seq<Byte>, offset: nat, count: nat, utf8: Utf8)
    ensures var found := Answers(data, offset, count, [], utf8); found.Hangs? || found == Returns([])
    decreases count
  {
    hide Decoded, Be;
    if count > 0 && Decoded(data, offset, utf8).Returns? {
      var named := Decoded(data, offset, utf8).value;
      if named.Some? && named.value.next + 10 <= |data| {
        var at := named.value.next + 10;
        NamelessFindsNothing(data, at + Be(data, at - 2), count - 1, utf8);
      }
    }
  }

  /**
   * A message whose first question is the root, broken or not UTF-8 is read on from that question's own
   * start, and nothing comes of it: parsing finds no address, if it comes to an end.
   */
  lemma UnreadQuestionFindsNothing(data: seq<Byte>, utf8: Utf8)
    requires Decoded(data, 12, utf8) == Returns(None)
    ensures Parsed(data, utf8).Hangs? || Parsed(data, utf8) == Returns([])
  {
    hide Decoded, Answers, SkipQuestions;
    if |data| >= 12 {
      NamelessFindsNothing(data, 12, Be(data, 6), utf8);
      var offset := SkipQuestions(data, 16, if Be(data, 4) > 0 then Be(data, 4) - 1 else 0);
      if offset.Some? {
        NamelessFindsNothing(data, offset.value, Be(data, 6), utf8);
      }
    }
  }

  function AnswersAt(r: Response): nat
    requires Sendable(r)
  {
    12 + |QuestionBytes(r.question)| + |QuestionsBytes(r.others)|
  }

  /**
   * Parsing a written response whose first question decodes gives the addresses of its A records, in order
   * and each with the name that was asked for, up to the first record whose name does not decode; if the
   * decoder never comes back from that name, or from the question, parsing does not either. A question it
   * comes back from with nothing leaves no address.
   */
  lemma ResponseReadsUpTo(r: Response, utf8: Utf8)
    requires Sendable(r)
    ensures var data := Encode(r);
            var parsed, first := Parsed(data, utf8), Decoded(data, 12, utf8);
            && (r.answers == [] ==> parsed == Returns([]))
            && (Decodes(data, 12, utf8) ==>
                  parsed == ReadUpTo(data, AnswersAt(r), r.answers, Asked(data, utf8), utf8))
            && (first.Hangs? && r.answers != [] ==> parsed == Hangs)
            && (first == Returns(None) ==> parsed.Hangs? || parsed == Returns([]))
  {
    hide QuestionBytes, QuestionsBytes, RecordsBytes, HeaderBytes, FirstQuestion, Answers, ReadUpTo, SkipQuestions,
         Decoded, Decodes, Asked, Parsed;
    var data := Encode(r);
    HeadReads(r, utf8);
    if Decodes(data, 12, utf8) {
      DecodesReturns(data, utf8);
      DecodedQuestionReadsUpTo(r, utf8);
    } else {
      NotDecoded(data, utf8);
      if Decoded(data, 12, utf8) == Returns(None) {
        UnreadQuestionFindsNothing(data, utf8);
      }
    }
  }

  lemma NotDecoded(data: seq<Byte>, utf8: Utf8)
    requires !Decodes(data, 12, utf8)
    ensures Decoded(data, 12, utf8).Hangs? || Decoded(data, 12, utf8) == Returns(None)
  {
    hide Decoded;
  }

  lemma DecodesReturns(data: seq<Byte>, utf8: Utf8)
    requires Decodes(data, 12, utf8)
    ensures Decoded(data, 12, utf8).Returns? && Decoded(data, 12, utf8) != Returns(None)
  {
    hide Decoded;
  }

  lemma HeadReads(r: Response, utf8: Utf8)
    requires Sendable(r)
    ensures r.answers == [] ==> Parsed(Encode(r), utf8) == Returns([])
    ensures Decoded(Encode(r), 12, utf8).Hangs? && r.answers != [] ==> Parsed(Encode(r), utf8) == Hangs
  {
    hide QuestionBytes, QuestionsBytes, RecordsBytes, HeaderBytes, Decoded, Answers, Be;
    var rest := QuestionBytes(r.question) + (QuestionsBytes(r.others) + (RecordsBytes(r.answers) + r.trailer));
    assert Encode(r) == HeaderBytes(r) + rest;
    HeaderFields(r, Encode(r), rest);
  }

  lemma DecodedQuestionReadsUpTo(r: Response, utf8: Utf8)
    requires Sendable(r) && Decodes(Encode(r), 12, utf8)
    ensures Parsed(Encode(r), utf8)
            == ReadUpTo(Encode(r), AnswersAt(r), r.answers, Asked(Encode(r), utf8), utf8)
  {
    hide QuestionBytes, QuestionsBytes, RecordsBytes, HeaderBytes, FirstQuestion, Answers, ReadUpTo, SkipQuestions,
         Asked, Decodes;
    var data := Encode(r);
    var head, first, others := HeaderBytes(r), QuestionBytes(r.question), QuestionsBytes(r.others);
    var answers := RecordsBytes(r.answers);
    assert data == head + (first + (others + (answers + r.trailer)));
    assert data == (head + first) + (others + (answers + r.trailer));
    assert data == (head + first + others) + (answers + r.trailer);
    HeaderFields(r, data, first + (others + (answers + r.trailer)));
    FirstQuestionReads(r, data, others + (answers + r.trailer), utf8);
    QuestionsSkipped(data, head + first, r.others, answers + r.trailer);
    RecordsReadUpTo(data, head + first + others, r.answers, r.trailer, Asked(data, utf8), utf8);
    if r.answers == [] {
      NothingToRead(data, AnswersAt(r), Asked(data, utf8), utf8);
    }
  }

  lemma NothingToRead(data: seq<Byte>, offset: nat, queryName: seq<Byte>, utf8: Utf8)
    ensures ReadUpTo(data, offset, [], queryName, utf8) == Returns([])
  {
  }

  lemma {:induction false} AddressesInTwo(a: seq<Record>, b: seq<Record>, queryName: seq<Byte>)
    ensures Addresses(a + b, queryName) == Addresses(a, queryName) + Addresses(b, queryName)
  {
    hide AddressOf;
    if a == [] {
      assert a + b == b;
    } else {
      AddressesInTwo(a[1..], b, queryName);
      assert (a + b)[1..] == a[1..] + b && (a + b)[0] == a[0];
    }
  }

  lemma {:induction false} NoAddressesIff(records: seq<Record>, queryName: seq<Byte>)
    ensures Addresses(records, queryName) == [] <==> forall i :: 0 <= i < |records| ==> !IsAddress(records[i])
  {
    if records != [] {
      NoAddressesIff(records[1..], queryName);
      assert forall i :: 1 <= i < |records| ==> records[i] == records[1..][i - 1];
    }
  }

  /**
   * That is all the addresses exactly when every name decodes, or the first that does not is given up on
   * and no A record is at it or behind it.
   */
  lemma ResponseRoundTripIff(r: Response, utf8: Utf8)
    requires Sendable(r) && Decodes(Encode(r), 12, utf8)
    ensures var data, at := Encode(r), AnswersAt(r);
            var m := Readable(data, at, r.answers, utf8);
            Parsed(data, utf8) == Returns(Addresses(r.answers, Asked(data, utf8)))
            <==> m == |r.answers|
                 || (Decoded(data, StartOf(at, r.answers, m), utf8).Returns?
                     && forall i :: m <= i < |r.answers| ==> !IsAddress(r.answers[i]))
  {
    hide Encode, Parsed, AnswersAt, Decoded, Addresses, Readable, StartOf, IsAddress, Fit, Writable, Asked, Decodes;
    var queryName, at := Asked(Encode(r), utf8), AnswersAt(r);
    var m := Readable(Encode(r), at, r.answers, utf8);
    DecodedQuestionReadsUpTo(r, utf8);
    assert r.answers == r.answers[..m] + r.answers[m..];
    var read, lost := Addresses(r.answers[..m], queryName), Addresses(r.answers[m..], queryName);
    assert read == read + lost <==> lost == [] by {
      assert |read + lost| == |read| + |lost|;
    }
    AddressesInTwo(r.answers[..m], r.answers[m..], queryName);
    NoAddressesIff(r.answers[m..], queryName);
    assert forall i :: m <= i < |r.answers| ==> r.answers[i] == r.answers[m..][i - m];
  }

  lemma AnswersInside(r: Response) returns (prefix: seq<Byte>)
    requires Sendable(r)
    ensures |prefix| == AnswersAt(r) && Encode(r) == prefix + (RecordsBytes(r.answers) + r.trailer)
  {
    hide HeaderBytes, QuestionBytes, QuestionsBytes, RecordsBytes;
    prefix := HeaderBytes(r) + QuestionBytes(r.question) + QuestionsBytes(r.others);
  }

  /** When every answer's name can be read, all the addresses are. */
  lemma ResponseRoundTrip(r: Response, utf8: Utf8)
    requires GoodResponse(r, utf8) && NamesRead(Encode(r), r.answers, utf8)
    requires forall i :: 0 <= i < |r.answers| ==> GoodName(r.answers[i].name, utf8)
    ensures Parsed(Encode(r), utf8) == Returns(Addresses(r.answers, Join(r.question.name.labels)))
  {
    hide NamesRead, Parsed, Decoded, Readable, Addresses, Encode, AnswersAt, RecordsBytes, StartOf, Join, Fit, Asked,
         Decodes;
    var prefix := AnswersInside(r);
    NamesReadAreReadable(Encode(r), prefix, r.answers, r.trailer, utf8);
    GoodQuestionDecodes(r, utf8);
    ResponseRoundTripIff(r, utf8);
  }

  lemma {:induction false} NamesReadAreReadable(data: seq<Byte>, prefix: seq<Byte>, records: seq<Record>,
                                                rest: seq<Byte>, utf8: Utf8)
    requires forall i :: 0 <= i < |records| ==> Recordable(records[i]) && GoodName(records[i].name, utf8)
    requires data == prefix + (RecordsBytes(records) + rest) && NamesRead(data, records, utf8)
    ensures Readable(data, |prefix|, records, utf8) == |records|
    decreases |records|
  {
    hide Decoded, RecordBytes, NameReads;
    if records != [] {
      var r, later := records[0], RecordsBytes(records[1..]) + rest;
      assert RecordsBytes(records) + rest == RecordBytes(r) + later;
      assert NameReads(data, records[0].name, utf8);
      NameReadDecodes(data, prefix, r, later, utf8);
      assert data == (prefix + RecordBytes(r)) + later;
      NamesReadAreReadable(data, prefix + RecordBytes(r), records[1..], rest, utf8);
    }
  }

  lemma NameReadDecodes(data: seq<Byte>, prefix: seq<Byte>, r: Record, later: seq<Byte>, utf8: Utf8)
    requires Recordable(r) && GoodName(r.name, utf8)
    requires data == prefix + (RecordBytes(r) + later) && NameReads(data, r.name, utf8)
    ensures Decodes(data, |prefix|, utf8)
  {
    hide Decoded, NameBytes, RecordHead, RecordBytes, TailReads;
    RecordInParts(r);
    var rest := RecordHead(r) + r.rdata + later;
    assert RecordBytes(r) + later == NameBytes(r.name) + rest;
    var labels :| TailReads(data, r.name.tail, utf8, labels) && r.name.labels + labels != [];
    NameReadsBack(data, prefix, r.name, rest, utf8, labels);
    ReadsDecodes(data, |prefix|, utf8, r.name.labels + labels, |prefix| + |NameBytes(r.name)|);
  }

  /** The root is no name to the decoder: an answer that has it for one loses the address behind it. */
  lemma RootNameLosesTheRest(r: Response, utf8: Utf8)
    requires Sendable(r) && Decodes(Encode(r), 12, utf8) && |r.answers| == 2
    requires r.answers[0].name == WireName([], Root) && IsAddress(r.answers[1])
    ensures Parsed(Encode(r), utf8) == Returns([])
    ensures Addresses(r.answers, Asked(Encode(r), utf8)) != []
  {
    hide Parsed, Encode, Decodes, Asked, AnswersAt, Addresses, IsAddress;
    var data, at, name := Encode(r), AnswersAt(r), Asked(Encode(r), utf8);
    NoAddressesIff(r.answers, name);
    DecodedQuestionReadsUpTo(r, utf8);
    RootIsThere(r);
    RootIsNoName(data, at, utf8);
    NothingReadable(data, at, r.answers, name, utf8);
  }

  lemma RootIsNoName(data: seq<Byte>, at: nat, utf8: Utf8)
    requires at < |data| && data[at] == 0
    ensures Decoded(data, at, utf8) == Returns(None)
  {
    assert StepAt(data, at, utf8) == Stop(at + 1);
    assert HaltsWithin(data, at, utf8, |data| + 1) && Labels(data, at, utf8, |data| + 1) == Some([]);
  }

  lemma NothingReadable(data: seq<Byte>, at: nat, records: seq<Record>, name: seq<Byte>, utf8: Utf8)
    requires forall i :: 0 <= i < |records| ==> Recordable(records[i])
    requires Decoded(data, at, utf8) == Returns(None)
    ensures ReadUpTo(data, at, records, name, utf8) == Returns([])
  {
    hide Decoded;
    assert records[..0] == [];
  }

  lemma RootIsThere(r: Response)
    requires Sendable(r) && r.answers != [] && r.answers[0].name == WireName([], Root)
    ensures AnswersAt(r) < |Encode(r)| && Encode(r)[AnswersAt(r)] == 0
  {
    hide Encode, AnswersAt;
    var prefix := AnswersInside(r);
    assert NameBytes(r.answers[0].name) == [0];
    assert RecordBytes(r.answers[0])[0] == 0;
    assert RecordsBytes(r.answers)[0] == 0;
  }

  /** The usual answer name, a pointer to the first question, is always a valid one; so is any name written out. */
  lemma UsualNamesRead(r: Response, utf8: Utf8, name: WireName)
    requires GoodResponse(r, utf8)
    requires name.tail == Pointer(12) || (name.tail.Root? && name.labels != [])
    ensures NameReads(Encode(r), name, utf8)
  {
    hide NameBytes, HeaderBytes, HaltsWithin, Labels;
    var data := Encode(r);
    var wire, fixed := NameBytes(r.question.name), Be16(r.question.kind) + Be16(r.question.rclass);
    var rest := fixed + (QuestionsBytes(r.others) + (RecordsBytes(r.answers) + r.trailer));
    assert data == HeaderBytes(r) + (wire + rest);
    NameReadsBack(data, HeaderBytes(r), r.question.name, rest, utf8, []);
    assert r.question.name.labels + [] == r.question.name.labels;
    if name.tail.Root? {
      assert TailReads(data, name.tail, utf8, []) && name.labels + [] == name.labels;
    } else {
      assert TailReads(data, name.tail, utf8, r.question.name.labels);
      assert name.labels + r.question.name.labels != [] by {
        assert |name.labels + r.question.name.labels| >= |r.question.name.labels|;
      }
    }
  }
}
