/** The DNS name and message reader; labels stay byte strings. */
module DnsReader {
  import opened Prelude
  import opened Text
  import opened Wire

  type Label = Bytes

  const DOT: Byte := 46
  const MAX_DEPTH: nat := 12

  /** The dotted text of a list of labels. */
  function Dotted(labels: seq<Label>): Bytes { Join(labels, DOT) }

  predicate NonEmpty(l: Label) { l != [] }

  // ---------------------------------------------------------------- the reader as a function

  /** The offset in a two-byte pointer, its two top bits removed. */
  function PointerTarget(high: Byte, low: Byte): nat
    requires high >= 0xC0
  {
    U16(high, low) - 0xC000
  }

  /** The calls left before the depth limit. */
  function Budget(depth: nat): nat { if depth > MAX_DEPTH then 0 else MAX_DEPTH + 1 - depth }

  /** `_read_dns_name`: the dotted name and the offset after it, None where it raises. */
  function ReadName(data: Bytes, offset: nat, depth: nat): Option<(Bytes, nat)>
    decreases Budget(depth), |data| + 1
  {
    if depth > MAX_DEPTH || offset >= |data| then None else Walk(data, offset, depth, [])
  }

  /** The loop of the reader, with `labels` read so far. */
  function Walk(data: Bytes, cursor: nat, depth: nat, labels: seq<Label>): Option<(Bytes, nat)>
    requires depth <= MAX_DEPTH && cursor <= |data|
    decreases Budget(depth), |data| - cursor
  {
    if cursor == |data| then None
    else
      var length := data[cursor];
      if length == 0 then Some((Dotted(labels), cursor + 1))
      else if length >= 0xC0 then
        if cursor + 1 >= |data| then None
        else
          match ReadName(data, PointerTarget(length, data[cursor + 1]), depth + 1)
          case None => None
          case Some(pointed) => Some((Dotted(Filter(NonEmpty, labels + [pointed.0])), cursor + 2))
      else if length > 63 || cursor + 1 + length > |data| then None
      else Walk(data, cursor + 1 + length, depth, labels + [data[cursor + 1..cursor + 1 + length]])
  }

  /** The reader itself: it terminates on every byte string, pointer cycles included. */
  method ReadDnsName(data: Bytes, offset: nat, depth: nat) returns (r: Option<(Bytes, nat)>)
    ensures r == ReadName(data, offset, depth)
    decreases Budget(depth)
  {
    if depth > MAX_DEPTH || offset >= |data| {
      return None;
    }
    var labels: seq<Label> := [];
    var cursor := offset;
    while cursor < |data|
      invariant cursor <= |data|
      invariant Walk(data, cursor, depth, labels) == ReadName(data, offset, depth)
      decreases |data| - cursor
    {
      var length := data[cursor];
      if length == 0 {
        return Some((Dotted(labels), cursor + 1));
      }
      if length >= 0xC0 {
        if cursor + 1 >= |data| {
          return None;
        }
        var pointed := ReadDnsName(data, PointerTarget(length, data[cursor + 1]), depth + 1);
        if pointed.None? {
          return None;
        }
        return Some((Dotted(Filter(NonEmpty, labels + [pointed.value.0])), cursor + 2));
      }
      if length > 63 || cursor + 1 + length > |data| {
        return None;
      }
      labels := labels + [data[cursor + 1..cursor + 1 + length]];
      cursor := cursor + 1 + length;
    }
    r := None;
  }

  // ---------------------------------------------------------------- names as RFC 1035 section 4.1.4 lays them out

  /** How a name is written: labels in place, possibly continued elsewhere through a pointer, up to the root. */
  datatype Layout = Root | InPlace(text: Label, rest: Layout) | Pointer(target: nat, rest: Layout)

  /** The bytes at `at` are the layout. */
  ghost predicate Laid(data: Bytes, at: nat, l: Layout)
    decreases l
  {
    match l
    case Root => at < |data| && data[at] == 0
    case InPlace(text, rest) =>
      && 1 <= |text| <= 63 && at + 1 + |text| <= |data|
      && data[at] == |text| && data[at + 1..at + 1 + |text|] == text
      && Laid(data, at + 1 + |text|, rest)
    case Pointer(target, rest) =>
      && at + 1 < |data| && target < 0x4000
      && data[at] == 0xC0 + target / 256 && data[at + 1] == target % 256
      && Laid(data, target, rest)
  }

  function Labels(l: Layout): seq<Label> {
    match l
    case Root => []
    case InPlace(text, rest) => [text] + Labels(rest)
    case Pointer(_, rest) => Labels(rest)
  }

  function Hops(l: Layout): nat {
    match l
    case Root => 0
    case InPlace(_, rest) => Hops(rest)
    case Pointer(_, rest) => 1 + Hops(rest)
  }

  /** The offset after the part of the name that lies at `at`. */
  function End(l: Layout, at: nat): nat {
    match l
    case Root => at + 1
    case InPlace(text, rest) => End(rest, at + 1 + |text|)
    case Pointer(_, _) => at + 2
  }

  lemma {:induction false} LaidLabelsNonEmpty(data: Bytes, at: nat, l: Layout)
    requires Laid(data, at, l)
    ensures forall x :: x in Labels(l) ==> NonEmpty(x)
    ensures at < |data|
    decreases l
  {
    match l
    case Root =>
    case InPlace(text, rest) => LaidLabelsNonEmpty(data, at + 1 + |text|, rest);
    case Pointer(target, rest) => LaidLabelsNonEmpty(data, target, rest);
  }

  /** Appending a whole dotted name and joining again is joining all the labels. */
  lemma {:induction false} DottedPointed(labels: seq<Label>, pointed: seq<Label>)
    requires forall x :: x in labels + pointed ==> NonEmpty(x)
    ensures Dotted(Filter(NonEmpty, labels + [Dotted(pointed)])) == Dotted(labels + pointed)
  {
    assert forall x :: x in labels ==> x in labels + pointed;
    FilterAll(NonEmpty, labels);
    FilterSnoc(NonEmpty, labels, Dotted(pointed));
    if pointed == [] {
      assert labels + pointed == labels;
    } else {
      assert pointed[0] in labels + pointed;
      assert Dotted(pointed) != [];
      if labels == [] {
        assert labels + pointed == pointed && labels + [Dotted(pointed)] == [Dotted(pointed)];
      } else {
        JoinAppend(labels, pointed, DOT);
        JoinAppend(labels, [Dotted(pointed)], DOT);
      }
    }
  }

  lemma {:induction false} WalkInPlace(data: Bytes, at: nat, depth: nat, labels: seq<Label>, text: Label)
    requires depth <= MAX_DEPTH && 1 <= |text| <= 63 && at + 1 + |text| <= |data|
    requires data[at] == |text| && data[at + 1..at + 1 + |text|] == text
    ensures Walk(data, at, depth, labels) == Walk(data, at + 1 + |text|, depth, labels + [text])
  {
  }

  lemma {:induction false} WalkPointer(data: Bytes, at: nat, depth: nat, labels: seq<Label>, target: nat)
    requires depth <= MAX_DEPTH && at + 1 < |data| && target < 0x4000
    requires data[at] == 0xC0 + target / 256 && data[at + 1] == target % 256
    ensures Walk(data, at, depth, labels) ==
            match ReadName(data, target, depth + 1)
            case None => None
            case Some(pointed) => Some((Dotted(Filter(NonEmpty, labels + [pointed.0])), at + 2))
  {
    assert PointerTarget(data[at], data[at + 1]) == target;
  }

  lemma {:induction false} WalkReadsLayout(data: Bytes, at: nat, depth: nat, labels: seq<Label>, l: Layout)
    requires Laid(data, at, l) && depth <= MAX_DEPTH && at <= |data|
    requires forall x :: x in labels ==> NonEmpty(x)
    ensures Walk(data, at, depth, labels) ==
            if Hops(l) + depth <= MAX_DEPTH then Some((Dotted(labels + Labels(l)), End(l, at))) else None
    decreases l
  {
    match l
    case Root =>
      assert labels + [] == labels;
    case InPlace(text, rest) =>
      WalkInPlace(data, at, depth, labels, text);
      WalkReadsLayout(data, at + 1 + |text|, depth, labels + [text], rest);
      assert labels + [text] + Labels(rest) == labels + ([text] + Labels(rest));
    case Pointer(target, rest) =>
      WalkPointer(data, at, depth, labels, target);
      LaidLabelsNonEmpty(data, target, rest);
      if depth < MAX_DEPTH {
        WalkReadsLayout(data, target, depth + 1, [], rest);
        assert [] + Labels(rest) == Labels(rest);
        DottedPointed(labels, Labels(rest));
      }
  }

  /**
   A name laid out with compression is read back, with its dotted text and the offset after it,
   exactly when it chains at most twelve pointers.
   */
  lemma {:induction false} ReaderAcceptsTwelvePointers(data: Bytes, at: nat, l: Layout)
    requires Laid(data, at, l)
    ensures ReadName(data, at, 0) == if Hops(l) <= 12 then Some((Dotted(Labels(l)), End(l, at))) else None
  {
    LaidLabelsNonEmpty(data, at, l);
    WalkReadsLayout(data, at, 0, [], l);
    assert [] + Labels(l) == Labels(l);
  }

  lemma {:induction false} WalkFindsLayout(data: Bytes, at: nat, depth: nat, labels: seq<Label>) returns (l: Layout)
    requires depth <= MAX_DEPTH && at <= |data| && Walk(data, at, depth, labels).Some?
    ensures Laid(data, at, l) && Hops(l) + depth <= MAX_DEPTH
    decreases Budget(depth), |data| - at
  {
    var length := data[at];
    if length == 0 {
      l := Root;
    } else if length >= 0xC0 {
      var target := PointerTarget(length, data[at + 1]);
      var rest := WalkFindsLayout(data, target, depth + 1, []);
      l := Pointer(target, rest);
    } else {
      var rest := WalkFindsLayout(data, at + 1 + length, depth, labels + [data[at + 1..at + 1 + length]]);
      l := InPlace(data[at + 1..at + 1 + length], rest);
    }
  }

  /** The reader accepts nothing else: whatever it returns is the reading of a layout that is there. */
  lemma {:induction false} ReaderIsSound(data: Bytes, at: nat)
    requires ReadName(data, at, 0).Some?
    ensures exists l :: Laid(data, at, l) && Hops(l) <= 12 && ReadName(data, at, 0) == Some((Dotted(Labels(l)), End(l, at)))
  {
    var l := WalkFindsLayout(data, at, 0, []);
    ReaderAcceptsTwelvePointers(data, at, l);
  }

  lemma {:induction false} EndIsInside(data: Bytes, at: nat, l: Layout)
    requires Laid(data, at, l)
    ensures at + 1 <= End(l, at) <= |data|
    decreases l
  {
    if l.InPlace? {
      EndIsInside(data, at + 1 + |l.text|, l.rest);
    }
  }

  /** A name takes at least one byte and ends inside the message. */
  lemma {:induction false} NameTakesAByte(data: Bytes, at: nat)
    ensures ReadName(data, at, 0).Some? ==> at + 1 <= ReadName(data, at, 0).value.1 <= |data|
  {
    if ReadName(data, at, 0).Some? {
      var l := WalkFindsLayout(data, at, 0, []);
      ReaderAcceptsTwelvePointers(data, at, l);
      EndIsInside(data, at, l);
    }
  }

  /** A pointer to itself is refused. */
  lemma {:induction false} SelfPointerIsRefused()
    ensures ReadName([0xC0, 0], 0, 0) == None
  {
    if ReadName([0xC0, 0], 0, 0).Some? {
      var l := WalkFindsLayout([0xC0, 0], 0, 0, []);
      NoLayoutOfSelfPointer(l);
    }
  }

  lemma {:induction false} NoLayoutOfSelfPointer(l: Layout)
    ensures !Laid([0xC0, 0], 0, l)
    decreases l
  {
    if l.Pointer? {
      if l.target == 0 {
        NoLayoutOfSelfPointer(l.rest);
      }
    }
  }

  // ---------------------------------------------------------------- messages

  datatype Question = Question(name: Bytes, recordType: Word)

  datatype Record = Record(name: Bytes, recordType: Word, recordClass: Word, rdata: Bytes, rdataOffset: nat)

  datatype Message = Message(isResponse: bool, questions: seq<Question>, records: seq<Record>)

  function ReadQuestion(data: Bytes, offset: nat): Option<(Question, nat)> {
    match ReadName(data, offset, 0)
    case None => None
    case Some(read) =>
      if read.1 + 4 > |data| then None else Some((Question(read.0, Get16(data, read.1)), read.1 + 4))
  }

  function ReadRecord(data: Bytes, offset: nat): Option<(Record, nat)> {
    match ReadName(data, offset, 0)
    case None => None
    case Some(read) =>
      if read.1 + 10 > |data| then None
      else
        var at := read.1 + 10;
        var end := at + Get16(data, read.1 + 8);
        if end > |data| then None
        else Some((Record(read.0, Get16(data, read.1), Get16(data, read.1 + 2), data[at..end], at), end))
  }

  /** Results read before those of `rest`. */
  function Behind<R>(front: seq<R>, rest: Option<(seq<R>, nat)>): Option<(seq<R>, nat)> {
    match rest case None => None case Some(r) => Some((front + r.0, r.1))
  }

  function ReadQuestions(data: Bytes, offset: nat, count: nat): Option<(seq<Question>, nat)>
    decreases count
  {
    if count == 0 then Some(([], offset))
    else
      match ReadQuestion(data, offset)
      case None => None
      case Some(first) => Behind([first.0], ReadQuestions(data, first.1, count - 1))
  }

  function ReadRecords(data: Bytes, offset: nat, count: nat): Option<(seq<Record>, nat)>
    decreases count
  {
    if count == 0 then Some(([], offset))
    else
      match ReadRecord(data, offset)
      case None => None
      case Some(first) => Behind([first.0], ReadRecords(data, first.1, count - 1))
  }

  lemma {:induction false} BehindNothing<R>(rest: Option<(seq<R>, nat)>)
    ensures Behind([], rest) == rest
  {
    if rest.Some? {
      assert [] + rest.value.0 == rest.value.0;
    }
  }

  lemma {:induction false} BehindBehind<R>(front: seq<R>, x: R, rest: Option<(seq<R>, nat)>)
    ensures Behind(front, Behind([x], rest)) == Behind(front + [x], rest)
  {
    if rest.Some? {
      assert front + ([x] + rest.value.0) == front + [x] + rest.value.0;
    }
  }

  const EMPTY := Message(false, [], [])

  function QuestionCount(data: Bytes): nat requires |data| >= 12 { Get16(data, 4) }

  function RecordCount(data: Bytes): nat requires |data| >= 12 { Get16(data, 6) + Get16(data, 8) + Get16(data, 10) }

  /** `_parse_dns_message`; None stands for the triple (False, [], []) it returns on malformed input. */
  function ParseMessage(data: Bytes): Option<Message> {
    if |data| < 12 then None
    else
      match ReadQuestions(data, 12, QuestionCount(data))
      case None => None
      case Some(qs) =>
        match ReadRecords(data, qs.1, RecordCount(data))
        case None => None
        case Some(rs) => Some(Message(Get16(data, 2) >= 0x8000, qs.0, rs.0))
  }

  method ReadDnsQuestion(data: Bytes, offset: nat) returns (r: Option<(Question, nat)>)
    ensures r == ReadQuestion(data, offset)
  {
    var name := ReadDnsName(data, offset, 0);
    if name.None? || name.value.1 + 4 > |data| {
      return None;
    }
    r := Some((Question(name.value.0, Get16(data, name.value.1)), name.value.1 + 4));
  }

  method ReadDnsRecord(data: Bytes, offset: nat) returns (r: Option<(Record, nat)>)
    ensures r == ReadRecord(data, offset)
  {
    var name := ReadDnsName(data, offset, 0);
    if name.None? || name.value.1 + 10 > |data| {
      return None;
    }
    var head := name.value.1;
    var end := head + 10 + Get16(data, head + 8);
    if end > |data| {
      return None;
    }
    r := Some((Record(name.value.0, Get16(data, head), Get16(data, head + 2), data[head + 10..end], head + 10), end));
  }

  method ReadAllQuestions(data: Bytes, start: nat, count: nat) returns (r: Option<(seq<Question>, nat)>)
    ensures r == ReadQuestions(data, start, count)
  {
    var offset := start;
    var questions: seq<Question> := [];
    BehindNothing(ReadQuestions(data, start, count));
    for i := 0 to count
      invariant ReadQuestions(data, start, count) == Behind(questions, ReadQuestions(data, offset, count - i))
    {
      var question := ReadDnsQuestion(data, offset);
      if question.None? {
        return None;
      }
      BehindBehind(questions, question.value.0, ReadQuestions(data, question.value.1, count - i - 1));
      questions, offset := questions + [question.value.0], question.value.1;
    }
    assert questions + [] == questions;
    r := Some((questions, offset));
  }

  method ReadAllRecords(data: Bytes, start: nat, count: nat) returns (r: Option<(seq<Record>, nat)>)
    ensures r == ReadRecords(data, start, count)
  {
    var offset := start;
    var records: seq<Record> := [];
    BehindNothing(ReadRecords(data, start, count));
    for i := 0 to count
      invariant ReadRecords(data, start, count) == Behind(records, ReadRecords(data, offset, count - i))
    {
      var record := ReadDnsRecord(data, offset);
      if record.None? {
        return None;
      }
      BehindBehind(records, record.value.0, ReadRecords(data, record.value.1, count - i - 1));
      records, offset := records + [record.value.0], record.value.1;
    }
    assert records + [] == records;
    r := Some((records, offset));
  }

  method ParseDnsMessage(data: Bytes) returns (m: Message)
    ensures m == if ParseMessage(data).Some? then ParseMessage(data).value else EMPTY
  {
    if |data| < 12 {
      return EMPTY;
    }
    var questions := ReadAllQuestions(data, 12, QuestionCount(data));
    if questions.None? {
      return EMPTY;
    }
    var records := ReadAllRecords(data, questions.value.1, RecordCount(data));
    if records.None? {
      return EMPTY;
    }
    m := Message(Get16(data, 2) >= 0x8000, questions.value.0, records.value.0);
  }

  lemma {:induction false} QuestionsTakeSpace(data: Bytes, offset: nat, count: nat)
    requires offset <= |data| && ReadQuestions(data, offset, count).Some?
    ensures |ReadQuestions(data, offset, count).value.0| == count
    ensures offset + 5 * count <= ReadQuestions(data, offset, count).value.1 <= |data|
    decreases count
  {
    if count > 0 {
      NameTakesAByte(data, offset);
      QuestionsTakeSpace(data, ReadQuestion(data, offset).value.1, count - 1);
    }
  }

  lemma {:induction false} RecordsTakeSpace(data: Bytes, offset: nat, count: nat)
    requires offset <= |data| && ReadRecords(data, offset, count).Some?
    ensures |ReadRecords(data, offset, count).value.0| == count
    ensures offset + 11 * count <= ReadRecords(data, offset, count).value.1 <= |data|
    ensures forall r :: r in ReadRecords(data, offset, count).value.0 ==>
              r.rdataOffset + |r.rdata| <= |data| && r.rdata == data[r.rdataOffset..r.rdataOffset + |r.rdata|]
    decreases count
  {
    if count > 0 {
      NameTakesAByte(data, offset);
      RecordsTakeSpace(data, ReadRecord(data, offset).value.1, count - 1);
    }
  }

  /** However a message is crafted, what it yields is bounded by its length, and record data lies inside it. */
  lemma {:induction false} ParsedMessageFitsItsBytes(data: Bytes)
    requires ParseMessage(data).Some?
    ensures var m := ParseMessage(data).value;
            && 12 + 5 * |m.questions| + 11 * |m.records| <= |data|
            && (m.isResponse <==> data[2] >= 128)
            && |m.questions| == 256 * (data[4] as int) + data[5] as int
            && |m.records| == 256 * (data[6] as int + data[8] as int + data[10] as int) + (data[7] as int + data[9] as int + data[11] as int)
            && (forall r :: r in m.records ==> r.rdataOffset + |r.rdata| <= |data|
                                               && r.rdata == data[r.rdataOffset..r.rdataOffset + |r.rdata|])
  {
    QuestionsTakeSpace(data, 12, QuestionCount(data));
    RecordsTakeSpace(data, ReadQuestions(data, 12, QuestionCount(data)).value.1, RecordCount(data));
  }

  // ---------------------------------------------------------------- printing, and reading back

  predicate ValidLabel(l: Label) { 1 <= |l| <= 63 }

  /** An uncompressed name. */
  function WriteName(labels: seq<Label>): Bytes
    requires forall l :: l in labels ==> ValidLabel(l)
  {
    if labels == [] then [0]
    else
      assert ValidLabel(labels[0]);
      [|labels[0]|] + (labels[0] + WriteName(labels[1..]))
  }

  function InPlaceLayout(labels: seq<Label>): Layout {
    if labels == [] then Root else InPlace(labels[0], InPlaceLayout(labels[1..]))
  }

  lemma {:induction false} WrittenLabelIsThere(data: Bytes, at: nat, text: Label, rest: Bytes)
    requires ValidLabel(text) && HoldsAt(data, at, [|text|] + (text + rest))
    ensures at + 1 + |text| <= |data| && data[at] == |text| && data[at + 1..at + 1 + |text|] == text
    ensures HoldsAt(data, at + 1 + |text|, rest)
  {
    HoldsParts(data, at, [|text|], text + rest);
    HoldsParts(data, at + 1, text, rest);
    assert data[at..at + 1][0] == data[at];
  }

  lemma {:induction false} LaidInFront(data: Bytes, at: nat, text: Label, rest: Layout)
    requires 1 <= |text| <= 63 && at + 1 + |text| <= |data|
    requires data[at] == |text| && data[at + 1..at + 1 + |text|] == text && Laid(data, at + 1 + |text|, rest)
    ensures var l := InPlace(text, rest);
            Laid(data, at, l) && Hops(l) == Hops(rest) && Labels(l) == [text] + Labels(rest) && End(l, at) == End(rest, at + 1 + |text|)
  {
  }

  lemma {:induction false} WrittenNameIsLaid(data: Bytes, at: nat, labels: seq<Label>)
    requires forall l :: l in labels ==> ValidLabel(l)
    requires HoldsAt(data, at, WriteName(labels))
    ensures var l := InPlaceLayout(labels);
            Laid(data, at, l) && Hops(l) == 0 && Labels(l) == labels && End(l, at) == at + |WriteName(labels)|
    decreases |labels|
  {
    if labels == [] {
      assert data[at..at + 1][0] == data[at];
    } else {
      var text := labels[0];
      assert text in labels;
      var rest, next := InPlaceLayout(labels[1..]), at + 1 + |text|;
      assert WriteName(labels) == [|text|] + (text + WriteName(labels[1..])) && InPlaceLayout(labels) == InPlace(text, rest);
      WrittenLabelIsThere(data, at, text, WriteName(labels[1..]));
      WrittenNameIsLaid(data, next, labels[1..]);
      LaidInFront(data, at, text, rest);
      assert labels == [text] + labels[1..];
    }
  }

  lemma {:induction false} WrittenNameReadsBack(data: Bytes, at: nat, labels: seq<Label>)
    requires forall l :: l in labels ==> ValidLabel(l)
    requires HoldsAt(data, at, WriteName(labels))
    ensures ReadName(data, at, 0) == Some((Dotted(labels), at + |WriteName(labels)|))
  {
    WrittenNameIsLaid(data, at, labels);
    ReaderAcceptsTwelvePointers(data, at, InPlaceLayout(labels));
  }

  /** A question or record as a message lays it out: a name, compressed in any way, and the fixed fields behind it. */
  datatype LaidQuestion = LaidQuestion(name: Layout, recordType: Word, recordClass: Word)

  datatype LaidRecord = LaidRecord(name: Layout, recordType: Word, recordClass: Word, ttlHigh: Word, ttlLow: Word, rdata: Bytes)

  function QuestionFields(q: LaidQuestion): Bytes { Put16(q.recordType) + Put16(q.recordClass) }

  function RecordFields(r: LaidRecord): Bytes
    requires |r.rdata| < 0x1_0000
  {
    Put16(r.recordType) + (Put16(r.recordClass) + (Put16(r.ttlHigh) + (Put16(r.ttlLow) + (Put16(|r.rdata|) + r.rdata))))
  }

  ghost predicate QuestionIsLaid(data: Bytes, at: nat, q: LaidQuestion) {
    Laid(data, at, q.name) && Hops(q.name) <= 12 && HoldsAt(data, End(q.name, at), QuestionFields(q))
  }

  ghost predicate RecordIsLaid(data: Bytes, at: nat, r: LaidRecord) {
    && Laid(data, at, r.name) && Hops(r.name) <= 12
    && |r.rdata| < 0x1_0000 && HoldsAt(data, End(r.name, at), RecordFields(r))
  }

  function QuestionEnd(q: LaidQuestion, at: nat): nat { End(q.name, at) + 4 }

  function RecordEnd(r: LaidRecord, at: nat): nat { End(r.name, at) + 10 + |r.rdata| }

  /** What the reader is to return for them. */
  function QuestionRead(q: LaidQuestion): Question { Question(Dotted(Labels(q.name)), q.recordType) }

  function RecordRead(r: LaidRecord, at: nat): Record {
    Record(Dotted(Labels(r.name)), r.recordType, r.recordClass, r.rdata, End(r.name, at) + 10)
  }

  lemma {:induction false} QuestionReadsBack(data: Bytes, at: nat, q: LaidQuestion)
    requires QuestionIsLaid(data, at, q)
    ensures ReadQuestion(data, at) == Some((QuestionRead(q), QuestionEnd(q, at)))
  {
    ReaderAcceptsTwelvePointers(data, at, q.name);
    HoldsParts(data, End(q.name, at), Put16(q.recordType), Put16(q.recordClass));
    Get16OfPut16(data, End(q.name, at), q.recordType);
  }

  lemma {:induction false} RecordFieldsReadBack(data: Bytes, at: nat, r: LaidRecord)
    requires |r.rdata| < 0x1_0000 && HoldsAt(data, at, RecordFields(r))
    ensures at + 10 + |r.rdata| <= |data|
    ensures Get16(data, at) == r.recordType && Get16(data, at + 2) == r.recordClass && Get16(data, at + 8) == |r.rdata|
    ensures data[at + 10..at + 10 + |r.rdata|] == r.rdata
  {
    HoldsParts(data, at, Put16(r.recordType), Put16(r.recordClass) + (Put16(r.ttlHigh) + (Put16(r.ttlLow) + (Put16(|r.rdata|) + r.rdata))));
    HoldsParts(data, at + 2, Put16(r.recordClass), Put16(r.ttlHigh) + (Put16(r.ttlLow) + (Put16(|r.rdata|) + r.rdata)));
    HoldsParts(data, at + 4, Put16(r.ttlHigh), Put16(r.ttlLow) + (Put16(|r.rdata|) + r.rdata));
    HoldsParts(data, at + 6, Put16(r.ttlLow), Put16(|r.rdata|) + r.rdata);
    HoldsParts(data, at + 8, Put16(|r.rdata|), r.rdata);
    Get16OfPut16(data, at, r.recordType);
    Get16OfPut16(data, at + 2, r.recordClass);
    Get16OfPut16(data, at + 8, |r.rdata|);
  }

  lemma {:induction false} RecordReadsBack(data: Bytes, at: nat, r: LaidRecord)
    requires RecordIsLaid(data, at, r)
    ensures ReadRecord(data, at) == Some((RecordRead(r, at), RecordEnd(r, at)))
  {
    ReaderAcceptsTwelvePointers(data, at, r.name);
    RecordFieldsReadBack(data, End(r.name, at), r);
  }

  /** Questions one after another from `at` on. */
  ghost predicate QuestionsAreLaid(data: Bytes, at: nat, qs: seq<LaidQuestion>)
    decreases |qs|
  {
    qs == [] || (QuestionIsLaid(data, at, qs[0]) && QuestionsAreLaid(data, QuestionEnd(qs[0], at), qs[1..]))
  }

  ghost predicate RecordsAreLaid(data: Bytes, at: nat, rs: seq<LaidRecord>)
    decreases |rs|
  {
    rs == [] || (RecordIsLaid(data, at, rs[0]) && RecordsAreLaid(data, RecordEnd(rs[0], at), rs[1..]))
  }

  function QuestionsEnd(qs: seq<LaidQuestion>, at: nat): nat {
    if qs == [] then at else QuestionsEnd(qs[1..], QuestionEnd(qs[0], at))
  }

  function RecordsRead(rs: seq<LaidRecord>, at: nat): seq<Record> {
    if rs == [] then [] else [RecordRead(rs[0], at)] + RecordsRead(rs[1..], RecordEnd(rs[0], at))
  }

  function RecordsEnd(rs: seq<LaidRecord>, at: nat): nat {
    if rs == [] then at else RecordsEnd(rs[1..], RecordEnd(rs[0], at))
  }

  lemma {:induction false} QuestionsReadBack(data: Bytes, at: nat, qs: seq<LaidQuestion>)
    requires QuestionsAreLaid(data, at, qs)
    ensures ReadQuestions(data, at, |qs|) == Some((Map(QuestionRead, qs), QuestionsEnd(qs, at)))
    decreases |qs|
  {
    if qs != [] {
      QuestionReadsBack(data, at, qs[0]);
      QuestionsReadBack(data, QuestionEnd(qs[0], at), qs[1..]);
      assert Map(QuestionRead, qs) == [QuestionRead(qs[0])] + Map(QuestionRead, qs[1..]);
    }
  }

  /** Each record reads as expected where the previous one ends. */
  ghost predicate RecordsReadable(data: Bytes, at: nat, rs: seq<LaidRecord>)
    decreases |rs|
  {
    rs == []
    || (ReadRecord(data, at) == Some((RecordRead(rs[0], at), RecordEnd(rs[0], at)))
        && RecordsReadable(data, RecordEnd(rs[0], at), rs[1..]))
  }

  lemma {:induction false} LaidRecordsAreReadable(data: Bytes, at: nat, rs: seq<LaidRecord>)
    requires RecordsAreLaid(data, at, rs)
    ensures RecordsReadable(data, at, rs)
    decreases |rs|
  {
    if rs != [] {
      RecordReadsBack(data, at, rs[0]);
      LaidRecordsAreReadable(data, RecordEnd(rs[0], at), rs[1..]);
    }
  }

  lemma {:induction false} RecordsReadBack(data: Bytes, at: nat, rs: seq<LaidRecord>)
    requires RecordsReadable(data, at, rs)
    ensures ReadRecords(data, at, |rs|) == Some((RecordsRead(rs, at), RecordsEnd(rs, at)))
    decreases |rs|
  {
    if rs != [] {
      RecordsReadBack(data, RecordEnd(rs[0], at), rs[1..]);
    }
  }

  /** The header of RFC 1035 section 4.1.1: id, flags, and the numbers of questions, answers, authority and additional records. */
  function Header(id: Word, flags: Word, questions: Word, answers: Word, authority: Word, additional: Word): Bytes {
    Put16(id) + (Put16(flags) + (Put16(questions) + (Put16(answers) + (Put16(authority) + Put16(additional)))))
  }

  lemma {:induction false} HeaderReadsBack(data: Bytes, id: Word, flags: Word, questions: Word, answers: Word, authority: Word, additional: Word)
    requires HoldsAt(data, 0, Header(id, flags, questions, answers, authority, additional))
    ensures |data| >= 12 && Get16(data, 2) == flags && QuestionCount(data) == questions
    ensures RecordCount(data) == answers + authority + additional
  {
    var behind := Put16(answers) + (Put16(authority) + Put16(additional));
    HoldsThen(data, 0, Put16(id), Put16(flags) + (Put16(questions) + behind), 2);
    HoldsThen(data, 2, Put16(flags), Put16(questions) + behind, 4);
    HoldsThen(data, 4, Put16(questions), behind, 6);
    HoldsThen(data, 6, Put16(answers), Put16(authority) + Put16(additional), 8);
    HoldsThen(data, 8, Put16(authority), Put16(additional), 10);
    Get16OfPut16(data, 2, flags);
    Get16OfPut16(data, 4, questions);
    Get16OfPut16(data, 6, answers);
    Get16OfPut16(data, 8, authority);
    Get16OfPut16(data, 10, additional);
  }

  /**
   Any message laid out as in RFC 1035 section 4.1, its names compressed in any way that chains at most twelve
   pointers and whatever bytes follow, is read back question by question and record by record.
   */
  lemma {:induction false} MessageReadsBack(
      data: Bytes, id: Word, flags: Word, answers: Word, authority: Word, additional: Word, qs: seq<LaidQuestion>, rs: seq<LaidRecord>)
    requires |qs| < 0x1_0000 && answers + authority + additional == |rs|
    requires HoldsAt(data, 0, Header(id, flags, |qs|, answers, authority, additional))
    requires QuestionsAreLaid(data, 12, qs) && RecordsAreLaid(data, QuestionsEnd(qs, 12), rs)
    ensures ParseMessage(data) ==
            Some(Message(flags >= 0x8000, Map(QuestionRead, qs), RecordsRead(rs, QuestionsEnd(qs, 12))))
  {
    HeaderReadsBack(data, id, flags, |qs|, answers, authority, additional);
    QuestionsReadBack(data, 12, qs);
    LaidRecordsAreReadable(data, QuestionsEnd(qs, 12), rs);
    RecordsReadBack(data, QuestionsEnd(qs, 12), rs);
  }

  /** How two labels are laid out, and how their name reads: "a.b". */
  lemma {:induction false} TwoLabels(a: Byte, b: Byte)
    ensures WriteName([[a], [b]]) == [1, a, 1, b, 0] && Dotted([[a], [b]]) == [a, 46, b]
  {
    var rest: seq<Label> := [[b]];
    assert [[a], [b]][1..] == rest && rest[1..] == [];
    assert WriteName(rest) == [1, b, 0];
    assert Join(rest, DOT) == [b];
  }
}
