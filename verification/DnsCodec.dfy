/**
 The hand-written DNS query printer and response parser (sections 4.1.1 to 4.1.4 of
 RFC 1035). The parser is proved against a description of the packets it accepts: a name is
 a printed list of labels, a packet is a header followed by printed questions and records.
 */
module DnsCodec {
  import opened ByteStrings
  import opened Text

  const TYPE_A := 1
  const TYPE_AAAA := 28
  const CLASS_IN := 1
  const MAX_LABELS := 255

  // ---- Names -----------------------------------------------------------------------------

  predicate Legal(labels: seq<Bytes>) {
    forall i :: 0 <= i < |labels| ==> 0 < |labels[i]| < 64
  }

  function PrintLabel(l: Bytes): Bytes {
    [|l| % 256] + l
  }

  /** Each label prefixed by its length. */
  function PrintLabels(labels: seq<Bytes>): Bytes {
    if labels == [] then [] else PrintLabel(labels[0]) + PrintLabels(labels[1..])
  }

  /** The root label, or a two-byte compression pointer. */
  predicate Terminator(t: Bytes) {
    t == [0] || (|t| == 2 && t[0] >= 192)
  }

  /** A name as it stands in a packet. */
  datatype Name = Name(labels: seq<Bytes>, end: Bytes)

  predicate WellFormed(n: Name) {
    Legal(n.labels) && |n.labels| <= MAX_LABELS && Terminator(n.end)
  }

  function PrintName(n: Name): Bytes {
    PrintLabels(n.labels) + n.end
  }

  /** Where the name at `offset` ends, if it is one, with `seen` labels already passed. */
  function SkipName(packet: Bytes, offset: nat, seen: nat): (r: Option<nat>)
    ensures r.Some? ==> offset < r.value <= |packet|
    decreases |packet| - offset
  {
    if offset >= |packet| then None
    else
      var len := packet[offset] as int;
      if len >= 192 then if offset + 1 >= |packet| then None else Some(offset + 2)
      else if len >= 64 then None
      else if len == 0 then Some(offset + 1)
      else if offset + 1 + len > |packet| || seen + 1 > MAX_LABELS then None
      else SkipName(packet, offset + 1 + len, seen + 1)
  }

  /** `skip_dns_name`. The top two bits of a length byte are tested by comparison. */
  method SkipDnsName(packet: Bytes, start: nat) returns (ok: bool, offset: nat)
    ensures SkipName(packet, start, 0) == if ok then Some(offset) else None
  {
    offset := start;
    var jumps := 0;
    while offset < |packet|
      invariant SkipName(packet, offset, jumps) == SkipName(packet, start, 0)
      decreases |packet| - offset
    {
      var len := packet[offset] as int;
      if len >= 192 {
        if offset + 1 >= |packet| {
          return false, offset;
        }
        return true, offset + 2;
      }
      if len >= 64 {
        return false, offset;
      }
      offset := offset + 1;
      if len == 0 {
        return true, offset;
      }
      jumps := jumps + 1;
      if offset + len > |packet| || jumps > 255 {
        return false, offset;
      }
      offset := offset + len;
    }
    ok := false;
  }

  lemma SliceSplit(s: Bytes, a: nat, b: nat, c: nat)
    requires a <= b <= c <= |s|
    ensures s[a..c] == s[a..b] + s[b..c]
  {
  }

  /** A skipped name is a printed one. */
  lemma {:induction false} SkipSound(packet: Bytes, offset: nat, seen: nat) returns (n: Name)
    requires seen <= MAX_LABELS && SkipName(packet, offset, seen).Some?
    ensures Legal(n.labels) && Terminator(n.end) && seen + |n.labels| <= MAX_LABELS
    ensures packet[offset..SkipName(packet, offset, seen).value] == PrintName(n)
    decreases |packet| - offset
  {
    var len := packet[offset] as int;
    var end := SkipName(packet, offset, seen).value;
    if len >= 192 || len == 0 {
      n := Name([], packet[offset..end]);
    } else {
      var next := offset + 1 + len;
      var rest := SkipSound(packet, next, seen + 1);
      var head := packet[offset + 1..next];
      n := Name([head] + rest.labels, rest.end);
      assert n.labels[1..] == rest.labels;
      SliceSplit(packet, offset, next, end);
      assert packet[offset..next] == PrintLabel(head);
    }
  }

  /** Every printed name is skipped exactly, whatever surrounds it. */
  lemma {:induction false} SkipComplete(before: Bytes, n: Name, after: Bytes, seen: nat)
    requires Legal(n.labels) && Terminator(n.end) && seen + |n.labels| <= MAX_LABELS
    ensures SkipName(before + PrintName(n) + after, |before|, seen) == Some(|before| + |PrintName(n)|)
    decreases |n.labels|
  {
    var packet := before + PrintName(n) + after;
    if n.labels == [] {
      assert packet[|before|] == n.end[0];
    } else {
      var head := n.labels[0];
      var rest := Name(n.labels[1..], n.end);
      var before' := before + PrintLabel(head);
      SkipComplete(before', rest, after, seen + 1);
      assert PrintName(n) == PrintLabel(head) + PrintName(rest);
      assert packet == before' + PrintName(rest) + after;
      assert packet[|before|] == |head|;
    }
  }

  /** One label too many and the name is refused. */
  lemma {:induction false} SkipTooLong(before: Bytes, n: Name, after: Bytes, seen: nat)
    requires Legal(n.labels) && seen <= MAX_LABELS < seen + |n.labels|
    ensures SkipName(before + PrintName(n) + after, |before|, seen) == None
    decreases |n.labels|
  {
    var packet := before + PrintName(n) + after;
    var head := n.labels[0];
    var rest := Name(n.labels[1..], n.end);
    var before' := before + PrintLabel(head);
    assert PrintName(n) == PrintLabel(head) + PrintName(rest);
    assert packet == before' + PrintName(rest) + after;
    assert packet[|before|] == |head|;
    if seen < MAX_LABELS {
      SkipTooLong(before', rest, after, seen + 1);
    }
  }

  // ---- Questions ----------------------------------------------------------------------------

  /** A name and four bytes of type and class. */
  datatype Question = Question(name: Name, kind: Bytes)

  predicate GoodQuestion(q: Question) {
    WellFormed(q.name) && |q.kind| == 4
  }

  function PrintQuestion(q: Question): Bytes
    requires GoodQuestion(q)
  {
    PrintName(q.name) + q.kind
  }

  predicate GoodQuestions(qs: seq<Question>) {
    forall i :: 0 <= i < |qs| ==> GoodQuestion(qs[i])
  }

  function PrintQuestions(qs: seq<Question>): Bytes
    requires GoodQuestions(qs)
  {
    if qs == [] then [] else PrintQuestion(qs[0]) + PrintQuestions(qs[1..])
  }

  function SkipQuestion(packet: Bytes, offset: nat): (r: Option<nat>)
    ensures r.Some? ==> offset < r.value <= |packet|
  {
    match SkipName(packet, offset, 0)
    case None => None
    case Some(end) => if end + 4 > |packet| then None else Some(end + 4)
  }

  function SkipQuestions(packet: Bytes, offset: nat, count: nat): (r: Option<nat>)
    requires offset <= |packet|
    ensures r.Some? ==> offset <= r.value <= |packet|
    decreases count
  {
    if count == 0 then Some(offset)
    else
      match SkipQuestion(packet, offset)
      case None => None
      case Some(next) => SkipQuestions(packet, next, count - 1)
  }

  lemma {:induction false} QuestionsSound(packet: Bytes, offset: nat, count: nat) returns (qs: seq<Question>)
    requires offset <= |packet| && SkipQuestions(packet, offset, count).Some?
    ensures |qs| == count && GoodQuestions(qs)
    ensures packet[offset..SkipQuestions(packet, offset, count).value] == PrintQuestions(qs)
    decreases count
  {
    if count == 0 {
      qs := [];
    } else {
      var name := SkipSound(packet, offset, 0);
      var end, next := SkipName(packet, offset, 0).value, SkipQuestion(packet, offset).value;
      var q := Question(name, packet[end..next]);
      var rest := QuestionsSound(packet, next, count - 1);
      qs := [q] + rest;
      assert qs[1..] == rest;
      SliceSplit(packet, offset, end, next);
      SliceSplit(packet, offset, next, SkipQuestions(packet, offset, count).value);
    }
  }

  lemma QuestionComplete(before: Bytes, q: Question, after: Bytes)
    requires GoodQuestion(q)
    ensures SkipQuestion(before + PrintQuestion(q) + after, |before|) == Some(|before| + |PrintQuestion(q)|)
  {
    SkipComplete(before, q.name, q.kind + after, 0);
    assert before + PrintName(q.name) + (q.kind + after) == before + PrintQuestion(q) + after;
  }

  lemma {:induction false} QuestionsComplete(before: Bytes, qs: seq<Question>, after: Bytes)
    requires GoodQuestions(qs)
    ensures SkipQuestions(before + PrintQuestions(qs) + after, |before|, |qs|) == Some(|before| + |PrintQuestions(qs)|)
    decreases |qs|
  {
    hide SkipQuestion;
    hide PrintQuestion;
    hide GoodQuestion;
    if qs != [] {
      var q, rest := PrintQuestion(qs[0]), PrintQuestions(qs[1..]);
      var packet := before + PrintQuestions(qs) + after;
      QuestionComplete(before, qs[0], rest + after);
      QuestionsComplete(before + q, qs[1..], after);
      assert before + q + (rest + after) == packet;
      assert (before + q) + rest + after == packet;
    }
  }

  // ---- Records --------------------------------------------------------------------------------

  datatype Record = Record(name: Name, kind: nat, klass: nat, ttl: Bytes, rdata: Bytes)

  predicate GoodRecord(r: Record) {
    WellFormed(r.name) && r.kind < 0x10000 && r.klass < 0x10000 && |r.ttl| == 4 && |r.rdata| < 0x10000
  }

  function PrintFixed(r: Record): (s: Bytes)
    requires GoodRecord(r)
    ensures |s| == 10
  {
    Be16(r.kind) + Be16(r.klass) + r.ttl + Be16(|r.rdata|)
  }

  function PrintRecord(r: Record): Bytes
    requires GoodRecord(r)
  {
    PrintName(r.name) + PrintFixed(r) + r.rdata
  }

  predicate GoodRecords(rs: seq<Record>) {
    forall i :: 0 <= i < |rs| ==> GoodRecord(rs[i])
  }

  function PrintRecords(rs: seq<Record>): Bytes
    requires GoodRecords(rs)
  {
    if rs == [] then [] else PrintRecord(rs[0]) + PrintRecords(rs[1..])
  }

  /** What the parser reads of a record, and where the next one starts. */
  datatype Raw = Raw(kind: nat, klass: nat, rdata: Bytes, next: nat)

  function RecordAt(packet: Bytes, offset: nat): (r: Option<Raw>)
    ensures r.Some? ==> offset < r.value.next <= |packet|
  {
    match SkipName(packet, offset, 0)
    case None => None
    case Some(end) =>
      if end + 10 > |packet| then None
      else
        var rdlen := ReadBe16(packet, end + 8);
        if end + 10 + rdlen > |packet| then None
        else Some(Raw(ReadBe16(packet, end), ReadBe16(packet, end + 2), packet[end + 10..end + 10 + rdlen], end + 10 + rdlen))
  }

  lemma RecordSound(packet: Bytes, offset: nat) returns (r: Record)
    requires RecordAt(packet, offset).Some?
    ensures GoodRecord(r)
    ensures
      var raw := RecordAt(packet, offset).value;
      packet[offset..raw.next] == PrintRecord(r) && raw == Raw(r.kind, r.klass, r.rdata, raw.next)
  {
    var raw := RecordAt(packet, offset).value;
    var end := SkipName(packet, offset, 0).value;
    var name := SkipSound(packet, offset, 0);
    r := Record(name, raw.kind, raw.klass, packet[end + 4..end + 8], raw.rdata);
    FixedRead(packet, end, r);
    SliceSplit(packet, offset, end, end + 10);
    SliceSplit(packet, offset, end + 10, raw.next);
  }

  lemma FixedRead(packet: Bytes, end: nat, r: Record)
    requires end + 10 <= |packet| && GoodRecord(r)
    requires r.kind == ReadBe16(packet, end) && r.klass == ReadBe16(packet, end + 2)
    requires r.ttl == packet[end + 4..end + 8] && |r.rdata| == ReadBe16(packet, end + 8)
    ensures packet[end..end + 10] == PrintFixed(r)
  {
    FieldRead(packet, end);
    FieldRead(packet, end + 2);
    FieldRead(packet, end + 8);
    SliceSplit(packet, end, end + 2, end + 4);
    SliceSplit(packet, end, end + 4, end + 8);
    SliceSplit(packet, end, end + 8, end + 10);
  }

  lemma FieldRead(packet: Bytes, at: nat)
    requires at + 2 <= |packet|
    ensures packet[at..at + 2] == Be16(ReadBe16(packet, at))
  {
    var field := packet[at..at + 2];
    Be16Inverse(field);
    assert ReadBe16(field, 0) == ReadBe16(packet, at);
  }

  lemma RecordComplete(before: Bytes, r: Record, after: Bytes)
    requires GoodRecord(r)
    ensures RecordAt(before + PrintRecord(r) + after, |before|)
            == Some(Raw(r.kind, r.klass, r.rdata, |before| + |PrintRecord(r)|))
  {
    hide PrintName;
    hide PrintFixed;
    hide SkipName;
    var name := PrintName(r.name);
    var packet := before + PrintRecord(r) + after;
    var end := |before| + |name|;
    SkipComplete(before, r.name, PrintFixed(r) + r.rdata + after, 0);
    assert packet == before + name + (PrintFixed(r) + r.rdata + after);
    FixedPrinted(before + name, r, r.rdata + after);
    assert packet == (before + name) + PrintFixed(r) + (r.rdata + after);
    assert packet[end + 10..end + 10 + |r.rdata|] == r.rdata;
  }

  lemma FixedPrinted(before: Bytes, r: Record, after: Bytes)
    requires GoodRecord(r)
    ensures
      var s, end := before + PrintFixed(r) + after, |before|;
      ReadBe16(s, end) == r.kind && ReadBe16(s, end + 2) == r.klass && ReadBe16(s, end + 8) == |r.rdata|
  {
    var s := before + PrintFixed(r) + after;
    ReadBe16Inverse(r.kind, before, Be16(r.klass) + r.ttl + Be16(|r.rdata|) + after);
    ReadBe16Inverse(r.klass, before + Be16(r.kind), r.ttl + Be16(|r.rdata|) + after);
    ReadBe16Inverse(|r.rdata|, before + Be16(r.kind) + Be16(r.klass) + r.ttl, after);
    assert s == before + Be16(r.kind) + (Be16(r.klass) + r.ttl + Be16(|r.rdata|) + after);
    assert s == (before + Be16(r.kind)) + Be16(r.klass) + (r.ttl + Be16(|r.rdata|) + after);
    assert s == (before + Be16(r.kind) + Be16(r.klass) + r.ttl) + Be16(|r.rdata|) + after;
  }

  // ---- Answers --------------------------------------------------------------------------------

  /** A class-IN record of the queried type whose data has the size of an address of that type. */
  predicate Matches(kind: nat, klass: nat, size: nat, qtype: nat) {
    klass == CLASS_IN && kind == qtype && ((kind == TYPE_A && size == 4) || (kind == TYPE_AAAA && size == 16))
  }

  function FindAnswer(packet: Bytes, offset: nat, count: nat, qtype: nat): Option<Bytes>
    decreases count
  {
    if count == 0 then None
    else
      match RecordAt(packet, offset)
      case None => None
      case Some(raw) =>
        if Matches(raw.kind, raw.klass, |raw.rdata|, qtype) then Some(raw.rdata)
        else FindAnswer(packet, raw.next, count - 1, qtype)
  }

  /** The record answers the query: class 1, and four bytes for type 1 or sixteen for type 28. */
  predicate MatchesRecord(r: Record, qtype: nat) {
    r.klass == 1 && r.kind == qtype && ((qtype == 1 && |r.rdata| == 4) || (qtype == 28 && |r.rdata| == 16))
  }

  lemma MatchIsMatch(r: Record, qtype: nat)
    ensures Matches(r.kind, r.klass, |r.rdata|, qtype) <==> MatchesRecord(r, qtype)
  {
  }

  /** Records of which the last matches and no earlier one does. */
  predicate FirstMatch(rs: seq<Record>, qtype: nat) {
    && rs != [] && GoodRecords(rs)
    && MatchesRecord(rs[|rs| - 1], qtype)
    && forall i :: 0 <= i < |rs| - 1 ==> !MatchesRecord(rs[i], qtype)
  }

  lemma {:induction false} AnswerSound(packet: Bytes, offset: nat, count: nat, qtype: nat) returns (rs: seq<Record>)
    requires offset <= |packet| && FindAnswer(packet, offset, count, qtype).Some?
    ensures FirstMatch(rs, qtype) && |rs| <= count && offset + |PrintRecords(rs)| <= |packet|
    ensures packet[offset..offset + |PrintRecords(rs)|] == PrintRecords(rs)
    ensures FindAnswer(packet, offset, count, qtype) == Some(rs[|rs| - 1].rdata)
    decreases count
  {
    hide RecordAt;
    hide PrintRecord;
    hide GoodRecord;
    var raw := RecordAt(packet, offset).value;
    var r := RecordSound(packet, offset);
    if Matches(raw.kind, raw.klass, |raw.rdata|, qtype) {
      rs := [r];
      assert [r][1..] == [];
      assert PrintRecords(rs) == PrintRecord(r) + [] == PrintRecord(r);
    } else {
      var rest := AnswerSound(packet, raw.next, count - 1, qtype);
      rs := [r] + rest;
      assert rs[1..] == rest;
      SliceSplit(packet, offset, raw.next, raw.next + |PrintRecords(rest)|);
    }
  }

  lemma {:induction false} AnswerComplete(before: Bytes, rs: seq<Record>, after: Bytes, count: nat, qtype: nat)
    requires FirstMatch(rs, qtype) && |rs| <= count
    ensures FindAnswer(before + PrintRecords(rs) + after, |before|, count, qtype) == Some(rs[|rs| - 1].rdata)
    decreases |rs|
  {
    hide RecordAt;
    hide PrintRecord;
    hide GoodRecord;
    hide Matches;
    var first, rest := PrintRecord(rs[0]), PrintRecords(rs[1..]);
    var packet := before + PrintRecords(rs) + after;
    RecordComplete(before, rs[0], rest + after);
    MatchIsMatch(rs[0], qtype);
    assert packet == before + first + (rest + after);
    if |rs| > 1 {
      assert !MatchesRecord(rs[0], qtype);
      AnswerComplete(before + first, rs[1..], after, count - 1, qtype);
      assert packet == (before + first) + rest + after;
    } else {
      assert MatchesRecord(rs[0], qtype);
    }
  }

  // ---- Responses -------------------------------------------------------------------------------

  /** The identifier matches, the response bit is set and the response code is zero. */
  predicate GoodHeader(header: Bytes, id: nat) {
    && |header| >= 12
    && ReadBe16(header, 0) == id
    && ReadBe16(header, 2) >= 0x8000
    && ReadBe16(header, 2) % 16 == 0
  }

  /** The address bytes a response gives for the query, if any. */
  function ParseResponse(packet: Bytes, id: nat, qtype: nat): Option<Bytes> {
    if !GoodHeader(packet, id) then None
    else
      match SkipQuestions(packet, 12, ReadBe16(packet, 4))
      case None => None
      case Some(offset) => FindAnswer(packet, offset, ReadBe16(packet, 6), qtype)
  }

  /** The question loop of `parse_dns_response`. */
  method SkipAllQuestions(packet: Bytes, count: nat) returns (end: Option<nat>)
    requires |packet| >= 12
    ensures end == SkipQuestions(packet, 12, count)
  {
    hide SkipName;
    var offset: nat := 12;
    for i := 0 to count
      invariant offset <= |packet|
      invariant SkipQuestions(packet, offset, count - i) == SkipQuestions(packet, 12, count)
    {
      var ok, name := SkipDnsName(packet, offset);
      if !ok || name + 4 > |packet| {
        return None;
      }
      offset := name + 4;
    }
    return Some(offset);
  }

  /** One turn of the answer loop: the record's fields, or nothing if it runs off the packet. */
  method ReadRecord(packet: Bytes, offset: nat) returns (r: Option<Raw>)
    ensures r == RecordAt(packet, offset)
  {
    hide SkipName;
    var ok, name := SkipDnsName(packet, offset);
    if !ok || name + 10 > |packet| {
      return None;
    }
    var kind, klass, rdlen := ReadBe16(packet, name), ReadBe16(packet, name + 2), ReadBe16(packet, name + 8);
    if name + 10 + rdlen > |packet| {
      return None;
    }
    return Some(Raw(kind, klass, packet[name + 10..name + 10 + rdlen], name + 10 + rdlen));
  }

  /** The answer loop of `parse_dns_response`. */
  method FindFirstAnswer(packet: Bytes, start: nat, count: nat, qtype: nat) returns (address: Option<Bytes>)
    ensures address == FindAnswer(packet, start, count, qtype)
  {
    hide RecordAt;
    var offset: nat := start;
    for i := 0 to count
      invariant FindAnswer(packet, offset, count - i, qtype) == FindAnswer(packet, start, count, qtype)
    {
      var r := ReadRecord(packet, offset);
      if r.None? {
        return None;
      }
      var Raw(kind, klass, rdata, next) := r.value;
      if klass == CLASS_IN && kind == qtype {
        if kind == TYPE_A && |rdata| == 4 {
          return Some(rdata);
        }
        if kind == TYPE_AAAA && |rdata| == 16 {
          return Some(rdata);
        }
      }
      offset := next;
    }
    return None;
  }

  /** `parse_dns_response`, up to the bytes handed to the address constructor. */
  method ParseDnsResponse(packet: Bytes, id: nat, qtype: nat) returns (address: Option<Bytes>)
    ensures address == ParseResponse(packet, id, qtype)
  {
    if |packet| < 12 || ReadBe16(packet, 0) != id {
      return None;
    }
    var flags := ReadBe16(packet, 2);
    if flags < 0x8000 || flags % 16 != 0 {
      return None;
    }
    var end := SkipAllQuestions(packet, ReadBe16(packet, 4));
    if end.None? {
      return None;
    }
    address := FindFirstAnswer(packet, end.value, ReadBe16(packet, 6), qtype);
  }

  /** A packet taken apart: header, questions, answers up to the first match, and the rest. */
  datatype Message = Message(header: Bytes, questions: seq<Question>, answers: seq<Record>, tail: Bytes)

  /** Twelve bytes: the identifier, then the response bit set and the response code zero. */
  predicate AnswersQuery(header: Bytes, id: nat) {
    |header| == 12 && 256 * header[0] as int + header[1] as int == id && header[2] >= 128 && header[3] as int % 16 == 0
  }

  /** The number of questions a header announces, and of answers. */
  function QuestionCount(header: Bytes): nat
    requires |header| == 12
  {
    256 * header[4] as int + header[5] as int
  }

  function AnswerCount(header: Bytes): nat
    requires |header| == 12
  {
    256 * header[6] as int + header[7] as int
  }

  predicate GoodMessage(m: Message, id: nat, qtype: nat) {
    && AnswersQuery(m.header, id)
    && GoodQuestions(m.questions) && |m.questions| == QuestionCount(m.header)
    && FirstMatch(m.answers, qtype) && |m.answers| <= AnswerCount(m.header)
  }

  lemma HeaderIsHeader(packet: Bytes, id: nat)
    requires |packet| >= 12
    ensures GoodHeader(packet, id) <==> AnswersQuery(packet[..12], id)
    ensures ReadBe16(packet, 4) == QuestionCount(packet[..12]) && ReadBe16(packet, 6) == AnswerCount(packet[..12])
  {
  }

  function PrintMessage(m: Message): Bytes
    requires GoodQuestions(m.questions) && GoodRecords(m.answers)
  {
    m.header + PrintQuestions(m.questions) + PrintRecords(m.answers) + m.tail
  }

  function Address(m: Message): Bytes
    requires m.answers != []
  {
    m.answers[|m.answers| - 1].rdata
  }

  lemma ParseSound(packet: Bytes, id: nat, qtype: nat) returns (m: Message)
    requires ParseResponse(packet, id, qtype).Some?
    ensures GoodMessage(m, id, qtype) && packet == PrintMessage(m)
    ensures ParseResponse(packet, id, qtype) == Some(Address(m))
  {
    hide FindAnswer;
    hide SkipQuestions;
    hide GoodRecord;
    hide GoodQuestion;
    hide Matches;
    HeaderIsHeader(packet, id);
    var qd, an := ReadBe16(packet, 4), ReadBe16(packet, 6);
    var offset := SkipQuestions(packet, 12, qd).value;
    var qs := QuestionsSound(packet, 12, qd);
    var rs := AnswerSound(packet, offset, an, qtype);
    var end := offset + |PrintRecords(rs)|;
    m := Message(packet[..12], qs, rs, packet[end..]);
    assert packet == packet[..12] + packet[12..offset] + packet[offset..end] + packet[end..];
  }

  lemma ParseComplete(m: Message, id: nat, qtype: nat)
    requires GoodMessage(m, id, qtype)
    ensures ParseResponse(PrintMessage(m), id, qtype) == Some(Address(m))
  {
    hide FindAnswer;
    hide SkipQuestions;
    hide GoodRecord;
    hide GoodQuestion;
    hide Matches;
    var packet := PrintMessage(m);
    var qs, rs := PrintQuestions(m.questions), PrintRecords(m.answers);
    assert packet[..12] == m.header;
    HeaderIsHeader(packet, id);
    QuestionsComplete(m.header, m.questions, rs + m.tail);
    assert packet == m.header + qs + (rs + m.tail);
    AnswerComplete(m.header + qs, m.answers, m.tail, AnswerCount(m.header), qtype);
    assert packet == (m.header + qs) + rs + m.tail;
  }

  /** The packet is a good message for the query, and the address is that of its first match. */
  ghost predicate Gives(packet: Bytes, id: nat, qtype: nat, address: Bytes) {
    exists m: Message :: GoodMessage(m, id, qtype) && packet == PrintMessage(m) && address == Address(m)
  }

  /**
   The parser returns an address exactly for the packets that consist of a good header, the
   announced questions, well-formed answers up to the first match, and anything after.
   */
  lemma ParseExactly(packet: Bytes, id: nat, qtype: nat, address: Bytes)
    ensures ParseResponse(packet, id, qtype) == Some(address) <==> Gives(packet, id, qtype, address)
  {
    hide ParseResponse;
    hide PrintMessage;
    hide AnswersQuery;
    if ParseResponse(packet, id, qtype) == Some(address) {
      var m := ParseSound(packet, id, qtype);
    }
    if m: Message :| GoodMessage(m, id, qtype) && packet == PrintMessage(m) && address == Address(m) {
      ParseComplete(m, id, qtype);
    }
  }

  // ---- Queries ---------------------------------------------------------------------------------

  function FirstDot(s: Bytes): (i: nat)
    ensures i <= |s|
  {
    if s == [] || s[0] == DOT then 0 else FirstDot(s[1..]) + 1
  }

  lemma {:induction false} FirstDotIs(s: Bytes)
    ensures DOT !in s[..FirstDot(s)] && (FirstDot(s) < |s| ==> s[FirstDot(s)] == DOT)
  {
    if s != [] && s[0] != DOT {
      FirstDotIs(s[1..]);
      assert s[..FirstDot(s)] == [s[0]] + s[1..][..FirstDot(s[1..])];
    }
  }

  /** The labels of a host name; a label that is empty or longer than 63 bytes is an error. */
  function HostLabels(host: Bytes): Option<seq<Bytes>>
    decreases |host|
  {
    if host == [] then Some([])
    else
      var dot := FirstDot(host);
      if dot == 0 || dot > 63 then None
      else if dot == |host| then Some([host])
      else Prepend([host[..dot]], HostLabels(host[dot + 1..]))
  }

  function Prepend(done: seq<Bytes>, rest: Option<seq<Bytes>>): Option<seq<Bytes>> {
    if rest.None? then None else Some(done + rest.value)
  }

  lemma {:induction false} HostLegal(host: Bytes)
    requires HostLabels(host).Some?
    ensures Legal(HostLabels(host).value)
    decreases |host|
  {
    var dot := FirstDot(host);
    if host != [] && dot < |host| {
      HostLegal(host[dot + 1..]);
    }
  }

  function QueryHeader(id: nat): (h: Bytes)
    requires id < 0x10000
    ensures |h| == 12
  {
    Be16(id) + Be16(0x0100) + Be16(1) + Be16(0) + Be16(0) + Be16(0)
  }

  function MakeQuery(id: nat, host: Bytes, qtype: nat): Option<Bytes>
    requires id < 0x10000 && qtype < 0x10000
  {
    match HostLabels(host)
    case None => None
    case Some(labels) => Some(QueryHeader(id) + PrintLabels(labels) + [0] + Be16(qtype) + Be16(CLASS_IN))
  }

  lemma {:induction false} PrintLabelsConcat(a: seq<Bytes>, b: seq<Bytes>)
    ensures PrintLabels(a + b) == PrintLabels(a) + PrintLabels(b)
  {
    hide PrintLabel;
    if a == [] {
      assert a + b == b;
    } else {
      assert (a + b)[1..] == a[1..] + b;
      PrintLabelsConcat(a[1..], b);
    }
  }

  lemma PrintLabelsSnoc(a: seq<Bytes>, l: Bytes)
    ensures PrintLabels(a + [l]) == PrintLabels(a) + PrintLabel(l)
  {
    PrintLabelsConcat(a, [l]);
    assert [l][1..] == [];
    assert PrintLabels([l]) == PrintLabel(l) + PrintLabels([]);
  }

  lemma PrependTwice(a: seq<Bytes>, b: seq<Bytes>, r: Option<seq<Bytes>>)
    ensures Prepend(a, Prepend(b, r)) == Prepend(a + b, r)
  {
    if r.Some? {
      assert a + (b + r.value) == (a + b) + r.value;
    }
  }

  lemma FirstLabel(s: Bytes, done: seq<Bytes>)
    requires s != []
    ensures
      var len := FirstDot(s);
      var all := Prepend(done, HostLabels(s));
      if len == 0 || len > 63 then all == None
      else if len == |s| then all == Some(done + [s])
      else all == Prepend(done + [s[..len]], HostLabels(s[len + 1..]))
  {
    hide FirstDot;
    hide Legal;
    var len := FirstDot(s);
    if 0 < len < 64 && len < |s| {
      PrependTwice(done, [s[..len]], HostLabels(s[len + 1..]));
    }
  }

  /** One turn of the label loop. */
  lemma LabelStep(host: Bytes, start: nat, done: seq<Bytes>)
    requires start < |host|
    ensures
      var end := start + FirstDot(host[start..]);
      var all := Prepend(done, HostLabels(host[start..]));
      if end == start || end - start > 63 then all == None
      else if end == |host| then all == Some(done + [host[start..end]])
      else all == Prepend(done + [host[start..end]], HostLabels(host[end + 1..]))
  {
    hide HostLabels;
    var s := host[start..];
    var len := FirstDot(s);
    var end := start + len;
    FirstLabel(s, done);
    assert s[..len] == host[start..end];
    if end < |host| {
      assert s[len + 1..] == host[end + 1..];
    } else {
      assert s == host[start..end];
    }
  }

  function PrintHost(host: Bytes): Option<Bytes> {
    match HostLabels(host)
    case None => None
    case Some(labels) => Some(PrintLabels(labels))
  }

  /** The label loop of `make_dns_query`; a bad label is its exception. */
  method AppendLabels(host: Bytes) returns (out: Option<Bytes>)
    ensures out == PrintHost(host)
  {
    hide HostLabels;
    hide FirstDot;
    hide PrintLabels;
    var printed: Bytes := [];
    var start := 0;
    ghost var labels: seq<Bytes> := [];
    NoLabels(host);
    while start < |host|
      invariant start <= |host| && printed == PrintLabels(labels)
      invariant HostLabels(host) == Prepend(labels, HostLabels(host[start..]))
      decreases |host| - start
    {
      var end := start + FirstDot(host[start..]);
      var len := end - start;
      LabelStep(host, start, labels);
      if len == 0 || len > 63 {
        return None;
      }
      var head := host[start..end];
      PrintLabelsSnoc(labels, head);
      labels := labels + [head];
      printed := printed + ([len] + head);
      start := if end == |host| then end else end + 1;
      assert end == |host| ==> host[start..] == [];
      assert labels + [] == labels;
    }
    assert host[start..] == [] && labels + [] == labels;
    return Some(printed);
  }

  /** `make_dns_query`. */
  method MakeDnsQuery(id: nat, host: Bytes, qtype: nat) returns (query: Option<Bytes>)
    requires id < 0x10000 && qtype < 0x10000
    ensures query == MakeQuery(id, host, qtype)
  {
    var labels := AppendLabels(host);
    if labels.None? {
      return None;
    }
    return Some(QueryHeader(id) + labels.value + [0] + Be16(qtype) + Be16(CLASS_IN));
  }

  lemma NoLabels(host: Bytes)
    ensures HostLabels([]) == Some([]) && host[0..] == host
    ensures Prepend([], HostLabels(host)) == HostLabels(host)
    ensures PrintLabels([]) == []
  {
    if HostLabels(host).Some? {
      assert [] + HostLabels(host).value == HostLabels(host).value;
    }
  }

  /** Labels joined by dots. */
  function Join(labels: seq<Bytes>): Bytes {
    if labels == [] then []
    else if |labels| == 1 then labels[0]
    else labels[0] + [DOT] + Join(labels[1..])
  }

  predicate DotFree(labels: seq<Bytes>) {
    forall i :: 0 <= i < |labels| ==> DOT !in labels[i]
  }

  /** The hosts that spell a list of labels: joined by dots, with or without a final dot. */
  predicate Spells(host: Bytes, labels: seq<Bytes>) {
    Legal(labels) && DotFree(labels) && (host == Join(labels) || (labels != [] && host == Join(labels) + [DOT]))
  }

  lemma FirstDotAt(s: Bytes, head: Bytes, rest: Bytes)
    requires DOT !in head && (s == head || s == head + [DOT] + rest)
    ensures FirstDot(s) == |head|
  {
    FirstDotIs(s);
    if s != head {
      assert s[|head|] == DOT;
    }
    assert s[..|head|] == head;
  }

  lemma JoinCons(head: Bytes, tail: seq<Bytes>)
    ensures Join([head] + tail) == if tail == [] then head else head + [DOT] + Join(tail)
  {
    assert ([head] + tail)[1..] == tail;
  }

  predicate GoodLabel(l: Bytes) {
    0 < |l| < 64 && DOT !in l
  }

  lemma GoodCons(head: Bytes, tail: seq<Bytes>)
    ensures Legal([head] + tail) && DotFree([head] + tail) <==> GoodLabel(head) && Legal(tail) && DotFree(tail)
  {
    var all := [head] + tail;
    assert all[0] == head;
    assert forall i :: 0 <= i < |tail| ==> tail[i] == all[i + 1];
  }

  /** A host spells a head label and a tail exactly when what follows its first dot spells the tail. */
  lemma SpellsCons(head: Bytes, tail: seq<Bytes>, rest: Bytes)
    ensures GoodLabel(head) && Spells(rest, tail) ==> Spells(head + [DOT] + rest, [head] + tail)
    ensures GoodLabel(head) ==> Spells(head, [head])
  {
    hide Legal;
    hide DotFree;
    GoodCons(head, tail);
    JoinCons(head, tail);
    GoodCons(head, []);
    JoinCons(head, []);
    assert [head] + [] == [head];
    NoneGood();
    assert head + [DOT] + [] == head + [DOT];
    assert head + [DOT] + (Join(tail) + [DOT]) == (head + [DOT] + Join(tail)) + [DOT];
  }

  lemma NoneGood()
    ensures Legal([]) && DotFree([]) && Join([]) == []
  {
  }

  lemma SpellsTail(host: Bytes, head: Bytes, tail: seq<Bytes>) returns (rest: Bytes)
    requires Spells(host, [head] + tail) && tail != []
    ensures GoodLabel(head) && host == head + [DOT] + rest && Spells(rest, tail)
  {
    hide Legal;
    hide DotFree;
    GoodCons(head, tail);
    JoinCons(head, tail);
    rest := if host == Join([head] + tail) then Join(tail) else Join(tail) + [DOT];
    assert head + [DOT] + (Join(tail) + [DOT]) == (head + [DOT] + Join(tail)) + [DOT];
  }

  lemma {:induction false} SpellsSound(host: Bytes)
    requires HostLabels(host).Some?
    ensures Spells(host, HostLabels(host).value)
    decreases |host|
  {
    hide Spells;
    if host == [] {
      NothingSpelled();
    } else {
      var dot := FirstDot(host);
      var head := host[..dot];
      FirstDotIs(host);
      assert GoodLabel(head);
      if dot == |host| {
        assert head == host;
        SpellsCons(host, [], []);
      } else {
        var rest := host[dot + 1..];
        SpellsSound(rest);
        assert host == head + [DOT] + rest;
        SpellsCons(head, HostLabels(rest).value, rest);
      }
    }
  }

  lemma NothingSpelled()
    ensures Spells([], [])
  {
  }

  /** Reading back a head label and what follows its dot. */
  lemma HeadLabel(host: Bytes, head: Bytes, rest: Bytes)
    requires 0 < |head| < 64 && DOT !in head && host == head + [DOT] + rest
    ensures HostLabels(host) == Prepend([head], HostLabels(rest))
  {
    FirstDotAt(host, head, rest);
    assert host[|head| + 1..] == rest && host[..|head|] == head;
  }

  lemma LastLabel(head: Bytes)
    requires 0 < |head| < 64 && DOT !in head
    ensures HostLabels(head) == Some([head]) && HostLabels(head + [DOT]) == Some([head])
  {
    FirstDotAt(head, head, []);
    HeadLabel(head + [DOT], head, []);
    assert head + [DOT] + [] == head + [DOT];
    assert [head] + [] == [head];
  }

  lemma {:induction false} SpellsComplete(host: Bytes, labels: seq<Bytes>)
    requires Spells(host, labels)
    ensures HostLabels(host) == Some(labels)
    decreases |labels|
  {
    hide HostLabels;
    if labels == [] {
      NoLabels([]);
    } else {
      var head, tail := labels[0], labels[1..];
      assert labels == [head] + tail;
      if tail == [] {
        assert labels == [head];
        LastLabel(head);
      } else {
        var rest := SpellsTail(host, head, tail);
        HeadLabel(host, head, rest);
        SpellsComplete(rest, tail);
      }
    }
  }

  /** A query is made exactly for hosts that spell legal labels, and carries exactly those labels. */
  lemma HostLabelsExactly(host: Bytes, labels: seq<Bytes>)
    ensures HostLabels(host) == Some(labels) <==> Spells(host, labels)
  {
    if HostLabels(host) == Some(labels) {
      SpellsSound(host);
    }
    if Spells(host, labels) {
      SpellsComplete(host, labels);
    }
  }

  /**
   The exact query: the identifier, recursion desired, one question and nothing else; then
   the labels the host spells, the root label, the type and class 1.
   */
  lemma QueryExactly(id: nat, host: Bytes, qtype: nat, query: Bytes)
    requires id < 0x10000 && qtype < 0x10000
    ensures MakeQuery(id, host, qtype) == Some(query) <==>
              exists labels: seq<Bytes> :: Spells(host, labels) && query == QueryBytes(id, labels, qtype)
  {
    hide Spells;
    hide HostLabels;
    hide PrintLabels;
    if HostLabels(host).Some? {
      var labels := HostLabels(host).value;
      HostLabelsExactly(host, labels);
      var printed := PrintLabels(labels);
      assert QueryHeader(id) == [id / 256, id % 256, 1, 0, 0, 1, 0, 0, 0, 0, 0, 0];
      assert QueryHeader(id) + printed + [0] + Be16(qtype) + Be16(CLASS_IN) == QueryBytes(id, labels, qtype);
    }
    if labels: seq<Bytes> :| Spells(host, labels) && query == QueryBytes(id, labels, qtype) {
      HostLabelsExactly(host, labels);
    }
  }

  function QueryBytes(id: nat, labels: seq<Bytes>, qtype: nat): Bytes
    requires id < 0x10000 && qtype < 0x10000
  {
    [id / 256, id % 256, 1, 0, 0, 1, 0, 0, 0, 0, 0, 0] + PrintLabels(labels) + [0, qtype / 256, qtype % 256, 0, 1]
  }

  /** The question of a query: the host's labels, the type and class IN. */
  function QueryQuestion(labels: seq<Bytes>, qtype: nat): Question
    requires qtype < 0x10000
  {
    Question(Name(labels, [0]), Be16(qtype) + Be16(CLASS_IN))
  }

  lemma QueryIsQuestion(id: nat, host: Bytes, qtype: nat)
    requires id < 0x10000 && qtype < 0x10000 && HostLabels(host).Some? && |HostLabels(host).value| <= MAX_LABELS
    ensures
      var q := QueryQuestion(HostLabels(host).value, qtype);
      GoodQuestion(q) && MakeQuery(id, host, qtype) == Some(QueryHeader(id) + PrintQuestion(q))
  {
    HostLegal(host);
    var labels := HostLabels(host).value;
    var h := QueryHeader(id);
    var kind := Be16(qtype) + Be16(CLASS_IN);
    assert h + PrintLabels(labels) + [0] + Be16(qtype) + Be16(CLASS_IN) == h + (PrintLabels(labels) + [0] + kind);
  }

  /**
   The parser's own skipper ends exactly at the type and class of a printed query, where
   both read back, exactly when the host has at most 255 labels.
   */
  lemma QuerySkipsExactly(id: nat, host: Bytes, qtype: nat)
    requires id < 0x10000 && qtype < 0x10000 && HostLabels(host).Some?
    ensures
      var query := MakeQuery(id, host, qtype).value;
      && |query| >= 16
      && (SkipName(query, 12, 0) == Some(|query| - 4) <==> |HostLabels(host).value| <= MAX_LABELS)
      && ReadBe16(query, |query| - 4) == qtype && ReadBe16(query, |query| - 2) == CLASS_IN
  {
    HostLegal(host);
    var labels := HostLabels(host).value;
    var h, name, kind := QueryHeader(id), Name(labels, [0]), Be16(qtype) + Be16(CLASS_IN);
    var query := MakeQuery(id, host, qtype).value;
    assert query == h + PrintName(name) + kind;
    if |labels| <= MAX_LABELS {
      SkipComplete(h, name, kind, 0);
    } else {
      SkipTooLong(h, name, kind, 0);
    }
    ReadBe16Inverse(qtype, h + PrintName(name), Be16(CLASS_IN));
    ReadBe16Inverse(CLASS_IN, h + PrintName(name) + Be16(qtype), []);
    assert query == (h + PrintName(name)) + Be16(qtype) + Be16(CLASS_IN);
    assert query == (h + PrintName(name) + Be16(qtype)) + Be16(CLASS_IN) + [];
  }

  /** A response that echoes the question of a query and then answers it parses to that answer. */
  lemma EchoParses(id: nat, host: Bytes, qtype: nat, header: Bytes, answers: seq<Record>, tail: Bytes)
    requires id < 0x10000 && qtype < 0x10000
    requires HostLabels(host).Some? && |HostLabels(host).value| <= MAX_LABELS
    requires AnswersQuery(header, id) && QuestionCount(header) == 1
    requires FirstMatch(answers, qtype) && |answers| <= AnswerCount(header)
    ensures
      var question := MakeQuery(id, host, qtype).value[12..];
      ParseResponse(header + question + PrintRecords(answers) + tail, id, qtype) == Some(answers[|answers| - 1].rdata)
  {
    hide ParseResponse;
    hide PrintRecords;
    hide PrintQuestion;
    var q := QueryQuestion(HostLabels(host).value, qtype);
    QueryIsQuestion(id, host, qtype);
    var question := MakeQuery(id, host, qtype).value[12..];
    assert question == PrintQuestion(q);
    var m := Message(header, [q], answers, tail);
    assert [q][1..] == [];
    assert PrintQuestions([q]) == PrintQuestion(q) + [] == PrintQuestion(q);
    ParseComplete(m, id, qtype);
  }
}
