/**
 * The member-assignment blob of Kafka's consumer protocol: a cursor over the buffer,
 * the decoder of topic names, and the blobs it accepts. Lengths and counts are signed
 * and big-endian; a negative one, or one that reaches past the buffer, refuses the
 * whole blob. Whatever follows the last topic is user data and is not looked at.
 */
module Assignment {
  import opened Rows
  import opened MessageIndexes

  /** Bytes as a number, highest first, and a number as so many bytes. */
  function BigEndian(s: seq<Byte>): nat {
    if s == [] then 0 else 256 * BigEndian(s[..|s| - 1]) + s[|s| - 1]
  }

  function ToBytes(u: nat, k: nat): (s: seq<Byte>)
    ensures |s| == k
  {
    if k == 0 then [] else ToBytes(u / 256, k - 1) + [u % 256]
  }

  /** Two's complement around `half`. */
  function Signed(u: nat, half: nat): int {
    if u < half then u else u - 2 * half
  }

  function Unsigned(n: int, half: nat): nat
    requires -(half as int) <= n
  {
    if n < 0 then n + 2 * half else n
  }

  const TWO_15: int := 0x8000

  function Short(s: seq<Byte>): int { Signed(BigEndian(s), TWO_15) }

  function Word(s: seq<Byte>): int { Signed(BigEndian(s), TWO_31) }

  predicate InShort(n: int) { -TWO_15 <= n < TWO_15 }

  function ShortBytes(n: int): (s: seq<Byte>)
    requires InShort(n)
    ensures |s| == 2
  {
    ToBytes(Unsigned(n, TWO_15), 2)
  }

  function WordBytes(n: int): (s: seq<Byte>)
    requires InI32(n)
    ensures |s| == 4
  {
    ToBytes(Unsigned(n, TWO_31), 4)
  }

  function Width(k: nat): nat {
    if k == 0 then 1 else 256 * Width(k - 1)
  }

  lemma Widths()
    ensures Width(2) == 2 * TWO_15 && Width(4) == 2 * TWO_31
  {
    assert Width(1) == 256 && Width(2) == 256 * Width(1) && Width(3) == 256 * Width(2);
  }

  lemma {:induction false} ToBytesBack(u: nat, k: nat)
    requires u < Width(k)
    ensures BigEndian(ToBytes(u, k)) == u
  {
    if k > 0 {
      ToBytesBack(u / 256, k - 1);
      var s := ToBytes(u, k);
      assert s[..|s| - 1] == ToBytes(u / 256, k - 1);
    }
  }

  lemma {:induction false} BigEndianBack(s: seq<Byte>)
    ensures ToBytes(BigEndian(s), |s|) == s && BigEndian(s) < Width(|s|)
  {
    if s != [] {
      var front, last := s[..|s| - 1], s[|s| - 1];
      BigEndianBack(front);
      LastByte(BigEndian(front), last);
      assert s == front + [last];
    }
  }

  lemma LastByte(u: nat, b: Byte)
    ensures (256 * u + b) / 256 == u && (256 * u + b) % 256 == b
  {}

  lemma ShortBack(n: int)
    requires InShort(n)
    ensures Short(ShortBytes(n)) == n
  {
    Widths();
    ToBytesBack(Unsigned(n, TWO_15), 2);
  }

  lemma WordBack(n: int)
    requires InI32(n)
    ensures Word(WordBytes(n)) == n
  {
    Widths();
    ToBytesBack(Unsigned(n, TWO_31), 4);
  }

  lemma ShortForth(s: seq<Byte>)
    requires |s| == 2
    ensures InShort(Short(s)) && ShortBytes(Short(s)) == s
  {
    Widths();
    BigEndianBack(s);
  }

  lemma WordForth(s: seq<Byte>)
    requires |s| == 4
    ensures InI32(Word(s)) && WordBytes(Word(s)) == s
  {
    Widths();
    BigEndianBack(s);
  }

  // ---- the cursor -----------------------------------------------------------------

  datatype Parsed<T> = Parsed(value: T, rest: seq<Byte>)

  function TakeBytes(s: seq<Byte>, n: nat): Option<Parsed<seq<Byte>>> {
    if n <= |s| then Some(Parsed(s[..n], s[n..])) else None
  }

  function TakeShort(s: seq<Byte>): Option<Parsed<int>> {
    if 2 <= |s| then Some(Parsed(Short(s[..2]), s[2..])) else None
  }

  function TakeWord(s: seq<Byte>): Option<Parsed<int>> {
    if 4 <= |s| then Some(Parsed(Word(s[..4]), s[4..])) else None
  }

  class Reader {
    const buf: seq<Byte>
    var pos: nat

    ghost predicate Valid()
      reads this
    {
      pos <= |buf|
    }

    /** What has not been read yet. */
    ghost function Rest(): seq<Byte>
      reads this
      requires Valid()
    {
      buf[pos..]
    }

    constructor (buf: seq<Byte>)
      ensures Valid() && this.buf == buf && Rest() == buf
    {
      this.buf := buf;
      pos := 0;
    }

    /** The next `n` bytes; when there are not that many, nothing moves. */
    method Bytes(n: nat) returns (out: Option<seq<Byte>>)
      requires Valid()
      modifies this
      ensures Valid() && out.Some? == TakeBytes(old(Rest()), n).Some?
      ensures if out.Some? then TakeBytes(old(Rest()), n) == Some(Parsed(out.value, Rest())) else Rest() == old(Rest())
    {
      var end := pos + n;
      if end > |buf| { return None; }
      out := Some(buf[pos..end]);
      assert buf[pos..][..n] == buf[pos..end] && buf[pos..][n..] == buf[end..];
      pos := end;
    }

    method ReadShort() returns (n: Option<int>)
      requires Valid()
      modifies this
      ensures Valid() && n.Some? == TakeShort(old(Rest())).Some?
      ensures n.Some? ==> TakeShort(old(Rest())) == Some(Parsed(n.value, Rest()))
    {
      var b := Bytes(2);
      n := if b.None? then None else Some(Short(b.value));
    }

    method ReadWord() returns (n: Option<int>)
      requires Valid()
      modifies this
      ensures Valid() && n.Some? == TakeWord(old(Rest())).Some?
      ensures n.Some? ==> TakeWord(old(Rest())) == Some(Parsed(n.value, Rest()))
    {
      var b := Bytes(4);
      n := if b.None? then None else Some(Word(b.value));
    }
  }

  // ---- the decoder ------------------------------------------------------------------

  /** Whether bytes are valid UTF-8, and of which text. */
  type Utf8 = seq<Byte> -> Option<string>

  function NonNegative(n: Option<Parsed<int>>): bool {
    n.Some? && 0 <= n.value.value
  }

  /** One topic: its name, and past its partitions. */
  function ReadTopic(s: seq<Byte>, utf8: Utf8): Option<Parsed<string>> {
    var len := TakeShort(s);
    if !NonNegative(len) then None else
    var name := TakeBytes(len.value.rest, len.value.value);
    if name.None? || utf8(name.value.value).None? then None else
    var count := TakeWord(name.value.rest);
    if !NonNegative(count) then None else
    var skipped := TakeBytes(count.value.rest, 4 * count.value.value);
    if skipped.None? then None else Some(Parsed(utf8(name.value.value).value, skipped.value.rest))
  }

  /** A reader of one topic. */
  type One = seq<Byte> -> Option<Parsed<string>>

  function TopicReader(utf8: Utf8): One {
    s => ReadTopic(s, utf8)
  }

  function ReadTopics(s: seq<Byte>, n: nat, one: One): Option<seq<string>>
    decreases n
  {
    if n == 0 then Some([]) else
    var first := one(s);
    if first.None? then None else
    var more := ReadTopics(first.value.rest, n - 1, one);
    if more.None? then None else Some([first.value.value] + more.value)
  }

  /** The number of topics, behind a version. */
  function ReadCount(s: seq<Byte>): (n: Option<Parsed<int>>)
    ensures n.Some? ==> 0 <= n.value.value
  {
    var version := TakeShort(s);
    if !NonNegative(version) then None else
    var count := TakeWord(version.value.rest);
    if !NonNegative(count) then None else Some(Parsed(count.value.value, count.value.rest))
  }

  function ReadAssignment(s: seq<Byte>, utf8: Utf8): Option<seq<string>> {
    var count := ReadCount(s);
    if count.None? then None else ReadTopics(count.value.rest, count.value.value, TopicReader(utf8))
  }

  method NextTopic(r: Reader, utf8: Utf8) returns (name: Option<string>)
    requires r.Valid()
    modifies r
    ensures r.Valid()
    ensures name.Some? == ReadTopic(old(r.Rest()), utf8).Some?
    ensures name.Some? ==> ReadTopic(old(r.Rest()), utf8) == Some(Parsed(name.value, r.Rest()))
  {
    var nameLen := r.ReadShort();
    if nameLen.None? || nameLen.value < 0 { return None; }
    var bytes := r.Bytes(nameLen.value);
    if bytes.None? { return None; }
    var text := utf8(bytes.value);
    if text.None? { return None; }
    var count := r.ReadWord();
    if count.None? || count.value < 0 { return None; }
    var skipped := r.Bytes(4 * count.value);
    if skipped.None? { return None; }
    name := text;
  }

  method NextCount(r: Reader) returns (count: Option<int>)
    requires r.Valid()
    modifies r
    ensures r.Valid()
    ensures count.Some? == ReadCount(old(r.Rest())).Some?
    ensures count.Some? ==> ReadCount(old(r.Rest())) == Some(Parsed(count.value, r.Rest()))
  {
    var version := r.ReadShort();
    if version.None? || version.value < 0 { return None; }
    var n := r.ReadWord();
    if n.None? || n.value < 0 { return None; }
    count := Some(n.value);
  }

  method AssignedTopics(buf: seq<Byte>, utf8: Utf8) returns (topics: Option<seq<string>>)
    ensures topics == ReadAssignment(buf, utf8)
  {
    var r := new Reader(buf);
    var count := NextCount(r);
    if count.None? { return None; }
    topics := AllTopics(r, count.value, utf8);
  }

  method AllTopics(r: Reader, count: nat, utf8: Utf8) returns (topics: Option<seq<string>>)
    requires r.Valid()
    modifies r
    ensures r.Valid() && topics == ReadTopics(old(r.Rest()), count, TopicReader(utf8))
  {
    var names, i := [], 0;
    ghost var s, one := r.Rest(), TopicReader(utf8);
    TopicsStart(s, count, one);
    while i < count
      invariant 0 <= i <= count && r.Valid()
      invariant TopicsSo(s, count, names, r.Rest(), i, one)
    {
      var name := OneMore(r, utf8, s, count, names, i);
      if name.None? { return None; }
      names, i := names + [name.value], i + 1;
    }
    TopicsEnd(s, count, names, r.Rest(), one);
    topics := Some(names);
  }

  method OneMore(r: Reader, utf8: Utf8, ghost s: seq<Byte>, ghost count: nat, ghost names: seq<string>, ghost i: nat)
    returns (name: Option<string>)
    requires r.Valid() && i < count && TopicsSo(s, count, names, r.Rest(), i, TopicReader(utf8))
    modifies r
    ensures r.Valid()
    ensures name.Some? ==> TopicsSo(s, count, names + [name.value], r.Rest(), i + 1, TopicReader(utf8))
    ensures name.None? ==> ReadTopics(s, count, TopicReader(utf8)) == None
  {
    TopicsNext(s, count, names, r.Rest(), i, TopicReader(utf8));
    name := NextTopic(r, utf8);
  }

  /** `i` of `n` names have been read. */
  predicate TopicsSo(s: seq<Byte>, n: nat, names: seq<string>, rest: seq<Byte>, i: nat, one: One) {
    i <= n &&
    var more, all := ReadTopics(rest, n - i, one), ReadTopics(s, n, one);
    if more.Some? then all == Some(names + more.value) else all == None
  }

  lemma TopicsStart(s: seq<Byte>, n: nat, one: One)
    ensures TopicsSo(s, n, [], s, 0, one)
  {
    var all := ReadTopics(s, n, one);
    if all.Some? { assert [] + all.value == all.value; }
  }

  lemma TopicsEnd(s: seq<Byte>, n: nat, names: seq<string>, rest: seq<Byte>, one: One)
    requires TopicsSo(s, n, names, rest, n, one)
    ensures ReadTopics(s, n, one) == Some(names)
  {
    assert names + [] == names;
  }

  lemma TopicsNext(s: seq<Byte>, n: nat, names: seq<string>, rest: seq<Byte>, i: nat, one: One)
    requires TopicsSo(s, n, names, rest, i, one) && i < n
    ensures var t := one(rest);
      if t.Some? then TopicsSo(s, n, names + [t.value.value], t.value.rest, i + 1, one)
        else ReadTopics(s, n, one) == None
  {
    var t := one(rest);
    if t.Some? {
      var more := ReadTopics(t.value.rest, n - i - 1, one);
      if more.Some? {
        assert names + ([t.value.value] + more.value) == (names + [t.value.value]) + more.value;
      }
    }
  }

  // ---- the blobs ----------------------------------------------------------------------

  datatype Topic = Topic(name: seq<Byte>, partitions: seq<int>)

  /** What fits the wire's own lengths. */
  predicate Sized(t: Topic) {
    |t.name| < TWO_15 && |t.partitions| < TWO_31 && Words(t.partitions)
  }

  predicate Words(ns: seq<int>) {
    forall i | 0 <= i < |ns| :: InI32(ns[i])
  }

  function WriteWords(ns: seq<int>): seq<Byte>
    requires Words(ns)
  {
    if ns == [] then [] else WordBytes(ns[0]) + WriteWords(ns[1..])
  }

  function WriteTopic(t: Topic): seq<Byte>
    requires Sized(t)
  {
    ShortBytes(|t.name|) + (t.name + (WordBytes(|t.partitions|) + WriteWords(t.partitions)))
  }

  predicate AllSized(ts: seq<Topic>) {
    ts == [] || (Sized(ts[0]) && AllSized(ts[1..]))
  }

  function WriteTopics(ts: seq<Topic>): seq<Byte>
    requires AllSized(ts)
  {
    if ts == [] then [] else WriteTopic(ts[0]) + WriteTopics(ts[1..])
  }

  function Blob(version: int, ts: seq<Topic>, userData: seq<Byte>): seq<Byte>
    requires InShort(version) && |ts| < TWO_31 && AllSized(ts)
  {
    ShortBytes(version) + (WordBytes(|ts|) + (WriteTopics(ts) + userData))
  }

  /** Text the decoder will accept, too. */
  predicate Fits(t: Topic, utf8: Utf8) {
    Sized(t) && utf8(t.name).Some?
  }

  predicate AllFit(ts: seq<Topic>, utf8: Utf8) {
    ts == [] || (Fits(ts[0], utf8) && AllFit(ts[1..], utf8))
  }

  lemma {:induction false} FitIsSized(ts: seq<Topic>, utf8: Utf8)
    requires AllFit(ts, utf8)
    ensures AllSized(ts)
  {
    if ts != [] { FitIsSized(ts[1..], utf8); }
  }

  function Names(ts: seq<Topic>, utf8: Utf8): seq<string>
    requires AllFit(ts, utf8)
  {
    if ts == [] then [] else [utf8(ts[0].name).value] + Names(ts[1..], utf8)
  }

  lemma {:induction false} WordsLength(ns: seq<int>)
    requires Words(ns)
    ensures |WriteWords(ns)| == 4 * |ns|
  {
    if ns != [] { WordsLength(ns[1..]); }
  }

  lemma ShortWritten(n: int, rest: seq<Byte>)
    requires InShort(n)
    ensures TakeShort(ShortBytes(n) + rest) == Some(Parsed(n, rest))
  {
    ShortBack(n);
    BytesWritten(ShortBytes(n), rest);
  }

  lemma WordWritten(n: int, rest: seq<Byte>)
    requires InI32(n)
    ensures TakeWord(WordBytes(n) + rest) == Some(Parsed(n, rest))
  {
    WordBack(n);
    BytesWritten(WordBytes(n), rest);
  }

  lemma BytesWritten(a: seq<Byte>, rest: seq<Byte>)
    ensures (a + rest)[..|a|] == a && (a + rest)[|a|..] == rest
    ensures TakeBytes(a + rest, |a|) == Some(Parsed(a, rest))
  {}

  lemma TopicRoundTrip(t: Topic, rest: seq<Byte>, utf8: Utf8)
    requires Fits(t, utf8)
    ensures ReadTopic(WriteTopic(t) + rest, utf8) == Some(Parsed(utf8(t.name).value, rest))
  {
    var words, count := WriteWords(t.partitions), WordBytes(|t.partitions|);
    Regroup(ShortBytes(|t.name|), t.name + (count + words), rest);
    Regroup(t.name, count + words, rest);
    Regroup(count, words, rest);
    ShortWritten(|t.name|, t.name + (count + (words + rest)));
    BytesWritten(t.name, count + (words + rest));
    WordWritten(|t.partitions|, words + rest);
    BytesWritten(words, rest);
    WordsLength(t.partitions);
  }

  lemma {:induction false} TopicsRoundTrip(ts: seq<Topic>, rest: seq<Byte>, utf8: Utf8)
    requires AllFit(ts, utf8) && AllSized(ts)
    ensures ReadTopics(WriteTopics(ts) + rest, |ts|, TopicReader(utf8)) == Some(Names(ts, utf8))
  {
    if ts != [] {
      Regroup(WriteTopic(ts[0]), WriteTopics(ts[1..]), rest);
      TopicRoundTrip(ts[0], WriteTopics(ts[1..]) + rest, utf8);
      TopicsRoundTrip(ts[1..], rest, utf8);
    }
  }

  /** A well-formed blob gives back its topic names, whatever user data trails it. */
  lemma BlobRoundTrip(version: int, ts: seq<Topic>, userData: seq<Byte>, utf8: Utf8)
    requires 0 <= version < TWO_15 && |ts| < TWO_31 && AllFit(ts, utf8) && AllSized(ts)
    ensures ReadAssignment(Blob(version, ts, userData), utf8) == Some(Names(ts, utf8))
  {
    ShortWritten(version, WordBytes(|ts|) + (WriteTopics(ts) + userData));
    WordWritten(|ts|, WriteTopics(ts) + userData);
    TopicsRoundTrip(ts, userData, utf8);
  }

  // ---- and nothing else -----------------------------------------------------------------

  lemma TakenShort(s: seq<Byte>)
    requires TakeShort(s).Some?
    ensures InShort(TakeShort(s).value.value) && s == ShortBytes(TakeShort(s).value.value) + TakeShort(s).value.rest
  {
    ShortForth(s[..2]);
    assert s == s[..2] + s[2..];
  }

  lemma TakenWord(s: seq<Byte>)
    requires TakeWord(s).Some?
    ensures InI32(TakeWord(s).value.value) && s == WordBytes(TakeWord(s).value.value) + TakeWord(s).value.rest
  {
    WordForth(s[..4]);
    assert s == s[..4] + s[4..];
  }

  /** Any bytes in fours are the words of some numbers. */
  lemma {:induction false} SomeWords(s: seq<Byte>, n: nat) returns (ns: seq<int>)
    requires |s| == 4 * n
    ensures Words(ns) && WriteWords(ns) == s && |ns| == n
    decreases n
  {
    if n == 0 {
      ns := [];
    } else {
      var more := SomeWords(s[4..], n - 1);
      WordForth(s[..4]);
      ns := [Word(s[..4])] + more;
      assert ns[1..] == more && s == s[..4] + s[4..];
    }
  }

  lemma TopicAccepted(s: seq<Byte>, utf8: Utf8) returns (t: Topic)
    requires ReadTopic(s, utf8).Some?
    ensures Fits(t, utf8) && utf8(t.name) == Some(ReadTopic(s, utf8).value.value)
    ensures s == WriteTopic(t) + ReadTopic(s, utf8).value.rest
  {
    var len := TakeShort(s).value;
    var name := TakeBytes(len.rest, len.value).value;
    var count := TakeWord(name.rest).value;
    var skipped := TakeBytes(count.rest, 4 * count.value).value;
    TakenShort(s);
    TakenBytes(len.rest, len.value);
    TakenWord(name.rest);
    TakenBytes(count.rest, 4 * count.value);
    var ns := SomeWords(skipped.value, count.value);
    t := Topic(name.value, ns);
    Joined(s, ShortBytes(len.value), len.rest, name.value, name.rest, WordBytes(count.value), count.rest, skipped.value,
        skipped.rest);
  }

  lemma TakenBytes(s: seq<Byte>, n: nat)
    requires n <= |s|
    ensures s == s[..n] + s[n..] && |s[..n]| == n
  {}

  lemma Joined(s: seq<Byte>, a: seq<Byte>, s1: seq<Byte>, b: seq<Byte>, s2: seq<Byte>, c: seq<Byte>, s3: seq<Byte>,
               d: seq<Byte>, rest: seq<Byte>)
    requires s == a + s1 && s1 == b + s2 && s2 == c + s3 && s3 == d + rest
    ensures s == (a + (b + (c + d))) + rest
  {
    Regroup(c, d, rest);
    Regroup(b, c + d, rest);
    Regroup(a, b + (c + d), rest);
  }

  /** `s` is the topics `ts` as written, then `rest`. */
  predicate Written(s: seq<Byte>, ts: seq<Topic>, rest: seq<Byte>, utf8: Utf8, names: seq<string>) {
    AllFit(ts, utf8) && (FitIsSized(ts, utf8); s == WriteTopics(ts) + rest && names == Names(ts, utf8))
  }

  lemma WrittenNext(s: seq<Byte>, t: Topic, s': seq<Byte>, more: seq<Topic>, rest: seq<Byte>, utf8: Utf8,
                    names: seq<string>, all: seq<string>)
    returns (ts: seq<Topic>)
    requires Fits(t, utf8) && s == WriteTopic(t) + s' && Written(s', more, rest, utf8, names)
    requires all == [utf8(t.name).value] + names
    ensures |ts| == |more| + 1 && Written(s, ts, rest, utf8, all)
  {
    ts := [t] + more;
    assert ([t] + more)[1..] == more;
    FitIsSized(more, utf8);
    Regroup(WriteTopic(t), WriteTopics(more), rest);
  }

  /** Every topic the reader accepts was written as one. */
  ghost predicate ReadsTopics(one: One, utf8: Utf8) {
    forall s :: one(s).Some? ==> exists t :: WrittenFirst(s, t, one(s).value, utf8)
  }

  predicate WrittenFirst(s: seq<Byte>, t: Topic, p: Parsed<string>, utf8: Utf8) {
    Fits(t, utf8) && utf8(t.name) == Some(p.value) && s == WriteTopic(t) + p.rest
  }

  lemma {:induction false} TopicsAccepted(s: seq<Byte>, n: nat, one: One, utf8: Utf8)
    returns (ts: seq<Topic>, rest: seq<Byte>)
    requires ReadsTopics(one, utf8) && ReadTopics(s, n, one).Some?
    ensures |ts| == n && Written(s, ts, rest, utf8, ReadTopics(s, n, one).value)
    decreases n
  {
    if n == 0 {
      ts, rest := [], s;
      assert s == [] + s;
    } else {
      var first := one(s).value;
      var t :| WrittenFirst(s, t, first, utf8);
      var more;
      more, rest := TopicsAccepted(first.rest, n - 1, one, utf8);
      ts := WrittenNext(s, t, first.rest, more, rest, utf8, ReadTopics(first.rest, n - 1, one).value,
          ReadTopics(s, n, one).value);
    }
  }

  lemma ReaderReadsTopics(utf8: Utf8)
    ensures ReadsTopics(TopicReader(utf8), utf8)
  {
    forall s | TopicReader(utf8)(s).Some? ensures exists t :: WrittenFirst(s, t, TopicReader(utf8)(s).value, utf8) {
      var t := TopicAccepted(s, utf8);
      assert WrittenFirst(s, t, ReadTopic(s, utf8).value, utf8);
    }
  }

  /** Whatever is decoded was a well-formed blob of those names. */
  lemma AcceptedIsBlob(s: seq<Byte>, utf8: Utf8) returns (version: int, ts: seq<Topic>, userData: seq<Byte>)
    requires ReadAssignment(s, utf8).Some?
    ensures 0 <= version < TWO_15 && |ts| < TWO_31 && AllFit(ts, utf8) && AllSized(ts)
    ensures s == Blob(version, ts, userData) && ReadAssignment(s, utf8) == Some(Names(ts, utf8))
  {
    var v := TakeShort(s).value;
    var count := TakeWord(v.rest).value;
    TakenShort(s);
    TakenWord(v.rest);
    version := v.value;
    ReaderReadsTopics(utf8);
    ts, userData := TopicsAccepted(count.rest, count.value, TopicReader(utf8), utf8);
    FitIsSized(ts, utf8);
  }
}
