/** The write-ahead log file (src/cluster/raft_persistence.c): a 64-byte header with the term and
    the vote, then one framed, checksummed record per log entry. */
module Wal {

  import opened Bytes
  import opened Crc
  import opened RaftTypes
  import opened RaftStep
  import opened RaftNode

  const WAL_MAGIC: nat := 0x52414654
  const WAL_VERSION: nat := 1
  const ENTRY_MAGIC: nat := 0xE0E0E0E0
  const WAL_HEADER_SIZE: nat := 64
  const ENTRY_HEAD: nat := 25   // magic 4, term 8, index 8, type 1, data_len 4
  const VOTE_SIZE: nat := 37

  // C strings in fixed-size buffers

  ghost predicate CString(s: string) {
    |s| < VOTE_SIZE && forall k :: 0 <= k < |s| ==> 0 < s[k] as nat < 256
  }

  // strncpy into a buffer of `size` bytes, the last one left zero.
  function Pack(s: string, size: nat): (b: seq<byte>)
    requires forall k :: 0 <= k < |s| ==> s[k] as nat < 256
    ensures |b| == size
  {
    seq(size, k => if 0 <= k < |s| && k + 1 < size then ToByte(s[k] as nat) else 0)
  }

  // The characters before the first zero byte.
  function Unpack(b: seq<byte>): string {
    if b == [] || Value(b[0]) == 0 then [] else [Value(b[0]) as char] + Unpack(b[1..])
  }

  // The file

  function Header(term: nat, votedFor: string): (b: seq<byte>)
    requires forall k :: 0 <= k < |votedFor| ==> votedFor[k] as nat < 256
    ensures |b| == WAL_HEADER_SIZE
  {
    ToBigEndian(WAL_MAGIC, 4) + ToBigEndian(WAL_VERSION, 4) + ToBigEndian(term, 8) + Pack(votedFor, VOTE_SIZE) + Pack("", 11)
  }

  function Head(e: LogEntry): (b: seq<byte>)
    ensures |b| == ENTRY_HEAD
  {
    ToBigEndian(ENTRY_MAGIC, 4) + ToBigEndian(e.term, 8) + ToBigEndian(e.index, 8) + [e.kind] + ToBigEndian(|e.data|, 4)
  }

  function Body(e: LogEntry): seq<byte> { Head(e) + e.data }

  function Record(e: LogEntry): (b: seq<byte>)
    ensures |b| == ENTRY_HEAD + |e.data| + 4
  {
    Body(e) + FromWord(Checksum(Body(e)))
  }

  function Records(log: Log): seq<byte> {
    if log == [] then [] else Record(log[0]) + Records(log[1..])
  }

  ghost predicate Storable(e: LogEntry) {
    e.term < Pow256(8) && e.index < Pow256(8) && |e.data| < Pow256(4)
  }

  ghost predicate AllStorable(log: Log) {
    forall k :: 0 <= k < |log| ==> Storable(log[k])
  }

  // What can be read back

  datatype Parsed = Stop | Found(entry: LogEntry, size: nat)

  /** One pass of the read loop on what is left of the file: stop at the end, at a short read, at a
      wrong magic number or at a checksum mismatch. */
  function Parse(s: seq<byte>): (p: Parsed)
    ensures p.Found? ==> ENTRY_HEAD < p.size <= |s|
  {
    if |s| < ENTRY_HEAD then Stop
    else if FromBigEndian(s[..4]) != ENTRY_MAGIC then Stop
    else
      var len := FromBigEndian(s[21..25]);
      if |s| - ENTRY_HEAD < len then Stop
      else if |s| - ENTRY_HEAD - len < 4 then Stop
      else if ToWord(s[ENTRY_HEAD + len..ENTRY_HEAD + len + 4]) != Checksum(s[..ENTRY_HEAD + len]) then Stop
      else Found(LogEntry(FromBigEndian(s[4..12]), FromBigEndian(s[12..20]), s[20], s[ENTRY_HEAD..ENTRY_HEAD + len]),
                 ENTRY_HEAD + len + 4)
  }

  function ParseAll(s: seq<byte>): Log {
    match Parse(s)
    case Stop => []
    case Found(e, size) => [e] + ParseAll(s[size..])
  }

  // Lemmas about one record

  lemma HeadFields(e: LogEntry, rest: seq<byte>)
    ensures var s := Head(e) + rest;
            && s[..4] == ToBigEndian(ENTRY_MAGIC, 4) && s[4..12] == ToBigEndian(e.term, 8)
            && s[12..20] == ToBigEndian(e.index, 8) && s[20] == e.kind && s[21..25] == ToBigEndian(|e.data|, 4)
  {
  }

  lemma HeadValues(e: LogEntry, rest: seq<byte>)
    requires Storable(e)
    ensures var s := Head(e) + rest;
            && FromBigEndian(s[..4]) == ENTRY_MAGIC && FromBigEndian(s[4..12]) == e.term
            && FromBigEndian(s[12..20]) == e.index && s[20] == e.kind && FromBigEndian(s[21..25]) == |e.data|
  {
    hide Head, ToBigEndian, FromBigEndian;
    HeadFields(e, rest);
    assert ENTRY_MAGIC < Pow256(4) by { assert Pow256(2) == 65536; }
    BigEndianRoundTrip(ENTRY_MAGIC, 4);
    BigEndianRoundTrip(e.term, 8);
    BigEndianRoundTrip(e.index, 8);
    BigEndianRoundTrip(|e.data|, 4);
  }

  /** A whole record is read back, whatever follows. */
  lemma ParseRecord(e: LogEntry, rest: seq<byte>)
    requires Storable(e)
    ensures Parse(Record(e) + rest) == Found(e, |Record(e)|)
  {
    hide Head, FromBigEndian, Checksum, ToWord, FromWord;
    var s, n := Record(e) + rest, ENTRY_HEAD + |e.data|;
    HeadValues(e, s[ENTRY_HEAD..]);
    assert s == Head(e) + s[ENTRY_HEAD..];
    assert s[..n] == Body(e);
    assert s[n..n + 4] == FromWord(Checksum(Body(e)));
    assert s[ENTRY_HEAD..n] == e.data;
    WordRoundTrip(Checksum(Body(e)));
  }

  /** A record cut short is not. */
  lemma ParseTorn(e: LogEntry, n: nat)
    requires Storable(e) && n < |Record(e)|
    ensures Parse(Record(e)[..n]) == Stop
  {
    hide Head, FromBigEndian, Checksum, ToWord, FromWord;
    var s := Record(e)[..n];
    if n >= ENTRY_HEAD {
      HeadValues(e, s[ENTRY_HEAD..]);
      assert s == Head(e) + s[ENTRY_HEAD..];
    }
  }

  lemma BrokenMagic(b: byte, k: nat)
    requires k < 4 && b != ToBigEndian(ENTRY_MAGIC, 4)[k]
    ensures FromBigEndian(ToBigEndian(ENTRY_MAGIC, 4)[k := b]) != ENTRY_MAGIC
  {
    hide ToBigEndian, FromBigEndian;
    var good := ToBigEndian(ENTRY_MAGIC, 4);
    assert ENTRY_MAGIC < Pow256(4) by { assert Pow256(2) == 65536; }
    BigEndianRoundTrip(ENTRY_MAGIC, 4);
    if FromBigEndian(good[k := b]) == ENTRY_MAGIC { BigEndianInjective(good[k := b], good); }
  }

  lemma BrokenWord(w: bv32, b: byte, k: nat)
    requires k < 4 && b != FromWord(w)[k]
    ensures ToWord(FromWord(w)[k := b]) != w
  {
    hide FromWord, ToWord;
    WordRoundTrip(w);
    if ToWord(FromWord(w)[k := b]) == w { WordInjective(FromWord(w)[k := b], FromWord(w)); }
  }

  /** A record with one byte changed anywhere but in its data_len field is not read back. */
  lemma ParseDamaged(e: LogEntry, k: nat, b: byte, rest: seq<byte>)
    requires Storable(e) && k < |Record(e)| && !(21 <= k < 25) && b != Record(e)[k]
    ensures Parse(Record(e)[k := b] + rest) == Stop
  {
    if k < 4 {
      DamagedMagic(e, k, b, rest);
    } else if k < ENTRY_HEAD + |e.data| {
      DamagedBody(e, k, b, rest);
    } else {
      DamagedChecksum(e, k, b, rest);
    }
  }

  lemma DamagedMagic(e: LogEntry, k: nat, b: byte, rest: seq<byte>)
    requires Storable(e) && k < 4 && b != Record(e)[k]
    ensures Parse(Record(e)[k := b] + rest) == Stop
  {
    hide Head, FromBigEndian, ToBigEndian, Checksum, FromWord, ToWord;
    var s := Record(e)[k := b] + rest;
    HeadFields(e, Record(e)[ENTRY_HEAD..]);
    assert Record(e) == Head(e) + Record(e)[ENTRY_HEAD..];
    assert s[..4] == Record(e)[..4][k := b];
    BrokenMagic(b, k);
  }

  lemma DamagedBody(e: LogEntry, k: nat, b: byte, rest: seq<byte>)
    requires Storable(e) && 4 <= k < ENTRY_HEAD + |e.data| && !(21 <= k < 25) && b != Record(e)[k]
    ensures Parse(Record(e)[k := b] + rest) == Stop
  {
    hide Head, FromBigEndian, ToBigEndian, Checksum, FromWord, ToWord;
    var s, n := Record(e)[k := b] + rest, ENTRY_HEAD + |e.data|;
    HeadValues(e, Record(e)[ENTRY_HEAD..]);
    assert Record(e) == Head(e) + Record(e)[ENTRY_HEAD..];
    assert s[21..25] == Record(e)[21..25];
    assert s[..n] == Body(e)[k := b];
    assert s[n..n + 4] == FromWord(Checksum(Body(e)));
    OneByteChangesChecksum(Body(e), k, b);
    WordRoundTrip(Checksum(Body(e)));
  }

  lemma DamagedChecksum(e: LogEntry, k: nat, b: byte, rest: seq<byte>)
    requires Storable(e) && ENTRY_HEAD + |e.data| <= k < |Record(e)| && b != Record(e)[k]
    ensures Parse(Record(e)[k := b] + rest) == Stop
  {
    hide Head, FromBigEndian, ToBigEndian, Checksum, FromWord, ToWord;
    var s, n := Record(e)[k := b] + rest, ENTRY_HEAD + |e.data|;
    HeadValues(e, Record(e)[ENTRY_HEAD..]);
    assert Record(e) == Head(e) + Record(e)[ENTRY_HEAD..];
    assert s[21..25] == Record(e)[21..25];
    assert s[..n] == Body(e);
    assert s[n..n + 4] == FromWord(Checksum(Body(e)))[k - n := b];
    BrokenWord(Checksum(Body(e)), b, k - n);
  }

  // Lemmas about the records of a log

  lemma Regroup(a: seq<byte>, b: seq<byte>, c: seq<byte>)
    ensures a + (b + c) == a + b + c
  {
  }

  lemma {:induction false} RecordsAppend(log: Log, more: Log)
    ensures Records(log + more) == Records(log) + Records(more)
  {
    hide Record;
    if log == [] {
      assert log + more == more;
    } else {
      RecordsAppend(log[1..], more);
      assert (log + more)[1..] == log[1..] + more;
      Regroup(Record(log[0]), Records(log[1..]), Records(more));
    }
  }

  lemma ParseFirst(e: LogEntry, tail: seq<byte>)
    requires Storable(e)
    ensures ParseAll(Record(e) + tail) == [e] + ParseAll(tail)
  {
    hide Record, Parse, Storable;
    ParseRecord(e, tail);
    assert (Record(e) + tail)[|Record(e)|..] == tail;
  }

  /** Whole records are read back; what follows them decides the rest. */
  lemma {:induction false} ParseRecords(log: Log, rest: seq<byte>)
    requires AllStorable(log)
    ensures ParseAll(Records(log) + rest) == log + ParseAll(rest)
  {
    hide Record, ParseAll, Storable;
    if log == [] {
      assert Records(log) + rest == rest;
    } else {
      assert Records(log) + rest == Record(log[0]) + (Records(log[1..]) + rest);
      ParseFirst(log[0], Records(log[1..]) + rest);
      ParseRecords(log[1..], rest);
      assert [log[0]] + (log[1..] + ParseAll(rest)) == log + ParseAll(rest);
    }
  }

  /** How many entries still have their full records after a cut at n bytes. */
  function Surviving(log: Log, n: nat): (j: nat)
    ensures j <= |log|
  {
    if log == [] || |Record(log[0])| > n then 0
    else 1 + Surviving(log[1..], n - |Record(log[0])|)
  }

  /** That is the longest prefix whose records fit. */
  lemma {:induction false} SurvivingIsLongest(log: Log, n: nat)
    ensures |Records(log[..Surviving(log, n)])| <= n
    ensures Surviving(log, n) < |log| ==> |Records(log[..Surviving(log, n) + 1])| > n
  {
    hide Record;
    if log == [] {
    } else if |Record(log[0])| > n {
      assert log[..1][0] == log[0];
    } else {
      var j := Surviving(log[1..], n - |Record(log[0])|);
      SurvivingIsLongest(log[1..], n - |Record(log[0])|);
      assert log[..j + 1][1..] == log[1..][..j];
      assert j + 1 < |log| ==> log[..j + 2][1..] == log[1..][..j + 1];
    }
  }

  lemma {:induction false} ParseTornRecords(log: Log, n: nat)
    requires AllStorable(log) && n <= |Records(log)|
    ensures ParseAll(Records(log)[..n]) == log[..Surviving(log, n)]
  {
    hide Record, Parse;
    if log == [] {
      ParseNothing();
    } else {
      var r := Record(log[0]);
      var s := Records(log)[..n];
      if |r| > n {
        assert s == r[..n];
        ParseTorn(log[0], n);
      } else {
        assert s == r + Records(log[1..])[..n - |r|];
        ParseRecord(log[0], s[|r|..]);
        assert s[|r|..] == Records(log[1..])[..n - |r|];
        ParseTornRecords(log[1..], n - |r|);
      }
    }
  }

  lemma ParseNothing()
    ensures Parse([]) == Stop
  {
  }

  // The file as a whole

  function File(d: Durable): seq<byte>
    requires forall k :: 0 <= k < |d.votedFor| ==> d.votedFor[k] as nat < 256
  {
    Header(d.term, d.votedFor) + Records(d.log)
  }

  datatype Restored = Unreadable | Readable(state: Durable)

  function Read(file: seq<byte>): Restored {
    if |file| < WAL_HEADER_SIZE || FromBigEndian(file[..4]) != WAL_MAGIC then Unreadable
    else Readable(Durable(FromBigEndian(file[8..16]), Unpack(file[16..16 + VOTE_SIZE - 1]), ParseAll(file[WAL_HEADER_SIZE..])))
  }

  ghost predicate StorableState(d: Durable) {
    d.term < Pow256(8) && CString(d.votedFor) && AllStorable(d.log)
  }

  lemma {:induction false} UnpackPack(s: string, size: nat)
    requires |s| < size && forall k :: 0 <= k < |s| ==> 0 < s[k] as nat < 256
    ensures Unpack(Pack(s, size)[..size - 1]) == s
  {
    hide ToByte, Value;
    var b := Pack(s, size)[..size - 1];
    if s == [] {
      assert size > 1 ==> Value(b[0]) == 0 by { ZeroByte(); }
    } else {
      ByteRoundTrip(s[0] as nat);
      assert b[0] == ToByte(s[0] as nat);
      assert b[1..] == Pack(s[1..], size - 1)[..size - 2];
      UnpackPack(s[1..], size - 1);
      assert s == [s[0]] + s[1..];
    }
  }

  lemma ZeroByte()
    ensures Value(0) == 0
  {
  }

  lemma HeaderFields(term: nat, votedFor: string, rest: seq<byte>)
    requires term < Pow256(8) && CString(votedFor)
    ensures var f := Header(term, votedFor) + rest;
            && FromBigEndian(f[..4]) == WAL_MAGIC && FromBigEndian(f[8..16]) == term
            && Unpack(f[16..16 + VOTE_SIZE - 1]) == votedFor && f[WAL_HEADER_SIZE..] == rest
  {
    hide FromBigEndian, ToBigEndian, Pack, Unpack;
    var f := Header(term, votedFor) + rest;
    assert f[..4] == ToBigEndian(WAL_MAGIC, 4);
    assert f[8..16] == ToBigEndian(term, 8);
    assert f[16..16 + VOTE_SIZE - 1] == Pack(votedFor, VOTE_SIZE)[..VOTE_SIZE - 1];
    assert WAL_MAGIC < Pow256(4) by { assert Pow256(2) == 65536; }
    BigEndianRoundTrip(WAL_MAGIC, 4);
    BigEndianRoundTrip(term, 8);
    UnpackPack(votedFor, VOTE_SIZE);
  }

  /** Where everything is in a file's header. */
  lemma HeaderLayout(term: nat, votedFor: string, rest: seq<byte>)
    requires CString(votedFor)
    ensures var f := Header(term, votedFor) + rest;
      && f[..4] == ToBigEndian(0x52414654, 4) && f[4..8] == ToBigEndian(1, 4) && f[8..16] == ToBigEndian(term, 8)
      && (forall k :: 0 <= k < |votedFor| ==> f[16 + k] == ToByte(votedFor[k] as nat))
      && (forall k :: 16 + |votedFor| <= k < 64 ==> f[k] == 0)
  {
    hide ToBigEndian, ToByte;
  }

  /** And in a record: magic number, term, index, type, length, the data, and the checksum of all that. */
  lemma RecordLayout(e: LogEntry)
    ensures var r, n := Record(e), 25 + |e.data|;
      && |r| == n + 4
      && r[..4] == ToBigEndian(0xE0E0E0E0, 4) && r[4..12] == ToBigEndian(e.term, 8) && r[12..20] == ToBigEndian(e.index, 8)
      && r[20] == e.kind && r[21..25] == ToBigEndian(|e.data|, 4) && r[25..n] == e.data
      && r[n..] == FromWord(Checksum(r[..n]))
  {
    hide ToBigEndian, Checksum, FromWord;
    assert Record(e)[..25 + |e.data|] == Body(e);
  }

  /** WAL round trip. */
  lemma RoundTrip(d: Durable)
    requires StorableState(d)
    ensures Read(File(d)) == Readable(d)
  {
    hide FromBigEndian, Unpack, Header, Parse;
    HeaderFields(d.term, d.votedFor, Records(d.log));
    ParseRecords(d.log, []);
    ParseNothing();
    assert Records(d.log) + [] == Records(d.log);
  }

  /** Torn-tail recovery: cut anywhere at or after the header, the file yields the term, the vote and
      exactly the entries whose whole records are still there. */
  lemma TornTail(d: Durable, n: nat)
    requires StorableState(d) && WAL_HEADER_SIZE <= n <= |File(d)|
    ensures Read(File(d)[..n])
              == Readable(d.(log := d.log[..Surviving(d.log, n - WAL_HEADER_SIZE)]))
  {
    hide FromBigEndian, Unpack, Header, Parse, ParseAll, Records, Surviving;
    var kept := Records(d.log)[..n - WAL_HEADER_SIZE];
    assert File(d)[..n] == Header(d.term, d.votedFor) + kept;
    HeaderFields(d.term, d.votedFor, kept);
    ParseTornRecords(d.log, n - WAL_HEADER_SIZE);
  }

  /** One byte changed in the record of entry i, outside its data_len field: restoring keeps exactly
      the entries before it. */
  lemma DamagedRecord(d: Durable, i: nat, k: nat, b: byte)
    requires StorableState(d) && i < |d.log|
    requires k < |Record(d.log[i])| && !(21 <= k < 25) && b != Record(d.log[i])[k]
    ensures |Records(d.log[..i])| + |Record(d.log[i])| <= |Records(d.log)|
    ensures Read(File(d)[WAL_HEADER_SIZE + |Records(d.log[..i])| + k := b]) == Readable(d.(log := d.log[..i]))
  {
    hide FromBigEndian, Unpack, Header, Record, Parse;
    var pre, e, post := d.log[..i], d.log[i], d.log[i + 1..];
    assert d.log == pre + ([e] + post);
    RecordsAppend(pre, [e] + post);
    assert ([e] + post)[1..] == post;
    var bad := Record(e)[k := b] + Records(post);
    var file := File(d)[WAL_HEADER_SIZE + |Records(pre)| + k := b];
    assert file == Header(d.term, d.votedFor) + (Records(pre) + bad);
    HeaderFields(d.term, d.votedFor, Records(pre) + bad);
    ParseDamaged(e, k, b, Records(post));
    ParseRecords(pre, bad);
  }

  // The two functions, against the specification above

  /** raft_persist_state: header, then record by record. */
  method PersistState(node: Node) returns (file: seq<byte>)
    requires forall k :: 0 <= k < |node.votedFor| ==> node.votedFor[k] as nat < 256
    ensures file == File(Durable(node.term, node.votedFor, node.log))
  {
    hide Header, Head, Checksum;
    var log := node.log;
    file := Header(node.term, node.votedFor);
    for i := 0 to |log|
      invariant file == Header(node.term, node.votedFor) + Records(log[..i])
    {
      var buf := Head(log[i]) + log[i].data;
      var checksum := Crc32(buf);
      file := file + buf + FromWord(checksum);
      RecordsSnoc(log, i);
      assert file == Header(node.term, node.votedFor) + (Records(log[..i]) + Record(log[i]));
    }
    assert log[..|log|] == log;
  }

  lemma RecordsSnoc(log: Log, i: nat)
    requires i < |log|
    ensures Records(log[..i + 1]) == Records(log[..i]) + Record(log[i])
  {
    hide Record;
    assert log[..i + 1] == log[..i] + [log[i]];
    RecordsAppend(log[..i], [log[i]]);
  }

  /** raft_restore_state: 0 with the node unchanged when there is no file, -1 with the node unchanged
      when the header cannot be read, and otherwise what Read says, the entries appended.  What could be read
      is then what the node last persisted. */
  method RestoreState(node: Node, file: Option<seq<byte>>) returns (status: int)
    modifies node`term, node`votedFor, node`log, node`disk
    ensures status == if file.Some? && Read(file.value) == Unreadable then -1 else 0
    ensures file.None? || Read(file.value) == Unreadable ==>
              node.View() == old(node.View())
    ensures file.Some? && Read(file.value).Readable? ==>
              var d := Read(file.value).state;
              node.View() == old(node.View()).(term := d.term, votedFor := d.votedFor, log := old(node.log) + d.log, disk := d)
  {
    hide FromBigEndian, Checksum, Unpack, ToWord;
    if file.None? { return 0; }
    var f := file.value;
    if |f| < WAL_HEADER_SIZE { return -1; }
    if FromBigEndian(f[..4]) != WAL_MAGIC { return -1; }
    node.term := FromBigEndian(f[8..16]);
    node.votedFor := Unpack(f[16..16 + VOTE_SIZE - 1]);
    var count := |node.log|;
    ReadRecords(node, f, WAL_HEADER_SIZE);
    node.disk := Durable(node.term, node.votedFor, node.log[count..]);
    status := 0;
  }

  method ReadRecords(node: Node, f: seq<byte>, start: nat)
    requires start <= |f|
    modifies node`log
    ensures node.log == old(node.log) + ParseAll(f[start..])
  {
    hide FromBigEndian, Checksum, ToWord;
    var pos := start;
    while true
      invariant start <= pos <= |f|
      invariant node.log + ParseAll(f[pos..]) == old(node.log) + ParseAll(f[start..])
      decreases |f| - pos
    {
      var left := f[pos..];
      if |left| < ENTRY_HEAD { break; }
      if FromBigEndian(left[..4]) != ENTRY_MAGIC { break; }
      var term, index := FromBigEndian(left[4..12]), FromBigEndian(left[12..20]);
      var len := FromBigEndian(left[21..25]);
      if |left| - ENTRY_HEAD < len { break; }
      if |left| - ENTRY_HEAD - len < 4 { break; }
      var stored := ToWord(left[ENTRY_HEAD + len..ENTRY_HEAD + len + 4]);
      var computed := Crc32(left[..ENTRY_HEAD + len]);
      if stored != computed { break; }
      var entry := LogEntry(term, index, left[20], left[ENTRY_HEAD..ENTRY_HEAD + len]);
      assert left[ENTRY_HEAD + len + 4..] == f[pos + ENTRY_HEAD + len + 4..];
      assert ParseAll(left) == [entry] + ParseAll(f[pos + ENTRY_HEAD + len + 4..]);
      node.log := node.log + [entry];
      pos := pos + ENTRY_HEAD + len + 4;
    }
  }

  // The node is created and its peers are added, as before its first start.
  method Recreate(s: NodeState) returns (node: Node)
    requires forall j, k :: 0 <= j < k < |s.peers| ==> s.peers[j].id != s.peers[k].id
    ensures fresh(node) && node.outbox == []
    ensures node.View() == NodeState(s.id, 0, NOBODY, [], Follower, 0, 0, FreshPeers(s.peers), NOBODY, 0, 0, 0,
                                     Durable(0, NOBODY, []), [])
  {
    node := new Node(s.id);
    for i := 0 to |s.peers|
      invariant fresh(node) && node.outbox == []
      invariant node.View() == NodeState(s.id, 0, NOBODY, [], Follower, 0, 0, FreshPeers(s.peers)[..i], NOBODY, 0, 0, 0,
                                         Durable(0, NOBODY, []), [])
    {
      var ok := node.AddPeer(s.peers[i].id);
    }
  }

  /** raft_init, raft_add_peer for every peer, raft_restore_state: whatever the file holds, whole, torn or damaged,
      the object is the one that restarts from what can be read of it, and it is in step with its disk. */
  method Reboot(s: NodeState, file: seq<byte>) returns (node: Node, status: int)
    requires forall j, k :: 0 <= j < k < |s.peers| ==> s.peers[j].id != s.peers[k].id
    ensures fresh(node) && node.Synced() && node.outbox == []
    ensures status == if Read(file) == Unreadable then -1 else 0
    ensures node.View() == Restart(s.(disk := if Read(file) == Unreadable then Durable(0, NOBODY, []) else Read(file).state))
  {
    hide Read;
    node := Recreate(s);
    status := RestoreState(node, Some(file));
  }

  /** From its own file, that is the restart of the cluster model. */
  method RebootFromOwnFile(s: NodeState) returns (node: Node)
    requires forall j, k :: 0 <= j < k < |s.peers| ==> s.peers[j].id != s.peers[k].id
    requires StorableState(s.disk)
    ensures fresh(node) && node.Synced() && node.View() == Restart(s)
  {
    hide Read, File;
    RoundTrip(s.disk);
    var status;
    node, status := Reboot(s, File(s.disk));
  }
}
