/**
 A seekable reader over a remote file, backed by HTTP range requests (src/remote.rs).

 The server is an immutable byte sequence that answers every range request exactly;
 whether a request gets through at all is the input `online` of each operation.
 */
module RangeReader {
  import opened Wrappers

  /** Read-ahead window for small reads. */
  const SMALL_READAHEAD: nat := 256 * 1024

  datatype SeekFrom = Start(offset: u64) | End(delta: i64) | Current(delta: i64)

  /** The signed value of an integer less than one turn out of range, as `as i64` and a wrapping `+` give it. */
  function WrapI64(x: int): int {
    if x < -I64_LIMIT then x + U64_LIMIT else if x < I64_LIMIT then x else x - U64_LIMIT
  }

  /** Wrapping 64-bit addition. */
  function AddU64(a: u64, b: u64): u64 {
    if a + b < U64_LIMIT then a + b else a + b - U64_LIMIT
  }

  datatype Reader = Reader(file: seq<byte>, pos: nat, buf: seq<byte>, bufStart: nat, fetchedBytes: nat)

  datatype Op =
    | Read(want: nat, online: bool)
    | Seek(target: SeekFrom)
    | Prefetch(start: u64, len: u64, online: bool)

  datatype Outcome = Data(bytes: seq<byte>) | Moved(to: nat) | Fetched | Failed

  /** A file that can be addressed by a signed 64-bit offset. */
  predicate FileFits(file: seq<byte>) {
    |file| < I64_LIMIT
  }

  /** Slices in memory, hence output buffers, are shorter than 2^63 bytes. */
  predicate OpFits(op: Op) {
    op.Read? ==> op.want < I64_LIMIT
  }

  function Open(file: seq<byte>): Reader {
    Reader(file, 0, [], 0, 0)
  }

  /** Exclusive end of the range that one fetch requests. The addition wraps at 64 bits. */
  function FetchEnd(len: nat, start: u64, want: u64): int {
    var span := Max(want, Min(SMALL_READAHEAD, Max(len - start, 0)));
    Min(AddU64(start, span), len)
  }

  function FetchStep(r: Reader, start: u64, want: u64): Reader {
    var end := FetchEnd(|r.file|, start, want);
    if end <= start then
      r.(buf := [], bufStart := start)
    else
      r.(buf := r.file[start..end], bufStart := start, fetchedBytes := r.fetchedBytes + (end - start))
  }

  predicate InBuffer(r: Reader) {
    r.bufStart <= r.pos < r.bufStart + |r.buf|
  }

  predicate NeedsFetch(r: Reader, want: nat) {
    r.pos < |r.file| && want != 0 && !InBuffer(r)
  }

  function Deliver(r: Reader, want: nat): (Reader, Outcome) {
    var offset := r.pos - r.bufStart;
    if offset < 0 || offset >= |r.buf| then
      (r, Data([]))
    else
      var n := Min(|r.buf| - offset, want);
      (r.(pos := r.pos + n), Data(r.buf[offset..offset + n]))
  }

  function ReadStep(r: Reader, want: nat, online: bool): (Reader, Outcome)
    requires FileFits(r.file) && want < I64_LIMIT
  {
    if r.pos >= |r.file| || want == 0 then
      (r, Data([]))
    else if InBuffer(r) then
      Deliver(r, want)
    else if online then
      Deliver(FetchStep(r, r.pos, want), want)
    else
      (r, Failed)
  }

  /** The signed target of a seek, computed with wrap-around as the code does. */
  function SeekTarget(r: Reader, target: SeekFrom): int {
    match target
    case Start(offset) => WrapI64(offset)
    case End(delta) => WrapI64(|r.file| + delta)
    case Current(delta) => WrapI64(WrapI64(r.pos) + delta)
  }

  function SeekStep(r: Reader, target: SeekFrom): (Reader, Outcome) {
    var to := SeekTarget(r, target);
    if to < 0 then (r, Failed) else (r.(pos := to), Moved(to))
  }

  function PrefetchStep(r: Reader, start: u64, len: u64, online: bool): (Reader, Outcome) {
    if FetchEnd(|r.file|, start, len) <= start || online then
      (FetchStep(r, start, len), Fetched)
    else
      (r, Failed)
  }

  function Step(r: Reader, op: Op): (Reader, Outcome)
    requires FileFits(r.file) && OpFits(op)
  {
    match op
    case Read(want, online) => ReadStep(r, want, online)
    case Seek(target) => SeekStep(r, target)
    case Prefetch(start, len, online) => PrefetchStep(r, start, len, online)
  }

  predicate OpsFit(ops: seq<Op>) {
    forall i :: 0 <= i < |ops| ==> OpFits(ops[i])
  }

  /** The reader after a whole run of operations. */
  function Run(r: Reader, ops: seq<Op>): (r': Reader)
    requires FileFits(r.file) && OpsFit(ops)
    ensures r'.file == r.file
  {
    if ops == [] then r else
      var last := |ops| - 1;
      Step(Run(r, ops[..last]), ops[last]).0
  }

  // ---------------------------------------------------------------- refinement of the plain file

  /** The buffer is the slice of the file at `bufStart`, and the position is a signed offset. */
  predicate Coherent(r: Reader) {
    && FileFits(r.file)
    && r.pos < I64_LIMIT
    && (r.buf != [] ==>
          && r.bufStart + |r.buf| <= |r.file|
          && r.buf == r.file[r.bufStart..r.bufStart + |r.buf|])
  }

  /** What one operation may do to the cursor of a plain file, and what it must return. */
  predicate PlainFileStep(file: seq<byte>, pos: nat, op: Op, out: Outcome, pos': nat) {
    match op
    case Read(want, online) =>
      if out.Data? then
        && |out.bytes| <= want
        && pos' == pos + |out.bytes|
        && (|out.bytes| == 0 <==> want == 0 || pos >= |file|)
        && (out.bytes != [] ==> pos' <= |file| && out.bytes == file[pos..pos'])
      else
        out.Failed? && !online && pos' == pos
    case Seek(target) =>
      var exact := match target
        case Start(offset) => offset
        case End(delta) => |file| + delta
        case Current(delta) => pos + delta;
      if 0 <= exact < I64_LIMIT then out == Moved(exact) && pos' == exact
      else out.Failed? && pos' == pos
    case Prefetch(_, _, online) =>
      pos' == pos && (out.Fetched? || (out.Failed? && !online))
  }

  lemma FetchFromPos(r: Reader, want: nat)
    requires Coherent(r) && r.pos < |r.file| && 0 < want < I64_LIMIT
    ensures var end := FetchEnd(|r.file|, r.pos, want);
            && r.pos < end <= |r.file|
            && (end == |r.file| || end - r.pos >= want)
            && end - r.pos <= Max(want, SMALL_READAHEAD)
            && (end == |r.file| || end - r.pos >= SMALL_READAHEAD)
  {
  }

  lemma SliceOfSlice(file: seq<byte>, lo: nat, hi: nat, offset: nat, n: nat)
    requires lo + offset + n <= hi <= |file|
    ensures file[lo..hi][offset..offset + n] == file[lo + offset..lo + offset + n]
  {
    var (whole, part) := (file[lo..hi][offset..offset + n], file[lo + offset..lo + offset + n]);
    assert forall k :: 0 <= k < n ==> whole[k] == part[k];
  }

  lemma DeliverAgrees(r: Reader, want: nat)
    requires Coherent(r) && InBuffer(r) && 0 < want
    ensures var (r', out) := Deliver(r, want);
            && Coherent(r') && r'.file == r.file
            && out.Data? && 0 < |out.bytes| <= want
            && r'.pos == r.pos + |out.bytes| <= |r.file|
            && out.bytes == r.file[r.pos..r'.pos]
            && r'.buf == r.buf && r'.bufStart == r.bufStart && r'.fetchedBytes == r.fetchedBytes
            && Ahead(r') == Ahead(r) - |out.bytes|
  {
    var n := Min(r.bufStart + |r.buf| - r.pos, want);
    SliceOfSlice(r.file, r.bufStart, r.bufStart + |r.buf|, r.pos - r.bufStart, n);
  }

  lemma FetchCoherent(r: Reader, start: u64, want: u64)
    requires Coherent(r)
    ensures Coherent(FetchStep(r, start, want))
  {
  }

  lemma ReadRefines(r: Reader, want: nat, online: bool)
    requires Coherent(r) && want < I64_LIMIT
    ensures var (r', out) := ReadStep(r, want, online);
            Coherent(r') && r'.file == r.file && PlainFileStep(r.file, r.pos, Read(want, online), out, r'.pos)
  {
    if r.pos < |r.file| && want != 0 {
      if InBuffer(r) {
        DeliverAgrees(r, want);
      } else if online {
        FetchFromPos(r, want);
        FetchCoherent(r, r.pos, want);
        DeliverAgrees(FetchStep(r, r.pos, want), want);
      }
    }
  }

  lemma SeekRefines(r: Reader, target: SeekFrom)
    requires Coherent(r)
    ensures var (r', out) := SeekStep(r, target);
            Coherent(r') && r'.file == r.file && PlainFileStep(r.file, r.pos, Seek(target), out, r'.pos)
  {
  }

  /** Every operation keeps the buffer coherent and acts on the cursor as on a plain local file. */
  lemma StepRefinesPlainFile(r: Reader, op: Op)
    requires Coherent(r) && OpFits(op)
    ensures var (r', out) := Step(r, op);
            && Coherent(r')
            && r'.file == r.file
            && PlainFileStep(r.file, r.pos, op, out, r'.pos)
  {
    match op {
      case Read(want, online) => ReadRefines(r, want, online);
      case Seek(target) => SeekRefines(r, target);
      case Prefetch(start, len, online) => FetchCoherent(r, start, len);
    }
  }

  /** Over any run from a freshly opened reader, the buffer never disagrees with the file. */
  lemma {:induction false} RunCoherent(file: seq<byte>, ops: seq<Op>)
    requires FileFits(file) && OpsFit(ops)
    ensures Coherent(Run(Open(file), ops))
  {
    if ops != [] {
      var last := |ops| - 1;
      RunCoherent(file, ops[..last]);
      StepRefinesPlainFile(Run(Open(file), ops[..last]), ops[last]);
    }
  }

  /** The i-th operation of any run behaves as on a plain file, from the cursor the earlier ones left. */
  lemma RunRefinesPlainFile(file: seq<byte>, ops: seq<Op>, i: nat)
    requires FileFits(file) && OpsFit(ops) && i < |ops|
    ensures var before := Run(Open(file), ops[..i]);
            && PlainFileStep(file, before.pos, ops[i], Step(before, ops[i]).1, Run(Open(file), ops[..i + 1]).pos)
  {
    RunCoherent(file, ops[..i]);
    StepRefinesPlainFile(Run(Open(file), ops[..i]), ops[i]);
    assert ops[..i + 1][..i] == ops[..i];
  }

  // ---------------------------------------------------------------- reads and prefetches by amount

  /**
   A read inside the buffer delivers all that is wanted and left there, and requests nothing; one outside it requests
   the rest of the file or at least what is wanted, and delivers all of that.
   */
  lemma ReadAmount(r: Reader, want: nat, online: bool)
    requires Coherent(r) && 0 < want < I64_LIMIT && r.pos < |r.file|
    ensures var (r', out) := ReadStep(r, want, online);
            if r.bufStart <= r.pos < r.bufStart + |r.buf| then
              && out == Data(r.file[r.pos..Min(r.pos + want, r.bufStart + |r.buf|)])
              && r' == r.(pos := r'.pos)
            else if online then
              && out == Data(r.file[r.pos..Min(r.pos + want, |r.file|)])
              && r'.bufStart == r.pos && |r'.buf| >= Min(262144, |r.file| - r.pos)
              && r'.fetchedBytes == r.fetchedBytes + |r'.buf|
            else out == Failed && r' == r
  {
    if InBuffer(r) {
      DeliverAgrees(r, want);
    } else if online {
      FetchFromPos(r, want);
      FetchCoherent(r, r.pos, want);
      DeliverAgrees(FetchStep(r, r.pos, want), want);
    }
  }

  /** Whatever the file has of [lo, hi) is in the buffer. */
  predicate Covers(r: Reader, lo: nat, hi: nat) {
    lo < Min(hi, |r.file|) ==> r.bufStart <= lo && Min(hi, |r.file|) <= r.bufStart + |r.buf|
  }

  /** Every read of a run lies within the part of [lo, hi) that the file has; there may be seeks between them. */
  ghost predicate ReadsInside(r: Reader, ops: seq<Op>, lo: nat, hi: nat)
    requires FileFits(r.file) && OpsFit(ops)
  {
    ops == [] ||
    var last := |ops| - 1;
    && ReadsInside(r, ops[..last], lo, hi)
    && match ops[last]
       case Read(want, _) => lo <= Run(r, ops[..last]).pos && Run(r, ops[..last]).pos + want <= Min(hi, |r.file|)
       case Seek(_) => true
       case Prefetch(_, _, _) => false
  }

  /**
   A prefetch fails only offline, and then if there is anything to fetch. A successful one has the range in the
   buffer, unless the end of the range lies beyond 64 bits: then the addition wraps, and the buffer is empty, as it is
   when the range lies beyond the file.
   */
  lemma PrefetchCovers(r: Reader, start: u64, len: u64, online: bool)
    requires Coherent(r)
    ensures var (r', out) := PrefetchStep(r, start, len, online);
            && (start + len < U64_LIMIT ==>
                  (out.Fetched? <==> online || start >= |r.file|) && (out.Fetched? ==> Covers(r', start, start + len)))
            && (start + len >= U64_LIMIT || start >= |r.file| ==> out.Fetched? && r'.buf == [])
            && (out.Failed? ==> r' == r)
  {
  }

  /** A run makes no request, and each of its reads delivers all that it wants. */
  ghost predicate ServedFromBuffer(r: Reader, ops: seq<Op>)
    requires FileFits(r.file) && OpsFit(ops)
  {
    ops == [] ||
    var last := |ops| - 1;
    var before := Run(r, ops[..last]);
    && ServedFromBuffer(r, ops[..last])
    && Run(r, ops).fetchedBytes == r.fetchedBytes
    && (ops[last].Read? ==>
          && before.pos + ops[last].want <= |r.file|
          && Step(before, ops[last]).1 == Data(r.file[before.pos..before.pos + ops[last].want]))
  }

  lemma InsideStep(r: Reader, op: Op, lo: nat, hi: nat)
    requires Coherent(r) && OpFits(op) && Covers(r, lo, hi) && (op.Read? || op.Seek?)
    requires op.Read? ==> lo <= r.pos && r.pos + op.want <= Min(hi, |r.file|)
    ensures var (r', out) := Step(r, op);
            && r'.fetchedBytes == r.fetchedBytes && Covers(r', lo, hi)
            && (op.Read? ==> out == Data(r.file[r.pos..r.pos + op.want]))
  {
    if op.Read? {
      if op.want == 0 {
        assert r.file[r.pos..r.pos] == [];
      } else {
        ReadAmount(r, op.want, op.online);
      }
    }
  }

  lemma {:induction false} InsideRun(r: Reader, ops: seq<Op>, lo: nat, hi: nat)
    requires Coherent(r) && OpsFit(ops) && Covers(r, lo, hi) && ReadsInside(r, ops, lo, hi)
    ensures Coherent(Run(r, ops)) && Covers(Run(r, ops), lo, hi) && Run(r, ops).fetchedBytes == r.fetchedBytes
    ensures ServedFromBuffer(r, ops)
  {
    if ops != [] {
      var last := |ops| - 1;
      InsideRun(r, ops[..last], lo, hi);
      InsideStep(Run(r, ops[..last]), ops[last], lo, hi);
      StepRefinesPlainFile(Run(r, ops[..last]), ops[last]);
    }
  }

  /**
   After a successful prefetch, any run of seeks and of reads within the range requests nothing, and every read
   delivers all that it wants, whether the server can be reached or not.
   */
  lemma PrefetchServes(r: Reader, start: u64, len: u64, online: bool, ops: seq<Op>)
    requires Coherent(r) && start + len < U64_LIMIT && OpsFit(ops)
    requires PrefetchStep(r, start, len, online).1.Fetched?
    requires ReadsInside(PrefetchStep(r, start, len, online).0, ops, start, start + len)
    ensures ServedFromBuffer(PrefetchStep(r, start, len, online).0, ops)
  {
    PrefetchCovers(r, start, len, online);
    FetchCoherent(r, start, len);
    InsideRun(PrefetchStep(r, start, len, online).0, ops, start, start + len);
  }

  datatype LoopEnd = LoopEnd(last: Reader, bytes: seq<byte>, ok: bool)

  /**
   Reading until `want` bytes have come, a read delivers none, or a read fails, as the standard read_exact does;
   `online(i)` tells whether the i-th read can reach the server. The flag is false after a failure.
   */
  function ReadLoop(r: Reader, want: nat, online: nat -> bool, i: nat): LoopEnd
    requires Coherent(r) && want < I64_LIMIT
    decreases want
  {
    ReadRefines(r, want, online(i));
    var (r', out) := ReadStep(r, want, online(i));
    if out.Failed? then LoopEnd(r', [], false)
    else if out.bytes == [] then LoopEnd(r', [], true)
    else
      var end := ReadLoop(r', want - |out.bytes|, online, i + 1);
      end.(bytes := out.bytes + end.bytes)
  }

  /** From `pos`, exactly `want` bytes of the file, or those that are left. */
  predicate Delivers(file: seq<byte>, pos: nat, want: nat, pos': nat, bytes: seq<byte>) {
    if pos >= |file| then pos' == pos && bytes == []
    else pos' == Min(pos + want, |file|) && bytes == file[pos..pos']
  }

  /** From `pos`, some bytes of the file, but fewer than wanted and than there are. */
  predicate DeliversSome(file: seq<byte>, pos: nat, want: nat, pos': nat, bytes: seq<byte>) {
    pos <= pos' < Min(pos + want, |file|) && bytes == file[pos..pos']
  }

  /** How a read loop that begins at `pos` with its i-th read may end. */
  ghost predicate LoopEnds(file: seq<byte>, pos: nat, want: nat, online: nat -> bool, i: nat, end: LoopEnd) {
    && Coherent(end.last) && end.last.file == file
    && (if end.ok then Delivers(file, pos, want, end.last.pos, end.bytes)
        else DeliversSome(file, pos, want, end.last.pos, end.bytes) && exists j :: j >= i && !online(j))
  }

  /** One more successful read in front of a loop. */
  lemma LoopContinues(
    file: seq<byte>, pos: nat, want: nat, mid: nat, bytes: seq<byte>, online: nat -> bool, i: nat, end: LoopEnd)
    requires pos < mid <= |file| && bytes == file[pos..mid] && |bytes| <= want
    requires LoopEnds(file, mid, want - |bytes|, online, i + 1, end)
    ensures LoopEnds(file, pos, want, online, i, end.(bytes := bytes + end.bytes))
  {
    if mid <= end.last.pos <= |file| {
      assert file[pos..mid] + file[mid..end.last.pos] == file[pos..end.last.pos];
    }
  }

  lemma FailedReadWanted(r: Reader, want: nat, online: bool)
    requires Coherent(r) && want < I64_LIMIT && ReadStep(r, want, online).1.Failed?
    ensures !online && 0 < want && r.pos < |r.file| && ReadStep(r, want, online).0 == r
  {
  }

  /** The last read of a loop: it fails, or delivers nothing. */
  lemma LoopStops(r: Reader, want: nat, online: nat -> bool, i: nat)
    requires Coherent(r) && want < I64_LIMIT
    requires var out := ReadStep(r, want, online(i)).1; out.Failed? || (out.Data? && out.bytes == [])
    ensures LoopEnds(r.file, r.pos, want, online, i, ReadLoop(r, want, online, i))
  {
    ReadRefines(r, want, online(i));
    if ReadStep(r, want, online(i)).1.Failed? {
      FailedReadWanted(r, want, online(i));
      assert r.file[r.pos..r.pos] == [];
    }
  }

  /** A read of a loop that delivers something, and the rest of the loop. */
  lemma LoopGoesOn(r: Reader, want: nat, online: nat -> bool, i: nat, r': Reader, bytes: seq<byte>)
    requires Coherent(r) && want < I64_LIMIT && bytes != [] && ReadStep(r, want, online(i)) == (r', Data(bytes))
    ensures Coherent(r') && r'.file == r.file && |bytes| <= want
    ensures r.pos < r'.pos <= |r.file| && bytes == r.file[r.pos..r'.pos]
    ensures var end := ReadLoop(r', want - |bytes|, online, i + 1);
            ReadLoop(r, want, online, i) == end.(bytes := bytes + end.bytes)
  {
    ReadRefines(r, want, online(i));
  }

  lemma ReadAnswers(r: Reader, want: nat, online: bool)
    requires Coherent(r) && want < I64_LIMIT
    ensures var out := ReadStep(r, want, online).1; out.Data? || out.Failed?
  {
    ReadRefines(r, want, online);
  }

  /**
   The loop ends. Unless a read failed it has exactly the requested bytes, or those that are left in the file;
   after a failure it has the bytes up to there, and the cursor is just after them. Reads fail only offline.
   */
  lemma {:induction false} ReadLoopDelivers(r: Reader, want: nat, online: nat -> bool, i: nat)
    requires Coherent(r) && want < I64_LIMIT
    ensures LoopEnds(r.file, r.pos, want, online, i, ReadLoop(r, want, online, i))
    decreases want, 1
  {
    ReadAnswers(r, want, online(i));
    var step := ReadStep(r, want, online(i));
    if step.1.Failed? || step.1.bytes == [] {
      LoopStops(r, want, online, i);
    } else {
      var bytes := step.1.bytes;
      assert step == (step.0, Data(bytes));
      LoopGoesOn(r, want, online, i, step.0, bytes);
      RestDelivers(r.file, r.pos, want, online, i, step.0, bytes);
    }
  }

  lemma {:induction false} RestDelivers(
    file: seq<byte>, pos: nat, want: nat, online: nat -> bool, i: nat, r: Reader, bytes: seq<byte>)
    requires Coherent(r) && r.file == file && want < I64_LIMIT && 0 < |bytes| <= want
    requires pos < r.pos <= |file| && bytes == file[pos..r.pos]
    ensures var end := ReadLoop(r, want - |bytes|, online, i + 1);
            LoopEnds(file, pos, want, online, i, end.(bytes := bytes + end.bytes))
    decreases want, 0
  {
    ReadLoopDelivers(r, want - |bytes|, online, i + 1);
    LoopContinues(file, pos, want, r.pos, bytes, online, i, ReadLoop(r, want - |bytes|, online, i + 1));
  }

  // ---------------------------------------------------------------- traffic

  /** What a run has used: bytes handed to callers, bytes explicitly prefetched, and jumps made. */
  datatype Usage = Usage(delivered: nat, prefetched: nat, jumps: nat)

  function Charge(r: Reader, op: Op, u: Usage): Usage
    requires FileFits(r.file) && OpFits(op)
  {
    var (r', out) := Step(r, op);
    match out
    case Data(bytes) => u.(delivered := u.delivered + |bytes|)
    case Moved(_) => u.(jumps := u.jumps + 1)
    case Fetched => u.(prefetched := u.prefetched + Max(r'.fetchedBytes - r.fetchedBytes, 0), jumps := u.jumps + 1)
    case Failed => u
  }

  function UsageOf(r: Reader, ops: seq<Op>): Usage
    requires FileFits(r.file) && OpsFit(ops)
  {
    if ops == [] then Usage(0, 0, 0) else
      var last := |ops| - 1;
      Charge(Run(r, ops[..last]), ops[last], UsageOf(r, ops[..last]))
  }

  /** Bytes of the buffer that a scan from the current position would still use. */
  function Ahead(r: Reader): nat {
    if InBuffer(r) then r.bufStart + |r.buf| - r.pos else 0
  }

  /** The amortised account: what was paid and not delivered is still ahead in the buffer. */
  predicate Paid(r: Reader, u: Usage) {
    r.fetchedBytes <= u.delivered + u.prefetched + SMALL_READAHEAD * u.jumps + Min(Ahead(r), SMALL_READAHEAD)
  }

  lemma ReadPaid(r: Reader, want: nat, online: bool, u: Usage)
    requires Coherent(r) && want < I64_LIMIT && Paid(r, u)
    ensures Paid(Step(r, Read(want, online)).0, Charge(r, Read(want, online), u))
  {
    if r.pos < |r.file| && want != 0 {
      if InBuffer(r) {
        DeliverAgrees(r, want);
      } else if online {
        FetchFromPos(r, want);
        FetchCoherent(r, r.pos, want);
        DeliverAgrees(FetchStep(r, r.pos, want), want);
      }
    }
  }

  lemma StepPaid(r: Reader, op: Op, u: Usage)
    requires Coherent(r) && OpFits(op) && Paid(r, u)
    ensures Paid(Step(r, op).0, Charge(r, op, u))
  {
    match op {
      case Read(want, online) => ReadPaid(r, want, online, u);
      case Seek(target) =>
      case Prefetch(start, len, online) =>
    }
  }

  /**
   Over any run, the bytes pulled over the wire are at most the bytes delivered, plus those prefetched on
   request, plus one read-ahead window for each jump (a seek or prefetch that took effect) and one more.
   */
  lemma {:induction false} TrafficBound(file: seq<byte>, ops: seq<Op>)
    requires FileFits(file) && OpsFit(ops)
    ensures var u := UsageOf(Open(file), ops);
            && Paid(Run(Open(file), ops), u)
            && Run(Open(file), ops).fetchedBytes <= u.delivered + u.prefetched + 262144 * (u.jumps + 1)
  {
    if ops != [] {
      var last := |ops| - 1;
      TrafficBound(file, ops[..last]);
      RunCoherent(file, ops[..last]);
      StepPaid(Run(Open(file), ops[..last]), ops[last], UsageOf(Open(file), ops[..last]));
    }
  }

  // ---------------------------------------------------------------- scans

  datatype Range = Range(lo: nat, hi: nat)

  /** The ranges requested by a run, in order. */
  function Requests(r: Reader, ops: seq<Op>): seq<Range>
    requires FileFits(r.file) && OpsFit(ops)
  {
    if ops == [] then [] else
      var last := |ops| - 1;
      var (before, after) := (Run(r, ops[..last]), Run(r, ops));
      Requests(r, ops[..last]) +
      (if after.fetchedBytes == before.fetchedBytes then []
       else [Range(after.bufStart, after.bufStart + |after.buf|)])
  }

  /** Consecutive ranges that cover [lo, hi) without gap or overlap. */
  predicate Chained(rs: seq<Range>, lo: nat, hi: nat) {
    if rs == [] then lo == hi else
      var last := |rs| - 1;
      rs[last].lo < rs[last].hi == hi && Chained(rs[..last], lo, rs[last].lo)
  }

  lemma {:induction false} ChainedDisjoint(rs: seq<Range>, lo: nat, hi: nat)
    requires Chained(rs, lo, hi)
    ensures lo <= hi
    ensures forall i :: 0 <= i < |rs| ==> lo <= rs[i].lo < rs[i].hi <= hi
    ensures forall i, j :: 0 <= i < j < |rs| ==> rs[i].hi <= rs[j].lo
  {
    if rs != [] {
      ChainedDisjoint(rs[..|rs| - 1], lo, rs[|rs| - 1].lo);
    }
  }

  predicate IsScan(ops: seq<Op>) {
    forall i :: 0 <= i < |ops| ==> ops[i].Read?
  }

  /** What a scan keeps: everything fetched lies before the end of the buffer, and was fetched once. */
  predicate Scanning(r: Reader, u: Usage, rs: seq<Range>) {
    && Chained(rs, 0, r.fetchedBytes)
    && r.fetchedBytes == r.bufStart + |r.buf| == r.pos + Ahead(r)
    && r.pos == u.delivered
    && r.pos <= |r.file|
  }

  lemma ScanStep(r: Reader, op: Op, u: Usage, rs: seq<Range>)
    requires Coherent(r) && OpFits(op) && op.Read? && Scanning(r, u, rs)
    ensures var r' := Step(r, op).0;
            Scanning(r', Charge(r, op, u),
                     if r'.fetchedBytes == r.fetchedBytes then rs
                     else rs + [Range(r'.bufStart, r'.bufStart + |r'.buf|)])
  {
    if r.pos < |r.file| && op.want != 0 {
      if InBuffer(r) {
        DeliverAgrees(r, op.want);
      } else if op.online {
        FetchFromPos(r, op.want);
        FetchCoherent(r, r.pos, op.want);
        var fetched := FetchStep(r, r.pos, op.want);
        DeliverAgrees(fetched, op.want);
        var rs' := rs + [Range(r.pos, fetched.bufStart + |fetched.buf|)];
        assert rs'[..|rs|] == rs;
      }
    }
  }

  lemma {:induction false} ScanInvariant(file: seq<byte>, ops: seq<Op>)
    requires FileFits(file) && OpsFit(ops) && IsScan(ops)
    ensures Scanning(Run(Open(file), ops), UsageOf(Open(file), ops), Requests(Open(file), ops))
  {
    if ops != [] {
      var last := |ops| - 1;
      ScanInvariant(file, ops[..last]);
      RunCoherent(file, ops[..last]);
      ScanStep(Run(Open(file), ops[..last]), ops[last], UsageOf(Open(file), ops[..last]),
               Requests(Open(file), ops[..last]));
      assert Requests(Open(file), ops[..last]) + [] == Requests(Open(file), ops[..last]);
    }
  }

  /** In a scan the requested ranges follow on from one another, so no byte is fetched twice. */
  lemma ScanFetchesOnce(file: seq<byte>, ops: seq<Op>)
    requires FileFits(file) && OpsFit(ops) && IsScan(ops)
    ensures var rs := Requests(Open(file), ops);
            && Chained(rs, 0, Run(Open(file), ops).fetchedBytes)
            && (forall i, j :: 0 <= i < j < |rs| ==> rs[i].hi <= rs[j].lo)
    ensures Run(Open(file), ops).pos == UsageOf(Open(file), ops).delivered
  {
    ScanInvariant(file, ops);
    ChainedDisjoint(Requests(Open(file), ops), 0, Run(Open(file), ops).fetchedBytes);
  }

  /** Every request spans a read-ahead window, unless it reaches the end of the file. */
  predicate Wide(rs: seq<Range>, len: nat) {
    forall i :: 0 <= i < |rs| ==> rs[i].hi - rs[i].lo >= SMALL_READAHEAD || rs[i].hi == len
  }

  lemma {:induction false} ScanWide(file: seq<byte>, ops: seq<Op>)
    requires FileFits(file) && OpsFit(ops) && IsScan(ops)
    ensures Wide(Requests(Open(file), ops), |file|)
  {
    if ops != [] {
      var last := |ops| - 1;
      ScanWide(file, ops[..last]);
      RunCoherent(file, ops[..last]);
      var r := Run(Open(file), ops[..last]);
      if r.pos < |file| && ops[last].want != 0 {
        FetchFromPos(r, ops[last].want);
      }
    }
  }

  lemma {:induction false} WideRequestsAdd(rs: seq<Range>, lo: nat, hi: nat)
    requires Chained(rs, lo, hi) && forall i :: 0 <= i < |rs| ==> rs[i].hi - rs[i].lo >= SMALL_READAHEAD
    ensures |rs| * SMALL_READAHEAD <= hi - lo
  {
    if rs != [] {
      WideRequestsAdd(rs[..|rs| - 1], lo, rs[|rs| - 1].lo);
    }
  }

  /** However small its reads, a scan makes at most one request for each read-ahead window of the file, and one more. */
  lemma ScanCoalesces(file: seq<byte>, ops: seq<Op>)
    requires FileFits(file) && OpsFit(ops) && IsScan(ops)
    ensures (|Requests(Open(file), ops)| - 1) * 262144 <= |file|
  {
    var rs := Requests(Open(file), ops);
    if rs != [] {
      var last := rs[|rs| - 1];
      ScanWide(file, ops);
      ScanInvariant(file, ops);
      RunCoherent(file, ops);
      ChainedDisjoint(rs, 0, Run(Open(file), ops).fetchedBytes);
      assert last.lo < |file|;
      forall i | 0 <= i < |rs| - 1
        ensures rs[i].hi - rs[i].lo >= SMALL_READAHEAD
      {
        assert rs[i].hi <= last.lo;
      }
      WideRequestsAdd(rs[..|rs| - 1], 0, last.lo);
    }
  }

  // ---------------------------------------------------------------- the reader object

  class HttpRangeReader {
    const file: seq<byte>
    var pos: nat
    var buf: seq<byte>
    var bufStart: nat
    var fetchedBytes: nat

    ghost function View(): Reader
      reads this
    {
      Reader(file, pos, buf, bufStart, fetchedBytes)
    }

    constructor (file: seq<byte>)
      ensures View() == Open(file)
    {
      this.file := file;
      pos, buf, bufStart, fetchedBytes := 0, [], 0, 0;
    }

    method Fetch(start: u64, want: u64, online: bool) returns (ok: bool)
      modifies this
      ensures ok <==> online || FetchEnd(|file|, start, want) <= start
      ensures View() == if ok then FetchStep(old(View()), start, want) else old(View())
    {
      var span := Max(want, Min(SMALL_READAHEAD, if start < |file| then |file| - start else 0));
      var end := Min(AddU64(start, span), |file|);
      if end <= start {
        buf, bufStart := [], start;
        return true;
      }
      if !online {
        return false;
      }
      var data := file[start..end];
      fetchedBytes := fetchedBytes + |data|;
      buf, bufStart := data, start;
      return true;
    }

    method DoPrefetch(start: u64, len: u64, online: bool) returns (ok: bool)
      modifies this
      ensures (View(), if ok then Fetched else Failed) == PrefetchStep(old(View()), start, len, online)
    {
      ok := Fetch(start, len, online);
    }

    /** `out[from..]` begins with `bytes`, and is otherwise what it was. */
    twostate predicate Filled(out: array<byte>, from: nat, bytes: seq<byte>)
      reads out
    {
      && from + |bytes| <= out.Length
      && (forall i :: from <= i < from + |bytes| ==> out[i] == bytes[i - from])
      && (forall i :: 0 <= i < from || from + |bytes| <= i < out.Length ==> out[i] == old(out[i]))
    }

    /** Copies what the buffer holds at `pos` into `out[from..]`, at most to its end. */
    method CopyOut(out: array<byte>, from: nat) returns (n: nat)
      requires InBuffer(View()) && from <= out.Length
      modifies this`pos, out
      ensures View() == Deliver(old(View()), out.Length - from).0
      ensures var outcome := Deliver(old(View()), out.Length - from).1;
              n == |outcome.bytes| && Filled(out, from, outcome.bytes)
    {
      var offset := pos - bufStart;
      n := Min(|buf| - offset, out.Length - from);
      forall i | 0 <= i < n {
        out[from + i] := buf[offset + i];
      }
      pos := pos + n;
      assert forall i :: from <= i < from + n ==> out[i] == out[from + (i - from)];
    }

    /** Reads into `out[from..]`; the slice passed by a caller is the tail of its buffer. */
    method DoRead(out: array<byte>, from: nat, online: bool) returns (r: Option<nat>)
      requires Coherent(View()) && from <= out.Length < I64_LIMIT
      modifies this, out
      ensures View() == Step(old(View()), Read(out.Length - from, online)).0
      ensures var outcome := Step(old(View()), Read(out.Length - from, online)).1;
              if outcome.Data? then r == Some(|outcome.bytes|) && Filled(out, from, outcome.bytes)
              else outcome.Failed? && r == None && Filled(out, from, [])
    {
      if pos >= |file| || from == out.Length {
        return Some(0);
      }
      var ok := Fill(out.Length - from, online);
      if !ok {
        return None;
      }
      var n := CopyOut(out, from);
      return Some(n);
    }

    /** Makes the buffer cover `pos`, unless a request is needed and does not get through. */
    method Fill(want: u64, online: bool) returns (ok: bool)
      requires Coherent(View()) && pos < |file| && 0 < want < I64_LIMIT
      modifies this
      ensures ok <==> InBuffer(old(View())) || online
      ensures View() == if !NeedsFetch(old(View()), want) || !ok then old(View())
                        else FetchStep(old(View()), old(pos), want)
      ensures ok ==> InBuffer(View())
    {
      ok := true;
      if !(bufStart <= pos < bufStart + |buf|) {
        FetchFromPos(View(), want);
        ok := Fetch(pos, want, online);
      }
    }

    method DoSeek(target: SeekFrom) returns (r: Option<nat>)
      modifies this
      ensures View() == SeekStep(old(View()), target).0
      ensures SeekStep(old(View()), target).1 == match r { case Some(p) => Moved(p) case None => Failed }
    {
      var to: int;
      match target {
        case Start(offset) => to := WrapI64(offset);
        case End(delta) => to := WrapI64(|file| + delta);
        case Current(delta) => to := WrapI64(WrapI64(pos) + delta);
      }
      if to < 0 {
        return None;
      }
      pos := to;
      return Some(to);
    }
  }
}
