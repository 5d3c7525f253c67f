/** Reading the raw bytes of one record (`read_raw_excerpt` in
    crates/logscope-app/src/explorer.rs): skip, then fill, over a reader that may return fewer
    bytes than asked. */
module Excerpt {
  import opened Rows

  type Byte = bv8

  const MAX_RAW_EXCERPT_BYTES: nat := 65_536
  const MAX_GZ_SKIP_BYTES: nat := 536_870_912
  const SCRATCH: nat := 65_536

  datatype Answer = Available(text: Option<seq<Byte>>) | Changed | Missing | Unsupported

  /** A byte stream whose reads come in arbitrary pieces: read number `k` yields at most
      `piece(k) + 1` bytes, and fails where `fails(k)` says so. */
  class Reader {
    const stream: seq<Byte>
    const piece: nat -> nat
    const fails: nat -> bool
    var at: nat
    var calls: nat

    ghost predicate Valid()
      reads this
    {
      at <= |stream|
    }

    constructor (stream: seq<Byte>, piece: nat -> nat, fails: nat -> bool)
      ensures Valid() && this.stream == stream && this.piece == piece && this.fails == fails && at == 0 && calls == 0
    {
      this.stream, this.piece, this.fails, at, calls := stream, piece, fails, 0, 0;
    }

    /** `Read::read` into `buffer[from..from + want]`; zero bytes only at the end. */
    method Read(buffer: array<Byte>, from: nat, want: nat) returns (n: nat, failed: bool)
      requires Valid() && from + want <= buffer.Length && want > 0
      modifies this, buffer
      ensures Valid() && at == old(at) + n && n <= want
      ensures failed ==> n == 0 && exists k: nat :: fails(k)
      ensures !failed ==> (n == 0 <==> old(at) == |stream|)
      ensures buffer[from..from + n] == stream[old(at)..at]
      ensures forall i :: 0 <= i < buffer.Length && !(from <= i < from + n) ==> buffer[i] == old(buffer[i])
    {
      n, failed := 0, false;
      calls := calls + 1;
      if fails(calls) { failed := true; return; }
      var limit := if piece(calls) + 1 < want then piece(calls) + 1 else want;
      while n < limit && at < |stream|
        invariant n <= limit && at == old(at) + n && at <= |stream|
        invariant buffer[from..from + n] == stream[old(at)..at]
        invariant forall i :: 0 <= i < buffer.Length && !(from <= i < from + n) ==> buffer[i] == old(buffer[i])
      {
        buffer[from + n] := stream[at];
        n, at := n + 1, at + 1;
      }
    }
  }

  /** Skips `start` bytes through a scratch buffer. */
  method Skip(reader: Reader, start: nat) returns (reached: bool)
    requires reader.Valid() && reader.at == 0
    modifies reader
    ensures reader.Valid() && (reached ==> reader.at == start)
    ensures !reached ==> start > |reader.stream| || exists k: nat :: reader.fails(k)
  {
    var toSkip: nat, scratch := start, new Byte[SCRATCH];
    reached := true;
    while toSkip > 0
      invariant reached && reader.Valid() && reader.at + toSkip == start && fresh(scratch)
    {
      var step := if toSkip < SCRATCH then toSkip else SCRATCH;
      var n, failed := reader.Read(scratch, 0, step);
      if failed { return false; }
      if n == 0 {
        assert reader.at == |reader.stream| < start;
        return false;
      }
      toSkip := toSkip - n;
    }
  }

  /** Fills up to `len` bytes, stopping early only at the end of the stream. */
  method Fill(reader: Reader, len: nat) returns (bytes: Option<seq<Byte>>)
    requires reader.Valid()
    modifies reader
    ensures bytes.None? ==> exists k: nat :: reader.fails(k)
    ensures bytes.Some? ==> bytes.value == Between(reader.stream, old(reader.at), old(reader.at) + len)
  {
    var buffer, filled := new Byte[len], 0;
    ghost var start := reader.at;
    while filled < len
      invariant filled <= len && reader.Valid() && reader.at == start + filled && fresh(buffer)
      invariant buffer[..filled] == reader.stream[start..start + filled]
      decreases len - filled
    {
      ghost var before := buffer[..filled];
      var n, failed := reader.Read(buffer, filled, len - filled);
      if failed { return None; }
      if n == 0 { break; }
      assert buffer[..filled] == before;
      assert buffer[..filled + n] == buffer[..filled] + buffer[filled..filled + n];
      assert reader.stream[start..reader.at] == reader.stream[start..start + filled] + reader.stream[start + filled..reader.at];
      filled := filled + n;
    }
    bytes := Some(buffer[..filled]);
  }

  /** The bytes `[start, end)` of a stream, as far as it goes. */
  function Between(stream: seq<Byte>, start: nat, end: nat): seq<Byte>
    requires start <= |stream| && start <= end
  {
    stream[start..if end < |stream| then end else |stream|]
  }

  predicate Readable(start: nat, end: nat) {
    start < end && end - start <= MAX_RAW_EXCERPT_BYTES && start <= MAX_GZ_SKIP_BYTES
  }

  /** At most 64 KiB, not empty, behind at most 512 MiB. */
  predicate InReach(start: nat, end: nat) { 0 < end - start <= 64 * 1024 && start <= 512 * 1024 * 1024 }

  /** Every byte of the range that the stream has, in order, and nothing else. */
  predicate CutOut(stream: seq<Byte>, start: nat, end: nat, text: seq<Byte>) {
    && start <= |stream| && start + |text| == (if |stream| <= end then |stream| else end)
    && forall i :: 0 <= i < |text| ==> text[i] == stream[start + i]
  }

  /** The registration of a source file. */
  datatype Registered = Registered(path: string, size: int)

  /** The file is registered, there, and as long as when it was registered. */
  predicate SameSize(file: Option<Registered>, size: Option<int>) {
    file.Some? && size.Some? && size.value == file.value.size
  }

  /** A file that is not registered, not there or cannot be opened is missing, one of another size
      has changed, and only then is the range looked at. However the reader cuts its answers, an
      excerpt is exactly the bytes of the range that the stream has. */
  method ReadRawExcerpt(file: Option<Registered>, size: Option<int>, opens: bool, reader: Reader,
                        start: Option<nat>, end: Option<nat>) returns (r: Answer, shown: Option<string>)
    requires reader.Valid() && reader.at == 0
    modifies reader
    ensures shown == if file.Some? then Some(file.value.path) else None
    ensures file.None? || size.None? ==> r == Missing
    ensures file.Some? && size.Some? && !SameSize(file, size) ==> r == Changed
    ensures SameSize(file, size) && (start.None? || end.None?) ==> r == Available(None)
    ensures SameSize(file, size) && start.Some? && end.Some? && !InReach(start.value, end.value) ==> r == Unsupported
    ensures SameSize(file, size) && start.Some? && end.Some? && InReach(start.value, end.value) && !opens ==> r == Missing
    ensures SameSize(file, size) && start.Some? && end.Some? && InReach(start.value, end.value) && opens ==>
      || (r.Changed? && (start.value > |reader.stream| || exists k: nat :: reader.fails(k)))
      || (r.Available? && r.text.Some? && CutOut(reader.stream, start.value, end.value, r.text.value))
  {
    if file.None? { return Missing, None; }
    shown := Some(file.value.path);
    if size.None? { return Missing, shown; }
    if size.value != file.value.size { return Changed, shown; }
    if start.None? || end.None? { return Available(None), shown; }
    if !Readable(start.value, end.value) { return Unsupported, shown; }
    if !opens { return Missing, shown; }
    var reached := Skip(reader, start.value);
    if !reached { return Changed, shown; }
    var bytes := Fill(reader, end.value - start.value);
    r := if bytes.None? then Changed else Available(bytes);
  }

  /** The whole range comes back if and only if the stream reaches its end. */
  lemma WholeRangeIff(stream: seq<Byte>, start: nat, end: nat)
    requires Readable(start, end) && start <= |stream|
    ensures |Between(stream, start, end)| == end - start <==> end <= |stream|
  {
  }

  /** Four bytes asked of a file that ends after two of them: called available, and short. */
  method ShortFileIsAvailable() returns (r: Answer)
    ensures r == Available(Some([2, 3]))
  {
    var reader := new Reader([1, 2, 3], (k: nat) => k, (k: nat) => false);
    var shown;
    r, shown := ReadRawExcerpt(Some(Registered("app.log", 3)), Some(3), true, reader, Some(1), Some(5));
    assert forall k: nat :: !reader.fails(k);
    assert r.text.value == [2, 3];
  }
}
