/**
 * Chunked file upload: the session loop of SyncFilesStream and the chunk processing of SyncService over a
 * file system that is a map from paths to bytes. Chunks carry literal bytes or refer to a block of a source file.
 */
module FileUploads {
  import opened Options
  import opened Sequences

  type Byte = bv8
  type Path = string
  type Bytes = seq<Byte>
  type Files = map<Path, Bytes>

  datatype Delta = Delta(sourceOffset: int, length: int, checksum: string)

  datatype Chunk = Chunk(content: Bytes, offset: int, isLast: bool, delta: Option<Delta>)

  datatype Metadata = Metadata(source: Path, destination: Path, totalSize: int)

  /** An upload in progress; `open` is the state of its file handle. */
  datatype Upload = Upload(meta: Metadata, open: bool, transferred: int, done: bool)

  /** The gRPC message: `canOpen` says whether the directory and the file can be opened. */
  datatype Request = Begin(meta: Metadata, canOpen: bool) | Send(data: ProtoData, offset: int, isLast: bool)

  datatype ProtoData = NoData | Content(bytes: Bytes) | DeltaRef(delta: Delta)

  datatype Error = CannotOpen | NoMetadata | BadOffset | FileClosed | NoSource | ShortRead | ChecksumMismatch
                 | BadLength

  datatype Answer = Progress(transferred: int, done: bool) | Failure(error: Error)

  function Zeros(n: nat): Bytes {
    seq(n, _ => 0)
  }

  /** What WriteAt leaves: it overwrites, extends, and fills a gap with zeros; writing nothing changes nothing. */
  function Written(file: Bytes, offset: nat, data: Bytes): Bytes {
    if data == [] then file
    else
      var base := if |file| < offset then file + Zeros(offset - |file|) else file;
      base[..offset] + data + (if offset + |data| < |base| then base[offset + |data|..] else [])
  }

  /** os.File.WriteAt on the handle of an upload; a closed handle is only noticed when there is something to write. */
  function WriteAt(files: Files, up: Upload, offset: int, data: Bytes): (Files, Option<Error>)
    requires up.meta.destination in files
  {
    if offset < 0 then (files, Some(BadOffset))
    else if data == [] then (files, None)
    else if !up.open then (files, Some(FileClosed))
    else (files[up.meta.destination := Written(files[up.meta.destination], offset, data)], None)
  }

  /** The block that a delta chunk refers to. `hash` is the hexadecimal SHA-256 of a buffer. */
  function SourceBlock(files: Files, source: Path, d: Delta, hash: Bytes -> string): (Bytes, Option<Error>) {
    if source !in files then ([], Some(NoSource))
    else if d.length < 0 then ([], Some(BadLength))
    else if d.sourceOffset < 0 then ([], Some(BadOffset))
    else if d.length > 0 && d.sourceOffset + d.length > |files[source]| then ([], Some(ShortRead))
    else
      var block := if d.length == 0 then [] else files[source][d.sourceOffset..d.sourceOffset + d.length];
      if d.checksum != "" && hash(block) != d.checksum then ([], Some(ChecksumMismatch)) else (block, None)
  }

  function ProcessChunk(files: Files, up: Upload, c: Chunk, hash: Bytes -> string): (Files, Upload, Answer)
    requires up.meta.destination in files
  {
    var (data, unreadable) := if c.delta.Some? then SourceBlock(files, up.meta.source, c.delta.value, hash)
        else (c.content, None);
    if unreadable.Some? then (files, up, Failure(unreadable.value))
    else
      var (files', unwritten) := WriteAt(files, up, c.offset, data);
      if unwritten.Some? then (files, up, Failure(unwritten.value))
      else
        var up' := up.(transferred := up.transferred + |c.content|
                       + (if c.delta.Some? then c.delta.value.length else 0));
        if !c.isLast then (files', up', Progress(up'.transferred, up'.done))
        else if !up.open then (files', up', Failure(FileClosed))
        else (files', up'.(open := false, done := true), Progress(up'.transferred, true))
  }

  function ToChunk(data: ProtoData, offset: int, isLast: bool): Chunk {
    match data
    case NoData => Chunk([], offset, isLast, None)
    case Content(bytes) => Chunk(bytes, offset, isLast, None)
    case DeltaRef(d) => Chunk([], offset, isLast, Some(d))
  }

  /** Opening creates the file if it is missing and does not truncate it. */
  function Opened(files: Files, path: Path): Files {
    if path in files then files else files[path := []]
  }

  // ----- When a chunk is accepted -----

  /** The block that a delta chunk names lies within its source file. */
  predicate Readable(files: Files, source: Path, d: Delta) {
    && source in files && d.length >= 0 && d.sourceOffset >= 0
    && (d.length > 0 ==> d.sourceOffset + d.length <= |files[source]|)
  }

  function Block(files: Files, source: Path, d: Delta): Bytes
    requires Readable(files, source, d)
  {
    if d.length == 0 then [] else files[source][d.sourceOffset..d.sourceOffset + d.length]
  }

  /** A chunk that is answered with a failure has not changed any file. */
  lemma FailureChangesNoFile(files: Files, up: Upload, c: Chunk, hash: Bytes -> string)
    requires up.meta.destination in files
    ensures var (files', up', answer) := ProcessChunk(files, up, c, hash); answer.Failure? ==> files' == files
  {
  }

  /**
   * A delta chunk for an open upload is accepted exactly if its block can be read and has the checksum, if there is
   * one. A block with another checksum changes nothing; the bytes that an accepted chunk wrote have its checksum.
   */
  lemma DeltaOutcome(files: Files, up: Upload, c: Chunk, hash: Bytes -> string)
    requires up.meta.destination in files && up.open && c.delta.Some? && c.offset >= 0
    ensures var d, source, path := c.delta.value, up.meta.source, up.meta.destination;
            var (files', up', answer) := ProcessChunk(files, up, c, hash);
            && (answer.Progress? <==> Readable(files, source, d)
                                      && (d.checksum == "" || hash(Block(files, source, d)) == d.checksum))
            && (Readable(files, source, d) && answer.Failure? ==>
                  answer == Failure(ChecksumMismatch) && files' == files && up' == up)
            && (source !in files ==> answer == Failure(NoSource))
            && (answer.Progress? && d.length > 0 ==>
                  && c.offset + d.length <= |files'[path]|
                  && files'[path][c.offset..c.offset + d.length] == Block(files, source, d)
                  && (d.checksum != "" ==> hash(files'[path][c.offset..c.offset + d.length]) == d.checksum))
            && (answer.Progress? ==> up'.transferred == up.transferred + |c.content| + d.length)
            && (answer.Progress? ==> up'.open == !c.isLast && up'.done == (c.isLast || up.done))
  {
    var d, source, path := c.delta.value, up.meta.source, up.meta.destination;
    if Readable(files, source, d) && d.length > 0 {
      var block := Block(files, source, d);
      WrittenAt(files[path], c.offset, block);
      var after := Written(files[path], c.offset, block);
      assert after[c.offset..c.offset + d.length] == block;
    }
  }

  /** A literal chunk for an open upload is accepted exactly if its offset is not negative. */
  lemma LiteralOutcome(files: Files, up: Upload, c: Chunk, hash: Bytes -> string)
    requires up.meta.destination in files && up.open && c.delta.None?
    ensures var (files', up', answer) := ProcessChunk(files, up, c, hash);
            && answer == (if c.offset < 0 then Failure(BadOffset)
                          else Progress(up.transferred + |c.content|, c.isLast || up.done))
            && (answer.Progress? ==> files' == files[up.meta.destination :=
                                                       Written(files[up.meta.destination], c.offset, c.content)])
            && (answer.Progress? ==> up'.open == !c.isLast)
  {
    assert files[up.meta.destination := files[up.meta.destination]] == files;
  }

  /** For a closed upload only a chunk that writes nothing and is not the last one is accepted. */
  lemma ClosedOutcome(files: Files, up: Upload, c: Chunk, hash: Bytes -> string)
    requires up.meta.destination in files && !up.open
    ensures ProcessChunk(files, up, c, hash).2.Progress? ==>
              !c.isLast && c.offset >= 0 && if c.delta.Some? then c.delta.value.length == 0 else c.content == []
  {
  }

  // ----- The session -----

  /** `failed` ends the stream with an error. */
  datatype Session = Session(files: Files, current: Option<Upload>, sent: seq<Answer>, failed: Option<Error>)

  predicate HasFile(s: Session) {
    s.current.Some? ==> s.current.value.meta.destination in s.files
  }

  function Handle(s: Session, r: Request, hash: Bytes -> string): (s': Session)
    requires HasFile(s)
    ensures HasFile(s')
  {
    match r
    case Begin(meta, canOpen) =>
      if !canOpen then s.(failed := Some(CannotOpen))
      else s.(files := Opened(s.files, meta.destination), current := Some(Upload(meta, true, 0, false)))
    case Send(data, offset, isLast) =>
      if s.current.None? then s.(failed := Some(NoMetadata))
      else
        var (files, up, answer) := ProcessChunk(s.files, s.current.value, ToChunk(data, offset, isLast), hash);
        if answer.Failure? then s.(files := files, current := Some(up), failed := Some(answer.error))
        else s.(files := files, current := Some(up), sent := s.sent + [answer])
  }

  /** What a message other than a chunk for an upload does: begin one, without touching what the file holds, or fail. */
  lemma RequestOutcome(s: Session, r: Request, hash: Bytes -> string)
    requires HasFile(s) && s.failed.None?
    ensures var s' := Handle(s, r, hash);
            && (r.Begin? && !r.canOpen ==> s' == s.(failed := Some(CannotOpen)))
            && (r.Begin? && r.canOpen ==>
                  && s'.failed.None? && s'.sent == s.sent && s'.current == Some(Upload(r.meta, true, 0, false))
                  && s'.files.Keys == s.files.Keys + {r.meta.destination}
                  && (forall p :: p in s.files ==> s'.files[p] == s.files[p])
                  && (r.meta.destination !in s.files ==> s'.files[r.meta.destination] == []))
            && (r.Send? && s.current.None? ==> s' == s.(failed := Some(NoMetadata)))
  {
  }

  /** The stream stops at its first error. */
  function Stream(s: Session, rs: seq<Request>, hash: Bytes -> string): (s': Session)
    requires HasFile(s)
    ensures HasFile(s')
    decreases |rs|
  {
    if rs == [] || s.failed.Some? then s else Stream(Handle(s, rs[0], hash), rs[1..], hash)
  }

  // ----- Reassembly -----

  /** A piece of the intended contents, sent literally or by reference. */
  datatype Piece = Piece(data: ProtoData, offset: nat)

  predicate Refers(d: Delta, source: Bytes, slice: Bytes, hash: Bytes -> string) {
    && 0 <= d.sourceOffset && d.length == |slice| && d.sourceOffset + d.length <= |source|
    && source[d.sourceOffset..d.sourceOffset + d.length] == slice
    && (d.checksum == "" || d.checksum == hash(slice))
  }

  function PieceSize(p: Piece): int {
    match p.data
    case NoData => 0
    case Content(bytes) => |bytes|
    case DeltaRef(d) => d.length
  }

  /** The piece stands for the bytes of `intended` at its offset. */
  predicate Faithful(p: Piece, intended: Bytes, source: Option<Bytes>, hash: Bytes -> string) {
    && 0 <= PieceSize(p) && p.offset + PieceSize(p) <= |intended|
    && var slice := intended[p.offset..p.offset + PieceSize(p)];
       match p.data
       case NoData => true
       case Content(bytes) => bytes == slice
       case DeltaRef(d) => source.Some? && Refers(d, source.value, slice, hash)
  }

  predicate AllFaithful(ps: seq<Piece>, intended: Bytes, source: Option<Bytes>, hash: Bytes -> string) {
    forall i :: 0 <= i < |ps| ==> Faithful(ps[i], intended, source, hash)
  }

  /** In this order the pieces follow each other without gap or overlap up to `end`. */
  predicate Consecutive(ps: seq<Piece>, end: int) {
    if ps == [] then end == 0
    else
      var last := ps[|ps| - 1];
      PieceSize(last) >= 0 && last.offset + PieceSize(last) == end && Consecutive(ps[..|ps| - 1], last.offset)
  }

  /** Some order of the pieces tiles the intended contents. */
  ghost predicate Tiles(ps: seq<Piece>, size: nat) {
    exists ordered :: multiset(ordered) == multiset(ps) && Consecutive(ordered, size)
  }

  /** The requests that send the pieces in this order, the last of them marked. */
  function Requests(ps: seq<Piece>): seq<Request> {
    seq(|ps|, i requires 0 <= i < |ps| => Send(ps[i].data, ps[i].offset, i == |ps| - 1))
  }

  function SourceOf(files: Files, meta: Metadata): Option<Bytes> {
    if meta.source in files then Some(files[meta.source]) else None
  }

  ghost const SIZE_OF := (p: Piece) => PieceSize(p)

  lemma {:induction false} ConsecutiveSize(ps: seq<Piece>, end: int)
    requires Consecutive(ps, end)
    ensures Sum(SIZE_OF, ps) == end
  {
    if ps != [] {
      ConsecutiveSize(ps[..|ps| - 1], ps[|ps| - 1].offset);
    }
  }

  predicate Covers(p: Piece, k: int) {
    p.offset <= k < p.offset + PieceSize(p)
  }

  ghost predicate Covered(ps: seq<Piece>, k: int) {
    exists i :: 0 <= i < |ps| && Covers(ps[i], k)
  }

  lemma {:induction false} ConsecutiveCovers(ps: seq<Piece>, end: int, k: nat) returns (i: nat)
    requires Consecutive(ps, end) && k < end
    ensures i < |ps| && Covers(ps[i], k)
  {
    var last := ps[|ps| - 1];
    if k < last.offset {
      i := ConsecutiveCovers(ps[..|ps| - 1], last.offset, k);
    } else {
      i := |ps| - 1;
    }
  }

  /** Every byte is written by some piece, and the sizes add up. */
  lemma TilesCover(ps: seq<Piece>, size: nat)
    requires Tiles(ps, size)
    ensures Sum(SIZE_OF, ps) == size
    ensures forall k :: 0 <= k < size ==> Covered(ps, k)
  {
    var ordered :| multiset(ordered) == multiset(ps) && Consecutive(ordered, size);
    ConsecutiveSize(ordered, size);
    SumPermutation(SIZE_OF, ordered, ps);
    forall k | 0 <= k < size
      ensures Covered(ps, k)
    {
      var i := ConsecutiveCovers(ordered, size, k);
      assert ordered[i] in multiset(ps);
      var j :| 0 <= j < |ps| && ps[j] == ordered[i];
    }
  }

  /** Where a write of the intended bytes lands, the file agrees with them; elsewhere it is as before or a zero gap. */
  lemma WrittenAt(file: Bytes, offset: nat, data: Bytes)
    ensures var after := Written(file, offset, data);
            && |after| == (if data == [] || offset + |data| <= |file| then |file| else offset + |data|)
            && (forall k :: offset <= k < offset + |data| ==> after[k] == data[k - offset])
            && (forall k :: 0 <= k < |file| && !(offset <= k < offset + |data|) ==> after[k] == file[k])
            && (data != [] ==> forall k :: |file| <= k < offset ==> after[k] == 0)
  {
  }

  predicate Right(file: Bytes, intended: Bytes, k: int) {
    0 <= k < |file| && k < |intended| && file[k] == intended[k]
  }

  /** What the destination holds while the pieces of the intended contents arrive. */
  ghost predicate Assembled(file: Bytes, prior: Bytes, intended: Bytes, ps: seq<Piece>) {
    && |prior| <= |file|
    && |file| <= (if |prior| < |intended| then |intended| else |prior|)
    && (forall i, k :: 0 <= i < |ps| && Covers(ps[i], k) && k < |intended| ==> Right(file, intended, k))
    && (forall k :: 0 <= k < |prior| && (k >= |intended| || !Covered(ps, k)) ==> file[k] == prior[k])
  }

  lemma PieceData(files: Files, meta: Metadata, p: Piece, isLast: bool, intended: Bytes, hash: Bytes -> string)
    requires Faithful(p, intended, SourceOf(files, meta), hash)
    ensures var c := ToChunk(p.data, p.offset, isLast);
            var slice := intended[p.offset..p.offset + PieceSize(p)];
            && (c.delta.Some? ==> SourceBlock(files, meta.source, c.delta.value, hash) == (slice, None))
            && (c.delta.None? ==> c.content == slice)
            && |c.content| + (if c.delta.Some? then c.delta.value.length else 0) == PieceSize(p)
  {
  }

  lemma WriteAssembles(file: Bytes, prior: Bytes, intended: Bytes, ps: seq<Piece>, p: Piece)
    requires Assembled(file, prior, intended, ps)
    requires 0 <= PieceSize(p) && p.offset + PieceSize(p) <= |intended|
    ensures Assembled(Written(file, p.offset, intended[p.offset..p.offset + PieceSize(p)]), prior, intended, ps + [p])
  {
    var data := intended[p.offset..p.offset + PieceSize(p)];
    WrittenAt(file, p.offset, data);
    var after := Written(file, p.offset, data);
    forall i, k | 0 <= i < |ps + [p]| && Covers((ps + [p])[i], k) && k < |intended|
      ensures Right(after, intended, k)
    {
      if p.offset <= k < p.offset + |data| {
        assert after[k] == data[k - p.offset];
      } else {
        assert Covers(ps[i], k);
        assert Right(file, intended, k);
      }
    }
    forall k | 0 <= k < |prior| && (k >= |intended| || !Covered(ps + [p], k))
      ensures after[k] == prior[k]
    {
      CoveredGrows(ps, p, k);
    }
  }

  lemma CoveredGrows(ps: seq<Piece>, p: Piece, k: int)
    ensures Covered(ps + [p], k) <==> Covered(ps, k) || Covers(p, k)
  {
    if Covers(p, k) {
      assert (ps + [p])[|ps|] == p;
    }
    if Covered(ps, k) {
      var i :| 0 <= i < |ps| && Covers(ps[i], k);
      assert (ps + [p])[i] == ps[i];
    }
  }

  /** The session while pieces arrive: no error, the right bytes, the right count; other files are untouched. */
  ghost predicate Receiving(s: Session, files0: Files, meta: Metadata, intended: Bytes, ps: seq<Piece>) {
    && s.failed.None? && s.current.Some?
    && s.current.value.meta == meta && s.current.value.open && !s.current.value.done
    && s.current.value.transferred == Sum(SIZE_OF, ps)
    && meta.destination in s.files && meta.destination in files0
    && s.files - {meta.destination} == files0 - {meta.destination}
    && Assembled(s.files[meta.destination], files0[meta.destination], intended, ps)
  }

  /** The session as it was before the last chunk closed the handle. */
  function Reopened(s: Session): Session
    requires s.current.Some?
  {
    s.(current := Some(s.current.value.(open := true, done := false)))
  }

  /** The last chunk has closed the handle; otherwise as Receiving. */
  ghost predicate Settled(s: Session, files0: Files, meta: Metadata, intended: Bytes, ps: seq<Piece>) {
    && s.current.Some? && !s.current.value.open && s.current.value.done
    && Receiving(Reopened(s), files0, meta, intended, ps)
  }

  // ----- Blocks of the destination itself -----

  /** The piece reads the byte at `k` of the source. */
  predicate Reads(p: Piece, k: int) {
    p.data.DeltaRef? && p.data.delta.sourceOffset <= k < p.data.delta.sourceOffset + p.data.delta.length
  }

  /** An earlier piece has changed the byte at `k`, which the piece reads. */
  predicate SpoiledAt(done: seq<Piece>, p: Piece, prior: Bytes, intended: Bytes, j: int, k: int) {
    && 0 <= j < |done| && Covers(done[j], k) && Reads(p, k)
    && 0 <= k < |prior| && k < |intended| && intended[k] != prior[k]
  }

  ghost predicate Spoiled(done: seq<Piece>, p: Piece, prior: Bytes, intended: Bytes) {
    exists j, k :: SpoiledAt(done, p, prior, intended, j, k)
  }

  /**
   * No piece reads a byte of the destination that an earlier piece has changed; where the source is another
   * file, nothing needs to hold.
   */
  ghost predicate Unspoiled(meta: Metadata, ps: seq<Piece>, prior: Bytes, intended: Bytes) {
    meta.source == meta.destination ==> forall i :: 0 <= i < |ps| ==> !Spoiled(ps[..i], ps[i], prior, intended)
  }

  lemma OtherFilesKept(files: Files, files0: Files, changed: Path, p: Path)
    requires files - {changed} == files0 - {changed} && p != changed
    ensures p in files <==> p in files0
    ensures p in files ==> files[p] == files0[p]
  {
    assert p in files - {changed} <==> p in files;
    assert p in files0 - {changed} <==> p in files0;
    if p in files {
      assert (files - {changed})[p] == (files0 - {changed})[p];
    }
  }

  /** What a piece reads from the destination itself is what the old file held, unless it is spoiled. */
  lemma UnspoiledBlock(file: Bytes, prior: Bytes, intended: Bytes, done: seq<Piece>, p: Piece, hash: Bytes -> string)
    requires Assembled(file, prior, intended, done) && !Spoiled(done, p, prior, intended)
    requires Faithful(p, intended, Some(prior), hash)
    ensures Faithful(p, intended, Some(file), hash)
  {
    if p.data.DeltaRef? {
      var d := p.data.delta;
      forall k | d.sourceOffset <= k < d.sourceOffset + d.length
        ensures file[k] == prior[k]
      {
        if k < |intended| && Covered(done, k) {
          var j :| 0 <= j < |done| && Covers(done[j], k);
          assert !SpoiledAt(done, p, prior, intended, j, k);
          assert Right(file, intended, k);
        }
      }
      assert file[d.sourceOffset..d.sourceOffset + d.length] == prior[d.sourceOffset..d.sourceOffset + d.length];
    }
  }

  /** A faithful piece that is not spoiled is still faithful to what its source holds when it arrives. */
  lemma SourceStillFaithful(s: Session, files0: Files, meta: Metadata, intended: Bytes, done: seq<Piece>, p: Piece,
                            hash: Bytes -> string)
    requires Receiving(s, files0, meta, intended, done)
    requires Faithful(p, intended, SourceOf(files0, meta), hash)
    requires meta.source == meta.destination ==> !Spoiled(done, p, files0[meta.destination], intended)
    ensures Faithful(p, intended, SourceOf(s.files, meta), hash)
  {
    if meta.source == meta.destination {
      UnspoiledBlock(s.files[meta.destination], files0[meta.destination], intended, done, p, hash);
    } else {
      OtherFilesKept(s.files, files0, meta.destination, meta.source);
    }
  }

  lemma PieceStep(s: Session, files0: Files, meta: Metadata, intended: Bytes, ps: seq<Piece>, p: Piece, isLast: bool,
                  hash: Bytes -> string)
    requires HasFile(s) && Receiving(s, files0, meta, intended, ps)
    requires Faithful(p, intended, SourceOf(s.files, meta), hash)
    ensures var s' := Handle(s, Send(p.data, p.offset, isLast), hash);
            && s'.current.Some?
            && Receiving(Reopened(s'), files0, meta, intended, ps + [p])
            && s'.current.value.open == !isLast && s'.current.value.done == isLast
  {
    PieceData(s.files, meta, p, isLast, intended, hash);
    WriteAssembles(s.files[meta.destination], files0[meta.destination], intended, ps, p);
    SumAppend(SIZE_OF, ps, p);
  }

  lemma RequestsStep(ps: seq<Piece>)
    requires ps != []
    ensures Requests(ps)[0] == Send(ps[0].data, ps[0].offset, |ps| == 1)
    ensures Requests(ps)[1..] == Requests(ps[1..])
  {
  }

  lemma StreamStep(s: Session, ps: seq<Piece>, hash: Bytes -> string)
    requires HasFile(s) && s.failed.None? && ps != []
    ensures Stream(s, Requests(ps), hash)
            == Stream(Handle(s, Send(ps[0].data, ps[0].offset, |ps| == 1), hash), Requests(ps[1..]), hash)
  {
    RequestsStep(ps);
  }

  /** The session after the first piece, from which the stream goes on with the others. */
  lemma FirstPiece(s: Session, files0: Files, meta: Metadata, intended: Bytes, done: seq<Piece>, rest: seq<Piece>,
                   hash: Bytes -> string)
    returns (s1: Session)
    requires HasFile(s) && Receiving(s, files0, meta, intended, done) && rest != []
    requires Faithful(rest[0], intended, SourceOf(s.files, meta), hash)
    ensures HasFile(s1)
    ensures if |rest| == 1 then Settled(Stream(s, Requests(rest), hash), files0, meta, intended, done + rest)
            else Receiving(s1, files0, meta, intended, done + [rest[0]])
    ensures Stream(s, Requests(rest), hash) == Stream(s1, Requests(rest[1..]), hash)
  {
    PieceStep(s, files0, meta, intended, done, rest[0], |rest| == 1, hash);
    StreamStep(s, rest, hash);
    s1 := Handle(s, Send(rest[0].data, rest[0].offset, |rest| == 1), hash);
    if |rest| == 1 {
      assert rest == [rest[0]] && Stream(s1, Requests(rest[1..]), hash) == s1;
    } else {
      assert Reopened(s1) == s1;
    }
  }

  lemma Shifted(done: seq<Piece>, rest: seq<Piece>, i: nat)
    requires 0 < i < |rest|
    ensures done + [rest[0]] + rest[1..] == done + rest
    ensures done + [rest[0]] + rest[1..][..i - 1] == done + rest[..i]
    ensures rest[1..][i - 1] == rest[i]
  {
    assert rest[..i] == [rest[0]] + rest[1..][..i - 1];
  }

  lemma {:induction false} PiecesStream(s: Session, files0: Files, meta: Metadata, intended: Bytes, done: seq<Piece>,
                                        rest: seq<Piece>, hash: Bytes -> string)
    requires HasFile(s) && Receiving(s, files0, meta, intended, done) && rest != []
    requires AllFaithful(done + rest, intended, SourceOf(files0, meta), hash)
    requires Unspoiled(meta, done + rest, files0[meta.destination], intended)
    ensures Settled(Stream(s, Requests(rest), hash), files0, meta, intended, done + rest)
    decreases |rest|
  {
    assert meta.destination in files0 && meta.destination in s.files;
    hide *;
    HeadIsUnspoiled(meta, done, rest, files0[meta.destination], intended, SourceOf(files0, meta), hash);
    SourceStillFaithful(s, files0, meta, intended, done, rest[0], hash);
    var s1 := FirstPiece(s, files0, meta, intended, done, rest, hash);
    if |rest| > 1 {
      Shifted(done, rest, 1);
      PiecesStream(s1, files0, meta, intended, done + [rest[0]], rest[1..], hash);
    }
  }

  lemma HeadIsUnspoiled(meta: Metadata, done: seq<Piece>, rest: seq<Piece>, prior: Bytes, intended: Bytes,
                        source: Option<Bytes>, hash: Bytes -> string)
    requires AllFaithful(done + rest, intended, source, hash) && rest != []
    ensures Faithful(rest[0], intended, source, hash)
    ensures Unspoiled(meta, done + rest, prior, intended) && meta.source == meta.destination ==>
              !Spoiled(done, rest[0], prior, intended)
  {
    assert (done + rest)[|done|] == rest[0] && (done + rest)[..|done|] == done;
  }

  // ----- What happens to a spoiled piece -----

  /** A chunk that does not cover a byte leaves it alone. */
  lemma ChunkKeepsByte(s: Session, p: Piece, isLast: bool, b: nat, hash: Bytes -> string)
    requires HasFile(s) && s.current.Some? && !Covers(p, b)
    requires b < |s.files[s.current.value.meta.destination]|
    ensures var path, s' := s.current.value.meta.destination, Handle(s, Send(p.data, p.offset, isLast), hash);
            && s'.current.Some? && s'.current.value.meta == s.current.value.meta
            && b < |s'.files[path]| && s'.files[path][b] == s.files[path][b]
  {
    var up, c := s.current.value, ToChunk(p.data, p.offset, isLast);
    var data := if c.delta.Some? then SourceBlock(s.files, up.meta.source, c.delta.value, hash).0 else c.content;
    assert data != [] ==> |data| == PieceSize(p);
    WrittenAt(s.files[up.meta.destination], p.offset, data);
    hide Written, SourceBlock;
  }

  lemma {:induction false} StreamKeepsByte(s: Session, ps: seq<Piece>, b: nat, hash: Bytes -> string)
    requires HasFile(s) && s.current.Some? && !Covered(ps, b)
    requires b < |s.files[s.current.value.meta.destination]|
    ensures var path, s' := s.current.value.meta.destination, Stream(s, Requests(ps), hash);
            path in s'.files && b < |s'.files[path]| && s'.files[path][b] == s.files[path][b]
    decreases |ps|
  {
    if ps != [] && s.failed.None? {
      assert !Covers(ps[0], b);
      forall i | 0 <= i < |ps[1..]|
        ensures !Covers(ps[1..][i], b)
      {
        assert ps[1..][i] == ps[i + 1];
      }
      ChunkKeepsByte(s, ps[0], |ps| == 1, b, hash);
      StreamStep(s, ps, hash);
      StreamKeepsByte(Handle(s, Send(ps[0].data, ps[0].offset, |ps| == 1), hash), ps[1..], b, hash);
    }
  }

  /** A spoiled piece either fails, on its checksum, or puts a wrong byte into the place it covers. */
  lemma SpoiledPiece(s: Session, files0: Files, meta: Metadata, intended: Bytes, done: seq<Piece>, p: Piece,
                     isLast: bool, hash: Bytes -> string)
    returns (b: nat)
    requires HasFile(s) && Receiving(s, files0, meta, intended, done) && meta.source == meta.destination
    requires Faithful(p, intended, SourceOf(files0, meta), hash) && Spoiled(done, p, files0[meta.destination], intended)
    ensures Covers(p, b) && b < |intended|
    ensures var s' := Handle(s, Send(p.data, p.offset, isLast), hash);
            s'.failed.Some? || (s'.current.Some? && s'.current.value.meta == meta && b < |s'.files[meta.destination]|
                                && s'.files[meta.destination][b] != intended[b])
  {
    var file, prior := s.files[meta.destination], files0[meta.destination];
    hide Assembled, Spoiled, Faithful;
    b := SpoiledByte(file, prior, intended, done, p, hash);
    var d := p.data.delta;
    var block := file[d.sourceOffset..d.sourceOffset + d.length];
    assert s.files[meta.source] == file && s.current.value.meta == meta && s.current.value.open;
    hide *;
    WrittenAt(file, p.offset, block);
    assert Written(file, p.offset, block)[b] == block[b - p.offset];
    DeltaWrites(s, p, isLast, hash);
  }

  lemma DeltaWrites(s: Session, p: Piece, isLast: bool, hash: Bytes -> string)
    requires HasFile(s) && s.current.Some? && s.current.value.open && p.data.DeltaRef?
    requires var d, source := p.data.delta, s.current.value.meta.source;
             source in s.files && 0 <= d.sourceOffset && 0 < d.length && d.sourceOffset + d.length <= |s.files[source]|
    ensures var s', d, meta := Handle(s, Send(p.data, p.offset, isLast), hash), p.data.delta, s.current.value.meta;
            s'.failed.Some? || (s'.current.Some? && s'.current.value.meta == meta && meta.destination in s'.files
                                && s'.files[meta.destination]
                                   == Written(s.files[meta.destination], p.offset,
                                              s.files[meta.source][d.sourceOffset..d.sourceOffset + d.length]))
  {
    hide Written;
  }

  /** The byte of the intended contents that a spoiled piece gets wrong. */
  lemma SpoiledByte(file: Bytes, prior: Bytes, intended: Bytes, done: seq<Piece>, p: Piece, hash: Bytes -> string)
    returns (b: nat)
    requires Assembled(file, prior, intended, done)
    requires Faithful(p, intended, Some(prior), hash) && Spoiled(done, p, prior, intended)
    ensures p.data.DeltaRef? && Covers(p, b) && b < |intended|
    ensures var d := p.data.delta;
            && 0 <= d.sourceOffset && p.offset <= b < p.offset + d.length && d.sourceOffset + d.length <= |file|
            && file[d.sourceOffset..d.sourceOffset + d.length][b - p.offset] != intended[b]
  {
    var j, k :| SpoiledAt(done, p, prior, intended, j, k);
    var d := p.data.delta;
    b := p.offset + (k - d.sourceOffset);
    assert Right(file, intended, k);
    assert prior[d.sourceOffset..d.sourceOffset + d.length][k - d.sourceOffset] == prior[k];
    assert intended[p.offset..p.offset + d.length][k - d.sourceOffset] == intended[b];
  }

  /** The intended bytes, followed by what the old file held beyond them. */
  function Wanted(intended: Bytes, prior: Bytes): Bytes {
    intended + (if |prior| > |intended| then prior[|intended|..] else [])
  }

  /** No two pieces cover the same byte. */
  ghost predicate Disjoint(ps: seq<Piece>) {
    forall i, j, k :: 0 <= i < j < |ps| && Covers(ps[i], k) ==> !Covers(ps[j], k)
  }

  ghost predicate GoesWrong(s: Session, path: Path, intended: Bytes, prior: Bytes) {
    s.failed.Some? || path !in s.files || s.files[path] != Wanted(intended, prior)
  }

  lemma SpoiledFirst(s: Session, files0: Files, meta: Metadata, intended: Bytes, done: seq<Piece>, rest: seq<Piece>,
                     hash: Bytes -> string)
    requires HasFile(s) && Receiving(s, files0, meta, intended, done) && meta.source == meta.destination && rest != []
    requires AllFaithful(done + rest, intended, SourceOf(files0, meta), hash) && Disjoint(done + rest)
    requires Spoiled(done, rest[0], files0[meta.destination], intended)
    ensures GoesWrong(Stream(s, Requests(rest), hash), meta.destination, intended, files0[meta.destination])
  {
    assert (done + rest)[|done|] == rest[0];
    var b := SpoiledPiece(s, files0, meta, intended, done, rest[0], |rest| == 1, hash);
    StreamStep(s, rest, hash);
    var s1 := Handle(s, Send(rest[0].data, rest[0].offset, |rest| == 1), hash);
    if s1.failed.None? {
      forall i | 0 <= i < |rest[1..]|
        ensures !Covers(rest[1..][i], b)
      {
        assert (done + rest)[|done| + 1 + i] == rest[1..][i];
      }
      StreamKeepsByte(s1, rest[1..], b, hash);
      assert Wanted(intended, files0[meta.destination])[b] == intended[b];
    }
  }

  /** The first spoiled piece makes the upload go wrong. */
  lemma {:induction false} SpoiledStream(s: Session, files0: Files, meta: Metadata, intended: Bytes, done: seq<Piece>,
                                         rest: seq<Piece>, hash: Bytes -> string, i: nat)
    requires HasFile(s) && Receiving(s, files0, meta, intended, done) && meta.source == meta.destination
    requires AllFaithful(done + rest, intended, SourceOf(files0, meta), hash) && Disjoint(done + rest)
    requires i < |rest| && Spoiled(done + rest[..i], rest[i], files0[meta.destination], intended)
    ensures GoesWrong(Stream(s, Requests(rest), hash), meta.destination, intended, files0[meta.destination])
    decreases |rest|
  {
    var prior := files0[meta.destination];
    hide *;
    HeadIsUnspoiled(meta, done, rest, prior, intended, SourceOf(files0, meta), hash);
    assert done + rest[..0] == done;
    if i == 0 || Spoiled(done, rest[0], prior, intended) {
      SpoiledFirst(s, files0, meta, intended, done, rest, hash);
    } else {
      SourceStillFaithful(s, files0, meta, intended, done, rest[0], hash);
      var s1 := FirstPiece(s, files0, meta, intended, done, rest, hash);
      Shifted(done, rest, i);
      SpoiledStream(s1, files0, meta, intended, done + [rest[0]], rest[1..], hash, i - 1);
    }
  }

  ghost function CoverCount(k: int): Piece -> int {
    (p: Piece) => if Covers(p, k) then 1 else 0
  }

  lemma {:induction false} ConsecutiveCount(ps: seq<Piece>, end: int, k: int)
    requires Consecutive(ps, end)
    ensures Sum(CoverCount(k), ps) <= if k < end then 1 else 0
  {
    if ps != [] {
      ConsecutiveCount(ps[..|ps| - 1], ps[|ps| - 1].offset, k);
    }
  }

  /** The pieces of a tiling do not overlap, in whatever order they are sent. */
  lemma TilesDisjoint(ps: seq<Piece>, size: nat)
    requires Tiles(ps, size)
    ensures Disjoint(ps)
  {
    var ordered :| multiset(ordered) == multiset(ps) && Consecutive(ordered, size);
    forall i, j, k | 0 <= i < j < |ps| && Covers(ps[i], k)
      ensures !Covers(ps[j], k)
    {
      ConsecutiveCount(ordered, size, k);
      SumPermutation(CoverCount(k), ordered, ps);
      SumAtLeastTwo(CoverCount(k), ps, i, j);
    }
  }

  // ----- The main results -----

  /** The upload has ended well: the right bytes, every byte counted once, the handle closed, no other file changed. */
  ghost predicate Reassembled(s: Session, files: Files, meta: Metadata, intended: Bytes) {
    && s.failed.None? && s.current.Some? && s.current.value.done && !s.current.value.open
    && s.current.value.transferred == |intended|
    && meta.destination in s.files
    && s.files[meta.destination] == Wanted(intended, Prior(files, meta))
    && s.files - {meta.destination} == files - {meta.destination}
  }

  function Prior(files: Files, meta: Metadata): Bytes {
    if meta.destination in files then files[meta.destination] else []
  }

  function Upload0(files: Files, meta: Metadata, ps: seq<Piece>, hash: Bytes -> string): Session {
    Stream(Session(files, None, [], None), [Begin(meta, true)] + Requests(ps), hash)
  }

  lemma UploadBegins(files: Files, meta: Metadata, intended: Bytes, ps: seq<Piece>, hash: Bytes -> string)
    returns (s1: Session, files0: Files)
    requires AllFaithful(ps, intended, SourceOf(files, meta), hash)
    ensures files0 == Opened(files, meta.destination) && files0[meta.destination] == Prior(files, meta)
    ensures files0 - {meta.destination} == files - {meta.destination}
    ensures HasFile(s1) && Receiving(s1, files0, meta, intended, [])
    ensures Upload0(files, meta, ps, hash) == Stream(s1, Requests(ps), hash)
    ensures AllFaithful(ps, intended, SourceOf(files0, meta), hash)
  {
    var rs := [Begin(meta, true)] + Requests(ps);
    assert rs[1..] == Requests(ps);
    s1 := Handle(Session(files, None, [], None), rs[0], hash);
    files0 := Opened(files, meta.destination);
    assert files0 - {meta.destination} == files - {meta.destination};
    assert SourceOf(files, meta).Some? ==> SourceOf(files0, meta) == SourceOf(files, meta);
  }

  /**
   * Whatever the order in which the pieces of a tiling are sent, the upload reassembles the intended bytes, followed
   * by what the old file held beyond them, exactly when no piece reads a byte of the destination that an earlier one
   * has changed. Where the source is another file, it always does.
   */
  lemma UploadReassembles(files: Files, meta: Metadata, intended: Bytes, ps: seq<Piece>, hash: Bytes -> string)
    requires Tiles(ps, |intended|) && ps != []
    requires AllFaithful(ps, intended, SourceOf(files, meta), hash)
    ensures Reassembled(Upload0(files, meta, ps, hash), files, meta, intended) <==>
            Unspoiled(meta, ps, Prior(files, meta), intended)
  {
    hide Tiles, Reassembled;
    if Unspoiled(meta, ps, Prior(files, meta), intended) {
      UnspoiledSucceeds(files, meta, intended, ps, hash);
    } else {
      SpoiledFails(files, meta, intended, ps, hash);
    }
  }

  lemma UnspoiledSucceeds(files: Files, meta: Metadata, intended: Bytes, ps: seq<Piece>, hash: Bytes -> string)
    requires Tiles(ps, |intended|) && ps != []
    requires AllFaithful(ps, intended, SourceOf(files, meta), hash)
    requires Unspoiled(meta, ps, Prior(files, meta), intended)
    ensures Reassembled(Upload0(files, meta, ps, hash), files, meta, intended)
  {
    hide AllFaithful, Unspoiled, Tiles, Upload0, Assembled, Sum;
    var s1, files0 := UploadBegins(files, meta, intended, ps, hash);
    assert [] + ps == ps;
    PiecesStream(s1, files0, meta, intended, [], ps, hash);
    TilesCover(ps, |intended|);
    var s := Upload0(files, meta, ps, hash);
    AssembledIsComplete(s.files[meta.destination], Prior(files, meta), intended, ps);
  }

  lemma SpoiledFails(files: Files, meta: Metadata, intended: Bytes, ps: seq<Piece>, hash: Bytes -> string)
    requires Tiles(ps, |intended|)
    requires AllFaithful(ps, intended, SourceOf(files, meta), hash)
    requires !Unspoiled(meta, ps, Prior(files, meta), intended)
    ensures !Reassembled(Upload0(files, meta, ps, hash), files, meta, intended)
  {
    hide AllFaithful, Spoiled, Tiles, Upload0, Assembled, Disjoint, Stream;
    var s1, files0 := UploadBegins(files, meta, intended, ps, hash);
    var i: nat :| i < |ps| && Spoiled(ps[..i], ps[i], Prior(files, meta), intended);
    TilesDisjoint(ps, |intended|);
    assert [] + ps == ps && [] + ps[..i] == ps[..i];
    SpoiledStream(s1, files0, meta, intended, [], ps, hash, i);
  }

  lemma AssembledIsComplete(file: Bytes, prior: Bytes, intended: Bytes, ps: seq<Piece>)
    requires Assembled(file, prior, intended, ps)
    requires forall k :: 0 <= k < |intended| ==> Covered(ps, k)
    ensures file == Wanted(intended, prior)
  {
    forall k | 0 <= k < |intended|
      ensures Right(file, intended, k)
    {
      assert Covered(ps, k);
      var i :| 0 <= i < |ps| && Covers(ps[i], k);
    }
    var want := Wanted(intended, prior);
    assert |intended| > 0 ==> Right(file, intended, |intended| - 1);
    assert |file| == |want|;
    forall k | 0 <= k < |file|
      ensures file[k] == want[k]
    {
      assert k < |intended| ==> Right(file, intended, k);
    }
  }

  // ----- What the sender is told -----

  /** One answer for each piece: the bytes so far, and whether it was the last one. */
  function Answers(before: int, ps: seq<Piece>): seq<Answer>
    decreases |ps|
  {
    if ps == [] then []
    else
      var so := before + PieceSize(ps[0]);
      [Progress(so, |ps| == 1)] + Answers(so, ps[1..])
  }

  /** The session after the first piece of a stream that does not fail. */
  lemma FirstAnswered(s: Session, ps: seq<Piece>, hash: Bytes -> string) returns (s1: Session)
    requires HasFile(s) && s.current.Some? && s.failed.None? && !s.current.value.done && ps != []
    requires Stream(s, Requests(ps), hash).failed.None?
    ensures HasFile(s1) && s1.failed.None? && s1.current.Some?
    ensures Stream(s, Requests(ps), hash) == Stream(s1, Requests(ps[1..]), hash)
    ensures var so := s.current.value.transferred + PieceSize(ps[0]);
            && s1.current.value.transferred == so && s1.current.value.done == (|ps| == 1)
            && s1.sent == s.sent + [Progress(so, |ps| == 1)]
  {
    hide *;
    s1 := Handle(s, Send(ps[0].data, ps[0].offset, |ps| == 1), hash);
    StreamStep(s, ps, hash);
    StreamFailsOnce(s1, Requests(ps[1..]), hash);
    OneAnswer(s, ps[0], |ps| == 1, hash);
  }

  /** Every piece of a stream that does not fail is answered once and in order. */
  lemma {:induction false} AnswersInOrder(s: Session, ps: seq<Piece>, hash: Bytes -> string)
    requires HasFile(s) && s.current.Some? && s.failed.None? && !s.current.value.done
    requires Stream(s, Requests(ps), hash).failed.None?
    ensures Stream(s, Requests(ps), hash).sent == s.sent + Answers(s.current.value.transferred, ps)
    decreases |ps|
  {
    hide *;
    if ps == [] {
      NothingMore(s, s.current.value.transferred, ps, hash);
    } else {
      var s1 := FirstAnswered(s, ps, hash);
      AnswersStep(s.current.value.transferred, ps, s.sent);
      if |ps| == 1 {
        NothingMore(s1, s1.current.value.transferred, ps[1..], hash);
      } else {
        AnswersInOrder(s1, ps[1..], hash);
      }
    }
  }

  lemma AnswersStep(before: int, ps: seq<Piece>, sent: seq<Answer>)
    requires ps != []
    ensures var so := before + PieceSize(ps[0]);
            sent + Answers(before, ps) == sent + [Progress(so, |ps| == 1)] + Answers(so, ps[1..])
  {
    var so := before + PieceSize(ps[0]);
    assert sent + ([Progress(so, |ps| == 1)] + Answers(so, ps[1..]))
        == sent + [Progress(so, |ps| == 1)] + Answers(so, ps[1..]);
  }

  lemma NothingMore(s: Session, so: int, ps: seq<Piece>, hash: Bytes -> string)
    requires HasFile(s) && ps == []
    ensures Stream(s, Requests(ps), hash) == s && Answers(so, ps) == []
    ensures s.sent + Answers(so, ps) == s.sent
  {
  }

  /** The last answer reports the total and the end; the one before it does not. */
  lemma {:induction false} LastAnswer(before: int, ps: seq<Piece>)
    requires ps != []
    ensures |Answers(before, ps)| == |ps|
    ensures Answers(before, ps)[|ps| - 1] == Progress(before + Sum(SIZE_OF, ps), true)
    ensures forall k :: 0 <= k < |ps| - 1 ==> Answers(before, ps)[k].Progress? && !Answers(before, ps)[k].done
    decreases |ps|
  {
    SumFirst(ps, |ps| - 1);
    assert ps[..|ps|] == ps && ps[1..][..|ps| - 1] == ps[1..];
    if |ps| > 1 {
      LastAnswer(before + PieceSize(ps[0]), ps[1..]);
    } else {
      assert ps[1..] == [];
    }
  }

  lemma OneAnswer(s: Session, p: Piece, isLast: bool, hash: Bytes -> string)
    requires HasFile(s) && s.current.Some? && !s.current.value.done
    requires Handle(s, Send(p.data, p.offset, isLast), hash).failed.None?
    ensures var s' := Handle(s, Send(p.data, p.offset, isLast), hash);
            var so := s.current.value.transferred + PieceSize(p);
            && s'.current.Some? && s'.current.value.transferred == so && s'.current.value.done == isLast
            && s'.sent == s.sent + [Progress(so, isLast)]
  {
    hide Written, SourceBlock;
  }

  /** The size of the first `k + 1` pieces is that of the first one and of the `k` after it. */
  lemma {:induction false} SumFirst(ps: seq<Piece>, k: nat)
    requires k < |ps|
    ensures Sum(SIZE_OF, ps[..k + 1]) == PieceSize(ps[0]) + Sum(SIZE_OF, ps[1..][..k])
  {
    if k == 0 {
      assert ps[..1] == [] + [ps[0]];
      SumAppend(SIZE_OF, [], ps[0]);
    } else {
      SumFirst(ps, k - 1);
      assert ps[..k + 1] == ps[..k] + [ps[k]];
      assert ps[1..][..k] == ps[1..][..k - 1] + [ps[1..][k - 1]];
      SumAppend(SIZE_OF, ps[..k], ps[k]);
      SumAppend(SIZE_OF, ps[1..][..k - 1], ps[k]);
    }
  }

  /** A stream that has failed stays failed. */
  lemma StreamFailsOnce(s: Session, rs: seq<Request>, hash: Bytes -> string)
    requires HasFile(s)
    ensures s.failed.Some? ==> Stream(s, rs, hash) == s
  {
  }

  // ----- After the last chunk -----

  /** Once the handle is closed, no sequence of chunks changes any file, until new metadata arrives. */
  lemma {:induction false} ClosedUploadIsFrozen(s: Session, rs: seq<Request>, hash: Bytes -> string)
    requires HasFile(s) && s.current.Some? && !s.current.value.open
    requires forall i :: 0 <= i < |rs| ==> rs[i].Send?
    ensures Stream(s, rs, hash).files == s.files
    decreases |rs|
  {
    if rs != [] && s.failed.None? {
      ClosedChunk(s, rs[0], hash);
      ClosedUploadIsFrozen(Handle(s, rs[0], hash), rs[1..], hash);
    }
  }

  lemma ClosedChunk(s: Session, r: Request, hash: Bytes -> string)
    requires HasFile(s) && s.current.Some? && !s.current.value.open && r.Send?
    ensures var s' := Handle(s, r, hash); s'.files == s.files && s'.current.Some? && !s'.current.value.open
  {
  }

  /** Where the source is the destination itself, a tiling that is faithful to the old file can go wrong. */
  lemma SameFileDeltaFails(hash: Bytes -> string)
    ensures var meta := Metadata("f", "f", 2);
            var files: Files := map["f" := [1, 2]];
            var ps := [Piece(Content([2]), 0), Piece(DeltaRef(Delta(0, 1, "")), 1)];
            && Tiles(ps, 2)
            && AllFaithful(ps, [2, 1], SourceOf(files, meta), hash)
            && !Reassembled(Upload0(files, meta, ps, hash), files, meta, [2, 1])
  {
    var meta := Metadata("f", "f", 2);
    var files: Files := map["f" := [1, 2]];
    var ps := [Piece(Content([2]), 0), Piece(DeltaRef(Delta(0, 1, "")), 1)];
    TwoPieces(ps[0], ps[1]);
    assert SpoiledAt(ps[..1], ps[1], [1, 2], [2, 1], 0, 0);
    hide Reassembled, Upload0, Tiles;
    UploadReassembles(files, meta, [2, 1], ps, hash);
  }

  lemma TwoPieces(p: Piece, q: Piece)
    requires p.offset == 0 && PieceSize(p) == q.offset && PieceSize(q) >= 0
    ensures Tiles([p, q], q.offset + PieceSize(q))
  {
    var ps := [p, q];
    assert ps[..1] == [p] && [p][..0] == [];
    assert Consecutive([p], q.offset) && Consecutive(ps, q.offset + PieceSize(q));
  }

  // ----- The objects -----

  /** SyncHandler with its SyncService: the file system it works on and the upload that its stream has begun. */
  class SyncHandler {
    const hash: Bytes -> string
    var files: Files
    var currentUpload: Option<Upload>
    var sent: seq<Answer>

    ghost function View(failed: Option<Error>): Session
      reads this
    {
      Session(files, currentUpload, sent, failed)
    }

    constructor (files: Files, hash: Bytes -> string)
      ensures View(None) == Session(files, None, [], None) && this.hash == hash
    {
      this.files, this.hash, currentUpload, sent := files, hash, None, [];
    }

    method InitiateFileUpload(meta: Metadata, canOpen: bool) returns (failed: Option<Error>)
      requires HasFile(View(None))
      modifies this
      ensures View(failed) == Handle(old(View(None)), Begin(meta, canOpen), hash)
    {
      if !canOpen {
        return Some(CannotOpen);
      }
      if meta.destination !in files {
        files := files[meta.destination := []];
      }
      currentUpload := Some(Upload(meta, true, 0, false));
      failed := None;
    }

    /** WriteAt on the current upload's handle. */
    method WriteChunk(offset: int, data: Bytes) returns (failed: Option<Error>)
      requires currentUpload.Some? && currentUpload.value.meta.destination in files
      modifies this`files
      ensures (files, failed) == WriteAt(old(files), currentUpload.value, offset, data)
    {
      if offset < 0 {
        return Some(BadOffset);
      }
      if data != [] {
        if !currentUpload.value.open {
          return Some(FileClosed);
        }
        var path := currentUpload.value.meta.destination;
        files := files[path := Written(files[path], offset, data)];
      }
      failed := None;
    }

    method ProcessFileChunk(c: Chunk) returns (answer: Answer)
      requires currentUpload.Some? && currentUpload.value.meta.destination in files
      modifies this`files, this`currentUpload
      ensures currentUpload.Some?
      ensures (files, currentUpload.value, answer) == ProcessChunk(old(files), old(currentUpload.value), c, hash)
    {
      var up := currentUpload.value;
      var data, unreadable := c.content, None;
      if c.delta.Some? {
        var block := SourceBlock(files, up.meta.source, c.delta.value, hash);
        data, unreadable := block.0, block.1;
      }
      if unreadable.Some? {
        return Failure(unreadable.value);
      }
      var unwritten := WriteChunk(c.offset, data);
      if unwritten.Some? {
        return Failure(unwritten.value);
      }
      up := up.(transferred := up.transferred + |c.content|);
      if c.delta.Some? {
        up := up.(transferred := up.transferred + c.delta.value.length);
      }
      if c.isLast {
        if !up.open {
          currentUpload := Some(up);
          return Failure(FileClosed);
        }
        up := up.(open := false, done := true);
      }
      currentUpload := Some(up);
      answer := Progress(up.transferred, up.done);
    }

    method SyncFilesStream(rs: seq<Request>) returns (failed: Option<Error>)
      requires HasFile(View(None))
      modifies this
      ensures HasFile(old(View(None))) && View(failed) == Stream(old(View(None)), rs, hash)
    {
      failed := None;
      var i := 0;
      while i < |rs| && failed.None?
        invariant 0 <= i <= |rs| && HasFile(View(failed))
        invariant Stream(View(failed), rs[i..], hash) == Stream(old(View(None)), rs, hash)
      {
        failed := HandleRequest(rs[i]);
        assert rs[i..][1..] == rs[i + 1..];
        i := i + 1;
      }
    }

    method HandleRequest(r: Request) returns (failed: Option<Error>)
      requires HasFile(View(None))
      modifies this
      ensures View(failed) == Handle(old(View(None)), r, hash)
    {
      match r {
        case Begin(meta, canOpen) => failed := InitiateFileUpload(meta, canOpen);
        case Send(data, offset, isLast) =>
          if currentUpload.None? {
            return Some(NoMetadata);
          }
          var answer := ProcessFileChunk(ToChunk(data, offset, isLast));
          if answer.Failure? {
            return Some(answer.error);
          }
          sent := sent + [answer];
          failed := None;
      }
    }
  }
}
