/**
 * The double-buffered stream copier of libempathy/empathy-tp-file.c:
 * the `CopyData` record and its callbacks `schedule_next`, `read_done_cb`,
 * `write_done_cb`, `close_done`, `io_error`, `copy_data_unref` and
 * `copy_stream`.
 *
 * The GIO streams are not modelled as objects. The input is whatever the
 * read completions hand back; the output is the list of byte strings each
 * completed write put on it. Every asynchronous completion is a method
 * taking the completion's result.
 *
 * The record's behaviour is specified on values: `Pump` is a snapshot of
 * all fields, `Schedule`, `ReadStep`, `WriteStep`, `CloseStep`, `ErrorStep`
 * and `UnrefStep` say what each callback does to it, and `Inv` is the
 * invariant every callback keeps. The class `CopyData` holds the same
 * fields (the buffers as arrays) and each of its methods is proved to move
 * its snapshot exactly as the matching step function says.
 */
module TpFileCopy {
  import opened Wrappers

  newtype byte = x: int | 0 <= x < 256

  /** N_BUFFERS and BUFFER_SIZE. */
  const NBuffers := 2
  const BufferSize := 4096

  /** The bytes of a list of chunks, in order. */
  function Flatten(chunks: seq<seq<byte>>): seq<byte>
  {
    if chunks == [] then [] else chunks[0] + Flatten(chunks[1..])
  }

  lemma {:induction false} FlattenAppend(a: seq<seq<byte>>, b: seq<seq<byte>>)
    ensures Flatten(a + b) == Flatten(a) + Flatten(b)
  {
    if a == [] {
      assert a + b == b;
    } else {
      assert (a + b)[1..] == a[1..] + b;
      FlattenAppend(a[1..], b);
    }
  }

  /**
   * A snapshot of a CopyData record together with what it has done to the
   * outside world so far.
   */
  datatype Pump = Pump(
    // The fields of CopyData.
    inOpen: bool,                // copy->in != NULL; cleared only when a read returns 0
    outOpen: bool,               // copy->out != NULL
    cancelled: bool,             // copy->cancellable has been cancelled
    buff: seq<seq<byte>>,        // the data held by each buffer
    count: seq<nat>,
    isFull: seq<bool>,
    curRead: int,
    curWrite: int,
    isReading: bool,
    isWriting: bool,
    nClosed: nat,
    refCount: int,
    freed: bool,                 // the record and its buffers were released
    // The outside world.
    chunksRead: seq<seq<byte>>,  // every non-empty chunk the input returned, in order
    written: seq<seq<byte>>,     // the bytes each completed write put on the output
    readInFlight: bool,          // an asynchronous read has been issued and not completed
    writeInFlight: bool,         // an asynchronous write has been issued and not completed
    closesDone: nat,             // close_done completions delivered
    ioErrors: nat,               // runs of io_error
    inCloses: nat,               // close calls made on the input
    outCloses: nat               // close calls made on the output
  )

  /** The record as copy_stream fills it, before its first schedule_next. */
  function Fresh(): Pump
  {
    Pump(true, true, false, [[], []], [0, 0], [false, false], 0, 0, false, false, 0, 1, false,
         [], [], false, false, 0, 0, 0, 0)
  }

  /** Chunks read and not yet written. */
  function Pending(p: Pump): nat
    requires |p.written| <= |p.chunksRead|
  {
    |p.chunksRead| - |p.written|
  }

  /** Full buffers: the pending chunks plus the end-of-file marker once read. */
  function Queued(p: Pump): nat
    requires |p.written| <= |p.chunksRead|
  {
    Pending(p) + (if p.inOpen then 0 else 1)
  }

  /** Asynchronous closes issued: one per stream pointer cleared. */
  function AsyncCloses(p: Pump): nat
  {
    (if p.inOpen then 0 else 1) + (if p.outOpen then 0 else 1)
  }

  ghost predicate Shaped(p: Pump)
  {
    && |p.buff| == NBuffers && |p.count| == NBuffers && |p.isFull| == NBuffers
    && 0 <= p.curRead < NBuffers && 0 <= p.curWrite < NBuffers
  }

  /** Each write put a non-empty prefix of the matching chunk on the output. */
  ghost predicate ChunksInv(p: Pump)
  {
    && |p.written| <= |p.chunksRead|
    && (forall i :: 0 <= i < |p.chunksRead| ==> 0 < |p.chunksRead[i]| <= BufferSize)
    && (forall i :: 0 <= i < |p.written| ==> 0 < |p.written[i]| && p.written[i] <= p.chunksRead[i])
  }

  /**
   * The buffers form a ring: starting at the write cursor come the pending
   * chunks in the order they were read, then the zero-count end-of-file
   * buffer, then the empty buffers, and the read cursor points just past
   * the full ones.
   */
  ghost predicate SlotsInv(p: Pump)
    requires Shaped(p) && ChunksInv(p)
  {
    var w, o := p.curWrite, 1 - p.curWrite;
    var k, m := Pending(p), Queued(p);
    && m <= NBuffers
    && p.curRead == (p.curWrite + m) % NBuffers
    && (p.isFull[w] <==> m >= 1)
    && (p.isFull[o] <==> m >= 2)
    && (k >= 1 ==> p.buff[w] == p.chunksRead[|p.written|] && p.count[w] == |p.buff[w]|)
    && (k >= 2 ==> p.buff[o] == p.chunksRead[|p.written| + 1] && p.count[o] == |p.buff[o]|)
    && (k == 0 && !p.inOpen ==> p.count[w] == 0)
    && (k == 1 && !p.inOpen ==> p.count[o] == 0)
  }

  /** What the guard flags and the stream pointers say about the buffers. */
  ghost predicate FlagsInv(p: Pump)
    requires Shaped(p) && ChunksInv(p)
  {
    && (p.isReading ==> p.inOpen && Queued(p) < NBuffers)
    && (p.readInFlight ==> p.isReading)
    && (p.isWriting ==> Pending(p) >= 1)
    && (p.writeInFlight ==> p.isWriting && p.outOpen)
    && (!p.outOpen ==> !p.inOpen && Pending(p) == 0 && !p.isWriting)
  }

  /**
   * The counters: one asynchronous close per stream pointer cleared, one
   * reference dropped per close completion and per io_error, and the record
   * never released.
   */
  ghost predicate CountersInv(p: Pump)
  {
    && p.closesDone <= AsyncCloses(p)
    && p.refCount == 1 - p.closesDone - p.ioErrors
    && p.nClosed == (if p.refCount <= 0 then 1 else 0)
    && !p.freed
    && (p.ioErrors > 0 ==> p.cancelled)
  }

  /**
   * Before any I/O error: nothing was cancelled, each stream was closed
   * exactly when its pointer was cleared, and the guard flags are set
   * exactly while an operation is outstanding.
   */
  ghost predicate HealthyInv(p: Pump)
  {
    p.ioErrors == 0 ==>
      && !p.cancelled
      && p.inCloses == (if p.inOpen then 0 else 1)
      && p.outCloses == (if p.outOpen then 0 else 1)
      && (p.isReading <==> p.readInFlight)
      && (p.isWriting <==> p.writeInFlight)
  }

  /** Everything but HealthyInv: what holds when io_error is entered. */
  ghost predicate ErrorReady(p: Pump)
  {
    Shaped(p) && ChunksInv(p) && SlotsInv(p) && FlagsInv(p) && CountersInv(p)
  }

  ghost predicate Inv(p: Pump)
  {
    ErrorReady(p) && HealthyInv(p)
  }

  /** schedule_next. */
  function Schedule(p: Pump): (q: Pump)
    requires Shaped(p)
    ensures Shaped(q)
  {
    ScheduleWrite(ScheduleRead(p))
  }

  /** The first half of schedule_next: start a read if one can be started. */
  function ScheduleRead(p: Pump): (q: Pump)
    requires Shaped(p)
    ensures Shaped(q)
  {
    var startRead := p.inOpen && !p.isReading && !p.isFull[p.curRead];
    p.(isReading := p.isReading || startRead,
       readInFlight := p.readInFlight || startRead)
  }

  /** The second half of schedule_next: close the output at end of file, or start a write. */
  function ScheduleWrite(p: Pump): (q: Pump)
    requires Shaped(p)
    ensures Shaped(q)
  {
    var wantWrite := !p.isWriting && p.isFull[p.curWrite];
    var closeOut := wantWrite && p.count[p.curWrite] == 0;
    var startWrite := wantWrite && p.count[p.curWrite] != 0;
    p.(outOpen := p.outOpen && !closeOut,
       outCloses := if closeOut then p.outCloses + 1 else p.outCloses,
       isWriting := p.isWriting || startWrite,
       writeInFlight := p.writeInFlight || startWrite)
  }

  /**
   * schedule_next keeps the invariant. It issues a read exactly when the
   * input is open, no read is outstanding and the read buffer is empty; it
   * closes the output exactly when no write is outstanding and the write
   * cursor has reached the end-of-file buffer; otherwise it writes a full
   * buffer out whole. The buffers and cursors are left alone.
   */
  lemma ScheduleKeepsInv(p: Pump)
    requires Inv(p) && p.outOpen
    ensures var q := Schedule(p);
      && Inv(q)
      && q.buff == p.buff && q.count == p.count && q.isFull == p.isFull
      && q.curRead == p.curRead && q.curWrite == p.curWrite && q.inOpen == p.inOpen
      && q.chunksRead == p.chunksRead && q.written == p.written && q.refCount == p.refCount
      && ((q.readInFlight && !p.readInFlight) <==> p.inOpen && !p.isReading && !p.isFull[p.curRead])
      && (!q.outOpen <==> !p.isWriting && p.isFull[p.curWrite] && p.count[p.curWrite] == 0)
      && (!q.outOpen ==> q.outCloses == p.outCloses + 1)
      && ((q.writeInFlight && !p.writeInFlight)
          <==> !p.isWriting && p.isFull[p.curWrite] && p.count[p.curWrite] != 0)
  {
  }

  /** The record once copy_stream has run schedule_next. */
  function Started(): (q: Pump)
    ensures Shaped(q)
  {
    Schedule(Fresh())
  }

  /** copy_stream leaves one read outstanding and nothing else. */
  lemma StartedInv()
    ensures var q := Started();
      && Inv(q) && q.readInFlight && !q.writeInFlight && q.inOpen && q.outOpen
      && q.chunksRead == [] && q.written == [] && q.refCount == 1
  {
    ScheduleKeepsInv(Fresh());
  }

  /** copy_data_unref. */
  function UnrefStep(p: Pump): (q: Pump)
    ensures q.refCount == p.refCount - 1
    // the free branch is taken only when the reference count drops to 0 and
    // n_closed then reaches 2
    ensures q.freed && !p.freed ==> q.refCount == 0 && q.nClosed >= 2
    // from any state the callbacks can reach, it is never taken
    ensures !p.freed && p.refCount <= 1 && p.nClosed == (if p.refCount <= 0 then 1 else 0)
            ==> !q.freed && q.nClosed == (if q.refCount <= 0 then 1 else 0)
  {
    var rc := p.refCount - 1;
    var nc := if rc == 0 then p.nClosed + 1 else p.nClosed;
    p.(refCount := rc, nClosed := nc, freed := p.freed || (rc == 0 && nc >= 2))
  }

  /** io_error: cancel, close whichever stream pointer is still set, unref. */
  function ErrorStep(p: Pump): (q: Pump)
  {
    UnrefStep(p.(cancelled := true,
                 inCloses := if p.inOpen then p.inCloses + 1 else p.inCloses,
                 outCloses := if p.outOpen then p.outCloses + 1 else p.outCloses,
                 ioErrors := p.ioErrors + 1))
  }

  /**
   * io_error restores the invariant from any state the callbacks enter it
   * in: it cancels, closes each stream still set once more, drops one
   * reference and leaves the buffers, cursors and guard flags alone.
   */
  lemma ErrorKeepsInv(p: Pump)
    requires ErrorReady(p)
    ensures var q := ErrorStep(p);
      && Inv(q)
      && q.cancelled && q.ioErrors == p.ioErrors + 1 && q.refCount == p.refCount - 1
      && q.inCloses == p.inCloses + (if p.inOpen then 1 else 0)
      && q.outCloses == p.outCloses + (if p.outOpen then 1 else 0)
      && q.buff == p.buff && q.count == p.count && q.isFull == p.isFull
      && q.curRead == p.curRead && q.curWrite == p.curWrite
      && q.isReading == p.isReading && q.isWriting == p.isWriting
      && q.inOpen == p.inOpen && q.outOpen == p.outOpen
      && q.chunksRead == p.chunksRead && q.written == p.written
  {
  }

  /** close_done: one asynchronous close completed. */
  function CloseStep(p: Pump): (q: Pump)
  {
    UnrefStep(p.(closesDone := p.closesDone + 1))
  }

  /** Each issued close completes at most once, and the record stays alive. */
  lemma CloseKeepsInv(p: Pump)
    requires Inv(p) && p.closesDone < AsyncCloses(p)
    ensures var q := CloseStep(p);
      Inv(q) && q.closesDone == p.closesDone + 1 && q.refCount == p.refCount - 1
  {
  }

  /** read_done_cb up to its call of schedule_next, for a count n >= 0. */
  function ReadStored(p: Pump, n: nat, data: seq<byte>): (q: Pump)
    requires Shaped(p)
    ensures Shaped(q)
  {
    var eof := n == 0;
    p.(inOpen := p.inOpen && !eof,
       inCloses := if eof then p.inCloses + 1 else p.inCloses,
       chunksRead := if eof then p.chunksRead else p.chunksRead + [data],
       buff := p.buff[p.curRead := data],
       count := p.count[p.curRead := n],
       isFull := p.isFull[p.curRead := true],
       curRead := (p.curRead + 1) % NBuffers,
       isReading := false,
       readInFlight := false)
  }

  lemma ReadStoredKeepsInv(p: Pump, n: nat, data: seq<byte>)
    requires Inv(p) && p.readInFlight && |data| == n <= BufferSize
    ensures Inv(ReadStored(p, n, data)) && ReadStored(p, n, data).outOpen
  {
  }

  /** read_done_cb, given the count the read returned. */
  function ReadStep(p: Pump, n: int, data: seq<byte>): (q: Pump)
    requires Shaped(p)
  {
    if n < 0 then ErrorStep(p.(readInFlight := false))
    else Schedule(ReadStored(p, n, data))
  }

  /** read_done_cb keeps the invariant, whatever count the read returned. */
  lemma ReadStepKeepsInv(p: Pump, n: int, data: seq<byte>)
    requires Inv(p) && p.readInFlight
    requires n >= 0 ==> |data| == n <= BufferSize
    ensures Inv(ReadStep(p, n, data))
  {
    if n < 0 {
      ReadFailed(p, n, data);
    } else {
      ReadCompleted(p, n, data);
    }
  }

  /**
   * A failed read leaves the buffers alone, leaves is_reading set and goes
   * to io_error.
   */
  lemma ReadFailed(p: Pump, n: int, data: seq<byte>)
    requires Inv(p) && p.readInFlight && n < 0
    ensures var q := ReadStep(p, n, data);
      && Inv(q) && q.isFull == p.isFull && q.curRead == p.curRead && q.isReading
      && q.ioErrors == p.ioErrors + 1 && q.cancelled
  {
    ErrorKeepsInv(p.(readInFlight := false));
  }

  /**
   * A completed read stores the count, marks the buffer full and advances
   * the read cursor. A count of 0 closes the input, after which no read is
   * issued again; any other count adds the chunk to what was read.
   */
  lemma ReadCompleted(p: Pump, n: nat, data: seq<byte>)
    requires Inv(p) && p.readInFlight && |data| == n <= BufferSize
    ensures var q := ReadStep(p, n, data);
      && Inv(q)
      && q.count == p.count[p.curRead := n] && q.isFull == p.isFull[p.curRead := true]
      && q.curRead == (p.curRead + 1) % NBuffers && q.ioErrors == p.ioErrors
      && (n == 0 ==> !q.inOpen && !q.readInFlight && q.chunksRead == p.chunksRead)
      && (n > 0 ==> q.inOpen && q.chunksRead == p.chunksRead + [data])
  {
    ReadStoredKeepsInv(p, n, data);
    ScheduleKeepsInv(ReadStored(p, n, data));
  }

  /** write_done_cb up to its call of schedule_next, for a count n > 0. */
  function WriteStored(p: Pump, n: nat): (q: Pump)
    requires Shaped(p) && n <= |p.buff[p.curWrite]|
    ensures Shaped(q)
  {
    p.(written := p.written + [p.buff[p.curWrite][..n]],
       isFull := p.isFull[p.curWrite := false],
       curWrite := (p.curWrite + 1) % NBuffers,
       isWriting := false,
       writeInFlight := false)
  }

  lemma WriteStoredKeepsInv(p: Pump, n: nat)
    requires Inv(p) && p.writeInFlight && 0 < n <= p.count[p.curWrite]
    ensures n <= |p.buff[p.curWrite]|
    ensures Inv(WriteStored(p, n)) && WriteStored(p, n).outOpen
  {
  }

  /**
   * write_done_cb, given the count the write returned (never more than
   * the count it was issued with).
   */
  function WriteStep(p: Pump, n: int): (q: Pump)
    requires Shaped(p) && n <= |p.buff[p.curWrite]|
  {
    if n <= 0 then ErrorStep(p.(writeInFlight := false))
    else Schedule(WriteStored(p, n))
  }

  /** write_done_cb keeps the invariant, whatever count the write returned. */
  lemma WriteStepKeepsInv(p: Pump, n: int)
    requires Inv(p) && p.writeInFlight && n <= p.count[p.curWrite]
    ensures n <= |p.buff[p.curWrite]|
    ensures Inv(WriteStep(p, n))
  {
    if n <= 0 {
      WriteFailed(p, n);
    } else {
      WriteCompleted(p, n);
    }
  }

  /** Zero or a negative count is an I/O error that leaves the buffers alone. */
  lemma WriteFailed(p: Pump, n: int)
    requires Inv(p) && p.writeInFlight && n <= 0
    ensures var q := WriteStep(p, n);
      && Inv(q) && q.isFull == p.isFull && q.curWrite == p.curWrite && q.isWriting
      && q.written == p.written && q.ioErrors == p.ioErrors + 1 && q.cancelled
  {
    ErrorKeepsInv(p.(writeInFlight := false));
  }

  /**
   * A positive count empties the buffer and advances the write cursor, even
   * when only a part of the buffer was written, so the rest of that chunk
   * never reaches the output.
   */
  lemma WriteCompleted(p: Pump, n: nat)
    requires Inv(p) && p.writeInFlight && 0 < n <= p.count[p.curWrite]
    ensures n <= |p.buff[p.curWrite]|
    ensures var q := WriteStep(p, n);
      && Inv(q)
      && q.written == p.written + [p.chunksRead[|p.written|][..n]]
      && q.isFull == p.isFull[p.curWrite := false]
      && q.curWrite == (p.curWrite + 1) % NBuffers
      && q.ioErrors == p.ioErrors
      && (n < p.count[p.curWrite] ==> q.written[|p.written|] < p.chunksRead[|p.written|])
  {
    WriteStoredKeepsInv(p, n);
    ScheduleKeepsInv(WriteStored(p, n));
  }

  /** No write so far returned less than it was given. */
  ghost predicate AllWritesComplete(p: Pump)
    requires ChunksInv(p)
  {
    forall i :: 0 <= i < |p.written| ==> |p.written[i]| == |p.chunksRead[i]|
  }

  /**
   * Writes consume the chunks in the order they were read: when every write
   * was complete, the chunks written are the first chunks read, and the
   * output holds a prefix of the input's bytes.
   */
  lemma SinkIsPrefixOfSource(p: Pump)
    requires Inv(p) && AllWritesComplete(p)
    ensures p.written == p.chunksRead[..|p.written|]
    ensures Flatten(p.written) <= Flatten(p.chunksRead)
  {
    var k := |p.written|;
    forall i | 0 <= i < k
      ensures p.written[i] == p.chunksRead[..k][i]
    {
      assert p.written[i] <= p.chunksRead[i];
    }
    assert p.chunksRead == p.chunksRead[..k] + p.chunksRead[k..];
    FlattenAppend(p.chunksRead[..k], p.chunksRead[k..]);
  }

  /**
   * Once the output has been closed at end of file, every chunk read has
   * been written; with complete writes the output holds exactly the input's
   * bytes, and without an I/O error each stream was closed exactly once.
   */
  lemma CopyComplete(p: Pump)
    requires Inv(p) && !p.outOpen && AllWritesComplete(p)
    ensures !p.inOpen && !p.readInFlight && !p.writeInFlight
    ensures p.written == p.chunksRead
    ensures Flatten(p.written) == Flatten(p.chunksRead)
    ensures p.ioErrors == 0 ==> p.inCloses == 1 && p.outCloses == 1
  {
    SinkIsPrefixOfSource(p);
    assert p.chunksRead[..|p.written|] == p.chunksRead;
  }

  /** A CopyData record: the state copy_stream allocates and the callbacks share. */
  class CopyData {
    var inOpen: bool
    var outOpen: bool
    var cancelled: bool
    const buff: array<seq<byte>>
    const count: array<nat>
    const isFull: array<bool>
    var curRead: int
    var curWrite: int
    var isReading: bool
    var isWriting: bool
    var nClosed: nat
    var refCount: int

    // The outside world, as in Pump.
    ghost var freed: bool
    var chunksRead: seq<seq<byte>>
    var written: seq<seq<byte>>
    ghost var readInFlight: bool
    ghost var writeInFlight: bool
    ghost var closesDone: nat
    ghost var ioErrors: nat
    var inCloses: nat
    var outCloses: nat

    ghost function Abs(): Pump
      reads this, buff, count, isFull
    {
      Pump(inOpen, outOpen, cancelled, buff[..], count[..], isFull[..], curRead, curWrite,
           isReading, isWriting, nClosed, refCount, freed,
           chunksRead, written, readInFlight, writeInFlight,
           closesDone, ioErrors, inCloses, outCloses)
    }

    ghost predicate Valid()
      reads this, buff, count, isFull
    {
      Inv(Abs())
    }

    /** copy_stream: allocate the record, hold one reference, schedule. */
    constructor ()
      ensures Valid() && fresh(buff) && fresh(count) && fresh(isFull)
      ensures Abs() == Started()
    {
      inOpen, outOpen, cancelled := true, true, false;
      buff := new seq<byte>[NBuffers](_ => []);
      count := new nat[NBuffers](_ => 0);
      isFull := new bool[NBuffers](_ => false);
      curRead, curWrite := 0, 0;
      isReading, isWriting := false, false;
      nClosed, refCount := 0, 1;
      freed := false;
      chunksRead, written := [], [];
      readInFlight, writeInFlight := false, false;
      closesDone, ioErrors, inCloses, outCloses := 0, 0, 0, 0;
      new;
      assert buff[..] == [[], []] && count[..] == [0, 0] && isFull[..] == [false, false];
      assert Abs() == Fresh();
      StartedInv();
      ScheduleNext();
    }

    method ScheduleNext()
      requires Shaped(Abs())
      modifies this
      ensures Abs() == Schedule(old(Abs()))
    {
      MaybeRead();
      MaybeWrite();
    }

    method MaybeRead()
      requires Shaped(Abs())
      modifies this
      ensures Abs() == ScheduleRead(old(Abs()))
    {
      if inOpen && !isReading && !isFull[curRead] {
        // start an asynchronous read of up to BufferSize bytes into buff[curRead]
        isReading := true;
        readInFlight := true;
      }
    }

    method MaybeWrite()
      requires Shaped(Abs())
      modifies this
      ensures Abs() == ScheduleWrite(old(Abs()))
    {
      if !isWriting && isFull[curWrite] {
        if count[curWrite] == 0 {
          // the end-of-file buffer: close the output asynchronously
          outCloses := outCloses + 1;
          outOpen := false;
        } else {
          // start an asynchronous write of count[curWrite] bytes
          isWriting := true;
          writeInFlight := true;
        }
      }
    }

    method Unref()
      modifies this
      ensures Abs() == UnrefStep(old(Abs()))
    {
      refCount := refCount - 1;
      if refCount == 0 {
        nClosed := nClosed + 1;
        if nClosed < 2 {
          return;
        }
        // release the streams, the buffers, the cancellable and the record
        freed := true;
      }
    }

    method IoError()
      modifies this
      ensures Abs() == ErrorStep(old(Abs()))
    {
      CancelAndClose();
      Unref();
    }

    /** The part of io_error before its unref. */
    method CancelAndClose()
      modifies this
      ensures cancelled && ioErrors == old(ioErrors) + 1
      ensures inCloses == if inOpen then old(inCloses) + 1 else old(inCloses)
      ensures outCloses == if outOpen then old(outCloses) + 1 else old(outCloses)
      ensures unchanged(`inOpen, `outOpen, `curRead, `curWrite, `isReading, `isWriting)
      ensures unchanged(`nClosed, `refCount, `freed, `chunksRead, `written)
      ensures unchanged(`readInFlight, `writeInFlight, `closesDone)
    {
      cancelled := true;
      inCloses := if inOpen then inCloses + 1 else inCloses;
      outCloses := if outOpen then outCloses + 1 else outCloses;
      ioErrors := ioErrors + 1;
    }

    /** close_done: one of the asynchronous closes completed. */
    method CloseDone()
      requires Valid() && closesDone < AsyncCloses(Abs())
      modifies this
      ensures Valid() && Abs() == CloseStep(old(Abs()))
    {
      CloseKeepsInv(Abs());
      closesDone := closesDone + 1;
      Unref();
    }

    /** read_done_cb: the outstanding read returned n, with `data` in the buffer. */
    method ReadDone(n: int, data: seq<byte>)
      requires Valid() && readInFlight
      requires n >= 0 ==> |data| == n <= BufferSize
      modifies this, buff, count, isFull
      ensures Valid() && Abs() == ReadStep(old(Abs()), n, data)
    {
      ReadStepKeepsInv(Abs(), n, data);
      ApplyRead(n, data);
    }

    method ApplyRead(n: int, data: seq<byte>)
      requires Shaped(Abs())
      modifies this, buff, count, isFull
      ensures Abs() == ReadStep(old(Abs()), n, data)
    {
      if n < 0 {
        readInFlight := false;
        IoError();
        return;
      }
      StoreRead(n, data);
      ScheduleNext();
    }

    /** The part of read_done_cb before its call of schedule_next. */
    method StoreRead(n: nat, data: seq<byte>)
      requires Shaped(Abs())
      modifies this, buff, count, isFull
      ensures Abs() == ReadStored(old(Abs()), n, data)
    {
      var slot := curRead;
      AdvanceRead(n, data);
      FillSlot(slot, n, data);
    }

    /** The field updates of a completed read; a count of 0 is the end of file. */
    method AdvanceRead(n: nat, data: seq<byte>)
      modifies this
      ensures inOpen == (old(inOpen) && n != 0)
      ensures inCloses == if n == 0 then old(inCloses) + 1 else old(inCloses)
      ensures chunksRead == if n == 0 then old(chunksRead) else old(chunksRead) + [data]
      ensures curRead == (old(curRead) + 1) % NBuffers && !isReading && !readInFlight
      ensures unchanged(`outOpen, `cancelled, `curWrite, `isWriting)
      ensures unchanged(`nClosed, `refCount, `freed, `written, `writeInFlight)
      ensures unchanged(`closesDone, `ioErrors, `outCloses)
    {
      if n == 0 {
        // end of file: close the input asynchronously and forget it
        inCloses, inOpen := inCloses + 1, false;
      } else {
        chunksRead := chunksRead + [data];
      }
      curRead, isReading, readInFlight := (curRead + 1) % NBuffers, false, false;
    }

    /** Record a completed read of n bytes in the buffer under the read cursor. */
    method FillSlot(slot: nat, n: nat, data: seq<byte>)
      requires slot < buff.Length && slot < count.Length && slot < isFull.Length
      modifies buff, count, isFull
      ensures buff[..] == old(buff[..])[slot := data]
      ensures count[..] == old(count[..])[slot := n]
      ensures isFull[..] == old(isFull[..])[slot := true]
    {
      buff[slot] := data;
      count[slot] := n;
      isFull[slot] := true;
    }

    /** write_done_cb: the outstanding write returned n. */
    method WriteDone(n: int)
      requires Valid() && writeInFlight && n <= count[curWrite]
      modifies this, isFull
      ensures Valid() && Abs() == WriteStep(old(Abs()), n)
    {
      WriteStepKeepsInv(Abs(), n);
      ApplyWrite(n);
    }

    method ApplyWrite(n: int)
      requires Shaped(Abs()) && n <= |buff[curWrite]|
      modifies this, isFull
      ensures Abs() == WriteStep(old(Abs()), n)
    {
      if n <= 0 {
        writeInFlight := false;
        IoError();
        return;
      }
      StoreWrite(n);
      ScheduleNext();
    }

    /** The part of write_done_cb before its call of schedule_next. */
    method StoreWrite(n: nat)
      requires Shaped(Abs()) && n <= |buff[curWrite]|
      modifies this, isFull
      ensures Abs() == WriteStored(old(Abs()), n)
    {
      // the output took the first n bytes of the buffer
      isFull[curWrite] := false;
      written, curWrite := written + [buff[curWrite][..n]], (curWrite + 1) % NBuffers;
      isWriting, writeInFlight := false, false;
    }
  }

  /**
   * The records a two-chunk copy passes through when every write is taken
   * whole: `TwoChunkState(a, b, k)` is the record after k callbacks.
   */
  function TwoChunkState(a: seq<byte>, b: seq<byte>, k: nat): Pump
  {
    // copy_stream: read into buffer 0 outstanding
    var s0 := Fresh().(isReading := true, readInFlight := true);
    // a read into buffer 0: write of buffer 0 and read into buffer 1 outstanding
    var s1 := s0.(buff := [a, []], count := [|a|, 0], isFull := [true, false], curRead := 1,
                  chunksRead := [a], isWriting := true, writeInFlight := true);
    // buffer 0 written: nothing full, read into buffer 1 still outstanding
    var s2 := s1.(written := [a], isFull := [false, false], curWrite := 1,
                  isWriting := false, writeInFlight := false);
    // b read into buffer 1: write of buffer 1 and read into buffer 0 outstanding
    var s3 := s2.(buff := [a, b], count := [|a|, |b|], isFull := [false, true], curRead := 0,
                  chunksRead := [a, b], isWriting := true, writeInFlight := true);
    // end of file in buffer 0: the input is closed, no read outstanding
    var s4 := s3.(inOpen := false, inCloses := 1, buff := [[], b], count := [0, |b|],
                  isFull := [true, true], curRead := 1, isReading := false, readInFlight := false);
    // buffer 1 written: the write cursor reaches the end-of-file buffer, the output is closed
    var s5 := s4.(written := [a, b], isFull := [true, false], curWrite := 0, isWriting := false,
                  writeInFlight := false, outOpen := false, outCloses := 1);
    // both closes complete
    var s6 := s5.(closesDone := 1, refCount := 0, nClosed := 1);
    var s7 := s6.(closesDone := 2, refCount := -1);
    match k
    case 0 => s0 case 1 => s1 case 2 => s2 case 3 => s3
    case 4 => s4 case 5 => s5 case 6 => s6 case _ => s7
  }

  /** A completion the main loop can hand to the record. */
  datatype Event = ReadDone(n: int, data: seq<byte>) | WriteDone(n: int) | CloseDone

  /**
   * The record after one completion, or None when that completion cannot
   * arrive in state `p` (no such operation is outstanding).
   */
  ghost function Deliver(p: Pump, e: Event): (r: Option<Pump>)
    ensures r.Some? && e.ReadDone? ==> Shaped(p) && r.value == ReadStep(p, e.n, e.data)
    ensures r.Some? && e.WriteDone? ==> Shaped(p) && e.n <= |p.buff[p.curWrite]| && r.value == WriteStep(p, e.n)
    ensures r.Some? && e.CloseDone? ==> r.value == CloseStep(p)
  {
    match e
    case ReadDone(n, data) =>
      if Shaped(p) && p.readInFlight && (n >= 0 ==> |data| == n <= BufferSize)
      then Some(ReadStep(p, n, data)) else None
    case WriteDone(n) =>
      if Shaped(p) && p.writeInFlight && n <= p.count[p.curWrite] && n <= |p.buff[p.curWrite]|
      then Some(WriteStep(p, n)) else None
    case CloseDone =>
      if p.closesDone < AsyncCloses(p) then Some(CloseStep(p)) else None
  }

  /** The record after a run of completions, None if one of them cannot arrive. */
  ghost function Run(p: Pump, events: seq<Event>): Option<Pump>
    decreases |events|
  {
    if events == [] then Some(p)
    else match Deliver(p, events[0])
      case None => None
      case Some(q) => Run(q, events[1..])
  }

  /** Every completion that can arrive keeps the invariant. */
  lemma DeliverKeepsInv(p: Pump, e: Event)
    requires Inv(p) && Deliver(p, e).Some?
    ensures Inv(Deliver(p, e).value)
  {
    match e
    case ReadDone(n, data) => ReadStepKeepsInv(p, n, data);
    case WriteDone(n) => WriteStepKeepsInv(p, n);
    case CloseDone => CloseKeepsInv(p);
  }

  /** So does every run of them. */
  lemma {:induction false} RunKeepsInv(p: Pump, events: seq<Event>)
    requires Inv(p) && Run(p, events).Some?
    ensures Inv(Run(p, events).value)
    decreases |events|
  {
    if events != [] {
      DeliverKeepsInv(p, events[0]);
      RunKeepsInv(Deliver(p, events[0]).value, events[1..]);
    }
  }

  lemma TwoChunkFirstRead(a: seq<byte>, b: seq<byte>)
    requires 0 < |a| <= BufferSize && 0 < |b| <= BufferSize
    ensures Started() == TwoChunkState(a, b, 0)
    ensures Deliver(TwoChunkState(a, b, 0), ReadDone(|a|, a)) == Some(TwoChunkState(a, b, 1))
  {
    assert ReadStep(TwoChunkState(a, b, 0), |a|, a) == TwoChunkState(a, b, 1);
  }

  lemma TwoChunkLaterReads(a: seq<byte>, b: seq<byte>)
    requires 0 < |a| <= BufferSize && 0 < |b| <= BufferSize
    ensures Deliver(TwoChunkState(a, b, 2), ReadDone(|b|, b)) == Some(TwoChunkState(a, b, 3))
    ensures Deliver(TwoChunkState(a, b, 3), ReadDone(0, [])) == Some(TwoChunkState(a, b, 4))
  {
    assert ReadStep(TwoChunkState(a, b, 2), |b|, b) == TwoChunkState(a, b, 3);
    assert ReadStep(TwoChunkState(a, b, 3), 0, []) == TwoChunkState(a, b, 4);
  }

  lemma TwoChunkWrites(a: seq<byte>, b: seq<byte>)
    requires 0 < |a| <= BufferSize && 0 < |b| <= BufferSize
    ensures Deliver(TwoChunkState(a, b, 1), WriteDone(|a|)) == Some(TwoChunkState(a, b, 2))
    ensures Deliver(TwoChunkState(a, b, 4), WriteDone(|b|)) == Some(TwoChunkState(a, b, 5))
  {
    assert a[..|a|] == a && b[..|b|] == b;
    assert WriteStep(TwoChunkState(a, b, 1), |a|) == TwoChunkState(a, b, 2);
    assert WriteStep(TwoChunkState(a, b, 4), |b|) == TwoChunkState(a, b, 5);
  }

  lemma TwoChunkCloses(a: seq<byte>, b: seq<byte>)
    ensures Deliver(TwoChunkState(a, b, 5), CloseDone) == Some(TwoChunkState(a, b, 6))
    ensures Deliver(TwoChunkState(a, b, 6), CloseDone) == Some(TwoChunkState(a, b, 7))
  {
  }

  /** Reading a then b then end of file, each write taken whole. */
  function TwoChunkTrace(a: seq<byte>, b: seq<byte>): seq<Event>
  {
    [ReadDone(|a|, a), WriteDone(|a|), ReadDone(|b|, b), ReadDone(0, []), WriteDone(|b|), CloseDone, CloseDone]
  }

  /**
   * A two-chunk input copied to an output that takes every write whole,
   * the callbacks arriving in an order the scheduling allows: the output
   * receives both chunks in order and each stream is closed once. After
   * both closes have completed the reference count is -1 and n_closed is
   * 1, so the record is never released.
   */
  lemma CopyTwoChunks(a: seq<byte>, b: seq<byte>)
    requires 0 < |a| <= BufferSize && 0 < |b| <= BufferSize
    ensures var r := Run(Started(), TwoChunkTrace(a, b));
      && r.Some? && r.value.written == [a, b] && Flatten(r.value.written) == a + b
      && r.value.inCloses == 1 && r.value.outCloses == 1
      && r.value.refCount == -1 && r.value.nClosed == 1 && !r.value.freed
  {
    TwoChunkFirstRead(a, b);
    TwoChunkLaterReads(a, b);
    TwoChunkWrites(a, b);
    TwoChunkCloses(a, b);
    var es := TwoChunkTrace(a, b);
    var s := k => TwoChunkState(a, b, k);
    assert Run(s(7), es[7..]) == Some(s(7));
    assert Run(s(6), es[6..]) == Some(s(7)) by { assert es[6..][1..] == es[7..]; }
    assert Run(s(5), es[5..]) == Some(s(7)) by { assert es[5..][1..] == es[6..]; }
    assert Run(s(4), es[4..]) == Some(s(7)) by { assert es[4..][1..] == es[5..]; }
    assert Run(s(3), es[3..]) == Some(s(7)) by { assert es[3..][1..] == es[4..]; }
    assert Run(s(2), es[2..]) == Some(s(7)) by { assert es[2..][1..] == es[3..]; }
    assert Run(s(1), es[1..]) == Some(s(7)) by { assert es[1..][1..] == es[2..]; }
    assert Run(s(0), es) == Some(s(7));
    assert Flatten([b]) == b;
  }
}
