/**
 * The transfer state, readiness and progress logic of an EmpathyTpFile
 * (libempathy/empathy-tp-file.c): the callbacks `tp_file_get_all_cb`,
 * `tp_file_get_requested_cb`, `tp_file_invalidated_cb`,
 * `tp_file_state_changed_cb`, `tp_file_check_if_ready`,
 * `tp_file_got_contact_cb`, `tp_file_method_cb`, `tp_file_start_transfer`,
 * `tp_file_transferred_bytes_changed_cb`, `tp_file_stalled_cb` and the
 * public `empathy_tp_file_get_remaining_time`, `empathy_tp_file_get_speed`,
 * `empathy_tp_file_is_ready` and `empathy_tp_file_cancel`.
 *
 * Calls into Telepathy and GLib are recorded rather than performed: a
 * channel Close request bumps a counter, `g_object_notify` and
 * `g_signal_emit` append to a list of signals, `g_timeout_add_seconds`
 * hands out a fresh source id and `g_source_remove` drops it from the set
 * of live sources. The clock and the outcome of creating and connecting
 * the Unix socket are parameters.
 *
 * As in the copier, the record is specified on values: `Snap` is a
 * snapshot of the fields, one step function per callback says what the
 * callback does to it, `Inv` is the invariant they keep, and each method
 * of the class `TpFile` is proved to move its snapshot as its step
 * function says.
 */
module TpFileState {
  import opened Wrappers

  /** TpFileTransferState. */
  datatype TransferState = StateNone | Pending | Accepted | Open | Completed | Cancelled

  /** TpFileTransferStateChangeReason. */
  datatype ChangeReason = ReasonNone | Requested | LocalStopped | RemoteStopped | LocalError | RemoteError

  /** What the object tells its listeners: a property notification or the "refresh" signal. */
  datatype Signal = Notify(property: string) | Refresh

  /** The identity of a channel proxy: its bus name and object path. */
  datatype ChannelKey = ChannelKey(busName: string, objectPath: string)

  /** The socket address as the channel's Accept/Provide method returns it. */
  datatype AddressValue =
    | ByteArray(bytes: seq<bv8>)  // the 'ay' the interface specifies
    | Text(path: seq<bv8>)        // an 's', as sent by old telepathy-salut
    | OtherType                   // anything else

  const Two64: int := 0x1_0000_0000_0000_0000

  /**
   * EMPATHY_TP_FILE_UNKNOWN_SIZE, the largest guint64 (the header that
   * defines it, libempathy/empathy-tp-file.h, is not part of this model).
   */
  const UnknownSize: nat := 0xFFFF_FFFF_FFFF_FFFF

  /** STALLED_TIMEOUT, in seconds. */
  const StalledTimeout := 5

  /** guint64 subtraction: the difference taken modulo 2^64. */
  function Wrap64(x: int): (r: nat)
    ensures r < Two64
    ensures 0 <= x < Two64 ==> r == x
    ensures -Two64 <= x < 0 ==> r == x + Two64
  {
    x % Two64
  }

  /** Occurrences of `x` in `s`. */
  function Count<T(==)>(s: seq<T>, x: T): nat
  {
    if s == [] then 0 else (if s[0] == x then 1 else 0) + Count(s[1..], x)
  }

  lemma {:induction false} CountAppend<T>(s: seq<T>, t: seq<T>, x: T)
    ensures Count(s + t, x) == Count(s, x) + Count(t, x)
  {
    if s == [] {
      assert s + t == t;
    } else {
      assert (s + t)[1..] == s[1..] + t;
      CountAppend(s[1..], t, x);
    }
  }

  /* ---------------- Progress ---------------- */

  /** The fields the progress estimate works on. */
  datatype Progress = Progress(
    size: nat,          // priv->size
    transferred: nat,   // priv->transferred_bytes
    lastTime: int,      // priv->last_update_time
    lastBytes: nat,     // priv->last_update_transferred_bytes
    speed: real,        // priv->speed, bytes per second
    remaining: int      // priv->remaining_time, seconds
  )

  /**
   * Seconds left at `speed` bytes per second for `bytes` more bytes, in
   * whole seconds; -1 (unknown) when the speed is 0.
   */
  function Estimate(bytes: nat, speed: real): (r: int)
    requires speed >= 0.0
    ensures speed == 0.0 ==> r == -1
    ensures speed > 0.0 ==> r >= 0 && r as real * speed <= bytes as real < (r + 1) as real * speed
  {
    if speed > 0.0 then
      var x := bytes as real / speed;
      var f := x.Floor;
      assert f as real <= x < f as real + 1.0;
      ScaleLower(f as real, x, speed, bytes as real);
      ScaleUpper(f as real, x, speed, bytes as real);
      assert (f + 1) as real == f as real + 1.0;
      f
    else
      -1
  }

  /** Scaling `f <= x` by a positive `s`, where `x * s == b`. */
  lemma ScaleLower(f: real, x: real, s: real, b: real)
    requires s > 0.0 && f <= x && x * s == b
    ensures f * s <= b
  {
    var g := x - f;
    assert g * s >= 0.0;
    assert g * s == x * s - f * s;
  }

  /** Scaling `x < f + 1` by a positive `s`, where `x * s == b`. */
  lemma ScaleUpper(f: real, x: real, s: real, b: real)
    requires s > 0.0 && x < f + 1.0 && x * s == b
    ensures b < (f + 1.0) * s
  {
    var h := f + 1.0 - x;
    assert h * s > 0.0;
    assert h * s == (f + 1.0) * s - x * s;
  }

  /** Whether a byte-count update recomputes speed and remaining time. */
  predicate Recomputes(p: Progress, count: nat, now: int)
  {
    p.transferred != count && now - p.lastTime >= 1
  }

  /** The progress part of tp_file_transferred_bytes_changed_cb. */
  function ProgressStep(p: Progress, count: nat, now: int): (q: Progress)
    requires p.speed >= 0.0
    ensures q.speed >= 0.0
  {
    if p.transferred == count then p
    else if now - p.lastTime >= 1 then
      var speed := Wrap64(count - p.lastBytes) as real / (now - p.lastTime) as real;
      p.(transferred := count, speed := speed,
         remaining := Estimate(Wrap64(p.size - count), speed),
         lastBytes := count, lastTime := now)
    else
      p.(transferred := count)
  }

  /**
   * An update equal to the stored count changes nothing; any other update
   * stores the count; speed, remaining time and the snapshot change only
   * when at least one second has passed since the snapshot, and then the
   * speed is the bytes moved since the snapshot over the seconds elapsed
   * and the remaining time is what is left of the size at that speed.
   */
  lemma ProgressUpdate(p: Progress, count: nat, now: int)
    requires p.speed >= 0.0
    ensures var q := ProgressStep(p, count, now);
      && (count == p.transferred ==> q == p)
      && (count != p.transferred ==> q.transferred == count && q.size == p.size)
      && (count != p.transferred && !Recomputes(p, count, now) ==> q == p.(transferred := count))
      && (Recomputes(p, count, now) ==>
            && q.lastTime == now && q.lastBytes == count
            && q.speed * (now - p.lastTime) as real == Wrap64(count - p.lastBytes) as real
            && (q.speed == 0.0 ==> q.remaining == -1)
            && (q.speed > 0.0 ==>
                  q.remaining as real * q.speed <= Wrap64(p.size - count) as real
                  < (q.remaining + 1) as real * q.speed))
  {
  }

  /**
   * Speed and remaining time are recomputed at most once in any window of
   * less than a second: an update arriving less than a second after a
   * recomputation leaves them alone.
   */
  lemma AtMostOneRecomputePerSecond(p: Progress, c1: nat, t1: int, c2: nat, t2: int)
    requires p.speed >= 0.0 && Recomputes(p, c1, t1) && t2 < t1 + 1
    ensures var q := ProgressStep(p, c1, t1);
      var r := ProgressStep(q, c2, t2);
      r.speed == q.speed && r.remaining == q.remaining && r.lastTime == t1
  {
  }

  /** empathy_tp_file_get_remaining_time on a progress record. */
  function RemainingTimeOf(p: Progress): (r: int)
    ensures p.size == UnknownSize ==> r == -1
    ensures p.size != UnknownSize && p.transferred == p.size ==> r == 0
    ensures p.size != UnknownSize && p.transferred != p.size ==> r == p.remaining
  {
    if p.size == UnknownSize then -1
    else if p.transferred == p.size then 0
    else p.remaining
  }

  /** empathy_tp_file_get_speed on a progress record. */
  function SpeedOf(p: Progress): (r: real)
    ensures p.transferred == p.size ==> r == 0.0
    ensures p.transferred != p.size ==> r == p.speed
  {
    if p.transferred == p.size then 0.0 else p.speed
  }

  /**
   * Once the transferred count reaches a known size both getters report 0,
   * whatever was last estimated; for an unknown size the remaining time is
   * unknown.
   */
  lemma GettersAtCompletion(p: Progress, now: int)
    requires p.speed >= 0.0 && p.size < Two64
    ensures var q := ProgressStep(p, p.size, now);
      && SpeedOf(q) == 0.0
      && (p.size != UnknownSize ==> RemainingTimeOf(q) == 0)
      && (p.size == UnknownSize ==> RemainingTimeOf(q) == -1)
  {
  }

  /**
   * A 1000-byte transfer started at time 0: 400 bytes at time 1 give a
   * speed of 400 bytes per second and one second remaining; 1000 bytes at
   * time 2 complete it and both getters report 0.
   */
  lemma ProgressExample()
    ensures var p0 := Progress(1000, 0, 0, 0, 0.0, 0);
      var p1 := ProgressStep(p0, 400, 1);
      var p2 := ProgressStep(p1, 1000, 2);
      && p1.speed == 400.0 && p1.remaining == 1
      && RemainingTimeOf(p1) == 1 && SpeedOf(p1) == 400.0
      && RemainingTimeOf(p2) == 0 && SpeedOf(p2) == 0.0
  {
    var p0 := Progress(1000, 0, 0, 0, 0.0, 0);
    var p1 := ProgressStep(p0, 400, 1);
    assert p1.speed == 400.0;
    assert Estimate(600, 400.0) == 1;
  }

  /* ---------------- The record ---------------- */

  /** A snapshot of the fields of an EmpathyTpFile and of what it has asked of the outside. */
  datatype Snap = Snap(
    ready: bool,
    contact: Option<string>,        // priv->contact, by contact id
    state: TransferState,
    reason: ChangeReason,
    incoming: bool,
    progress: Progress,
    stalledId: nat,                 // priv->stalled_id; 0 when none was ever added
    socketAddress: Option<seq<bv8>>,
    hasCancellable: bool,           // priv->cancellable != NULL
    cancelled: bool,                // priv->cancellable has been cancelled
    // The outside world.
    liveSources: set<nat>,          // stall timeouts added and neither removed nor fired
    nextSourceId: nat,              // the id the next timeout will get
    closeRequests: nat,             // Close calls made on the channel
    copiesStarted: nat,             // copy_stream calls
    signals: seq<Signal>            // notifications and signals emitted, in order
  )

  ghost predicate Inv(s: Snap)
  {
    && s.progress.size < Two64 && s.progress.transferred < Two64 && s.progress.lastBytes < Two64
    && s.progress.speed >= 0.0 && s.progress.remaining >= -1
    // "ready" turns on once, after the contact is known, and is notified once
    && (s.ready ==> s.contact.Some?)
    && Count(s.signals, Notify("ready")) == (if s.ready then 1 else 0)
    // only the cancellable of a started copy can be cancelled
    && (s.cancelled ==> s.hasCancellable)
    && (s.hasCancellable <==> s.copiesStarted > 0)
    // source ids come from the counter
    && 0 < s.nextSourceId && s.stalledId < s.nextSourceId
    && (forall id :: id in s.liveSources ==> 0 < id < s.nextSourceId)
  }

  /** The record as g_object_new leaves it: every field zero. */
  function Initial(): (s: Snap)
    ensures Inv(s)
  {
    Snap(false, None, StateNone, ReasonNone, false, Progress(0, 0, 0, 0, 0.0, 0), 0, None,
         false, false, {}, 1, 0, 0, [])
  }

  /** Append a signal, keeping the count of "ready" notifications. */
  lemma EmitKeepsReadyCount(s: seq<Signal>, x: Signal)
    ensures Count(s + [x], Notify("ready")) == Count(s, Notify("ready")) + (if x == Notify("ready") then 1 else 0)
  {
    CountAppend(s, [x], Notify("ready"));
  }

  /** empathy_tp_file_cancel: ask the channel to close, cancel the copy if one was started. */
  function CancelStep(s: Snap): Snap
  {
    s.(closeRequests := s.closeRequests + 1, cancelled := s.cancelled || s.hasCancellable)
  }

  lemma CancelKeepsInv(s: Snap)
    requires Inv(s)
    ensures var t := CancelStep(s);
      && Inv(t) && t.closeRequests == s.closeRequests + 1
      && t.cancelled == s.hasCancellable && t.state == s.state && t.copiesStarted == s.copiesStarted
      && t.ready == s.ready && t.signals == s.signals
  {
  }

  /**
   * tp_file_start_transfer after the socket address is known: `connected`
   * says whether creating and connecting the Unix socket succeeded.
   */
  function StartTransferStep(s: Snap, connected: bool, now: int): Snap
  {
    if connected then CopyStartedStep(s, now) else CancelStep(s)
  }

  /**
   * The connected half of tp_file_start_transfer: take the progress
   * snapshot, arm a stall timeout, make a fresh cancellable, start a copy.
   */
  function CopyStartedStep(s: Snap, now: int): Snap
  {
    var id := s.nextSourceId;
    s.(progress := s.progress.(lastTime := now, lastBytes := s.progress.transferred),
       stalledId := id, liveSources := s.liveSources + {id}, nextSourceId := id + 1,
       hasCancellable := true, cancelled := false,
       copiesStarted := s.copiesStarted + 1)
  }

  /**
   * A failed socket cancels the transfer; otherwise the progress snapshot
   * is taken now, a stall timeout is armed, a fresh cancellable is made and
   * exactly one copy is started. The transfer state is not touched.
   */
  lemma StartTransferKeepsInv(s: Snap, connected: bool, now: int)
    requires Inv(s)
    ensures var t := StartTransferStep(s, connected, now);
      && Inv(t) && t.state == s.state && t.ready == s.ready && t.signals == s.signals
      && (!connected ==> t == CancelStep(s))
      && (connected ==>
            && t.copiesStarted == s.copiesStarted + 1 && t.closeRequests == s.closeRequests
            && t.hasCancellable && !t.cancelled
            && t.progress.lastTime == now && t.progress.lastBytes == s.progress.transferred
            && t.stalledId in t.liveSources && t.stalledId !in s.liveSources)
  {
  }

  /** tp_file_state_changed_cb. */
  function StateChangedStep(s: Snap, state: TransferState, reason: ChangeReason, connected: bool, now: int): Snap
  {
    if state == s.state then s
    else
      var s1 := if state == Open && s.socketAddress.Some? then StartTransferStep(s, connected, now) else s;
      s1.(state := state, reason := reason, signals := s1.signals + [Notify("state")])
  }

  /**
   * A change to the current state is ignored. Any other change is committed
   * with its reason and notified; when the new state is Open and the
   * socket address is known, the transfer is started first, and only then.
   */
  lemma StateChangedKeepsInv(s: Snap, state: TransferState, reason: ChangeReason, connected: bool, now: int)
    requires Inv(s)
    ensures var t := StateChangedStep(s, state, reason, connected, now);
      && Inv(t) && t.ready == s.ready && s.signals <= t.signals
      && (state == s.state ==> t == s)
      && (state != s.state ==>
            && t.state == state && t.reason == reason
            && t.signals[|t.signals| - 1] == Notify("state")
            && (state == Open && s.socketAddress.Some? ==>
                  t == StartTransferStep(s, connected, now).(state := state, reason := reason,
                         signals := StartTransferStep(s, connected, now).signals + [Notify("state")]))
            && (!(state == Open && s.socketAddress.Some?) ==>
                  t.copiesStarted == s.copiesStarted && t.closeRequests == s.closeRequests))
  {
    if state != s.state {
      var s1 := if state == Open && s.socketAddress.Some? then StartTransferStep(s, connected, now) else s;
      StartTransferKeepsInv(s, connected, now);
      EmitKeepsReadyCount(s1.signals, Notify("state"));
    }
  }

  /** tp_file_invalidated_cb. */
  function InvalidatedStep(s: Snap): Snap
  {
    if s.state != Completed && s.state != Cancelled then
      s.(state := Cancelled, reason := LocalError, signals := s.signals + [Notify("state")])
    else
      s
  }

  /**
   * Invalidation of an unfinished channel cancels it with a local error;
   * a completed or cancelled one is left alone.
   */
  lemma InvalidatedKeepsInv(s: Snap)
    requires Inv(s)
    ensures var t := InvalidatedStep(s);
      && Inv(t) && t.state in {Completed, Cancelled} && t.ready == s.ready && s.signals <= t.signals
      && (s.state in {Completed, Cancelled} ==> t == s)
      && (s.state !in {Completed, Cancelled} ==>
            t.state == Cancelled && t.reason == LocalError && t.signals == s.signals + [Notify("state")])
  {
    EmitKeepsReadyCount(s.signals, Notify("state"));
  }

  /** tp_file_check_if_ready. */
  function CheckIfReadyStep(s: Snap): Snap
  {
    if s.ready || s.contact.None? || s.state == StateNone then s
    else s.(ready := true, signals := s.signals + [Notify("ready")])
  }

  /**
   * The record becomes ready exactly when it was not, the contact is known
   * and the state is not None; readiness is never withdrawn.
   */
  lemma CheckIfReadyKeepsInv(s: Snap)
    requires Inv(s)
    ensures var t := CheckIfReadyStep(s);
      && Inv(t) && t.ready
         == (s.ready || (s.contact.Some? && s.state != StateNone))
      && (!s.ready && t.ready ==> t.signals == s.signals + [Notify("ready")])
      && (s.ready ==> t == s) && s.signals <= t.signals
  {
    EmitKeepsReadyCount(s.signals, Notify("ready"));
  }

  /** tp_file_got_contact_cb. */
  function GotContactStep(s: Snap, reply: Result<string>): Snap
  {
    if reply.Failure? then CancelStep(s)
    else CheckIfReadyStep(s.(contact := Some(reply.value)))
  }

  lemma GotContactKeepsInv(s: Snap, reply: Result<string>)
    requires Inv(s)
    ensures var t := GotContactStep(s, reply);
      && Inv(t) && (s.ready ==> t.ready) && s.signals <= t.signals
      && (reply.Failure? ==> t == CancelStep(s))
      && (reply.Success? ==>
            t.contact == Some(reply.value) && t.ready == (s.ready || s.state != StateNone))
  {
    if reply.Success? {
      CheckIfReadyKeepsInv(s.(contact := Some(reply.value)));
    }
  }

  /** tp_file_method_cb: the reply to AcceptFile or ProvideFile. */
  function MethodStep(s: Snap, reply: Result<AddressValue>, connected: bool, now: int): Snap
  {
    if reply.Failure? || reply.value.OtherType? then CancelStep(s)
    else
      var address := if reply.value.ByteArray? then reply.value.bytes else reply.value.path;
      var s1 := s.(socketAddress := Some(address));
      if s1.state == Open then StartTransferStep(s1, connected, now) else s1
  }

  /**
   * An error or an address of the wrong type cancels; otherwise the address
   * is stored (a string path as its bytes), and the transfer is started
   * right away if the channel is already Open.
   */
  lemma MethodKeepsInv(s: Snap, reply: Result<AddressValue>, connected: bool, now: int)
    requires Inv(s)
    ensures var t := MethodStep(s, reply, connected, now);
      && Inv(t) && t.ready == s.ready && s.signals <= t.signals
      && (reply.Failure? || reply.value.OtherType? ==> t == CancelStep(s))
      && (reply.Success? && reply.value.ByteArray? ==> t.socketAddress == Some(reply.value.bytes))
      && (reply.Success? && reply.value.Text? ==> t.socketAddress == Some(reply.value.path))
      && (reply.Success? && !reply.value.OtherType? && s.state == Open && connected ==>
            t.copiesStarted == s.copiesStarted + 1)
      && (reply.Success? && !reply.value.OtherType? && s.state != Open ==>
            t.copiesStarted == s.copiesStarted && t.closeRequests == s.closeRequests)
  {
    if reply.Success? && !reply.value.OtherType? {
      var address := if reply.value.ByteArray? then reply.value.bytes else reply.value.path;
      StartTransferKeepsInv(s.(socketAddress := Some(address)), connected, now);
    }
  }

  /** tp_file_transferred_bytes_changed_cb. */
  function TransferredBytesStep(s: Snap, count: nat, now: int): Snap
    requires s.progress.speed >= 0.0
  {
    if s.progress.transferred == count then s
    else
      var kept := if s.stalledId != 0 then s.liveSources - {s.stalledId} else s.liveSources;
      var id := s.nextSourceId;
      var refresh := if Recomputes(s.progress, count, now) then [Refresh] else [];
      s.(progress := ProgressStep(s.progress, count, now),
         liveSources := kept + {id}, stalledId := id, nextSourceId := id + 1,
         signals := s.signals + [Notify("transferred-bytes")] + refresh)
  }

  /**
   * An update equal to the stored count is ignored. Any other update is
   * stored and notified, and the stall timeout is re-armed: the previous
   * one is removed and a fresh one is the only one the record points at.
   * "refresh" is emitted exactly when speed and remaining time are
   * recomputed.
   */
  lemma TransferredBytesKeepsInv(s: Snap, count: nat, now: int)
    requires Inv(s) && count < Two64
    ensures var t := TransferredBytesStep(s, count, now);
      && Inv(t) && t.ready == s.ready && s.signals <= t.signals
      && (count == s.progress.transferred ==> t == s)
      && (count != s.progress.transferred ==>
            && t.progress == ProgressStep(s.progress, count, now)
            && t.stalledId in t.liveSources && s.stalledId !in t.liveSources
            && t.liveSources - {t.stalledId} <= s.liveSources
            && t.signals[|s.signals|] == Notify("transferred-bytes")
            && (|t.signals| == |s.signals| + 2 <==> Recomputes(s.progress, count, now))
            && t.state == s.state && t.ready == s.ready)
  {
    if count != s.progress.transferred {
      ProgressUpdate(s.progress, count, now);
      var refresh := if Recomputes(s.progress, count, now) then [Refresh] else [];
      CountAppend(s.signals, [Notify("transferred-bytes")] + refresh, Notify("ready"));
      assert Count(refresh, Notify("ready")) == 0;
      assert s.signals + [Notify("transferred-bytes")] + refresh
          == s.signals + ([Notify("transferred-bytes")] + refresh);
    }
  }

  /** tp_file_stalled_cb, run by the live timeout `id`. */
  function StalledStep(s: Snap, id: nat): Snap
  {
    s.(progress := s.progress.(speed := 0.0, remaining := -1),
       signals := s.signals + [Refresh],
       liveSources := s.liveSources - {id})
  }

  /**
   * A stall sets the speed to 0 and the remaining time to unknown and
   * emits "refresh"; the timeout does not repeat, but stalled_id keeps
   * naming it, so the next byte-count update removes a source that is
   * already gone.
   */
  lemma StalledKeepsInv(s: Snap, id: nat)
    requires Inv(s) && id in s.liveSources
    ensures var t := StalledStep(s, id);
      && Inv(t)
      && t.progress.speed == 0.0 && t.progress.remaining == -1
      && t.signals == s.signals + [Refresh] && t.ready == s.ready
      && id !in t.liveSources && t.stalledId == s.stalledId
      && (s.stalledId == id ==> t.stalledId != 0 && t.stalledId !in t.liveSources)
  {
    EmitKeepsReadyCount(s.signals, Refresh);
  }

  /** The channel properties tp_file_get_all_cb keeps: Size, State and TransferredBytes. */
  datatype Properties = Properties(size: nat, state: TransferState, transferred: nat)

  /** The notifications tp_file_get_all_cb emits, in order. */
  const GetAllNotifications: seq<Signal> :=
    [Notify("size"), Notify("state"), Notify("transferred-bytes"), Notify("filename"),
     Notify("content-hash"), Notify("content-hash-type"), Notify("content-type")]

  /** A list without "ready" notifications leaves their count alone when appended. */
  lemma {:induction false} CountAbsent(s: seq<Signal>, xs: seq<Signal>)
    requires forall i | 0 <= i < |xs| :: xs[i] != Notify("ready")
    ensures Count(s + xs, Notify("ready")) == Count(s, Notify("ready"))
    decreases |xs|
  {
    if xs == [] {
      assert s + xs == s;
    } else {
      EmitKeepsReadyCount(s, xs[0]);
      assert s + xs == (s + [xs[0]]) + xs[1..];
      CountAbsent(s + [xs[0]], xs[1..]);
    }
  }

  /** An error reply to a property request: the channel is asked to close, nothing else. */
  function RequestCloseStep(s: Snap): Snap
  {
    s.(closeRequests := s.closeRequests + 1)
  }

  /** The stores and notifications of tp_file_get_all_cb, before its readiness check. */
  function StoreProperties(s: Snap, props: Properties): Snap
  {
    s.(progress := s.progress.(size := props.size, transferred := props.transferred),
       state := props.state, signals := s.signals + GetAllNotifications)
  }

  /** tp_file_get_all_cb. */
  function GotAllStep(s: Snap, reply: Result<Properties>): Snap
  {
    if reply.Failure? then RequestCloseStep(s)
    else CheckIfReadyStep(StoreProperties(s, reply.value))
  }

  lemma StorePropertiesKeepsInv(s: Snap, props: Properties)
    requires Inv(s) && props.size < Two64 && props.transferred < Two64
    ensures Inv(StoreProperties(s, props))
  {
    CountAbsent(s.signals, GetAllNotifications);
  }

  /**
   * An error asks the channel to close. Otherwise size, state and
   * transferred bytes take the channel's values, each is notified, and the
   * record becomes ready if the contact is already known and the state is
   * not None; no copy is started, whatever the state.
   */
  lemma GotAllKeepsInv(s: Snap, reply: Result<Properties>)
    requires Inv(s)
    requires reply.Success? ==> reply.value.size < Two64 && reply.value.transferred < Two64
    ensures var t := GotAllStep(s, reply);
      && Inv(t) && (s.ready ==> t.ready) && s.signals <= t.signals
      && (reply.Failure? ==> t == RequestCloseStep(s))
      && (reply.Success? ==>
            && t.progress.size == reply.value.size && t.progress.transferred == reply.value.transferred
            && t.state == reply.value.state
            && t.signals[|s.signals|..|s.signals| + |GetAllNotifications|] == GetAllNotifications
            && t.ready == (s.ready || (s.contact.Some? && reply.value.state != StateNone))
            && t.copiesStarted == s.copiesStarted && t.closeRequests == s.closeRequests)
  {
    if reply.Success? {
      StorePropertiesKeepsInv(s, reply.value);
      CheckIfReadyKeepsInv(StoreProperties(s, reply.value));
    }
  }

  /** tp_file_get_requested_cb: a channel the local side did not request is incoming. */
  function GotRequestedStep(s: Snap, reply: Result<bool>): Snap
  {
    if reply.Failure? then RequestCloseStep(s)
    else CheckIfReadyStep(s.(incoming := !reply.value, signals := s.signals + [Notify("incoming")]))
  }

  lemma GotRequestedKeepsInv(s: Snap, reply: Result<bool>)
    requires Inv(s)
    ensures var t := GotRequestedStep(s, reply);
      && Inv(t) && (s.ready ==> t.ready) && s.signals <= t.signals
      && (reply.Failure? ==> t == RequestCloseStep(s))
      && (reply.Success? ==>
            && t.incoming == !reply.value && t.signals[|s.signals|] == Notify("incoming")
            && t.ready == (s.ready || (s.contact.Some? && s.state != StateNone))
            && t.state == s.state && t.progress == s.progress)
  {
    if reply.Success? {
      EmitKeepsReadyCount(s.signals, Notify("incoming"));
      CheckIfReadyKeepsInv(s.(incoming := !reply.value, signals := s.signals + [Notify("incoming")]));
    }
  }

  /* ---------------- Sequences of callbacks ---------------- */

  /** Everything that can happen to the record from outside, with its result. */
  datatype Callback =
    | CancelCall
    | GotAllReply(props: Result<Properties>)
    | GotRequestedReply(requested: Result<bool>)
    | GotContactReply(contactId: Result<string>)
    | StateChange(newState: TransferState, newReason: ChangeReason, connected: bool, now: int)
    | Invalidation
    | MethodReply(address: Result<AddressValue>, connected: bool, now: int)
    | BytesUpdate(count: nat, now: int)
    | StallTimeout(id: nat)

  /**
   * The callback applied to the record, when it can arrive: guint64
   * values fit in 64 bits, and only a live timeout fires.
   */
  ghost function Apply(s: Snap, c: Callback): (r: Option<Snap>)
    ensures r.None? <==> (c.GotAllReply? && c.props.Success? && !(c.props.value.size < Two64 && c.props.value.transferred < Two64))
                         || (c.BytesUpdate? && !(c.count < Two64 && s.progress.speed >= 0.0))
                         || (c.StallTimeout? && c.id !in s.liveSources)
  {
    match c
    case CancelCall => Some(CancelStep(s))
    case GotAllReply(props) =>
      if props.Success? && !(props.value.size < Two64 && props.value.transferred < Two64) then None
      else Some(GotAllStep(s, props))
    case GotRequestedReply(requested) => Some(GotRequestedStep(s, requested))
    case GotContactReply(contactId) => Some(GotContactStep(s, contactId))
    case StateChange(state, reason, connected, now) => Some(StateChangedStep(s, state, reason, connected, now))
    case Invalidation => Some(InvalidatedStep(s))
    case MethodReply(address, connected, now) => Some(MethodStep(s, address, connected, now))
    case BytesUpdate(count, now) =>
      if count < Two64 && s.progress.speed >= 0.0 then Some(TransferredBytesStep(s, count, now)) else None
    case StallTimeout(id) => if id in s.liveSources then Some(StalledStep(s, id)) else None
  }

  /** The callbacks applied in order; None when one of them cannot arrive. */
  ghost function Run(s: Snap, cs: seq<Callback>): Option<Snap>
    decreases |cs|
  {
    if cs == [] then Some(s)
    else match Apply(s, cs[0])
      case None => None
      case Some(s1) => Run(s1, cs[1..])
  }

  /** Every callback keeps the invariant, never withdraws readiness and only adds signals. */
  lemma ApplyKeepsInv(s: Snap, c: Callback)
    requires Inv(s) && Apply(s, c).Some?
    ensures var t := Apply(s, c).value;
      Inv(t) && (s.ready ==> t.ready) && s.signals <= t.signals
  {
    match c
    case CancelCall => CancelKeepsInv(s);
    case GotAllReply(props) => GotAllKeepsInv(s, props);
    case GotRequestedReply(requested) => GotRequestedKeepsInv(s, requested);
    case GotContactReply(contactId) => GotContactKeepsInv(s, contactId);
    case StateChange(state, reason, connected, now) => StateChangedKeepsInv(s, state, reason, connected, now);
    case Invalidation => InvalidatedKeepsInv(s);
    case MethodReply(address, connected, now) => MethodKeepsInv(s, address, connected, now);
    case BytesUpdate(count, now) => TransferredBytesKeepsInv(s, count, now);
    case StallTimeout(id) => StalledKeepsInv(s, id);
  }

  /**
   * Over any sequence of callbacks: the invariant holds, "ready" is never
   * withdrawn once set and is notified at most once, and the signals
   * emitted before stay emitted.
   */
  lemma {:induction false} RunKeepsInv(s: Snap, cs: seq<Callback>)
    requires Inv(s) && Run(s, cs).Some?
    ensures var t := Run(s, cs).value;
      && Inv(t) && (s.ready ==> t.ready) && s.signals <= t.signals
      && Count(t.signals, Notify("ready")) <= 1
    decreases |cs|
  {
    if cs != [] {
      ApplyKeepsInv(s, cs[0]);
      RunKeepsInv(Apply(s, cs[0]).value, cs[1..]);
    }
  }

  /**
   * A new object whose properties arrive with a state other than None and
   * whose contact is then found becomes ready, with one "ready"
   * notification, as the last signal.
   */
  lemma ReadyAfterPropertiesAndContact(props: Properties, contactId: string)
    requires props.size < Two64 && props.transferred < Two64 && props.state != StateNone
    ensures var r := Run(Initial(), [GotAllReply(Success(props)), GotContactReply(Success(contactId))]);
      && r.Some? && r.value.ready && r.value.contact == Some(contactId)
      && r.value.signals == GetAllNotifications + [Notify("ready")]
  {
    var s1 := GotAllStep(Initial(), Success(props));
    assert s1 == StoreProperties(Initial(), props);
    var cs := [GotAllReply(Success(props)), GotContactReply(Success(contactId))];
    assert cs[1..] == [GotContactReply(Success(contactId))];
    assert Run(s1, cs[1..]) == Some(GotContactStep(s1, Success(contactId)));
  }

  /** An EmpathyTpFile. */
  class TpFile {
    const channel: ChannelKey
    var ready: bool
    var contact: Option<string>
    var state: TransferState
    var reason: ChangeReason
    var incoming: bool
    var size: nat
    var transferredBytes: nat
    var lastUpdateTime: int
    var lastUpdateBytes: nat
    var speed: real
    var remainingTime: int
    var stalledId: nat
    var socketAddress: Option<seq<bv8>>
    var hasCancellable: bool
    var cancelled: bool

    // The outside world, as in Snap.
    ghost var liveSources: set<nat>
    var nextSourceId: nat
    var closeRequests: nat
    var copiesStarted: nat
    var signals: seq<Signal>

    function Prog(): Progress
      reads this
    {
      Progress(size, transferredBytes, lastUpdateTime, lastUpdateBytes, speed, remainingTime)
    }

    ghost function Fields(): Snap
      reads this
    {
      Snap(ready, contact, state, reason, incoming, Prog(), stalledId, socketAddress,
           hasCancellable, cancelled, liveSources, nextSourceId, closeRequests, copiesStarted, signals)
    }

    ghost predicate Valid()
      reads this
    {
      Inv(Fields())
    }

    /** g_object_new followed by tp_file_constructor, for `channel`. */
    constructor (channel: ChannelKey)
      ensures Valid() && this.channel == channel && Fields() == Initial()
    {
      this.channel := channel;
      ready, contact, state, reason, incoming := false, None, StateNone, ReasonNone, false;
      size, transferredBytes, lastUpdateTime, lastUpdateBytes := 0, 0, 0, 0;
      speed, remainingTime, stalledId, socketAddress := 0.0, 0, 0, None;
      hasCancellable, cancelled := false, false;
      liveSources, nextSourceId, closeRequests, copiesStarted, signals := {}, 1, 0, 0, [];
    }

    /** empathy_tp_file_get_remaining_time. */
    function RemainingTime(): (r: int)
      reads this
      ensures size == UnknownSize ==> r == -1
      ensures size != UnknownSize && transferredBytes == size ==> r == 0
      ensures size != UnknownSize && transferredBytes != size ==> r == remainingTime
    {
      RemainingTimeOf(Prog())
    }

    /** empathy_tp_file_get_speed. */
    function Speed(): (r: real)
      reads this
      ensures transferredBytes == size ==> r == 0.0
      ensures transferredBytes != size ==> r == speed
    {
      SpeedOf(Prog())
    }

    /** empathy_tp_file_is_ready. */
    function IsReady(): (r: bool)
      reads this
      ensures r ==> Valid() ==> contact.Some?
    {
      ready
    }

    /** empathy_tp_file_cancel. */
    method Cancel()
      requires Valid()
      modifies this
      ensures Valid() && Fields() == CancelStep(old(Fields()))
    {
      CancelKeepsInv(Fields());
      closeRequests := closeRequests + 1;
      if hasCancellable {
        cancelled := true;
      }
    }

    /** tp_file_start_transfer; `connected` is the outcome of socket() and connect(). */
    method StartTransfer(connected: bool, now: int)
      requires Valid()
      modifies this
      ensures Valid() && Fields() == StartTransferStep(old(Fields()), connected, now)
    {
      StartTransferKeepsInv(Fields(), connected, now);
      if !connected {
        Cancel();
        return;
      }
      ghost var s := Fields();
      StartCopy(now);
      assert Prog() == s.progress.(lastTime := now, lastBytes := s.progress.transferred);
    }

    /** The connected half of tp_file_start_transfer. */
    method StartCopy(now: int)
      modifies this
      ensures lastUpdateTime == now && lastUpdateBytes == transferredBytes
      ensures stalledId == old(nextSourceId) && liveSources == old(liveSources) + {stalledId}
      ensures nextSourceId == stalledId + 1 && hasCancellable && !cancelled
      ensures copiesStarted == old(copiesStarted) + 1
      ensures unchanged(this`ready, this`contact, this`state, this`reason, this`incoming, this`size,
                        this`transferredBytes, this`speed, this`remainingTime, this`socketAddress,
                        this`closeRequests, this`signals)
    {
      var id := nextSourceId;
      // the snapshot, the stall timeout, a fresh cancellable, and the copy itself
      lastUpdateTime, lastUpdateBytes, stalledId, liveSources, nextSourceId,
        hasCancellable, cancelled, copiesStarted :=
        now, transferredBytes, id, liveSources + {id}, id + 1, true, false, copiesStarted + 1;
    }

    /** tp_file_state_changed_cb. */
    method StateChanged(newState: TransferState, newReason: ChangeReason, connected: bool, now: int)
      requires Valid()
      modifies this
      ensures Valid() && Fields() == StateChangedStep(old(Fields()), newState, newReason, connected, now)
    {
      StateChangedKeepsInv(Fields(), newState, newReason, connected, now);
      if newState == state {
        return;
      }
      if newState == Open && socketAddress.Some? {
        StartTransfer(connected, now);
      }
      CommitState(newState, newReason);
    }

    /** Store a new state and reason and notify "state". */
    method CommitState(newState: TransferState, newReason: ChangeReason)
      modifies this
      ensures Fields() == old(Fields()).(state := newState, reason := newReason,
                                         signals := old(signals) + [Notify("state")])
    {
      state := newState;
      reason := newReason;
      signals := signals + [Notify("state")];
    }

    /** tp_file_invalidated_cb. */
    method Invalidated()
      requires Valid()
      modifies this
      ensures Valid() && Fields() == InvalidatedStep(old(Fields()))
    {
      InvalidatedKeepsInv(Fields());
      if state != Completed && state != Cancelled {
        CommitState(Cancelled, LocalError);
      }
    }

    /** tp_file_check_if_ready. */
    method CheckIfReady()
      requires Valid()
      modifies this
      ensures Valid() && Fields() == CheckIfReadyStep(old(Fields()))
    {
      CheckIfReadyKeepsInv(Fields());
      if ready || contact.None? || state == StateNone {
        return;
      }
      ready := true;
      signals := signals + [Notify("ready")];
    }

    /** tp_file_got_contact_cb. */
    method GotContact(reply: Result<string>)
      requires Valid()
      modifies this
      ensures Valid() && Fields() == GotContactStep(old(Fields()), reply)
    {
      GotContactKeepsInv(Fields(), reply);
      if reply.Failure? {
        Cancel();
        return;
      }
      contact := Some(reply.value);
      CheckIfReady();
    }

    /** tp_file_get_all_cb, with the Size, State and TransferredBytes the channel reported. */
    method GotAll(reply: Result<Properties>)
      requires Valid()
      requires reply.Success? ==> reply.value.size < Two64 && reply.value.transferred < Two64
      modifies this
      ensures Valid() && Fields() == GotAllStep(old(Fields()), reply)
    {
      GotAllKeepsInv(Fields(), reply);
      if reply.Failure? {
        closeRequests := closeRequests + 1;
        return;
      }
      StorePropertiesKeepsInv(Fields(), reply.value);
      SetProperties(reply.value);
      CheckIfReady();
    }

    /** Store the reported properties and notify each of them. */
    method SetProperties(props: Properties)
      modifies this
      ensures Fields() == StoreProperties(old(Fields()), props)
    {
      size, state, transferredBytes := props.size, props.state, props.transferred;
      signals := signals + GetAllNotifications;
    }

    /** tp_file_get_requested_cb, with the channel's Requested property. */
    method GotRequested(reply: Result<bool>)
      requires Valid()
      modifies this
      ensures Valid() && Fields() == GotRequestedStep(old(Fields()), reply)
    {
      GotRequestedKeepsInv(Fields(), reply);
      if reply.Failure? {
        closeRequests := closeRequests + 1;
        return;
      }
      EmitKeepsReadyCount(signals, Notify("incoming"));
      SetIncoming(!reply.value);
      CheckIfReady();
    }

    /** Store the direction and notify "incoming". */
    method SetIncoming(isIncoming: bool)
      modifies this
      ensures Fields() == old(Fields()).(incoming := isIncoming, signals := old(signals) + [Notify("incoming")])
    {
      incoming, signals := isIncoming, signals + [Notify("incoming")];
    }

    /** tp_file_method_cb. */
    method MethodReturned(reply: Result<AddressValue>, connected: bool, now: int)
      requires Valid()
      modifies this
      ensures Valid() && Fields() == MethodStep(old(Fields()), reply, connected, now)
    {
      MethodKeepsInv(Fields(), reply, connected, now);
      if reply.Failure? || reply.value.OtherType? {
        Cancel();
        return;
      }
      var address := if reply.value.ByteArray? then reply.value.bytes else reply.value.path;
      socketAddress := Some(address);
      if state == Open {
        StartTransfer(connected, now);
      }
    }

    /** tp_file_transferred_bytes_changed_cb. */
    method TransferredBytesChanged(count: nat, now: int)
      requires Valid() && count < Two64
      modifies this
      ensures Valid() && Fields() == TransferredBytesStep(old(Fields()), count, now)
    {
      TransferredBytesKeepsInv(Fields(), count, now);
      if transferredBytes == count {
        return;
      }
      var p := Prog();
      transferredBytes := count;
      signals := signals + [Notify("transferred-bytes")];
      RearmStall();
      UpdateProgress(p, count, now);
    }

    /** Remove the current stall timeout, if one was ever added, and add a fresh one. */
    method RearmStall()
      modifies this
      ensures var id := old(nextSourceId);
        var kept := if old(stalledId) != 0 then old(liveSources) - {old(stalledId)} else old(liveSources);
        Fields() == old(Fields()).(liveSources := kept + {id}, stalledId := id, nextSourceId := id + 1)
    {
      if stalledId != 0 {
        liveSources := liveSources - {stalledId};
      }
      stalledId := nextSourceId;
      liveSources := liveSources + {nextSourceId};
      nextSourceId := nextSourceId + 1;
    }

    /**
     * Recompute speed and remaining time from the snapshot when a second
     * has passed, after `transferredBytes` was set to `count` from `p`.
     */
    method UpdateProgress(p: Progress, count: nat, now: int)
      requires p.speed >= 0.0 && p.transferred != count
      requires Prog() == p.(transferred := count)
      modifies this
      ensures Fields() == old(Fields()).(progress := ProgressStep(p, count, now),
                signals := old(signals) + if Recomputes(p, count, now) then [Refresh] else [])
    {
      var elapsed := now - lastUpdateTime;
      if elapsed >= 1 {
        var moved := Wrap64(count - lastUpdateBytes);
        speed := moved as real / elapsed as real;
        remainingTime := Estimate(Wrap64(size - count), speed);
        lastUpdateBytes := count;
        lastUpdateTime := now;
        signals := signals + [Refresh];
      }
    }

    /** tp_file_stalled_cb, run by the live timeout `id`; the source is not renewed. */
    method StalledFired(id: nat)
      requires Valid() && id in liveSources
      modifies this
      ensures Valid() && Fields() == StalledStep(old(Fields()), id)
    {
      StalledKeepsInv(Fields(), id);
      liveSources := liveSources - {id};
      speed := 0.0;
      remainingTime := -1;
      signals := signals + [Refresh];
    }
  }
}
