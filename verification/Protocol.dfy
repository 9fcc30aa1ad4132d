/** Frames, routes and the envelope that carries a frame to another node. */
module Protocol {
  import opened Identity

  newtype Byte = x: int | 0 <= x < 256

  datatype FrameKind = Text | Binary | CloseFrame

  datatype Frame = Frame(kind: FrameKind, payload: seq<Byte>)

  /** Where one session of a user lives. */
  datatype Route = Route(user: UserId, session: SessionId, node: NodeId)

  datatype Envelope = Envelope(user: UserId, kind: FrameKind, payload: seq<Byte>)

  function Wrap(user: UserId, frame: Frame): Envelope {
    Envelope(user, frame.kind, frame.payload)
  }

  function Unwrap(envelope: Envelope): Frame {
    Frame(envelope.kind, envelope.payload)
  }

  function Closing(reason: seq<Byte>): Frame {
    Frame(CloseFrame, reason)
  }

  /** The bytes of an ASCII literal. */
  function Ascii(text: string): (bytes: seq<Byte>)
    ensures |bytes| == |text|
    ensures forall i :: 0 <= i < |text| ==> bytes[i] as int == text[i] as int % 256
  {
    seq(|text|, i requires 0 <= i < |text| => (text[i] as int % 256) as Byte)
  }

  const REPLACED: seq<Byte> := Ascii("replaced by a newer connection")
  const UNREGISTERED: seq<Byte> := Ascii("unregistered")
  const QUEUE_FULL: seq<Byte> := Ascii("write queue full")
  const RECEIVER_CLOSED: seq<Byte> := Ascii("receiver closed")
}

/** Durations and instants in nanoseconds on one clock, and its millisecond readings. */
module Clock {

  const NANOS_PER_MILLI: nat := 1_000_000
  const NANOS_PER_SECOND: nat := 1_000_000_000
  const I64_MAX: int := 0x7fff_ffff_ffff_ffff
  const I64_MIN: int := -0x8000_0000_0000_0000

  function Millis(instant: nat): nat {
    instant / NANOS_PER_MILLI
  }

  /** `timeout.as_millis()` clamped to an i64. */
  function TimeoutMillis(timeout: nat): int {
    if timeout / NANOS_PER_MILLI <= I64_MAX then timeout / NANOS_PER_MILLI else I64_MAX
  }

  function SaturatingSub(a: int, b: int): int {
    if a - b > I64_MAX then I64_MAX else if a - b < I64_MIN then I64_MIN else a - b
  }

  /** Whether `timeout` has passed since the millisecond reading `last`. */
  predicate IsInactive(last: int, timeout: nat, now: nat) {
    SaturatingSub(Millis(now), last) >= TimeoutMillis(timeout)
  }

  /** Nanoseconds of silence a session may have survived a check with, plus one. */
  function Silence(timeout: nat): nat {
    if TimeoutMillis(timeout) == 0 then 1 else TimeoutMillis(timeout) * NANOS_PER_MILLI
  }

  /** A session is inactive exactly when more than the timeout, a started millisecond counted whole,
      has passed since `last`; a timeout beyond the i64 range counts as the largest i64. */
  lemma InactiveMeaning(last: int, timeout: nat, now: nat)
    ensures timeout / 1_000_000 <= 0x7fff_ffff_ffff_ffff ==>
              (IsInactive(last, timeout, now) <==> (now / 1_000_000 - last + 1) * 1_000_000 > timeout)
    ensures timeout / 1_000_000 > 0x7fff_ffff_ffff_ffff ==>
              (IsInactive(last, timeout, now) <==> now / 1_000_000 - last >= 0x7fff_ffff_ffff_ffff)
  {
    var passed := now / 1_000_000 - last;
    assert timeout == timeout / 1_000_000 * 1_000_000 + timeout % 1_000_000;
    if passed >= timeout / 1_000_000 {
      assert (passed + 1) * 1_000_000 >= (timeout / 1_000_000 + 1) * 1_000_000;
    } else {
      assert (passed + 1) * 1_000_000 <= timeout / 1_000_000 * 1_000_000;
    }
  }

  /** The silence a check forgives is the timeout cut to whole milliseconds, and nothing at all
      below one millisecond. */
  lemma SilenceMeaning(timeout: nat)
    requires timeout / 1_000_000 <= 0x7fff_ffff_ffff_ffff
    ensures Silence(timeout) == if timeout < 1_000_000 then 1 else timeout - timeout % 1_000_000
  {
  }

  /** A session found active at `now` was active less than the truncated timeout before it;
      with a timeout under one millisecond nothing is ever found active. */
  lemma ActiveIsRecent(last: nat, timeout: nat, now: nat)
    requires last <= Millis(now)
    ensures !IsInactive(last, timeout, now) ==>
              TimeoutMillis(timeout) > 0 && now < last * NANOS_PER_MILLI + Silence(timeout)
    ensures IsInactive(last, timeout, now) <==> Millis(now) - last >= TimeoutMillis(timeout)
  {
  }

  /** The clock only moves on, so inactivity is never undone by waiting. */
  lemma InactiveStays(last: int, timeout: nat, now: nat, later: nat)
    requires now <= later && IsInactive(last, timeout, now)
    ensures IsInactive(last, timeout, later)
  {
  }
}
