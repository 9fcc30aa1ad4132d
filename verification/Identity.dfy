/** Identifiers, and the printed form of a generated session id. */
module Identity {

  datatype NodeId = NodeId(text: string)
  datatype SessionId = SessionId(text: string)
  datatype UserId = UserId(text: string)
  datatype DeviceId = DeviceId(text: string)

  datatype Option<+T> = None | Some(value: T)

  /** The client behind a connection; the device is optional. */
  datatype Identity = Identity(user: UserId, device: Option<DeviceId>)

  /** What one generated id was made of. */
  datatype Stamp = Stamp(node: string, millis: nat, sequence: nat)

  /** Number of values of the process-wide u64 session counter. */
  const COUNTER_RANGE: nat := 0x1_0000_0000_0000_0000

  // ---------------------------------------------------------------- decimal text

  predicate IsDigit(c: char) {
    '0' <= c <= '9'
  }

  predicate AllDigits(s: string) {
    forall i :: 0 <= i < |s| ==> IsDigit(s[i])
  }

  function Decimal(n: nat): (s: string)
    ensures |s| > 0 && AllDigits(s)
  {
    var digit := '0' + (n % 10) as char;
    if n < 10 then [digit] else Decimal(n / 10) + [digit]
  }

  function DecimalValue(s: string): nat
    requires AllDigits(s)
  {
    if s == [] then 0
    else DecimalValue(s[..|s| - 1]) * 10 + (s[|s| - 1] - '0') as nat
  }

  lemma {:induction false} DecimalRoundTrip(n: nat)
    ensures DecimalValue(Decimal(n)) == n
  {
    if n >= 10 {
      DecimalRoundTrip(n / 10);
      var s := Decimal(n);
      assert s[..|s| - 1] == Decimal(n / 10);
    }
  }

  /** The decimal text has no leading zero. */
  lemma {:induction false} DecimalIsShort(n: nat)
    ensures Decimal(n)[0] == '0' <==> n == 0
    ensures n == 0 ==> Decimal(n) == "0"
  {
    if n >= 10 {
      DecimalIsShort(n / 10);
      assert Decimal(n)[0] == Decimal(n / 10)[0];
    }
  }

  /** It is the only digit string of that value without a leading zero. */
  lemma {:induction false} DecimalIsCanonical(s: string)
    requires AllDigits(s) && s != [] && (|s| == 1 || s[0] != '0')
    ensures Decimal(DecimalValue(s)) == s
    decreases |s|
  {
    var front, digit := s[..|s| - 1], (s[|s| - 1] - '0') as nat;
    if front == [] {
      assert s == [s[0]];
    } else {
      DecimalIsCanonical(front);
      LeadingDigitCounts(front);
      var n := DecimalValue(s);
      assert n == DecimalValue(front) * 10 + digit && n / 10 == DecimalValue(front) && n % 10 == digit;
      assert s == front + [s[|s| - 1]];
    }
  }

  lemma {:induction false} LeadingDigitCounts(s: string)
    requires AllDigits(s) && s != [] && s[0] != '0'
    ensures DecimalValue(s) > 0
    decreases |s|
  {
    if |s| > 1 {
      LeadingDigitCounts(s[..|s| - 1]);
    }
  }

  // ---------------------------------------------------------------- printing and reading back

  /** `format!("{}-{}-{}", node, millis, sequence)`. */
  function Print(stamp: Stamp): SessionId {
    SessionId(stamp.node + "-" + Decimal(stamp.millis) + "-" + Decimal(stamp.sequence))
  }

  /** Position of the last dash, or -1. */
  function LastDash(s: string): (i: int)
    ensures -1 <= i < |s|
  {
    if s == [] then -1
    else if s[|s| - 1] == '-' then |s| - 1
    else LastDash(s[..|s| - 1])
  }

  /** Splits off the decimal number after the last dash. */
  function SplitNumber(s: string): Option<(string, nat)> {
    var i := LastDash(s);
    if i < 0 || !AllDigits(s[i + 1..]) then None
    else Some((s[..i], DecimalValue(s[i + 1..])))
  }

  /** Reads an id from the right: the sequence, then the millis, the rest is the node. */
  function Parse(id: SessionId): Option<Stamp> {
    match SplitNumber(id.text)
    case None => None
    case Some((rest, sequence)) =>
      match SplitNumber(rest)
      case None => None
      case Some((node, millis)) => Some(Stamp(node, millis, sequence))
  }

  lemma {:induction false} LastDashSkipsDigits(left: string, digits: string)
    requires AllDigits(digits)
    ensures LastDash(left + "-" + digits) == |left|
  {
    var s := left + "-" + digits;
    if digits != [] {
      var shorter := digits[..|digits| - 1];
      assert s[..|s| - 1] == left + "-" + shorter;
      assert s[|s| - 1] == digits[|digits| - 1];
      LastDashSkipsDigits(left, shorter);
    }
  }

  lemma SplitNumberUndoes(left: string, n: nat)
    ensures SplitNumber(left + "-" + Decimal(n)) == Some((left, n))
  {
    var s := left + "-" + Decimal(n);
    LastDashSkipsDigits(left, Decimal(n));
    assert s[..|left|] == left;
    assert s[|left| + 1..] == Decimal(n);
    DecimalRoundTrip(n);
  }

  /** Every printed id is read back, whatever dashes and digits the node text holds. */
  lemma ParseUndoesPrint(stamp: Stamp)
    ensures Parse(Print(stamp)) == Some(stamp)
  {
    SplitNumberUndoes(stamp.node + "-" + Decimal(stamp.millis), stamp.sequence);
    SplitNumberUndoes(stamp.node, stamp.millis);
  }

  // ---------------------------------------------------------------- generation

  /** The stamp of the k-th id a process generates at `millis`; the counter starts at 1 and wraps. */
  function NthStamp(node: NodeId, millis: nat, k: nat): Stamp {
    Stamp(node.text, millis, (1 + k) % COUNTER_RANGE)
  }

  lemma CounterStep(k: nat)
    ensures ((1 + k) % COUNTER_RANGE + 1) % COUNTER_RANGE == (1 + (k + 1)) % COUNTER_RANGE
  {
    var q := (1 + k) / COUNTER_RANGE;
    var r := (1 + k) % COUNTER_RANGE;
    assert 1 + k == q * COUNTER_RANGE + r;
    if r + 1 == COUNTER_RANGE {
      assert 2 + k == (q + 1) * COUNTER_RANGE;
    } else {
      assert 2 + k == q * COUNTER_RANGE + (r + 1);
    }
  }

  /** The process-wide session counter. */
  class SessionCounter {
    var next: nat
    ghost var issued: nat

    ghost predicate Valid()
      reads this
    {
      next == (1 + issued) % COUNTER_RANGE
    }

    constructor ()
      ensures Valid() && issued == 0
    {
      next, issued := 1, 0;
    }

    /** Reserves the next sequence value with a wrapping fetch-and-add. */
    method Generate(node: NodeId, millis: nat) returns (id: SessionId)
      requires Valid()
      modifies this
      ensures Valid() && issued == old(issued) + 1
      ensures id == Print(NthStamp(node, millis, old(issued)))
      ensures old(issued) + 1 < 0x1_0000_0000_0000_0000 ==>
                id.text == node.text + "-" + Decimal(millis) + "-" + Decimal(old(issued) + 1)
    {
      id := Print(Stamp(node.text, millis, next));
      CounterStep(issued);
      next := (next + 1) % COUNTER_RANGE;
      issued := issued + 1;
    }
  }

  /** Exactly when two generated ids collide: same node text, same millisecond, and the two
      counter readings a multiple of 2^64 apart. */
  lemma IdsCollideExactly(a: NodeId, b: NodeId, at: nat, bt: nat, j: nat, k: nat)
    ensures Print(NthStamp(a, at, j)) == Print(NthStamp(b, bt, k))
       <==> a == b && at == bt && (1 + j) % COUNTER_RANGE == (1 + k) % COUNTER_RANGE
  {
    ParseUndoesPrint(NthStamp(a, at, j));
    ParseUndoesPrint(NthStamp(b, bt, k));
  }

  /** Ids of distinct nodes never collide, nor do two of the first 2^64 ids of one process. */
  lemma GeneratedIdsAreUnique(a: NodeId, b: NodeId, at: nat, bt: nat, j: nat, k: nat)
    requires a != b || (j != k && j < COUNTER_RANGE && k < COUNTER_RANGE)
    ensures Print(NthStamp(a, at, j)) != Print(NthStamp(b, bt, k))
  {
    IdsCollideExactly(a, b, at, bt, j, k);
    if a == b {
      assert (1 + j) % COUNTER_RANGE == if 1 + j == COUNTER_RANGE then 0 else 1 + j;
      assert (1 + k) % COUNTER_RANGE == if 1 + k == COUNTER_RANGE then 0 else 1 + k;
    }
  }
}
