/** The idempotency_keys table and the response capture: the sequential parts of the
    Idempotency-Key middleware. */
module IdempotencyStore {
  import opened Outcomes

  newtype Byte = x: int | 0 <= x < 256

  type Headers = map<string, seq<string>>

  const MAX_CAPTURED_BODY: nat := 1048576
  const IDEMPOTENCY_TTL: int := 24 * 60 * 60 * 1000
  const IN_FLIGHT_TIMEOUT: int := 60 * 1000

  datatype Response = Response(status: int, headers: Headers, body: seq<Byte>)

  datatype Slot = Slot(scope: string, key: string)

  datatype Progress = InFlight | Completed(response: Response)

  /** One row. `hash` is the request's fingerprint; times are milliseconds of the database clock. */
  datatype Row = Row(hash: string, progress: Progress, expiresAt: int, updatedAt: int)

  type Rows = map<Slot, Row>

  /*********************** The statements, as functions of the table ***********************/

  /** INSERT ... ON CONFLICT DO NOTHING. */
  function Claim(rows: Rows, slot: Slot, hash: string, expiresAt: int, now: int): Rows {
    if slot in rows then rows else rows[slot := Row(hash, InFlight, expiresAt, now)]
  }

  predicate CanTakeOver(rows: Rows, slot: Slot, hash: string, staleBefore: int) {
    slot in rows && rows[slot].hash == hash && rows[slot].progress.InFlight? && rows[slot].updatedAt < staleBefore
  }

  /** The guarded UPDATE of a retry; the row's trigger refreshes updatedAt. */
  function TakeOver(rows: Rows, slot: Slot, hash: string, expiresAt: int, staleBefore: int, now: int): Rows {
    if CanTakeOver(rows, slot, hash, staleBefore)
    then rows[slot := rows[slot].(progress := InFlight, expiresAt := expiresAt, updatedAt := now)]
    else rows
  }

  function Complete(rows: Rows, slot: Slot, hash: string, response: Response, now: int): Rows {
    if slot in rows && rows[slot].progress.InFlight? && rows[slot].hash == hash
    then rows[slot := rows[slot].(progress := Completed(response), updatedAt := now)]
    else rows
  }

  function Vacate(rows: Rows, slot: Slot, hash: string): Rows {
    if slot in rows && rows[slot].progress.InFlight? && rows[slot].hash == hash then rows - {slot} else rows
  }

  function DeleteExpired(rows: Rows, now: int): Rows {
    map slot | slot in rows && rows[slot].expiresAt >= now :: rows[slot]
  }

  /** The rows of every other slot are as they were. */
  ghost predicate OnlySlot(before: Rows, after: Rows, slot: Slot) {
    forall other | other != slot ::
      (other in after <==> other in before) && (other in before ==> after[other] == before[other])
  }

  /** Some execution of this request is in flight on the slot. */
  predicate Running(rows: Rows, slot: Slot, hash: string) {
    slot in rows && rows[slot].progress.InFlight? && rows[slot].hash == hash
  }

  /** The table as the store's methods change it, one statement at a time. */
  class Store {
    var rows: Rows

    constructor ()
      ensures rows == map[]
    {
      rows := map[];
    }

    /** Of all claims of a slot one succeeds, and it leaves the slot in flight for its request. */
    method TryClaim(slot: Slot, hash: string, expiresAt: int, now: int) returns (claimed: bool)
      modifies this
      ensures rows == Claim(old(rows), slot, hash, expiresAt, now) && OnlySlot(old(rows), rows, slot)
      ensures claimed <==> slot !in old(rows)
      ensures if claimed then Running(rows, slot, hash) && !CanTakeOver(rows, slot, hash, now) else rows == old(rows)
    {
      claimed := slot !in rows;
      if claimed {
        rows := rows[slot := Row(hash, InFlight, expiresAt, now)];
      }
    }

    method Get(slot: Slot) returns (row: Option<Row>)
      ensures row == if slot in rows then Some(rows[slot]) else None
    {
      row := if slot in rows then Some(rows[slot]) else None;
    }

    /** A takeover restarts an execution of the same request that has been silent, and no other can
        follow it with the same limit. */
    method TryTakeOver(slot: Slot, hash: string, expiresAt: int, staleBefore: int, now: int) returns (taken: bool)
      modifies this
      ensures rows == TakeOver(old(rows), slot, hash, expiresAt, staleBefore, now) && OnlySlot(old(rows), rows, slot)
      ensures taken <==> Running(old(rows), slot, hash) && old(rows)[slot].updatedAt < staleBefore
      ensures if taken then Running(rows, slot, hash) && (staleBefore <= now ==> !CanTakeOver(rows, slot, hash, staleBefore))
              else rows == old(rows)
    {
      taken := CanTakeOver(rows, slot, hash, staleBefore);
      if taken {
        rows := rows[slot := Row(hash, InFlight, expiresAt, now)];
      }
    }

    /** Only an execution in flight of the same request can be completed: a completed row, another
        request's row and a vacated slot stay as they are. */
    method CompleteRow(slot: Slot, hash: string, response: Response, now: int)
      modifies this
      ensures rows == Complete(old(rows), slot, hash, response, now) && OnlySlot(old(rows), rows, slot)
      ensures if Running(old(rows), slot, hash) then
                slot in rows && rows[slot].progress == Completed(response) && rows[slot].hash == hash
                && rows[slot].expiresAt == old(rows)[slot].expiresAt
              else rows == old(rows)
    {
      if slot in rows && rows[slot].progress.InFlight? && rows[slot].hash == hash {
        rows := rows[slot := Row(hash, Completed(response), rows[slot].expiresAt, now)];
      }
    }

    /** Only an execution in flight of the same request can be vacated. */
    method VacateRow(slot: Slot, hash: string)
      modifies this
      ensures rows == Vacate(old(rows), slot, hash) && OnlySlot(old(rows), rows, slot)
      ensures if Running(old(rows), slot, hash) then slot !in rows else rows == old(rows)
    {
      if slot in rows && rows[slot].progress.InFlight? && rows[slot].hash == hash {
        rows := rows - {slot};
      }
    }

    method Sweep(now: int)
      modifies this
      ensures rows == DeleteExpired(old(rows), now)
      ensures forall slot | slot in old(rows) :: slot in rows <==> now <= old(rows)[slot].expiresAt
    {
      rows := map slot | slot in rows && rows[slot].expiresAt >= now :: rows[slot];
    }
  }

  /*********************** Capturing a response ***********************/

  /** What a handler does to its response writer. */
  datatype WriterOp = SetStatus(code: int) | Send(bytes: seq<Byte>)

  datatype Capture = Capture(buf: seq<Byte>, code: int, overflow: bool)
  {
    function Status(): int {
      if code == 0 then 200 else code
    }
  }

  function CaptureStep(c: Capture, op: WriterOp): Capture {
    match op
    case SetStatus(code) => if c.code == 0 then c.(code := code) else c
    case Send(bytes) =>
      var d := if c.code == 0 then c.(code := 200) else c;
      if d.overflow then d
      else if |d.buf| + |bytes| > MAX_CAPTURED_BODY then d.(overflow := true, buf := [])
      else d.(buf := d.buf + bytes)
  }

  function Captured(ops: seq<WriterOp>): Capture {
    if ops == [] then Capture([], 0, false)
    else CaptureStep(Captured(ops[..|ops| - 1]), ops[|ops| - 1])
  }

  /** Everything the client was sent. */
  function Sent(ops: seq<WriterOp>): seq<Byte> {
    if ops == [] then []
    else
      var last := ops[|ops| - 1];
      Sent(ops[..|ops| - 1]) + if last.Send? then last.bytes else []
  }

  /** The status the capture keeps: that of the first operation that fixes one. */
  function FirstStatus(ops: seq<WriterOp>): int {
    if ops == [] then 200
    else if ops[0].Send? then 200
    else if ops[0].code != 0 then ops[0].code
    else FirstStatus(ops[1..])
  }

  /** Over any run of a handler the buffer is the whole body or an overflow, and the overflow is
      reported exactly when the body exceeds the bound. */
  lemma {:induction false} CaptureIsWhole(ops: seq<WriterOp>)
    ensures Captured(ops).overflow <==> |Sent(ops)| > MAX_CAPTURED_BODY
    ensures !Captured(ops).overflow ==> Captured(ops).buf == Sent(ops)
  {
    if ops != [] {
      CaptureIsWhole(ops[..|ops| - 1]);
    }
  }

  /** No operation fixes a status. */
  predicate NoneSet(ops: seq<WriterOp>) {
    ops == [] || (ops[0].SetStatus? && ops[0].code == 0 && NoneSet(ops[1..]))
  }

  lemma {:induction false} CaptureStatusIsFirst(ops: seq<WriterOp>)
    ensures Captured(ops).Status() == FirstStatus(ops)
    ensures Captured(ops).code == 0 <==> NoneSet(ops)
  {
    if ops != [] {
      var init, last := ops[..|ops| - 1], ops[|ops| - 1];
      CaptureStatusIsFirst(init);
      assert ops == init + [last];
      FirstStatusAppend(init, last);
    }
  }

  lemma {:induction false} FirstStatusAppend(ops: seq<WriterOp>, last: WriterOp)
    ensures FirstStatus(ops + [last])
            == if NoneSet(ops) then FirstStatus([last]) else FirstStatus(ops)
    ensures NoneSet(ops + [last]) <==> NoneSet(ops) && last.SetStatus? && last.code == 0
  {
    if ops != [] {
      assert (ops + [last])[1..] == ops[1..] + [last];
      FirstStatusAppend(ops[1..], last);
    }
  }

  /** An informational response goes out ahead of the final one, which the handler still owes. */
  predicate Informational(code: int) {
    100 <= code <= 199 && code != 101
  }

  /** The final status the client sees. */
  function FinalStatus(ops: seq<WriterOp>): int {
    if ops == [] || ops[0].Send? then 200
    else if ops[0].code != 0 && !Informational(ops[0].code) then ops[0].code
    else FinalStatus(ops[1..])
  }

  lemma {:induction false} FinalIsNotInformational(ops: seq<WriterOp>)
    ensures !Informational(FinalStatus(ops))
    ensures !Informational(FirstStatus(ops)) ==> FirstStatus(ops) == FinalStatus(ops)
  {
    if ops != [] {
      FinalIsNotInformational(ops[1..]);
    }
  }

  /** The capture keeps the status the client sees if and only if the first one a handler writes is
      not informational. */
  lemma CapturedIsFinalIff(ops: seq<WriterOp>)
    ensures var kept := Captured(ops).Status();
            kept == FinalStatus(ops) <==> kept < 100 || kept > 199 || kept == 101
  {
    CaptureStatusIsFirst(ops);
    FinalIsNotInformational(ops);
  }

  /** The writer that tees a response into a bounded buffer. */
  class CaptureWriter {
    var buf: seq<Byte>
    var code: int
    var overflow: bool
    ghost var ops: seq<WriterOp>

    ghost predicate Valid()
      reads this
    {
      Capture(buf, code, overflow) == Captured(ops)
    }

    constructor ()
      ensures Valid() && ops == []
    {
      buf, code, overflow, ops := [], 0, false, [];
    }

    method WriteHeader(status: int)
      requires Valid()
      modifies this
      ensures Valid() && ops == old(ops) + [SetStatus(status)]
    {
      if code == 0 {
        code := status;
      }
      ops := ops + [SetStatus(status)];
      assert ops[..|ops| - 1] == old(ops);
    }

    method Write(bytes: seq<Byte>)
      requires Valid()
      modifies this
      ensures Valid() && ops == old(ops) + [Send(bytes)]
    {
      if code == 0 {
        code := 200;
      }
      if !overflow {
        if |buf| + |bytes| > MAX_CAPTURED_BODY {
          overflow := true;
          buf := [];
        } else {
          buf := buf + bytes;
        }
      }
      ops := ops + [Send(bytes)];
      assert ops[..|ops| - 1] == old(ops);
    }

    method Status() returns (status: int)
      requires Valid()
      ensures status == FirstStatus(ops)
    {
      CaptureStatusIsFirst(ops);
      status := if code == 0 then 200 else code;
    }
  }

  /*********************** Headers kept for replay ***********************/

  const REPLAY_BLOCKLIST: set<string> :=
    {"Set-Cookie", "X-Request-Id", "X-Ratelimit-Limit", "X-Ratelimit-Remaining", "X-Ratelimit-Reset"}

  /** The characters of a header name. */
  predicate TokenChar(c: char) {
    'a' <= c <= 'z' || 'A' <= c <= 'Z' || '0' <= c <= '9' || c in "!#$%&'*+-.^_`|~"
  }

  function Upper(c: char): char {
    if 'a' <= c <= 'z' then (c as int - 32) as char else c
  }

  function Lower(c: char): char {
    if 'A' <= c <= 'Z' then (c as int + 32) as char else c
  }

  function Capitalized(name: string, first: bool): string {
    if name == "" then ""
    else [if first then Upper(name[0]) else Lower(name[0])] + Capitalized(name[1..], name[0] == '-')
  }

  /** http.CanonicalHeaderKey: a capital after each hyphen; what is no header name stays. */
  function Canonical(name: string): string {
    if forall i | 0 <= i < |name| :: TokenChar(name[i]) then Capitalized(name, true) else name
  }

  predicate SameButCase(a: string, b: string) {
    |a| == |b| && forall i | 0 <= i < |a| :: Lower(a[i]) == Lower(b[i])
  }

  lemma {:induction false} CapitalizedIgnoresCase(a: string, b: string, first: bool)
    requires SameButCase(a, b)
    ensures Capitalized(a, first) == Capitalized(b, first)
  {
    if a != "" {
      assert Lower(a[0]) == Lower(b[0]);
      assert forall i | 0 <= i < |a[1..]| :: Lower(a[1..][i]) == Lower(a[i + 1]) == Lower(b[i + 1]) == Lower(b[1..][i]);
      CapitalizedIgnoresCase(a[1..], b[1..], a[0] == '-');
    }
  }

  lemma SameTokens(a: string, b: string)
    requires SameButCase(a, b) && forall i | 0 <= i < |b| :: TokenChar(b[i])
    ensures forall i | 0 <= i < |a| :: TokenChar(a[i])
  {
    forall i | 0 <= i < |a|
      ensures TokenChar(a[i])
    {
      assert Lower(a[i]) == Lower(b[i]) && TokenChar(b[i]);
    }
  }

  function Storable(h: Headers): Headers {
    map name | name in h && Canonical(name) !in REPLAY_BLOCKLIST :: h[name]
  }

  /** A blocked header is dropped in whatever capitals it was set. */
  lemma BlockedInAnyCase(h: Headers, name: string, header: string)
    requires Canonical(header) in REPLAY_BLOCKLIST && SameButCase(name, header)
    requires forall i | 0 <= i < |header| :: TokenChar(header[i])
    ensures name !in Storable(h)
  {
    SameTokens(name, header);
    CapitalizedIgnoresCase(name, header, true);
  }

  lemma {:induction false} CapitalizingKeepsLetters(name: string, first: bool)
    ensures SameButCase(Capitalized(name, first), name)
  {
    if name != "" {
      CapitalizingKeepsLetters(name[1..], name[0] == '-');
      var s, rest := Capitalized(name, first), Capitalized(name[1..], name[0] == '-');
      forall i | 0 <= i < |s|
        ensures Lower(s[i]) == Lower(name[i])
      {
        if i > 0 {
          assert s[i] == rest[i - 1] && Lower(rest[i - 1]) == Lower(name[1..][i - 1]);
        }
      }
    }
  }

  predicate StartsWord(name: string, first: bool, i: nat)
    requires i < |name|
  {
    if i == 0 then first else name[i - 1] == '-'
  }

  predicate CasedAt(name: string, first: bool, i: nat)
    requires i < |name|
  {
    name[i] == if StartsWord(name, first, i) then Upper(name[i]) else Lower(name[i])
  }

  /** A header name with capitals where its words begin, and nowhere else. */
  predicate Proper(name: string, first: bool) {
    forall i | 0 <= i < |name| :: CasedAt(name, first, i)
  }

  lemma {:induction false} ProperStays(name: string, first: bool)
    requires Proper(name, first)
    ensures Capitalized(name, first) == name
  {
    if name != "" {
      var rest, next := name[1..], name[0] == '-';
      forall i | 0 <= i < |rest|
        ensures CasedAt(rest, next, i)
      {
        assert CasedAt(name, first, i + 1);
      }
      ProperStays(rest, next);
      assert CasedAt(name, first, 0);
      assert [name[0]] + rest == name;
    }
  }

  predicate AllTokens(name: string) {
    forall i | 0 <= i < |name| :: TokenChar(name[i])
  }

  lemma SetCookieIsProper()
    ensures Proper("Set-Cookie", true) && AllTokens("Set-Cookie")
  {
  }

  lemma RequestIdIsProper()
    ensures Proper("X-Request-Id", true) && AllTokens("X-Request-Id")
  {
  }

  lemma RateLimitIsProper()
    ensures Proper("X-Ratelimit-Limit", true) && AllTokens("X-Ratelimit-Limit")
  {
  }

  lemma RateRemainingIsProper()
    ensures Proper("X-Ratelimit-Remaining", true) && AllTokens("X-Ratelimit-Remaining")
  {
  }

  lemma RateResetIsProper()
    ensures Proper("X-Ratelimit-Reset", true) && AllTokens("X-Ratelimit-Reset")
  {
  }

  lemma CanonicalIff(name: string, header: string)
    requires Proper(header, true) && AllTokens(header)
    ensures Canonical(name) == header <==> SameButCase(name, header)
  {
    ProperStays(header, true);
    CapitalizingKeepsLetters(name, true);
    if SameButCase(name, header) {
      SameTokens(name, header);
      CapitalizedIgnoresCase(name, header, true);
    }
  }

  /** Exactly these headers are dropped, in whatever capitals they were set, and the others keep their
      values. */
  lemma KeptIff(h: Headers, name: string)
    ensures name in Storable(h) <==>
            name in h && !SameButCase(name, "Set-Cookie") && !SameButCase(name, "X-Request-Id") && !SameButCase(name, "X-Ratelimit-Limit")
            && !SameButCase(name, "X-Ratelimit-Remaining") && !SameButCase(name, "X-Ratelimit-Reset")
    ensures name in Storable(h) ==> Storable(h)[name] == h[name]
  {
    SetCookieIsProper();
    RequestIdIsProper();
    RateLimitIsProper();
    RateRemainingIsProper();
    RateResetIsProper();
    CanonicalIff(name, "Set-Cookie");
    CanonicalIff(name, "X-Request-Id");
    CanonicalIff(name, "X-Ratelimit-Limit");
    CanonicalIff(name, "X-Ratelimit-Remaining");
    CanonicalIff(name, "X-Ratelimit-Reset");
  }

  /** Filters header by header, in any order. */
  method StorableHeaders(h: Headers) returns (out: Headers)
    ensures out == Storable(h)
  {
    out := map[];
    var todo := h.Keys;
    while todo != {}
      invariant todo <= h.Keys
      invariant out == map name | name in h && name !in todo && Canonical(name) !in REPLAY_BLOCKLIST :: h[name]
      decreases |todo|
    {
      var name :| name in todo;
      if Canonical(name) !in REPLAY_BLOCKLIST {
        out := out[name := h[name]];
      }
      todo := todo - {name};
    }
  }
}
