/** Bounded staging of a message and the disk budget (StagedMessage and DiskReservation in crates/store/src/blob.rs). */
module Staging {
  import opened Wrappers
  import opened Framing

  datatype StageError = Poisoned | TooLarge | Interrupted

  /** A flush that fails or is cancelled: which one of the call, and how many of its bytes reached the file. */
  datatype Fault = Fault(flush: nat, reached: nat)

  datatype Stage = Stage(file: seq<Byte>, buffer: seq<Byte>, hashed: seq<Byte>, size: nat, poisoned: bool)

  const EMPTY_STAGE := Stage([], [], [], 0, false)

  datatype Sizes = Sizes(buffer: nat, message: nat)
  {
    /** What Store::open demands of its options. */
    predicate Valid() { 1 <= buffer && 1 <= message }
  }

  /** Whole buffers go to the file; the rest stays. */
  function Flushes(pending: seq<Byte>, limit: nat): nat
    requires limit >= 1
  {
    |pending| / limit
  }

  function Append(s: Stage, bytes: seq<Byte>, fault: Option<Fault>, sizes: Sizes): (Stage, Result<(), StageError>)
    requires sizes.Valid()
  {
    if s.poisoned then (s, Err(Poisoned))
    else if s.size + |bytes| > sizes.message then (s.(poisoned := true), Err(TooLarge))
    else
      var pending := s.buffer + bytes;
      var whole := Flushes(pending, sizes.buffer) * sizes.buffer;
      DivisionFits(|pending|, sizes.buffer);
      if fault.Some? && fault.value.flush < Flushes(pending, sizes.buffer) then
        var reached := Min(fault.value.flush * sizes.buffer + Min(fault.value.reached, sizes.buffer), |pending|);
        (s.(file := s.file + pending[..reached], buffer := [], poisoned := true), Err(Interrupted))
      else
        (Stage(s.file + pending[..whole], pending[whole..], s.hashed + bytes, s.size + |bytes|, false), Ok(()))
  }

  lemma DivisionFits(n: nat, d: nat)
    requires d >= 1
    ensures 0 <= n / d * d <= n && n - n / d * d < d
  {
  }

  /** What a prepared message promises: its length and the bytes that were hashed. */
  datatype Prepared = Prepared(size: nat, hashed: seq<Byte>)

  /** The part of `prepare` before the file is synced; `torn` bytes arrive if the last write fails. */
  function Prepare(s: Stage, torn: Option<nat>): (Stage, Result<Prepared, StageError>) {
    if s.poisoned then (s, Err(Poisoned))
    else if torn.Some? then
      (s.(file := s.file + s.buffer[..Min(torn.value, |s.buffer|)], buffer := [], poisoned := true), Err(Interrupted))
    else (s.(file := s.file + s.buffer, buffer := []), Ok(Prepared(s.size, s.hashed)))
  }

  // ---------------------------------------------------------------- any sequence of appends

  datatype Write = Write(bytes: seq<Byte>, fault: Option<Fault>)

  function Written(writes: seq<Write>, sizes: Sizes): Stage
    requires sizes.Valid()
  {
    if writes == [] then EMPTY_STAGE
    else Append(Written(writes[..|writes| - 1], sizes), writes[|writes| - 1].bytes, writes[|writes| - 1].fault, sizes).0
  }

  function Chunks(writes: seq<Write>): (r: seq<seq<Byte>>)
    ensures |r| == |writes| && forall i :: 0 <= i < |r| ==> r[i] == writes[i].bytes
  {
    seq(|writes|, i requires 0 <= i < |writes| => writes[i].bytes)
  }

  /** Every append of the sequence was answered with success. */
  predicate AllSucceed(writes: seq<Write>, sizes: Sizes)
    requires sizes.Valid()
  {
    if writes == [] then true
    else
      var n := |writes| - 1;
      && AllSucceed(writes[..n], sizes)
      && Append(Written(writes[..n], sizes), writes[n].bytes, writes[n].fault, sizes).1.Ok?
  }

  lemma AppendKeeps(s: Stage, bytes: seq<Byte>, fault: Option<Fault>, sizes: Sizes, all: seq<Byte>)
    requires sizes.Valid() && Accounts(s, all, sizes)
    ensures Accounts(Append(s, bytes, fault, sizes).0, all + bytes, sizes)
  {
    var pending := s.buffer + bytes;
    DivisionFits(|pending|, sizes.buffer);
    var whole := Flushes(pending, sizes.buffer) * sizes.buffer;
    if !s.poisoned {
      assert pending[..whole] + pending[whole..] == pending;
      assert s.file + pending[..whole] + pending[whole..] == s.file + pending == s.file + s.buffer + bytes;
    }
  }

  /** The stage accounts for the chunks `all` unless it is poisoned, and never holds a full buffer. */
  predicate Accounts(s: Stage, all: seq<Byte>, sizes: Sizes) {
    && |s.buffer| < sizes.buffer
    && (!s.poisoned ==> s.file + s.buffer == all && s.hashed == all && s.size == |all| <= sizes.message)
  }

  lemma {:induction false} StageAccounts(writes: seq<Write>, sizes: Sizes)
    requires sizes.Valid()
    ensures Accounts(Written(writes, sizes), Flatten(Chunks(writes)), sizes)
  {
    if writes != [] {
      var n := |writes| - 1;
      StageAccounts(writes[..n], sizes);
      assert Chunks(writes)[..n] == Chunks(writes[..n]);
      AppendKeeps(Written(writes[..n], sizes), writes[n].bytes, writes[n].fault, sizes, Flatten(Chunks(writes[..n])));
    }
  }

  lemma {:induction false} PoisonedExactly(writes: seq<Write>, sizes: Sizes)
    requires sizes.Valid()
    ensures !Written(writes, sizes).poisoned <==> AllSucceed(writes, sizes)
  {
    if writes != [] {
      var n := |writes| - 1;
      var before := writes[..n];
      PoisonedExactly(before, sizes);
      AppendOutcome(Written(before, sizes), writes[n].bytes, writes[n].fault, sizes);
    }
  }

  lemma AppendOutcome(s: Stage, bytes: seq<Byte>, fault: Option<Fault>, sizes: Sizes)
    requires sizes.Valid()
    ensures var (s', r) := Append(s, bytes, fault, sizes);
            (r.Ok? <==> !s'.poisoned) && (s.poisoned ==> s'.poisoned)
  {
  }

  /**
   * After any appends with any faults and cancellations: the stage is whole exactly if every append
   * succeeded; then file and buffer are the appended chunks, hashed and counted; the buffer never
   * outgrows its limit.
   */
  lemma StageIsConcatenation(writes: seq<Write>, sizes: Sizes)
    requires sizes.Valid()
    ensures Accounts(Written(writes, sizes), Flatten(Chunks(writes)), sizes)
    ensures !Written(writes, sizes).poisoned <==> AllSucceed(writes, sizes)
  {
    StageAccounts(writes, sizes);
    PoisonedExactly(writes, sizes);
  }

  /** A prepared file is exactly what was appended; a stage with any failed append is never prepared. */
  lemma PreparedIsConcatenation(writes: seq<Write>, torn: Option<nat>, sizes: Sizes)
    requires sizes.Valid()
    ensures var (s, r) := Prepare(Written(writes, sizes), torn);
            && (r.Ok? <==> torn.None? && AllSucceed(writes, sizes))
            && (r.Ok? ==> s.file == Flatten(Chunks(writes)) && r.value == Prepared(|s.file|, s.file)
                          && |s.file| <= sizes.message)
  {
    StageIsConcatenation(writes, sizes);
  }

  // ---------------------------------------------------------------- the object

  class StagedMessage {
    var file: seq<Byte>
    var buffer: seq<Byte>
    var hashed: seq<Byte>
    var size: nat
    var poisoned: bool
    const sizes: Sizes

    ghost function View(): Stage
      reads this
    {
      Stage(file, buffer, hashed, size, poisoned)
    }

    ghost predicate Valid()
      reads this
    {
      sizes.Valid() && |buffer| < sizes.buffer
    }

    constructor (sizes: Sizes)
      requires sizes.Valid()
      ensures Valid() && this.sizes == sizes && View() == EMPTY_STAGE
    {
      file, buffer, hashed, size, poisoned := [], [], [], 0, false;
      this.sizes := sizes;
    }

    method AppendBytes(bytes: seq<Byte>, fault: Option<Fault>) returns (r: Result<(), StageError>)
      requires Valid()
      modifies this
      ensures Valid() && (View(), r) == Append(old(View()), bytes, fault, sizes)
    {
      if poisoned {
        return Err(Poisoned);
      }
      if size + |bytes| > sizes.message {
        poisoned := true;
        return Err(TooLarge);
      }
      poisoned := true;
      var out, rest, torn := FlushLoop(buffer, bytes, sizes.buffer, fault);
      ghost var pending := buffer + bytes;
      DivisionFits(|pending|, sizes.buffer);
      assert out == pending[..|out|] && (!torn ==> rest == pending[|out|..]);
      file, buffer := file + out, rest;
      if torn {
        return Err(Interrupted);
      }
      hashed, size, poisoned := hashed + bytes, size + |bytes|, false;
      return Ok(());
    }

    /** Writes out the rest of the buffer. */
    method FlushAll(torn: Option<nat>) returns (r: Result<Prepared, StageError>)
      requires Valid()
      modifies this
      ensures Valid() && (View(), r) == Prepare(old(View()), torn)
    {
      if poisoned {
        return Err(Poisoned);
      }
      var last := buffer;
      buffer := [];
      if torn.Some? {
        file, poisoned := file + last[..Min(torn.value, |last|)], true;
        return Err(Interrupted);
      }
      file := file + last;
      return Ok(Prepared(size, hashed));
    }
  }

  /** Fills the buffer piece by piece and writes it out whenever it is full. */
  method FlushLoop(held: seq<Byte>, bytes: seq<Byte>, limit: nat, fault: Option<Fault>)
    returns (out: seq<Byte>, buffer: seq<Byte>, torn: bool)
    requires limit >= 1 && |held| < limit
    ensures torn <==> fault.Some? && fault.value.flush < Flushes(held + bytes, limit)
    ensures torn ==> buffer == [] && out <= held + bytes
                     && |out| == Min(fault.value.flush * limit + Min(fault.value.reached, limit), |held + bytes|)
    ensures !torn ==> out + buffer == held + bytes && |out| == Flushes(held + bytes, limit) * limit && |buffer| < limit
  {
    ghost var pending := held + bytes;
    var remaining, flushed := bytes, 0;
    out, buffer, torn := [], held, false;
    while remaining != []
      invariant |buffer| < limit && !torn && |out| == flushed * limit
      invariant out + buffer + remaining == pending
      invariant fault.Some? ==> flushed <= fault.value.flush
      decreases |remaining|
    {
      var count := Min(|remaining|, limit - |buffer|);
      assert buffer + remaining[..count] + remaining[count..] == buffer + remaining;
      assert out + (buffer + remaining[..count]) + remaining[count..] == out + buffer + remaining;
      buffer, remaining := buffer + remaining[..count], remaining[count..];
      if |buffer| == limit {
        assert (flushed + 1) * limit == flushed * limit + limit;
        Quotient(|pending|, flushed, limit);
        if fault.Some? && fault.value.flush == flushed {
          var reached := Min(fault.value.reached, limit);
          assert out + buffer[..reached] == pending[..flushed * limit + reached];
          return out + buffer[..reached], [], true;
        }
        out, buffer, flushed := out + buffer, [], flushed + 1;
      }
    }
    Rest(|pending|, flushed, limit, |buffer|);
  }

  lemma Quotient(n: nat, k: nat, d: nat)
    requires d >= 1 && (k + 1) * d <= n
    ensures k < n / d
  {
    DivisionFits(n, d);
  }

  lemma Rest(n: nat, k: nat, d: nat, r: nat)
    requires d >= 1 && n == k * d + r && r < d
    ensures n / d == k
  {
    DivisionFits(n, d);
    var q := n / d;
    assert (q + 1) * d == q * d + d && (k + 1) * d == k * d + d;
    Less(k, q + 1, d);
    Less(q, k + 1, d);
  }

  lemma Less(a: nat, b: nat, d: nat)
    requires d >= 1 && a * d < b * d
    ensures a < b
  {
    assert (a - b) * d == a * d - b * d;
  }

  // ---------------------------------------------------------------- the disk budget

  /** The shared counter and the reservations that are alive. */
  datatype Budget = Budget(reserved: nat, live: map<nat, nat>)

  /** Free and total space as reported, and what must stay free. */
  datatype Space = Space(total: nat, available: nat, keepBytes: nat, keepPercent: nat)

  function Required(space: Space, next: nat): nat {
    var percent := space.total * space.keepPercent / 100;
    (if space.keepBytes > percent then space.keepBytes else percent) + next
  }

  /** The admission check of `create`; `token` is the new reservation. */
  function Reserve(b: Budget, token: nat, bytes: nat, limit: nat, space: Space): Option<Budget> {
    var next := b.reserved + bytes;
    if next > limit || space.available < Required(space, next) || token in b.live then None
    else Some(Budget(next, b.live[token := bytes]))
  }

  /** The last owner of a reservation is gone. */
  function Release(b: Budget, token: nat): Budget {
    if token !in b.live || b.reserved < b.live[token] then b
    else Budget(b.reserved - b.live[token], b.live - {token})
  }

  ghost function Total(live: map<nat, nat>): nat {
    if live == map[] then 0 else var k :| k in live; live[k] + Total(live - {k})
  }

  lemma {:induction false} TotalSplits(live: map<nat, nat>, k: nat)
    requires k in live
    ensures Total(live) == live[k] + Total(live - {k})
    decreases |live|
  {
    var j :| j in live && Total(live) == live[j] + Total(live - {j});
    if j != k {
      assert |live - {j}| < |live| by {
        assert (live - {j}).Keys == live.Keys - {j};
      }
      TotalSplits(live - {j}, k);
      assert |live - {k}| < |live| by {
        assert (live - {k}).Keys == live.Keys - {k};
      }
      TotalSplits(live - {k}, j);
      assert live - {j} - {k} == live - {k} - {j};
    }
  }

  datatype BudgetStep = Take(token: nat, bytes: nat, space: Space) | Free(token: nat)

  function Spend(b: Budget, step: BudgetStep, limit: nat): Budget {
    match step
    case Take(token, bytes, space) => (var r := Reserve(b, token, bytes, limit, space); if r.Some? then r.value else b)
    case Free(token) => Release(b, token)
  }

  function Spent(steps: seq<BudgetStep>, limit: nat): Budget {
    if steps == [] then Budget(0, map[]) else Spend(Spent(steps[..|steps| - 1], limit), steps[|steps| - 1], limit)
  }

  /** However stages come and go, the counter is the sum of the live reservations and within the budget. */
  lemma {:induction false} BudgetIsExact(steps: seq<BudgetStep>, limit: nat)
    ensures Spent(steps, limit).reserved == Total(Spent(steps, limit).live) <= limit
  {
    if steps != [] {
      BudgetIsExact(steps[..|steps| - 1], limit);
      var b, step := Spent(steps[..|steps| - 1], limit), steps[|steps| - 1];
      match step {
        case Take(token, bytes, space) =>
          var r := Reserve(b, token, bytes, limit, space);
          if r.Some? {
            TotalSplits(r.value.live, token);
            assert r.value.live - {token} == b.live;
          }
        case Free(token) =>
          if token in b.live {
            TotalSplits(b.live, token);
          }
      }
    }
  }

  /**
   * A reservation is let in exactly if it is new and leaves, with all others, the budget kept and both the reserved
   * bytes and the reserved share of the disk free.
   */
  lemma ReserveExactly(b: Budget, token: nat, bytes: nat, limit: nat, space: Space)
    ensures var free := space.available - (b.reserved + bytes);
            && (Reserve(b, token, bytes, limit, space).Some?
                <==> && token !in b.live && b.reserved + bytes <= limit
                     && space.keepBytes <= free && space.total * space.keepPercent / 100 <= free)
            && (Reserve(b, token, bytes, limit, space).Some? ==>
                  Reserve(b, token, bytes, limit, space).value == Budget(b.reserved + bytes, b.live[token := bytes]))
  {
  }
}
