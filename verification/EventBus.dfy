/** Delivery of events to one consumer: retries, acknowledgement and the dead-letter stream, under
    handler errors, Redis errors and crashes. */
module EventBus {
  const MAX_RETRIES: nat := 3

  /** A call to Redis. What it does on the server and what the caller hears of it are two things: a call
      whose reply is lost has taken effect and still raises. */
  datatype Redis = Answered | ReplyLost | Refused {
    predicate Lands() {
      !Refused?
    }

    predicate Raises() {
      !Answered?
    }
  }

  /** What one attempt meets: a payload that does not parse, a handler that raises, or a handler that
      completes, after which the acknowledgement is sent. */
  datatype Attempt = BadPayload | HandlerFails | HandlerCompletes(ack: Redis)

  /** One delivered message with all that will go wrong for it. */
  datatype Message = Message(attempts: seq<Attempt>, deadLetter: Redis, finalAck: Redis) {
    predicate Valid() {
      |attempts| == MAX_RETRIES
    }
  }

  datatype Effect = Handled | Completed | DeadLettered | Acked

  /** An attempt fails when anything in it raises, the acknowledgement included. */
  predicate Fails(a: Attempt) {
    a.HandlerCompletes? ==> a.ack.Raises()
  }

  function AttemptEffects(a: Attempt): seq<Effect> {
    match a
    case BadPayload => []
    case HandlerFails => [Handled]
    case HandlerCompletes(ack) => if ack.Lands() then [Handled, Completed, Acked] else [Handled, Completed]
  }

  /** The dead letter and, unless storing it raised, the acknowledgement after it. */
  function DeadLetterEffects(m: Message): seq<Effect> {
    (if m.deadLetter.Lands() then [DeadLettered] else []) +
    (if !m.deadLetter.Raises() && m.finalAck.Lands() then [Acked] else [])
  }

  /** The effects of the attempts from k on, as far as they are made. */
  function EffectsFrom(m: Message, k: nat): seq<Effect>
    requires k <= |m.attempts|
    decreases |m.attempts| - k
  {
    if k == |m.attempts| then DeadLetterEffects(m)
    else if Fails(m.attempts[k]) then AttemptEffects(m.attempts[k]) + EffectsFrom(m, k + 1)
    else AttemptEffects(m.attempts[k])
  }

  /** No attempt from k on goes through. */
  ghost predicate FailFrom(m: Message, k: nat) {
    forall j :: k <= j < |m.attempts| ==> Fails(m.attempts[j])
  }

  /** Processing raises out of the loop when a Redis error hits the dead-lettering. */
  ghost predicate Raises(m: Message) {
    FailFrom(m, 0) && (m.deadLetter.Raises() || m.finalAck.Raises())
  }

  class Consumer {
    /** All effects so far, for all messages. */
    var log: seq<Effect>

    constructor ()
      ensures log == []
    {
      log := [];
    }

    method ProcessMessage(m: Message) returns (raised: bool)
      requires m.Valid()
      modifies this
      ensures log == old(log) + EffectsFrom(m, 0)
      ensures raised <==> Raises(m)
    {
      hide EffectsFrom, AttemptEffects, DeadLetterEffects, Fails;
      for attempt := 0 to MAX_RETRIES
        invariant log + (if attempt < MAX_RETRIES then EffectsFrom(m, attempt) else []) == old(log) + EffectsFrom(m, 0)
        invariant forall k :: 0 <= k < attempt ==> Fails(m.attempts[k])
        invariant attempt == MAX_RETRIES ==> !m.deadLetter.Raises() && !m.finalAck.Raises()
      {
        EffectsStep(m, attempt);
        ghost var before := log;
        var failed := MakeAttempt(m.attempts[attempt]);
        if !failed {
          return false;
        }
        assert log + EffectsFrom(m, attempt + 1)
            == before + (AttemptEffects(m.attempts[attempt]) + EffectsFrom(m, attempt + 1));
        if attempt == MAX_RETRIES - 1 {
          EffectsEnd(m);
          raised := MoveToDeadLetters(m);
          if raised {
            return;
          }
        }
      }
      return false;
    }

    /** Stores the dead letter and acknowledges the message; nothing that raises is caught. */
    method MoveToDeadLetters(m: Message) returns (raised: bool)
      modifies this
      ensures log == old(log) + DeadLetterEffects(m)
      ensures raised <==> m.deadLetter.Raises() || m.finalAck.Raises()
    {
      if m.deadLetter.Lands() {
        log := log + [DeadLettered];
      }
      if m.deadLetter.Raises() {
        return true;
      }
      if m.finalAck.Lands() {
        log := log + [Acked];
      }
      return m.finalAck.Raises();
    }

    /** One pass through the handler and the acknowledgement; whatever raises is caught. */
    method MakeAttempt(a: Attempt) returns (failed: bool)
      modifies this
      ensures log == old(log) + AttemptEffects(a) && failed == Fails(a)
    {
      if a.BadPayload? {
        return true;
      }
      log := log + [Handled];
      if a.HandlerFails? {
        return true;
      }
      log := log + [Completed];
      if a.ack.Lands() {
        log := log + [Acked];
      }
      return a.ack.Raises();
    }

    /** A batch is worked off in order; an exception that escapes one message skips the others. */
    method ConsumeBatch(batch: seq<Message>) returns (processed: nat)
      requires forall i :: 0 <= i < |batch| ==> batch[i].Valid()
      modifies this
      ensures processed == FirstRaising(batch)
      ensures log == old(log) + BatchEffects(batch[..processed])
    {
      hide EffectsFrom, Raises, FirstRaising;
      processed := 0;
      FirstRaisingIsFirst(batch);
      while processed < |batch|
        invariant processed <= |batch| && processed <= FirstRaising(batch)
        invariant forall i :: 0 <= i < processed ==> !Raises(batch[i])
        invariant log == old(log) + BatchEffects(batch[..processed])
        decreases |batch| - processed
      {
        var raised := ProcessMessage(batch[processed]);
        assert batch[..processed + 1][..processed] == batch[..processed];
        processed := processed + 1;
        if raised {
          return;
        }
      }
    }

    /** The consuming loop. Every read delivers only new messages, so what an exception skips in one batch
        is not in a later one. What comes back are the deliveries that were processed, as batch and place. */
    method Consume(batches: seq<seq<Message>>) returns (processed: seq<(nat, nat)>)
      requires forall k, i :: 0 <= k < |batches| && 0 <= i < |batches[k]| ==> batches[k][i].Valid()
      modifies this
      ensures processed == Deliveries(batches)
      ensures log == old(log) + ConsumedEffects(batches)
    {
      hide EffectsFrom, Raises, FirstRaising, BatchEffects;
      processed := [];
      for k := 0 to |batches|
        invariant processed == Deliveries(batches[..k])
        invariant log == old(log) + ConsumedEffects(batches[..k])
      {
        var count := ConsumeBatch(batches[k]);
        assert batches[..k + 1][..k] == batches[..k];
        processed := processed + Places(k, count);
      }
      assert batches[..|batches|] == batches;
    }
  }

  lemma EffectsStep(m: Message, k: nat)
    requires k < |m.attempts|
    ensures EffectsFrom(m, k) ==
      if Fails(m.attempts[k]) then AttemptEffects(m.attempts[k]) + EffectsFrom(m, k + 1)
      else AttemptEffects(m.attempts[k])
  {
  }

  lemma EffectsEnd(m: Message)
    ensures EffectsFrom(m, |m.attempts|) == DeadLetterEffects(m)
  {
  }

  function Count(effects: seq<Effect>, e: Effect): nat {
    if |effects| == 0 then 0
    else Count(effects[..|effects| - 1], e) + if effects[|effects| - 1] == e then 1 else 0
  }

  lemma {:induction false} CountAppend(a: seq<Effect>, b: seq<Effect>, e: Effect)
    ensures Count(a + b, e) == Count(a, e) + Count(b, e)
  {
    if |b| == 0 {
      assert a + b == a;
    } else {
      assert (a + b)[..|a + b| - 1] == a + b[..|b| - 1];
      CountAppend(a, b[..|b| - 1], e);
    }
  }

  lemma CountShort(x: Effect, y: Effect, z: Effect, e: Effect)
    ensures Count([], e) == 0
    ensures Count([x], e) == if x == e then 1 else 0
    ensures Count([x, y], e) == (if x == e then 1 else 0) + if y == e then 1 else 0
    ensures Count([x, y, z], e) == (if x == e then 1 else 0) + (if y == e then 1 else 0) + if z == e then 1 else 0
  {
    assert [x][..0] == [] && [x, y][..1] == [x] && [x, y, z][..2] == [x, y];
  }

  /** How often one attempt has each effect. */
  lemma AttemptCounts(a: Attempt)
    ensures Count(AttemptEffects(a), Handled) == (if a.BadPayload? then 0 else 1)
    ensures Count(AttemptEffects(a), DeadLettered) == 0
    ensures Count(AttemptEffects(a), Acked) == if a.HandlerCompletes? && a.ack.Lands() then 1 else 0
    ensures Count(AttemptEffects(a), Completed) == if a.HandlerCompletes? then 1 else 0
  {
    forall e: Effect
      ensures Count([], e) == 0
      ensures Count([Handled], e) == if e == Handled then 1 else 0
      ensures Count([Handled, Completed], e) == if e in {Handled, Completed} then 1 else 0
      ensures Count([Handled, Completed, Acked], e) == if e == DeadLettered then 0 else 1
    {
      CountShort(Handled, Completed, Acked, e);
    }
  }

  /** How often dead-lettering has each effect. */
  lemma EndCounts(m: Message)
    ensures var end := EffectsFrom(m, |m.attempts|);
      && Count(end, Handled) == 0 && Count(end, Completed) == 0
      && Count(end, DeadLettered) == (if m.deadLetter.Lands() then 1 else 0)
      && Count(end, Acked) == if !m.deadLetter.Raises() && m.finalAck.Lands() then 1 else 0
  {
    forall e: Effect
      ensures Count([], e) == 0
      ensures Count([DeadLettered], e) == if e == DeadLettered then 1 else 0
      ensures Count([DeadLettered, Acked], e) == if e in {DeadLettered, Acked} then 1 else 0
    {
      CountShort(DeadLettered, Acked, Acked, e);
    }
  }

  ghost function BatchEffects(batch: seq<Message>): seq<Effect> {
    if |batch| == 0 then []
    else BatchEffects(batch[..|batch| - 1]) + EffectsFrom(batch[|batch| - 1], 0)
  }

  /** Number of messages of a batch that are processed: up to and including the first that raises. */
  ghost function FirstRaising(batch: seq<Message>): (n: nat)
    ensures n <= |batch|
  {
    if |batch| == 0 then 0 else if Raises(batch[0]) then 1 else 1 + FirstRaising(batch[1..])
  }

  lemma {:induction false} FirstRaisingIsFirst(batch: seq<Message>)
    ensures var n := FirstRaising(batch);
      && (forall i :: 0 <= i < n - 1 ==> !Raises(batch[i]))
      && (0 < n < |batch| ==> Raises(batch[n - 1]))
      && (|batch| > 0 ==> n > 0)
  {
    if |batch| > 0 && !Raises(batch[0]) {
      FirstRaisingIsFirst(batch[1..]);
    }
  }

  // ------------------------------------------------------------------
  // Safety, at every point at which a crash can cut the effects off
  // ------------------------------------------------------------------

  /** An acknowledgement stands only behind a completed handler or a dead letter. */
  ghost predicate AckedAfterWork(effects: seq<Effect>) {
    forall i :: 0 <= i < |effects| && effects[i] == Acked ==>
      i > 0 && effects[i - 1] in {Completed, DeadLettered}
  }

  lemma SafeAppend(a: seq<Effect>, b: seq<Effect>)
    requires AckedAfterWork(a) && AckedAfterWork(b) && (b != [] ==> b[0] != Acked)
    ensures AckedAfterWork(a + b)
  {
    forall i | 0 <= i < |a + b| && (a + b)[i] == Acked
      ensures i > 0 && (a + b)[i - 1] in {Completed, DeadLettered}
    {
      if i >= |a| {
        assert b[i - |a|] == Acked;
      }
    }
  }

  lemma {:induction false} EffectsAreSafe(m: Message, k: nat)
    requires k <= |m.attempts|
    ensures AckedAfterWork(EffectsFrom(m, k))
    ensures EffectsFrom(m, k) != [] ==> EffectsFrom(m, k)[0] != Acked
    decreases |m.attempts| - k
  {
    hide EffectsFrom;
    if k == |m.attempts| {
      EffectsEnd(m);
    } else {
      EffectsStep(m, k);
      if Fails(m.attempts[k]) {
        EffectsAreSafe(m, k + 1);
        SafeAppend(AttemptEffects(m.attempts[k]), EffectsFrom(m, k + 1));
      }
    }
  }

  /** Acknowledgement j takes effect on the server: that of attempt j, or, after the last attempt, the
      one behind the dead letter. */
  ghost predicate AckLands(m: Message, j: nat)
    requires j <= |m.attempts|
  {
    && (forall i :: 0 <= i < j ==> Fails(m.attempts[i]))
    && if j == |m.attempts| then !m.deadLetter.Raises() && m.finalAck.Lands()
       else m.attempts[j].HandlerCompletes? && m.attempts[j].ack.Lands()
  }

  /** Number of acknowledgements from the k-th on that take effect. */
  ghost function AcksFrom(m: Message, k: nat): nat
    requires k <= |m.attempts|
    decreases |m.attempts| - k
  {
    (if AckLands(m, k) then 1 else 0) + if k < |m.attempts| then AcksFrom(m, k + 1) else 0
  }

  /** AcksFrom counts: positive if some acknowledgement lands, one if exactly one does. */
  lemma {:induction false} AcksFromCounts(m: Message, k: nat)
    requires k <= |m.attempts|
    ensures AcksFrom(m, k) > 0 <==> exists j: nat :: k <= j <= |m.attempts| && AckLands(m, j)
    ensures AcksFrom(m, k) > 1 <==>
      exists i: nat, j: nat :: k <= i < j <= |m.attempts| && AckLands(m, i) && AckLands(m, j)
    decreases |m.attempts| - k
  {
    hide AckLands;
    if k < |m.attempts| {
      AcksFromCounts(m, k + 1);
    }
  }

  /** How often the handler runs, the message is dead-lettered and it is acknowledged, from attempt k on. */
  lemma {:induction false} EffectCounts(m: Message, k: nat)
    requires k <= |m.attempts| && forall i :: 0 <= i < k ==> Fails(m.attempts[i])
    ensures Count(EffectsFrom(m, k), Handled) <= |m.attempts| - k
    ensures Count(EffectsFrom(m, k), DeadLettered) == if FailFrom(m, k) && m.deadLetter.Lands() then 1 else 0
    ensures Count(EffectsFrom(m, k), Acked) == AcksFrom(m, k)
    decreases |m.attempts| - k
  {
    hide EffectsFrom, AttemptEffects, Count;
    if k == |m.attempts| {
      EndCounts(m);
    } else {
      var a := m.attempts[k];
      EffectsStep(m, k);
      AttemptCounts(a);
      if Fails(a) {
        EffectCounts(m, k + 1);
        CountAppend(AttemptEffects(a), EffectsFrom(m, k + 1), Handled);
        CountAppend(AttemptEffects(a), EffectsFrom(m, k + 1), DeadLettered);
        CountAppend(AttemptEffects(a), EffectsFrom(m, k + 1), Acked);
        assert FailFrom(m, k) <==> FailFrom(m, k + 1);
      } else {
        AcksFromCounts(m, k + 1);
      }
    }
  }

  /** Attempt j is made: all attempts before it failed. */
  ghost predicate Made(m: Message, j: nat)
    requires j <= |m.attempts|
  {
    forall i :: 0 <= i < j ==> Fails(m.attempts[i])
  }

  /** Number of attempts from k on that are made and get past parsing. */
  ghost function RunsFrom(m: Message, k: nat): nat
    requires k <= |m.attempts|
    decreases |m.attempts| - k
  {
    if k == |m.attempts| || !Made(m, k) then 0
    else (if m.attempts[k].BadPayload? then 0 else 1) + RunsFrom(m, k + 1)
  }

  /** The handler runs in exactly the attempts that are made and whose payload parses. */
  lemma {:induction false} HandlerRuns(m: Message, k: nat)
    requires k <= |m.attempts| && Made(m, k)
    ensures Count(EffectsFrom(m, k), Handled) == RunsFrom(m, k)
    decreases |m.attempts| - k
  {
    hide EffectsFrom, AttemptEffects, Count;
    if k == |m.attempts| {
      EndCounts(m);
    } else {
      EffectsStep(m, k);
      AttemptCounts(m.attempts[k]);
      if Fails(m.attempts[k]) {
        HandlerRuns(m, k + 1);
        CountAppend(AttemptEffects(m.attempts[k]), EffectsFrom(m, k + 1), Handled);
      } else {
        assert !Made(m, k + 1);
      }
    }
  }

  /** A message whose payload parses is handled three times if its first two attempts fail, and as often as
      it takes to go through otherwise. */
  lemma HandledUntilThrough(m: Message)
    requires m.Valid() && forall i :: 0 <= i < |m.attempts| ==> !m.attempts[i].BadPayload?
    ensures Count(EffectsFrom(m, 0), Handled) ==
      if !Fails(m.attempts[0]) then 1 else if !Fails(m.attempts[1]) then 2 else 3
  {
    hide EffectsFrom, Count;
    HandlerRuns(m, 0);
    assert RunsFrom(m, 3) == 0;
    assert RunsFrom(m, 2) == if Made(m, 2) then 1 else 0;
    assert RunsFrom(m, 1) == if Made(m, 1) then 1 + RunsFrom(m, 2) else 0;
  }

  /** Acknowledgements never outnumber completed handlers and dead letters. */
  lemma {:induction false} AcksWithinWork(effects: seq<Effect>)
    requires AckedAfterWork(effects)
    ensures Count(effects, Acked) <= Count(effects, Completed) + Count(effects, DeadLettered)
  {
    if |effects| > 0 {
      var n := |effects| - 1;
      var before := effects[..n];
      assert AckedAfterWork(before);
      AcksWithinWork(before);
      if effects[n] == Acked {
        assert AckedAfterWork(before[..n - 1]);
        AcksWithinWork(before[..n - 1]);
      }
    }
  }

  /** Wherever a crash stops the processing of a message, whatever raised and whatever took effect: it was
      acknowledged only right after its handler completed or it was dead-lettered, its handler ran at most
      three times, and it was dead-lettered at most once. */
  lemma CrashSafety(m: Message, cut: nat)
    requires m.Valid() && cut <= |EffectsFrom(m, 0)|
    ensures var done := EffectsFrom(m, 0)[..cut];
      && AckedAfterWork(done) && Count(done, Handled) <= MAX_RETRIES && Count(done, DeadLettered) <= 1
      && Count(done, Acked) <= Count(done, Completed) + Count(done, DeadLettered)
  {
    hide EffectsFrom, Count;
    var all := EffectsFrom(m, 0);
    EffectsAreSafe(m, 0);
    EffectCounts(m, 0);
    assert all == all[..cut] + all[cut..];
    CountAppend(all[..cut], all[cut..], Handled);
    CountAppend(all[..cut], all[cut..], DeadLettered);
    AcksWithinWork(all[..cut]);
  }

  // ------------------------------------------------------------------
  // What happens without a crash
  // ------------------------------------------------------------------

  /** A message is acknowledged exactly once if and only if exactly one acknowledgement takes effect: that
      of an attempt which all attempts before it led to, or the one behind a dead letter. */
  lemma AckedOnceIff(m: Message)
    requires m.Valid()
    ensures Count(EffectsFrom(m, 0), Acked) == 1 <==>
      exists j: nat :: j <= |m.attempts| && AckLands(m, j) &&
        forall i: nat :: i <= |m.attempts| && AckLands(m, i) ==> i == j
  {
    hide EffectsFrom, Count, AckLands;
    EffectCounts(m, 0);
    AcksFromCounts(m, 0);
  }

  /** It is acknowledged again, after an earlier acknowledgement took effect, only if a reply was lost. */
  lemma AckedTwiceNeedsLostReply(m: Message)
    requires m.Valid() && Count(EffectsFrom(m, 0), Acked) > 1
    ensures exists j :: 0 <= j < |m.attempts| && m.attempts[j] == HandlerCompletes(ReplyLost)
  {
    hide EffectsFrom, Count;
    EffectCounts(m, 0);
    AcksFromCounts(m, 0);
    var i: nat, j: nat :| i < j <= |m.attempts| && AckLands(m, i) && AckLands(m, j);
    assert Fails(m.attempts[i]);
  }

  /** A lost reply makes the handler run again on a message that is already acknowledged. */
  lemma HandledAgainAfterAck()
    ensures
      var m := Message([HandlerCompletes(ReplyLost), HandlerCompletes(Answered), HandlerFails], Answered, Answered);
      m.Valid() && EffectsFrom(m, 0) == [Handled, Completed, Acked, Handled, Completed, Acked]
  {
    var m := Message([HandlerCompletes(ReplyLost), HandlerCompletes(Answered), HandlerFails], Answered, Answered);
    EffectsStep(m, 0);
    EffectsStep(m, 1);
  }

  /** A message is left unacknowledged if and only if all attempts failed, no acknowledgement of theirs
      reached the server, and either storing the dead letter raised or the last acknowledgement did not
      reach it. */
  lemma UnackedIff(m: Message)
    requires m.Valid()
    ensures Count(EffectsFrom(m, 0), Acked) == 0 <==>
      && FailFrom(m, 0) && (m.deadLetter.Raises() || !m.finalAck.Lands())
      && forall j :: 0 <= j < |m.attempts| && m.attempts[j].HandlerCompletes? ==> m.attempts[j].ack.Refused?
  {
    hide EffectsFrom, Count;
    EffectCounts(m, 0);
    AcksFromCounts(m, 0);
    if FailFrom(m, 0) {
      assert forall j: nat :: j < |m.attempts| ==>
        (AckLands(m, j) <==> m.attempts[j].HandlerCompletes? && m.attempts[j].ack.Lands());
      assert AckLands(m, |m.attempts|) <==> !m.deadLetter.Raises() && m.finalAck.Lands();
    } else {
      var j := FirstSuccess(m);
      assert AckLands(m, j);
    }
  }

  lemma FirstSuccess(m: Message) returns (j: nat)
    requires !FailFrom(m, 0)
    ensures j < |m.attempts| && !Fails(m.attempts[j]) && forall i :: 0 <= i < j ==> Fails(m.attempts[i])
  {
    j := 0;
    while Fails(m.attempts[j])
      invariant j < |m.attempts| && forall i :: 0 <= i < j ==> Fails(m.attempts[i])
      decreases |m.attempts| - j
    {
      j := j + 1;
    }
  }

  /** Without Redis errors each delivered message is acknowledged exactly once, never raises, and is
      dead-lettered if and only if all three attempts failed. */
  lemma WithoutRedisErrors(m: Message)
    requires m.Valid() && m.deadLetter.Answered? && m.finalAck.Answered?
    requires forall k :: 0 <= k < |m.attempts| && m.attempts[k].HandlerCompletes? ==> m.attempts[k].ack.Answered?
    ensures Count(EffectsFrom(m, 0), Acked) == 1 && !Raises(m)
    ensures Count(EffectsFrom(m, 0), DeadLettered) == 1 <==>
      forall k :: 0 <= k < |m.attempts| ==> !m.attempts[k].HandlerCompletes?
  {
    hide EffectsFrom, Count;
    EffectCounts(m, 0);
    UnackedIff(m);
    if Count(EffectsFrom(m, 0), Acked) > 1 {
      AckedTwiceNeedsLostReply(m);
    }
  }

  lemma {:induction false} CompletionsCount(m: Message, k: nat)
    requires k <= |m.attempts| && FailFrom(m, k)
    ensures Count(EffectsFrom(m, k), Completed) > 0 <==>
      exists j :: k <= j < |m.attempts| && m.attempts[j].HandlerCompletes?
    decreases |m.attempts| - k
  {
    hide EffectsFrom, AttemptEffects, Count;
    if k == |m.attempts| {
      EndCounts(m);
    } else {
      EffectsStep(m, k);
      AttemptCounts(m.attempts[k]);
      CompletionsCount(m, k + 1);
      CountAppend(AttemptEffects(m.attempts[k]), EffectsFrom(m, k + 1), Completed);
    }
  }

  /** A message can be dead-lettered although its handler completed. That happens if and only if all
      attempts failed, one of them only in its acknowledgement, and the dead letter was stored, whether or
      not the call that stored it raised. */
  lemma CompletedYetDeadLetteredIff(m: Message)
    requires m.Valid()
    ensures Count(EffectsFrom(m, 0), DeadLettered) == 1 && Count(EffectsFrom(m, 0), Completed) > 0 <==>
      && FailFrom(m, 0) && m.deadLetter.Lands()
      && exists k :: 0 <= k < |m.attempts| && m.attempts[k].HandlerCompletes?
  {
    hide EffectsFrom, Count;
    EffectCounts(m, 0);
    if FailFrom(m, 0) {
      CompletionsCount(m, 0);
    }
  }

  /** A message of a batch is processed if and only if no message before it raised, which takes a
      Redis error while one of them was dead-lettered. */
  lemma ProcessedIff(batch: seq<Message>, i: nat)
    requires i < |batch|
    ensures i < FirstRaising(batch) <==> forall j :: 0 <= j < i ==> !Raises(batch[j])
  {
    FirstRaisingIsFirst(batch);
  }

  // ------------------------------------------------------------------
  // Many batches
  // ------------------------------------------------------------------

  /** The first n places of batch b. */
  function Places(b: nat, n: nat): seq<(nat, nat)> {
    if n == 0 then [] else Places(b, n - 1) + [(b, n - 1)]
  }

  /** The deliveries of all batches that are processed, in order. */
  ghost function Deliveries(batches: seq<seq<Message>>): seq<(nat, nat)> {
    if |batches| == 0 then []
    else
      var k := |batches| - 1;
      Deliveries(batches[..k]) + Places(k, FirstRaising(batches[k]))
  }

  ghost function ConsumedEffects(batches: seq<seq<Message>>): seq<Effect> {
    if |batches| == 0 then []
    else
      var last := batches[|batches| - 1];
      ConsumedEffects(batches[..|batches| - 1]) + BatchEffects(last[..FirstRaising(last)])
  }

  /** However long the consumer runs, a delivered message is processed if and only if no message before it
      in its own batch raised, and never twice. A message behind a raising one is never processed. */
  lemma {:induction false} DeliveredIff(batches: seq<seq<Message>>, k: nat, i: nat)
    requires k < |batches| && i < |batches[k]|
    ensures (k, i) in Deliveries(batches) <==> forall j :: 0 <= j < i ==> !Raises(batches[k][j])
    ensures multiset(Deliveries(batches))[(k, i)] <= 1
  {
    hide FirstRaising, Raises, Deliveries, Places;
    var n := |batches| - 1;
    var before, last := Deliveries(batches[..n]), Places(n, FirstRaising(batches[n]));
    DeliveriesStep(batches);
    ProcessedIff(batches[k], i);
    DeliveriesBelow(batches[..n]);
    OncePerPlace(n, FirstRaising(batches[n]), k, i);
    if k < n {
      DeliveredIff(batches[..n], k, i);
    } else {
      assert (k, i) !in before;
    }
    assert multiset(before + last) == multiset(before) + multiset(last);
    assert (k, i) in before + last <==> (k, i) in before || (k, i) in last;
  }

  lemma DeliveriesStep(batches: seq<seq<Message>>)
    requires |batches| > 0
    ensures var n := |batches| - 1;
      Deliveries(batches) == Deliveries(batches[..n]) + Places(n, FirstRaising(batches[n]))
  {
  }

  lemma {:induction false} DeliveriesBelow(batches: seq<seq<Message>>)
    ensures forall d :: d in Deliveries(batches) ==> d.0 < |batches|
  {
    if |batches| > 0 {
      var n := |batches| - 1;
      DeliveriesBelow(batches[..n]);
      forall d | d in Deliveries(batches) ensures d.0 < |batches| {
        OncePerPlace(n, FirstRaising(batches[n]), d.0, d.1);
        assert d in Deliveries(batches[..n]) || d in Places(n, FirstRaising(batches[n]));
      }
    }
  }

  lemma {:induction false} OncePerPlace(b: nat, n: nat, k: nat, i: nat)
    ensures multiset(Places(b, n))[(k, i)] == if k == b && i < n then 1 else 0
    ensures (k, i) in Places(b, n) <==> k == b && i < n
  {
    if n > 0 {
      OncePerPlace(b, n - 1, k, i);
    }
  }
}
