/** Concurrent create calls for one (user, idempotency key) on the shared store, cut at every database interaction,
    with other transactions in between. The unique key makes a second insert wait for the first transaction: it
    collides if that one commits, and goes ahead if it rolls back. Reads see committed rows only. */
module CreateRace {
  import opened Types
  import opened Transactions
  import opened Consistency
  import Backoff
  import Fingerprint
  import Frame
  import Retry
  import Routing
  import Settlement

  type Holds = nat -> Uuid -> Routing.CandidateReply

  /** What a caller gets; `ReRaised` is the concurrency error itself, `Lost` the end of a process that answers nobody. */
  datatype Answer = Answered(reply: Tx<Reservation>) | ReRaised | Lost

  datatype Path = ByRead | ByInsert | ByReread

  datatype Phase =
    | Begun
    | Drafted                      // read found no row
    | Inserted                     // its row is written and the key is locked
    | Held(outcome: Tx<Added>)     // holds made or failed on the store of that moment, nothing committed yet
    | Collided                     // the insert violated the unique key; the transaction is rolled back
    | Done(answer: Answer, path: Path)

  datatype Call = Call(request: CreateRequest, holds: Holds, releases: nat -> Settlement.Reply, phase: Phase)

  /** `holders` and `commits` record which calls reached the providers and which committed, in order. */
  datatype Race = Race(user: Uuid, key: string, store: Store, writer: Option<nat>, calls: map<nat, Call>,
                       holders: seq<nat>, commits: seq<nat>)

  function Quiet(s: Store, user: Uuid, key: string): Race {
    Race(user, key, s, None, map[], [], [])
  }

  datatype Event =
    | Join(call: nat, request: CreateRequest, holds: Holds, releases: nat -> Settlement.Reply)
    | Read(call: nat)
    | Insert(call: nat)
    | Hold(call: nat)
    | Finish(call: nat)            // commit of what was written, onto the store as it is now, or rollback
    | Abort(call: nat)             // the process dies
    | Reread(call: nat)
    | Elsewhere(step: Step)        // another transaction: a worker, an operator, a customer, or a create under another key

  /** Inside an open transaction that holds the unique key. */
  predicate Writing(p: Phase) { p.Inserted? || p.Held? }

  predicate Taken(r: Race) { KeyTaken(r.store.reservations, r.user, r.key) }

  predicate CreatesUnder(step: Step, user: Uuid, key: string) {
    step.CreateStep? && step.request.user == user && step.request.key == key
  }

  /** What the database lets other transactions do beside an open create: they cannot insert its row, and once it has
      made its holds they touch no offer of its products and no provider, where they would have to wait. */
  ghost predicate Tolerated(r: Race, step: Step)
    requires Possible(r.store, step)
  {
    r.writer.Some? && r.writer.value in r.calls ==>
      var call := r.calls[r.writer.value];
      && !(step.CreateStep? && step.request.id == call.request.id)
      && (call.phase.Held? ==> Frame.Apart(r.store, Apply(r.store, step), Draft(call.request)))
  }

  ghost predicate Enabled(r: Race, e: Event) {
    match e
    case Join(c, q, _, _) => c !in r.calls && q.user == r.user && q.key == r.key && QuantitiesValid(q.items)
    case Read(c) => c in r.calls && r.calls[c].phase.Begun?
    case Insert(c) => c in r.calls && r.calls[c].phase.Drafted? && r.writer.None?
    case Hold(c) => c in r.calls && r.calls[c].phase.Inserted?
    case Finish(c) => c in r.calls && r.calls[c].phase.Held?
    case Abort(c) => c in r.calls && !r.calls[c].phase.Done?
    case Reread(c) => c in r.calls && r.calls[c].phase.Collided?
    case Elsewhere(step) => Possible(r.store, step) && !CreatesUnder(step, r.user, r.key) && Tolerated(r, step)
  }

  ghost function Stored(r: Race): Reservation
    requires Taken(r)
  {
    r.store.reservations[FindByKey(r.store.reservations, r.user, r.key)]
  }

  ghost function RetryAnswer(r: Race, q: CreateRequest): Tx<Reservation>
    requires Taken(r)
  {
    ResolveRetry(Stored(r), Fingerprint.Canonical(q.items))
  }

  function Move(r: Race, call: nat, phase: Phase): Race
    requires call in r.calls
  {
    r.(calls := r.calls[call := r.calls[call].(phase := phase)])
  }

  ghost function Next(r: Race, e: Event): Race
    requires Enabled(r, e)
  {
    match e
    case Join(c, q, holds, releases) => r.(calls := r.calls[c := Call(q, holds, releases, Begun)])
    case Read(c) =>
      var q := r.calls[c].request;
      if Taken(r) then Move(r, c, Done(Answered(RetryAnswer(r, q)), ByRead))
      else
        var error := DraftError(Draft(q));
        if error.Some? then Move(r, c, Done(Answered(Raise(error.value)), ByRead)) else Move(r, c, Drafted)
    case Insert(c) =>
      var error := InsertError(r.store, Draft(r.calls[c].request));
      if error.None? then Move(r, c, Inserted).(writer := Some(c))
      else if error.value == ConcurrentReservationCreationError then Move(r, c, Collided)
      else Move(r, c, Done(Answered(Raise(error.value)), ByInsert))
    case Hold(c) =>
      var call := r.calls[c];
      Move(r, c, Phase.Held(AddWithHold(r.store, Draft(call.request), call.holds, call.releases))).(holders := r.holders + [c])
    case Finish(c) =>
      (match Frame.Rebased(r.store, Draft(r.calls[c].request), r.calls[c].phase.outcome)
       case Raise(error) => Move(r, c, Done(Answered(Raise(error)), ByInsert)).(writer := None)
       case Commit(added) =>
         Move(r, c, Done(Answered(if added.held then Commit(Draft(r.calls[c].request)) else Raise(InsufficientInventoryError)), ByInsert))
           .(store := added.store, writer := None, commits := r.commits + [c]))
    case Abort(c) =>
      var writing := Writing(r.calls[c].phase);
      Move(r, c, Done(Lost, if writing then ByInsert else ByRead)).(writer := if writing then None else r.writer)
    case Reread(c) =>
      Move(r, c, Done(if Taken(r) then Answered(RetryAnswer(r, r.calls[c].request)) else ReRaised, ByReread))
    case Elsewhere(step) => r.(store := Apply(r.store, step))
  }

  ghost predicate Happens(r: Race, es: seq<Event>)
    decreases |es|
  {
    es == [] || (Enabled(r, es[0]) && Happens(Next(r, es[0]), es[1..]))
  }

  ghost function After(r: Race, es: seq<Event>): Race
    requires Happens(r, es)
    decreases |es|
  {
    if es == [] then r else After(Next(r, es[0]), es[1..])
  }

  // ----- The invariant -----

  /** A successful answer names the reservation that owns the key. */
  predicate AnswerOk(r: Race, answer: Answer) {
    && !answer.ReRaised?
    && (answer.Answered? && answer.reply.Commit? ==>
          var id := answer.reply.value.id;
          id in r.store.reservations && OwnsKey(r.store.reservations[id], r.user, r.key))
  }

  predicate RequestOk(r: Race, call: Call) {
    && call.request.user == r.user && call.request.key == r.key && QuantitiesValid(call.request.items)
    && (call.phase.Drafted? || Writing(call.phase) ==> DraftError(Draft(call.request)).None?)
  }

  /** An open transaction could start afresh on the current store and would come to the same outcome. */
  predicate WritingOk(s: Store, call: Call) {
    var q := Draft(call.request);
    && (Writing(call.phase) ==> InsertError(s, q).None?)
    && (call.phase.Held? ==>
          && (call.phase.outcome.Commit? ==> q.id in call.phase.outcome.value.store.reservations)
          && AddWithHold(s, q, call.holds, call.releases) == Frame.Rebased(s, q, call.phase.outcome))
  }

  /** What one call's phase says about the shared store. */
  predicate CallOk(r: Race, c: nat)
    requires c in r.calls
  {
    var call := r.calls[c];
    && RequestOk(r, call)
    && (Writing(call.phase) <==> r.writer == Some(c))
    && (call.phase.Collided? ==> Taken(r))
    && WritingOk(r.store, call)
    && (call.phase.Held? ==> c in r.holders)
    && (c in r.holders ==> call.phase.Held? || (call.phase.Done? && call.phase.path.ByInsert?))
    && (call.phase.Done? ==> AnswerOk(r, call.phase.answer))
  }

  predicate RaceOk(r: Race) {
    && Consistent(r.store)
    && (r.writer.Some? ==> !Taken(r) && r.writer.value in r.calls)
    && (forall c | c in r.calls :: CallOk(r, c))
    && (forall c | c in r.holders :: c in r.calls)
    && |r.commits| <= 1 && (!Taken(r) ==> r.commits == [])
  }

  /** A key that is taken stays taken, and from then on nobody holds or commits under it. */
  predicate KeyKept(r: Race, t: Race) {
    Taken(r) ==> Taken(t) && t.holders == r.holders && t.commits == r.commits
  }

  // ----- Each answer is that of one undisturbed create -----

  lemma RefusedDraft(s: Store, q: Reservation, holds: Holds, releases: nat -> Settlement.Reply)
    requires InsertError(s, q).Some?
    ensures AddWithHold(s, q, holds, releases) == Raise(InsertError(s, q).value)
  {
  }

  lemma InsertCollidesIff(s: Store, q: Reservation)
    requires DraftError(q).None?
    ensures InsertError(s, q) == Some(ConcurrentReservationCreationError) <==> KeyTaken(s.reservations, q.user, q.key)
  {
  }

  /** The call that an event answers, if any. */
  ghost function Answering(r: Race, e: Event): Option<nat>
    requires Enabled(r, e)
  {
    if (e.Read? || e.Insert? || e.Finish? || e.Reread?)
       && Next(r, e).calls[e.call].phase.Done? && Next(r, e).calls[e.call].phase.answer.Answered?
    then Some(e.call) else None
  }

  ghost function Sequential(s: Store, call: Call): Created {
    Create(s, call.request, call.holds, call.releases)
  }

  /** Between these two states the call was answered, and the store written, as by an undisturbed create. */
  ghost predicate AnsweredAlone(r: Race, t: Race, c: nat) {
    && c in r.calls && c in t.calls && t.calls[c].phase.Done? && t.calls[c].phase.answer.Answered?
    && Created(t.store, t.calls[c].phase.answer.reply) == Sequential(r.store, r.calls[c])
  }

  /** An event that answers a call does to the store, and says to the caller, what an undisturbed create would at that
      instant; any other event of a call leaves the store alone. */
  lemma EventIsAtomic(r: Race, e: Event)
    requires RaceOk(r) && Enabled(r, e)
    ensures match Answering(r, e)
            case Some(c) => AnsweredAlone(r, Next(r, e), c)
            case None => Next(r, e).store == if e.Elsewhere? then Apply(r.store, e.step) else r.store
  {
    hide AddWithHold, Fingerprint.Canonical, Consistent, Apply, InsertError, KeyTaken;
    if !e.Elsewhere? && !e.Join? {
      var call := r.calls[e.call];
      assert CallOk(r, e.call);
      if !Taken(r) {
        CreateWhenFree(r.store, call.request, call.holds, call.releases);
        if InsertError(r.store, Draft(call.request)).Some? {
          RefusedDraft(r.store, Draft(call.request), call.holds, call.releases);
        }
        DraftErrorFirst(r.store, Draft(call.request));
      }
      if e.Insert? { InsertCollidesIff(r.store, Draft(call.request)); }
    }
  }

  lemma DraftErrorFirst(s: Store, q: Reservation)
    ensures DraftError(q).Some? ==> InsertError(s, q) == DraftError(q)
  {
  }

  // ----- The invariant is kept -----

  lemma CreateOwnsKey(s: Store, q: CreateRequest, holds: Holds, releases: nat -> Settlement.Reply)
    requires Consistent(s) && Create(s, q, holds, releases).answer.Commit?
    ensures var x := Create(s, q, holds, releases);
            var id := x.answer.value.id;
            id in x.store.reservations && OwnsKey(x.store.reservations[id], q.user, q.key)
  {
    if !KeyTaken(s.reservations, q.user, q.key) {
      CreateWhenFree(s, q, holds, releases);
      Retry.AddWithHoldKeepsRequest(s, Draft(q), holds, releases);
    }
  }

  lemma CommitTakesKey(s: Store, q: Reservation, holds: Holds, releases: nat -> Settlement.Reply)
    requires AddWithHold(s, q, holds, releases).Commit?
    ensures KeyTaken(AddWithHold(s, q, holds, releases).value.store.reservations, q.user, q.key)
  {
    Retry.AddWithHoldKeepsRequest(s, q, holds, releases);
    var t := AddWithHold(s, q, holds, releases).value.store;
    assert OwnsKey(t.reservations[q.id], q.user, q.key);
  }

  lemma EvolvesKeepsTaken(s: Store, t: Store, user: Uuid, key: string)
    requires Evolves(s, t) && KeyTaken(s.reservations, user, key)
    ensures KeyTaken(t.reservations, user, key)
  {
    var id :| id in s.reservations && OwnsKey(s.reservations[id], user, key);
    assert OwnsKey(t.reservations[id], user, key);
  }

  /** Transactions that do not create under the key neither take it nor free it. */
  lemma ElsewhereKeepsKey(s: Store, step: Step, user: Uuid, key: string)
    requires Consistent(s) && Possible(s, step) && !CreatesUnder(step, user, key)
    ensures KeyTaken(Apply(s, step).reservations, user, key) <==> KeyTaken(s.reservations, user, key)
  {
    StepConsistent(s, step);
    var t := Apply(s, step);
    if KeyTaken(s.reservations, user, key) { EvolvesKeepsTaken(s, t, user, key); }
    if id :| id in t.reservations && OwnsKey(t.reservations[id], user, key) {
      if step.CreateStep? {
        OtherCreateKeepsFree(s, step.request, step.holds, step.compensation, user, key, id);
      } else {
        Retry.OtherStepsAddNoRows(s, step);
      }
      assert OwnsKey(s.reservations[id], user, key);
    }
  }

  lemma OtherCreateKeepsFree(s: Store, q: CreateRequest, holds: Holds, releases: nat -> Settlement.Reply, user: Uuid, key: string, id: Uuid)
    requires !(q.user == user && q.key == key)
    requires var t := Create(s, q, holds, releases).store; id in t.reservations && OwnsKey(t.reservations[id], user, key)
    ensures id in s.reservations && OwnsKey(s.reservations[id], user, key)
  {
    if QuantitiesValid(q.items) && !KeyTaken(s.reservations, q.user, q.key) {
      CreateWhenFree(s, q, holds, releases);
      if AddWithHold(s, Draft(q), holds, releases).Commit? {
        AddWithHoldAddsOneRow(s, Draft(q), holds, releases);
        Retry.AddWithHoldKeepsRequest(s, Draft(q), holds, releases);
      }
    }
  }

  lemma CallOfEvent(r: Race, e: Event)
    requires Enabled(r, e)
    ensures Answering(r, e).Some? ==> !e.Elsewhere? && !e.Join? && Answering(r, e).value == e.call && e.call in r.calls
  {
    hide Next, Possible;
  }

  /** Every event takes the store through a step of the service, or leaves it alone. */
  lemma EventEvolves(r: Race, e: Event)
    requires RaceOk(r) && Enabled(r, e)
    ensures Consistent(Next(r, e).store) && Evolves(r.store, Next(r, e).store)
  {
    EventIsAtomic(r, e);
    CallOfEvent(r, e);
    EvolvesSelf(r.store);
    assert Consistent(r.store) && (e.Elsewhere? ==> Possible(r.store, e.step));
    hide Consistent, Evolves, Next, Enabled, Answering, Create, Apply, RaceOk, Possible;
    if e.Elsewhere? {
      StepConsistent(r.store, e.step);
    } else if Answering(r, e).Some? {
      var call := r.calls[Answering(r, e).value];
      CreateConsistent(r.store, call.request, call.holds, call.releases);
    }
  }

  /** A call that an event does not move is still in order afterwards. */
  lemma CallKept(r: Race, t: Race, c: nat)
    requires c in r.calls && CallOk(r, c) && c in t.calls && t.calls[c] == r.calls[c]
    requires t.user == r.user && t.key == r.key && Evolves(r.store, t.store)
    requires Writing(r.calls[c].phase) <==> t.writer == Some(c)
    requires WritingOk(t.store, t.calls[c])
    requires c in t.holders <==> c in r.holders
    ensures CallOk(t, c)
  {
    hide WritingOk, KeyTaken;
    if r.calls[c].phase.Collided? { EvolvesKeepsTaken(r.store, t.store, r.user, r.key); }
  }

  lemma AnswersAreOk(r: Race, e: Event)
    requires RaceOk(r) && Enabled(r, e) && !e.Join? && !e.Elsewhere?
    ensures e.call in r.calls && e.call in Next(r, e).calls
    ensures var phase := Next(r, e).calls[e.call].phase; phase.Done? ==> AnswerOk(Next(r, e), phase.answer)
  {
    hide AddWithHold, Fingerprint.Canonical, Consistent, InsertError, KeyTaken, Create, DraftError, QuantitiesValid, ResolveRetry, Draft;
    assert CallOk(r, e.call);
    EventIsAtomic(r, e);
    if Answering(r, e).Some? && Next(r, e).calls[e.call].phase.answer.reply.Commit? {
      var call := r.calls[e.call];
      CreateOwnsKey(r.store, call.request, call.holds, call.releases);
    }
  }

  lemma FreshlyStaged(s: Store, call: Call)
    requires InsertError(s, Draft(call.request)).None? && call.phase.Held?
    requires call.phase.outcome == AddWithHold(s, Draft(call.request), call.holds, call.releases)
    ensures WritingOk(s, call)
  {
    var q := Draft(call.request);
    Frame.OverlaySelf(s.offers, Frame.ProductsOf(q.items));
    if call.phase.outcome.Commit? { Retry.AddWithHoldKeepsRequest(s, q, call.holds, call.releases); }
    hide AddWithHold, InsertError, Frame.Rebased, Frame.Overlay, Frame.ProductsOf;
    Frame.AddWithHoldFrame(s, s, q, call.holds, call.releases);
  }

  lemma MovedIsWritingOk(r: Race, e: Event)
    requires RaceOk(r) && Enabled(r, e) && !e.Join? && !e.Elsewhere?
    ensures e.call in r.calls && e.call in Next(r, e).calls
    ensures WritingOk(Next(r, e).store, Next(r, e).calls[e.call])
  {
    hide AddWithHold, Fingerprint.Canonical, Consistent, InsertError, KeyTaken, DraftError, QuantitiesValid, ResolveRetry, AnswerOk, Draft, Frame.Rebased;
    assert CallOk(r, e.call);
    if e.Hold? { FreshlyStaged(Next(r, e).store, Next(r, e).calls[e.call]); }
  }

  /** And so is the one it moves. */
  lemma CallMoved(r: Race, e: Event)
    requires RaceOk(r) && Enabled(r, e) && !e.Join? && !e.Elsewhere?
    ensures e.call in r.calls && e.call in Next(r, e).calls
    ensures CallOk(Next(r, e), e.call)
  {
    hide AddWithHold, Fingerprint.Canonical, Consistent, InsertError, KeyTaken, DraftError, QuantitiesValid, ResolveRetry, AnswerOk;
    assert CallOk(r, e.call);
    AnswersAreOk(r, e);
    MovedIsWritingOk(r, e);
    hide WritingOk;
    if e.Insert? { InsertCollidesIff(r.store, Draft(r.calls[e.call].request)); }
  }

  lemma WriterStaysAlone(r: Race, e: Event)
    requires RaceOk(r) && Enabled(r, e)
    ensures var t := Next(r, e);
            && (t.writer.Some? ==> !Taken(t) && t.writer.value in t.calls)
            && |t.commits| <= 1 && (!Taken(t) ==> t.commits == [])
            && KeyKept(r, t)
  {
    hide AddWithHold, Fingerprint.Canonical, Consistent, KeyTaken, DraftError, QuantitiesValid, InsertError, Apply;
    EventEvolves(r, e);
    if Taken(r) { EvolvesKeepsTaken(r.store, Next(r, e).store, r.user, r.key); }
    match e {
      case Elsewhere(step) => ElsewhereKeepsKey(r.store, step, r.user, r.key);
      case Insert(c) =>
        assert CallOk(r, c);
        InsertCollidesIff(r.store, Draft(r.calls[c].request));
      case Hold(c) => assert CallOk(r, c);
      case Finish(c) =>
        assert CallOk(r, c);
        if r.calls[c].phase.outcome.Commit? { CommitTakesKey(r.store, Draft(r.calls[c].request), r.calls[c].holds, r.calls[c].releases); }
      case _ =>
    }
  }

  /** Does the event concern this call? */
  predicate Concerns(e: Event, c: nat) { !e.Elsewhere? && e.call == c }

  lemma OthersUnmoved(r: Race, e: Event, c: nat)
    requires RaceOk(r) && Enabled(r, e) && c in r.calls && !Concerns(e, c)
    ensures var t := Next(r, e);
            && c in t.calls && t.calls[c] == r.calls[c] && t.user == r.user && t.key == r.key
            && (Writing(r.calls[c].phase) <==> t.writer == Some(c))
            && (c in t.holders <==> c in r.holders)
            && (Writing(r.calls[c].phase) && !e.Elsewhere? ==> t.store == r.store)
  {
    hide AddWithHold, Fingerprint.Canonical, Consistent, KeyTaken, DraftError, QuantitiesValid, InsertError, Apply, Draft, ResolveRetry, Possible;
    assert CallOk(r, c);
    if !e.Elsewhere? && !e.Join? { assert CallOk(r, e.call); }
  }

  /** A step beside an open transaction leaves its insert possible. */
  lemma ElsewhereKeepsInsert(s: Store, step: Step, q: Reservation)
    requires Consistent(s) && Possible(s, step) && !CreatesUnder(step, q.user, q.key)
    requires !(step.CreateStep? && step.request.id == q.id) && InsertError(s, q).None?
    ensures InsertError(Apply(s, step), q).None?
  {
    ElsewhereKeepsKey(s, step, q.user, q.key);
    ElsewhereKeepsId(s, step, q.id);
    Backoff.StepCatalogue(s, step);
    hide Apply, Consistent, KeyTaken, DraftError;
  }

  lemma ElsewhereKeepsId(s: Store, step: Step, id: Uuid)
    requires Consistent(s) && Possible(s, step) && id !in s.reservations && !(step.CreateStep? && step.request.id == id)
    ensures id !in Apply(s, step).reservations
  {
    if step.CreateStep? {
      var q := step.request;
      if QuantitiesValid(q.items) && !KeyTaken(s.reservations, q.user, q.key) {
        CreateWhenFree(s, q, step.holds, step.compensation);
        if AddWithHold(s, Draft(q), step.holds, step.compensation).Commit? {
          AddWithHoldAddsOneRow(s, Draft(q), step.holds, step.compensation);
        }
      }
    } else {
      Retry.OtherStepsAddNoRows(s, step);
    }
  }

  /** And what it has staged stays right, on top of what the step did. */
  lemma ElsewhereKeepsStaged(s: Store, step: Step, call: Call)
    requires Consistent(s) && Possible(s, step) && !CreatesUnder(step, call.request.user, call.request.key)
    requires !(step.CreateStep? && step.request.id == call.request.id)
    requires call.phase.Held? ==> Frame.Apart(s, Apply(s, step), Draft(call.request))
    requires Writing(call.phase) && WritingOk(s, call)
    ensures WritingOk(Apply(s, step), call)
  {
    var q, t := Draft(call.request), Apply(s, step);
    ElsewhereKeepsInsert(s, step, q);
    hide AddWithHold, InsertError, Apply, Frame.Rebased, Frame.Apart, Consistent;
    if call.phase.Held? {
      Frame.AddWithHoldFrame(s, t, q, call.holds, call.releases);
      Frame.RebaseTwice(s, t, q, call.phase.outcome);
    }
  }

  lemma WriterStands(r: Race, e: Event, c: nat)
    requires RaceOk(r) && Enabled(r, e) && c in r.calls && !Concerns(e, c)
    ensures c in Next(r, e).calls && WritingOk(Next(r, e).store, Next(r, e).calls[c])
  {
    hide WritingOk, AddWithHold, Fingerprint.Canonical, Consistent, KeyTaken, DraftError, QuantitiesValid, InsertError, Apply, Draft, ResolveRetry, Possible, Frame.Apart;
    OthersUnmoved(r, e, c);
    assert CallOk(r, c);
    if !Writing(r.calls[c].phase) {
      NotWritingIsOk(Next(r, e).store, r.calls[c]);
    } else if e.Elsewhere? {
      ElsewhereKeepsStaged(r.store, e.step, r.calls[c]);
    }
  }

  lemma NotWritingIsOk(s: Store, call: Call)
    requires !Writing(call.phase)
    ensures WritingOk(s, call)
  {
  }

  lemma CallStands(r: Race, e: Event, c: nat)
    requires RaceOk(r) && Enabled(r, e) && c in Next(r, e).calls
    ensures CallOk(Next(r, e), c)
  {
    hide CallOk, Next, Enabled, Evolves, Writing, Consistent, Taken, WritingOk;
    if c in r.calls && !Concerns(e, c) {
      OthersUnmoved(r, e, c);
      EventEvolves(r, e);
      WriterStands(r, e, c);
      CallKept(r, Next(r, e), c);
    } else {
      CallsGrowByJoin(r, e, c);
      if e.Join? { JoinedStands(r, e); } else { CallMoved(r, e); }
    }
  }

  lemma CallsGrowByJoin(r: Race, e: Event, c: nat)
    requires Enabled(r, e) && c in Next(r, e).calls && (c !in r.calls || Concerns(e, c))
    ensures !e.Elsewhere? && e.call == c
  {
    hide AddWithHold, Apply, KeyTaken, InsertError, DraftError, Fingerprint.Canonical;
  }

  lemma JoinedStands(r: Race, e: Event)
    requires RaceOk(r) && Enabled(r, e) && e.Join?
    ensures e.call in Next(r, e).calls && CallOk(Next(r, e), e.call)
  {
    hide AddWithHold, Consistent, KeyTaken;
    assert r.writer != Some(e.call) && e.call !in r.holders;
  }

  lemma EventKeepsRace(r: Race, e: Event)
    requires RaceOk(r) && Enabled(r, e)
    ensures RaceOk(Next(r, e)) && KeyKept(r, Next(r, e))
  {
    EventEvolves(r, e);
    WriterStaysAlone(r, e);
    hide CallOk, Next, Enabled, Consistent, KeyKept, Taken;
    forall c | c in Next(r, e).holders ensures c in Next(r, e).calls { HolderIsCall(r, e, c); }
    forall c | c in Next(r, e).calls ensures CallOk(Next(r, e), c) { CallStands(r, e, c); }
  }

  lemma HolderIsCall(r: Race, e: Event, c: nat)
    requires RaceOk(r) && Enabled(r, e) && c in Next(r, e).holders
    ensures c in Next(r, e).calls
  {
    hide CallOk, Consistent, Taken, AddWithHold, Apply, Possible, DraftError, InsertError, Draft, RetryAnswer;
  }

  lemma {:induction false} RaceInvariant(r: Race, es: seq<Event>)
    requires RaceOk(r) && Happens(r, es)
    ensures RaceOk(After(r, es)) && KeyKept(r, After(r, es))
    decreases |es|
  {
    hide RaceOk, Next, Enabled;
    if es != [] {
      EventKeepsRace(r, es[0]);
      RaceInvariant(Next(r, es[0]), es[1..]);
    }
  }

  lemma QuietIsOk(s: Store, user: Uuid, key: string)
    requires Consistent(s)
    ensures RaceOk(Quiet(s, user, key))
  {
  }

  // ----- Main results -----

  /** Over any interleaving of any number of create calls for one key, whatever other transactions do in between: at
      most one commits; any two successful calls return the same id, which is stored under the key; a collided call
      finds the winner's row on its second read, so the concurrency error is never re-raised; and a call that
      reached the providers was the insert winner at the time, never two at once. */
  lemma OneReservationPerKey(s: Store, user: Uuid, key: string, es: seq<Event>, a: nat, b: nat)
    requires Consistent(s) && Happens(Quiet(s, user, key), es)
    requires a in After(Quiet(s, user, key), es).calls && b in After(Quiet(s, user, key), es).calls
    ensures var r := After(Quiet(s, user, key), es);
            var p, q := r.calls[a].phase, r.calls[b].phase;
            && |r.commits| <= 1
            && (p.Done? ==> AnswerOk(r, p.answer))
            && (p.Done? && q.Done? && p.answer.Answered? && q.answer.Answered? && p.answer.reply.Commit? && q.answer.reply.Commit?
                ==> p.answer.reply.value.id == q.answer.reply.value.id)
            && (a in r.holders && p.Done? ==> p.path.ByInsert?)
            && (a != b && Writing(p) ==> !Writing(q))
  {
    QuietIsOk(s, user, key);
    RaceInvariant(Quiet(s, user, key), es);
    var r := After(Quiet(s, user, key), es);
    RaceKeepsKey(Quiet(s, user, key), es);
    assert CallOk(r, a) && CallOk(r, b);
    assert KeysUnique(r.store.reservations);
    hide Consistent, After, Happens, AddWithHold, KeyTaken;
  }

  lemma {:induction false} RaceKeepsKey(r: Race, es: seq<Event>)
    requires Happens(r, es)
    ensures After(r, es).user == r.user && After(r, es).key == r.key
    decreases |es|
  {
    if es != [] {
      NextKeepsKey(r, es[0]);
      hide Next, Enabled;
      RaceKeepsKey(Next(r, es[0]), es[1..]);
    }
  }

  lemma NextKeepsKey(r: Race, e: Event)
    requires Enabled(r, e)
    ensures Next(r, e).user == r.user && Next(r, e).key == r.key
  {
    hide AddWithHold, Apply, KeyTaken, InsertError, DraftError, Fingerprint.Canonical;
  }

  /** Once a key is taken, no later event reaches a provider for it or commits under it again. */
  lemma NoHoldAfterCommit(s: Store, user: Uuid, key: string, es: seq<Event>, more: seq<Event>)
    requires Consistent(s) && Happens(Quiet(s, user, key), es) && Taken(After(Quiet(s, user, key), es))
    requires Happens(After(Quiet(s, user, key), es), more)
    ensures var r, t := After(Quiet(s, user, key), es), After(After(Quiet(s, user, key), es), more);
            t.holders == r.holders && t.commits == r.commits && Taken(t)
  {
    QuietIsOk(s, user, key);
    hide RaceOk, After, Happens;
    RaceInvariant(Quiet(s, user, key), es);
    RaceInvariant(After(Quiet(s, user, key), es), more);
  }

  /** The steps of the service that an event amounts to: the create it answers, another transaction, or nothing. */
  ghost function StepsOf(r: Race, e: Event): seq<Step>
    requires Enabled(r, e)
  {
    if e.Elsewhere? then [e.step]
    else if Answering(r, e).Some? && Answering(r, e).value in r.calls then
      var call := r.calls[Answering(r, e).value];
      [CreateStep(call.request, call.holds, call.releases)]
    else []
  }

  /** The undisturbed transactions that an interleaving amounts to, in the order in which they take effect. */
  ghost function Serial(r: Race, es: seq<Event>): seq<Step>
    requires Happens(r, es)
    decreases |es|
  {
    if es == [] then [] else StepsOf(r, es[0]) + Serial(Next(r, es[0]), es[1..])
  }

  lemma EventIsSerial(r: Race, e: Event)
    requires RaceOk(r) && Enabled(r, e)
    ensures |StepsOf(r, e)| <= 1
    ensures StepsOf(r, e) == [] ==> Next(r, e).store == r.store
    ensures StepsOf(r, e) != [] ==> Possible(r.store, StepsOf(r, e)[0]) && Next(r, e).store == Apply(r.store, StepsOf(r, e)[0])
  {
    EventIsAtomic(r, e);
    hide Next, Create, RaceOk, Answering;
  }

  /** Every interleaving is serial: the store it leads to is that of its transactions run one after another. */
  lemma {:induction false} RaceIsSerial(r: Race, es: seq<Event>)
    requires RaceOk(r) && Happens(r, es)
    ensures ValidRun(r.store, Serial(r, es)) && Run(r.store, Serial(r, es)) == After(r, es).store
    decreases |es|
  {
    hide RaceOk, Next, Enabled, StepsOf, Possible, Apply;
    if es != [] {
      EventIsSerial(r, es[0]);
      EventKeepsRace(r, es[0]);
      RaceIsSerial(Next(r, es[0]), es[1..]);
      var rest := Serial(Next(r, es[0]), es[1..]);
      if StepsOf(r, es[0]) == [] {
        assert Serial(r, es) == rest;
      } else {
        assert StepsOf(r, es[0]) == [StepsOf(r, es[0])[0]];
        assert Serial(r, es)[0] == StepsOf(r, es[0])[0] && Serial(r, es)[1..] == rest;
      }
    }
  }

  /** And so are its answers: the event that answers a call says what that call, run alone after the transactions that
      took effect before it, would say. */
  lemma AnswersAreSerial(s: Store, user: Uuid, key: string, es: seq<Event>, e: Event)
    requires Consistent(s) && Happens(Quiet(s, user, key), es)
    requires Enabled(After(Quiet(s, user, key), es), e)
    requires Answering(After(Quiet(s, user, key), es), e).Some?
    ensures var r := After(Quiet(s, user, key), es);
            var c := Answering(r, e).value;
            && ValidRun(s, Serial(Quiet(s, user, key), es))
            && c in r.calls && c in Next(r, e).calls && Next(r, e).calls[c].phase.Done?
            && Next(r, e).calls[c].phase.answer == Answered(Sequential(Run(s, Serial(Quiet(s, user, key), es)), r.calls[c]).answer)
  {
    QuietIsOk(s, user, key);
    RaceInvariant(Quiet(s, user, key), es);
    RaceIsSerial(Quiet(s, user, key), es);
    var r := After(Quiet(s, user, key), es);
    AnsweringIsDone(r, e);
    EventIsAtomic(r, e);
    hide RaceOk, After, Happens, Next, Enabled, Answering, Run, ValidRun, Serial, Create;
  }

  lemma AnsweringIsDone(r: Race, e: Event)
    requires Enabled(r, e) && Answering(r, e).Some?
    ensures var c := Answering(r, e).value;
            c in Next(r, e).calls && Next(r, e).calls[c].phase.Done? && Next(r, e).calls[c].phase.answer.Answered?
  {
    hide AddWithHold, Apply, KeyTaken, InsertError, DraftError, Fingerprint.Canonical;
  }
}
