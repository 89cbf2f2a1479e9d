/** Choosing a provider for one reservation item: candidate selection and the fallback loop. */
module Routing {
  import opened Types
  import opened Rows
  import opened Stock

  datatype AvailabilityReply = Fresh(available: Option<int>) | Stale | Unavailable | AvailabilityRaised

  datatype HoldReply = Held(reference: Option<string>) | OutOfStock | TemporarilyUnavailable | Unknown | Raised

  /** What a candidate would answer if asked; internal candidates ignore it and consult their offer row. */
  datatype CandidateReply = CandidateReply(availability: AvailabilityReply, hold: HoldReply)

  datatype Demand = Demand(product: Uuid, quantity: int)

  datatype ProviderHold = ProviderHold(provider: Uuid, reference: Option<string>)

  datatype RoutingEnd =
    | RoutedTo(hold: ProviderHold)
    | Exhausted
    | UnknownAt(provider: Uuid)
    | RaisedAt(provider: Uuid)

  /** One hold call and its answer. */
  datatype Call = Call(provider: Uuid, answer: HoldReply)

  datatype Routing = Routing(offers: Offers, calls: seq<Call>, end: RoutingEnd)

  // ----- Candidates -----

  function SelectedGroup(offers: Offers, selected: OfferKey): Option<Uuid> {
    if selected in offers then offers[selected].group else None
  }

  predicate IsCandidate(providers: Providers, offers: Offers, selected: OfferKey, k: OfferKey) {
    && k in offers
    && k.product == selected.product
    && k.provider in providers
    && providers[k.provider].enabled
    && providers[k.provider].hold
    && (providers[k.provider].kind.Internal? || providers[k.provider].http)
    && (var group := SelectedGroup(offers, selected);
        if group.None? then k.provider == selected.provider else offers[k].group == group)
  }

  function CandidateKeys(providers: Providers, offers: Offers, selected: OfferKey): set<RowKey> {
    set k | k in offers && IsCandidate(providers, offers, selected, k) :: RowKey(offers[k].priority, k.provider)
  }

  /** Ordered by allocation priority, then provider id. */
  function Candidates(providers: Providers, offers: Offers, selected: OfferKey): seq<Uuid> {
    Ids(OrderBy(CandidateKeys(providers, offers, selected)))
  }

  predicate Distinct(ids: seq<Uuid>) {
    forall i, j | 0 <= i < j < |ids| :: ids[i] != ids[j]
  }

  /** Candidates are exactly the eligible offers of the product, each once, in priority order. */
  lemma CandidatesAreEligible(providers: Providers, offers: Offers, selected: OfferKey)
    ensures var c := Candidates(providers, offers, selected);
            && Distinct(c)
            && (forall p :: p in c <==> IsCandidate(providers, offers, selected, OfferKey(selected.product, p)))
            && (forall i, j | 0 <= i < j < |c| ::
                  Before(RowKey(offers[OfferKey(selected.product, c[i])].priority, c[i]),
                         RowKey(offers[OfferKey(selected.product, c[j])].priority, c[j])))
  {
    var keys := CandidateKeys(providers, offers, selected);
    OrderByRows(keys);
    var rows := OrderBy(keys);
    var c := Candidates(providers, offers, selected);
    forall i | 0 <= i < |rows|
      ensures IsCandidate(providers, offers, selected, OfferKey(selected.product, c[i]))
      ensures rows[i] == RowKey(offers[OfferKey(selected.product, c[i])].priority, c[i])
    {
      assert rows[i] in keys;
    }
    forall p | IsCandidate(providers, offers, selected, OfferKey(selected.product, p)) ensures p in c {
      var row := RowKey(offers[OfferKey(selected.product, p)].priority, p);
      assert row in keys;
      var i :| 0 <= i < |rows| && rows[i] == row;
      assert c[i] == p;
    }
  }

  /** On the columns: an offer of the product is a candidate iff its provider is enabled, can hold and can be reached,
      and it is the selected one or, when that has a routing group, in the same group. The lowest priority comes
      first, then the lowest provider id. */
  lemma CandidateColumns(providers: Providers, offers: Offers, selected: OfferKey)
    ensures var c := Candidates(providers, offers, selected);
            && (forall p :: p in c <==>
                  && OfferKey(selected.product, p) in offers && p in providers
                  && providers[p].enabled && providers[p].hold && (providers[p].kind.Internal? || providers[p].http)
                  && (if selected in offers && offers[selected].group.Some?
                      then offers[OfferKey(selected.product, p)].group == offers[selected].group
                      else p == selected.provider))
            && (forall i, j | 0 <= i < j < |c| ::
                  var k, l := OfferKey(selected.product, c[i]), OfferKey(selected.product, c[j]);
                  && k in offers && l in offers
                  && (offers[k].priority < offers[l].priority || (offers[k].priority == offers[l].priority && c[i] < c[j])))
  {
    CandidatesAreEligible(providers, offers, selected);
    var c := Candidates(providers, offers, selected);
    assert forall i | 0 <= i < |c| :: c[i] in c;
    hide Candidates;
  }

  // ----- The fallback loop -----

  /** What happened at one candidate. */
  datatype Visit = Skip(offers: Offers) | Answer(offers: Offers, answer: HoldReply) | Break(offers: Offers)

  predicate AsksAvailability(p: Provider) {
    p.kind.External? && p.availability
  }

  function AskHold(p: Provider, offers: Offers, k: OfferKey, quantity: int, reply: HoldReply): Visit {
    if p.kind.Internal? then
      match TryHold(offers, k, quantity)
      case None => Answer(offers, OutOfStock)
      case Some(next) => Answer(next, HoldReply.Held(None))
    else Answer(offers, reply)
  }

  function VisitOne(p: Provider, offers: Offers, k: OfferKey, quantity: int, reply: CandidateReply): Visit {
    if AsksAvailability(p) then
      match reply.availability
      case AvailabilityRaised => Break(offers)
      case Unavailable => Skip(offers)
      case Stale => AskHold(p, offers, k, quantity, reply.hold)
      case Fresh(None) => AskHold(p, offers, k, quantity, reply.hold)
      case Fresh(Some(n)) =>
        var seen := Observe(offers, k, n);
        if n < quantity then Skip(seen) else AskHold(p, seen, k, quantity, reply.hold)
    else AskHold(p, offers, k, quantity, reply.hold)
  }

  function RouteFrom(providers: Providers, offers: Offers, d: Demand, candidates: seq<Uuid>, i: nat,
                     calls: seq<Call>, replies: Uuid -> CandidateReply): Routing
    requires i <= |candidates|
    decreases |candidates| - i
  {
    if i == |candidates| then Routing(offers, calls, Exhausted)
    else
      var c := candidates[i];
      match VisitOne(ProviderRow(providers, c), offers, OfferKey(d.product, c), d.quantity, replies(c))
      case Skip(next) => RouteFrom(providers, next, d, candidates, i + 1, calls, replies)
      case Break(next) => Routing(next, calls, RaisedAt(c))
      case Answer(next, answer) =>
        var called := calls + [Call(c, answer)];
        match answer
        case Held(reference) => Routing(next, called, RoutedTo(ProviderHold(c, reference)))
        case Unknown => Routing(next, called, UnknownAt(c))
        case Raised => Routing(next, called, RaisedAt(c))
        case _ => RouteFrom(providers, next, d, candidates, i + 1, called, replies)
  }

  function RouteItem(providers: Providers, offers: Offers, item: Item, replies: Uuid -> CandidateReply): Routing {
    RouteFrom(providers, offers, Demand(item.product, item.quantity),
              Candidates(providers, offers, OfferKey(item.product, item.provider)), 0, [], replies)
  }

  // ----- An independent reading: each candidate judged on the offers as they were before routing -----

  datatype Verdict = Skipped | Refuses | Holds(reference: Option<string>) | Unsure | Breaks(asked: bool)

  predicate Decisive(v: Verdict) { v.Holds? || v.Unsure? || v.Breaks? }

  function HoldVerdict(p: Provider, offers: Offers, k: OfferKey, quantity: int, reply: HoldReply): Verdict {
    if p.kind.Internal? then
      if k in offers && offers[k].reserved + quantity <= offers[k].onHand then Holds(None) else Refuses
    else
      match reply
      case Held(reference) => Holds(reference)
      case Unknown => Unsure
      case Raised => Breaks(true)
      case _ => Refuses
  }

  /** An availability reading can only skip a candidate; stale or incomplete readings are advisory. */
  function Judge(p: Provider, offers: Offers, k: OfferKey, quantity: int, reply: CandidateReply): Verdict {
    if AsksAvailability(p) && reply.availability.AvailabilityRaised? then Breaks(false)
    else if AsksAvailability(p) && (reply.availability.Unavailable? ||
            (reply.availability.Fresh? && reply.availability.available.Some? && reply.availability.available.value < quantity))
      then Skipped
    else HoldVerdict(p, offers, k, quantity, reply.hold)
  }

  function JudgeAt(providers: Providers, offers: Offers, d: Demand, c: Uuid, replies: Uuid -> CandidateReply): Verdict {
    Judge(ProviderRow(providers, c), offers, OfferKey(d.product, c), d.quantity, replies(c))
  }

  function EndOf(c: Uuid, v: Verdict): RoutingEnd
    requires Decisive(v)
  {
    match v
    case Holds(reference) => RoutedTo(ProviderHold(c, reference))
    case Unsure => UnknownAt(c)
    case Breaks(_) => RaisedAt(c)
  }

  /** Where routing stops: the first decisive candidate, or past the end. */
  function FirstDecisive(providers: Providers, offers: Offers, d: Demand, candidates: seq<Uuid>, from: nat,
                         replies: Uuid -> CandidateReply): (w: nat)
    requires from <= |candidates|
    ensures from <= w <= |candidates|
    ensures forall j | from <= j < w :: !Decisive(JudgeAt(providers, offers, d, candidates[j], replies))
    ensures w < |candidates| ==> Decisive(JudgeAt(providers, offers, d, candidates[w], replies))
    decreases |candidates| - from
  {
    if from == |candidates| || Decisive(JudgeAt(providers, offers, d, candidates[from], replies)) then from
    else FirstDecisive(providers, offers, d, candidates, from + 1, replies)
  }

  function EndAt(providers: Providers, offers: Offers, d: Demand, candidates: seq<Uuid>, w: nat,
                 replies: Uuid -> CandidateReply): RoutingEnd
    requires w < |candidates| ==> Decisive(JudgeAt(providers, offers, d, candidates[w], replies))
  {
    if w >= |candidates| then Exhausted else EndOf(candidates[w], JudgeAt(providers, offers, d, candidates[w], replies))
  }

  /** The limits of what routing writes: on internal offers only the winner's reservation, on external ones no
      reserved units. `RoutingRows` says exactly what becomes of every row. */
  ghost predicate RoutingWrites(providers: Providers, before: Offers, d: Demand, r: Routing) {
    && r.offers.Keys == before.Keys
    && forall k | k in before ::
         && r.offers[k].priority == before[k].priority && r.offers[k].group == before[k].group
         && (k.product != d.product ==> r.offers[k] == before[k])
         && (IsInternal(providers, k.provider) ==>
               if r.end.RoutedTo? && k == OfferKey(d.product, r.end.hold.provider)
               then r.offers[k] == before[k].(reserved := before[k].reserved + d.quantity, version := before[k].version + 1)
               else r.offers[k] == before[k])
         && (!IsInternal(providers, k.provider) ==> r.offers[k].reserved == before[k].reserved)
  }

  predicate Refusal(answer: HoldReply) {
    answer.OutOfStock? || answer.TemporarilyUnavailable?
  }

  /** Every call but the last was refused, so at most the last one was held or left unknown. */
  predicate OnlyLastCounts(calls: seq<Call>) {
    forall j | 0 <= j < |calls| - 1 :: Refusal(calls[j].answer)
  }

  /** Was the candidate's hold endpoint reached? */
  predicate Asked(v: Verdict) {
    !v.Skipped? && v != Breaks(false)
  }

  /** The hold calls from candidate `from` on: each asked candidate once, in order, up to the decisive one. */
  ghost function CalledIds(providers: Providers, offers: Offers, d: Demand, candidates: seq<Uuid>, from: nat,
                           replies: Uuid -> CandidateReply): seq<Uuid>
    requires from <= |candidates|
    decreases |candidates| - from
  {
    if from == |candidates| then []
    else
      var v := JudgeAt(providers, offers, d, candidates[from], replies);
      (if Asked(v) then [candidates[from]] else [])
      + (if Decisive(v) then [] else CalledIds(providers, offers, d, candidates, from + 1, replies))
  }

  function IdsOf(calls: seq<Call>): seq<Uuid> {
    seq(|calls|, i requires 0 <= i < |calls| => calls[i].provider)
  }

  ghost predicate RowsUntouched(before: Offers, now: Offers, d: Demand, candidates: seq<Uuid>, i: nat)
    requires i <= |candidates|
  {
    forall j | i <= j < |candidates| ::
      var k := OfferKey(d.product, candidates[j]);
      (k in now <==> k in before) && (k in before ==> now[k] == before[k])
  }

  /** One visit acts as the verdict says, and writes at most the visited row. */
  lemma VisitMatchesVerdict(p: Provider, offers: Offers, k: OfferKey, quantity: int, reply: CandidateReply)
    ensures var visit := VisitOne(p, offers, k, quantity, reply);
            var v := Judge(p, offers, k, quantity, reply);
            && (visit.Skip? <==> v.Skipped?)
            && (visit.Break? <==> v == Breaks(false))
            && (visit.Answer? ==>
                  && (visit.answer.Held? <==> v.Holds?) && (v.Holds? ==> visit.answer.reference == v.reference)
                  && (visit.answer.Unknown? <==> v.Unsure?)
                  && (visit.answer.Raised? <==> v.Breaks?))
            && visit.offers.Keys == offers.Keys
            && (forall j | j in offers && j != k :: visit.offers[j] == offers[j])
            && (k in offers ==>
                  if p.kind.Internal? then
                    visit.offers[k] == (if v.Holds? then offers[k].(reserved := offers[k].reserved + quantity, version := offers[k].version + 1) else offers[k])
                  else
                    && visit.offers[k].reserved == offers[k].reserved
                    && visit.offers[k].priority == offers[k].priority && visit.offers[k].group == offers[k].group)
  {
  }

  /** The next candidate is judged on its row as it was before routing, and no later row is written yet. */
  lemma VisitIsJudged(providers: Providers, before: Offers, offers: Offers, d: Demand, candidates: seq<Uuid>, i: nat,
                      replies: Uuid -> CandidateReply)
    requires i < |candidates| && Distinct(candidates)
    requires RowsUntouched(before, offers, d, candidates, i)
    ensures var c := candidates[i];
            var visit := VisitOne(ProviderRow(providers, c), offers, OfferKey(d.product, c), d.quantity, replies(c));
            var v := JudgeAt(providers, before, d, c, replies);
            && (visit.Skip? <==> v.Skipped?)
            && (visit.Break? <==> v == Breaks(false))
            && (visit.Answer? ==>
                  && (visit.answer.Held? <==> v.Holds?) && (v.Holds? ==> visit.answer.reference == v.reference)
                  && (visit.answer.Unknown? <==> v.Unsure?)
                  && (visit.answer.Raised? <==> v.Breaks?))
            && RowsUntouched(before, visit.offers, d, candidates, i + 1)
  {
    var c := candidates[i];
    VisitMatchesVerdict(ProviderRow(providers, c), offers, OfferKey(d.product, c), d.quantity, replies(c));
  }

  /** One turn of the loop: a decisive candidate ends it, any other passes on to the next. */
  lemma RouteFromNext(providers: Providers, before: Offers, offers: Offers, d: Demand, candidates: seq<Uuid>, i: nat,
                      calls: seq<Call>, replies: Uuid -> CandidateReply)
    requires i < |candidates| && Distinct(candidates)
    requires RowsUntouched(before, offers, d, candidates, i)
    ensures var c := candidates[i];
            var v := JudgeAt(providers, before, d, c, replies);
            var visit := VisitOne(ProviderRow(providers, c), offers, OfferKey(d.product, c), d.quantity, replies(c));
            && RowsUntouched(before, visit.offers, d, candidates, i + 1)
            && (visit.Answer? <==> Asked(v))
            && (var called := if visit.Answer? then calls + [Call(c, visit.answer)] else calls;
                RouteFrom(providers, offers, d, candidates, i, calls, replies)
                == if Decisive(v) then Routing(visit.offers, called, EndOf(c, v))
                   else RouteFrom(providers, visit.offers, d, candidates, i + 1, called, replies))
  {
    VisitIsJudged(providers, before, offers, d, candidates, i, replies);
  }

  lemma {:induction false} RouteFromDecides(providers: Providers, before: Offers, offers: Offers, d: Demand, candidates: seq<Uuid>,
                                            i: nat, calls: seq<Call>, replies: Uuid -> CandidateReply)
    requires i <= |candidates| && Distinct(candidates)
    requires RowsUntouched(before, offers, d, candidates, i)
    ensures RouteFrom(providers, offers, d, candidates, i, calls, replies).end
            == EndAt(providers, before, d, candidates, FirstDecisive(providers, before, d, candidates, i, replies), replies)
    decreases |candidates| - i
  {
    if i < |candidates| {
      RouteFromNext(providers, before, offers, d, candidates, i, calls, replies);
      var c := candidates[i];
      var visit := VisitOne(ProviderRow(providers, c), offers, OfferKey(d.product, c), d.quantity, replies(c));
      if !Decisive(JudgeAt(providers, before, d, c, replies)) {
        var called := if visit.Answer? then calls + [Call(c, visit.answer)] else calls;
        RouteFromDecides(providers, before, visit.offers, d, candidates, i + 1, called, replies);
      }
    }
  }

  lemma {:induction false} RouteFromRefusals(providers: Providers, offers: Offers, d: Demand, candidates: seq<Uuid>,
                                             i: nat, calls: seq<Call>, replies: Uuid -> CandidateReply)
    requires i <= |candidates|
    requires forall j | 0 <= j < |calls| :: Refusal(calls[j].answer)
    ensures OnlyLastCounts(RouteFrom(providers, offers, d, candidates, i, calls, replies).calls)
    decreases |candidates| - i
  {
    if i < |candidates| {
      var c := candidates[i];
      var visit := VisitOne(ProviderRow(providers, c), offers, OfferKey(d.product, c), d.quantity, replies(c));
      if visit.Skip? {
        RouteFromRefusals(providers, visit.offers, d, candidates, i + 1, calls, replies);
      } else if visit.Answer? && Refusal(visit.answer) {
        RouteFromRefusals(providers, visit.offers, d, candidates, i + 1, calls + [Call(c, visit.answer)], replies);
      }
    }
  }

  lemma IdsOfAppend(calls: seq<Call>, call: Call)
    ensures IdsOf(calls + [call]) == IdsOf(calls) + [call.provider]
  {
  }

  lemma CalledIdsNext(providers: Providers, offers: Offers, d: Demand, candidates: seq<Uuid>, i: nat, replies: Uuid -> CandidateReply)
    requires i < |candidates|
    ensures var v := JudgeAt(providers, offers, d, candidates[i], replies);
            var first := if Asked(v) then [candidates[i]] else [];
            CalledIds(providers, offers, d, candidates, i, replies)
            == if Decisive(v) then first else first + CalledIds(providers, offers, d, candidates, i + 1, replies)
  {
    hide JudgeAt;
  }

  lemma NothingLeftToCall(providers: Providers, before: Offers, offers: Offers, d: Demand, candidates: seq<Uuid>,
                          calls: seq<Call>, replies: Uuid -> CandidateReply)
    ensures IdsOf(RouteFrom(providers, offers, d, candidates, |candidates|, calls, replies).calls)
            == IdsOf(calls) + CalledIds(providers, before, d, candidates, |candidates|, replies)
  {
  }

  /** One turn adds the visited candidate to the calls if it was asked. */
  lemma RouteFromAdds(providers: Providers, before: Offers, offers: Offers, d: Demand, candidates: seq<Uuid>, i: nat,
                      calls: seq<Call>, replies: Uuid -> CandidateReply) returns (next: Offers, called: seq<Call>)
    requires i < |candidates| && Distinct(candidates)
    requires RowsUntouched(before, offers, d, candidates, i)
    ensures var v := JudgeAt(providers, before, d, candidates[i], replies);
            && RowsUntouched(before, next, d, candidates, i + 1)
            && IdsOf(called) == IdsOf(calls) + (if Asked(v) then [candidates[i]] else [])
            && (Decisive(v) ==> RouteFrom(providers, offers, d, candidates, i, calls, replies).calls == called)
            && (!Decisive(v) ==> RouteFrom(providers, offers, d, candidates, i, calls, replies)
                                 == RouteFrom(providers, next, d, candidates, i + 1, called, replies))
  {
    hide VisitOne, JudgeAt, RowsUntouched, Distinct, IdsOf, RouteFrom, Asked, Decisive;
    RouteFromNext(providers, before, offers, d, candidates, i, calls, replies);
    var c := candidates[i];
    var visit := VisitOne(ProviderRow(providers, c), offers, OfferKey(d.product, c), d.quantity, replies(c));
    next := visit.offers;
    called := calls;
    if visit.Answer? {
      IdsOfAppend(calls, Call(c, visit.answer));
      called := calls + [Call(c, visit.answer)];
    }
  }

  lemma Regroup(a: seq<Uuid>, b: seq<Uuid>, c: seq<Uuid>)
    ensures (a + b) + c == a + (b + c)
  {
  }

  lemma {:induction false} RouteFromCalls(providers: Providers, before: Offers, offers: Offers, d: Demand, candidates: seq<Uuid>,
                                          i: nat, calls: seq<Call>, replies: Uuid -> CandidateReply)
    requires i <= |candidates| && Distinct(candidates)
    requires RowsUntouched(before, offers, d, candidates, i)
    ensures IdsOf(RouteFrom(providers, offers, d, candidates, i, calls, replies).calls)
            == IdsOf(calls) + CalledIds(providers, before, d, candidates, i, replies)
    decreases |candidates| - i
  {
    hide JudgeAt, RowsUntouched, Distinct, IdsOf, RouteFrom, CalledIds, Asked, Decisive;
    if i == |candidates| {
      NothingLeftToCall(providers, before, offers, d, candidates, calls, replies);
    } else {
      var next, called := RouteFromAdds(providers, before, offers, d, candidates, i, calls, replies);
      CalledIdsNext(providers, before, d, candidates, i, replies);
      var v := JudgeAt(providers, before, d, candidates[i], replies);
      if !Decisive(v) {
        RouteFromCalls(providers, before, next, d, candidates, i + 1, called, replies);
        Regroup(IdsOf(calls), if Asked(v) then [candidates[i]] else [], CalledIds(providers, before, d, candidates, i + 1, replies));
      }
    }
  }

  lemma {:induction false} RouteFromWrites(providers: Providers, offers: Offers, d: Demand, candidates: seq<Uuid>,
                                           i: nat, calls: seq<Call>, replies: Uuid -> CandidateReply)
    requires i <= |candidates|
    ensures RoutingWrites(providers, offers, d, RouteFrom(providers, offers, d, candidates, i, calls, replies))
    decreases |candidates| - i
  {
    if i < |candidates| {
      var c := candidates[i];
      var k := OfferKey(d.product, c);
      var p := ProviderRow(providers, c);
      var visit := VisitOne(p, offers, k, d.quantity, replies(c));
      VisitMatchesVerdict(p, offers, k, d.quantity, replies(c));
      if !Decisive(Judge(p, offers, k, d.quantity, replies(c))) {
        var called := if visit.Answer? then calls + [Call(c, visit.answer)] else calls;
        RouteFromWrites(providers, visit.offers, d, candidates, i + 1, called, replies);
      }
    }
  }

  /** The winner is the first candidate in priority order that neither is skipped nor refuses;
      only asked candidates up to it are called, in order; and no call after a held or unknown one is made. */
  lemma RoutingSafety(providers: Providers, offers: Offers, item: Item, replies: Uuid -> CandidateReply)
    ensures var d := Demand(item.product, item.quantity);
            var c := Candidates(providers, offers, OfferKey(item.product, item.provider));
            var r := RouteItem(providers, offers, item, replies);
            && r.end == EndAt(providers, offers, d, c, FirstDecisive(providers, offers, d, c, 0, replies), replies)
            && IdsOf(r.calls) == CalledIds(providers, offers, d, c, 0, replies)
            && OnlyLastCounts(r.calls)
  {
    var d := Demand(item.product, item.quantity);
    var c := Candidates(providers, offers, OfferKey(item.product, item.provider));
    CandidatesAreEligible(providers, offers, OfferKey(item.product, item.provider));
    RouteFromDecides(providers, offers, offers, d, c, 0, [], replies);
    RouteFromCalls(providers, offers, offers, d, c, 0, [], replies);
    RouteFromRefusals(providers, offers, d, c, 0, [], replies);
    assert IdsOf([]) == [];
  }

  /** Observations and holds keep every offer within its bounds. */
  lemma {:induction false} RouteFromBounds(providers: Providers, offers: Offers, d: Demand, candidates: seq<Uuid>,
                                           i: nat, calls: seq<Call>, replies: Uuid -> CandidateReply)
    requires i <= |candidates| && OffersOk(offers) && d.quantity > 0
    ensures OffersOk(RouteFrom(providers, offers, d, candidates, i, calls, replies).offers)
    decreases |candidates| - i
  {
    if i < |candidates| {
      var c := candidates[i];
      var visit := VisitOne(ProviderRow(providers, c), offers, OfferKey(d.product, c), d.quantity, replies(c));
      assert OffersOk(visit.offers);
      if visit.Skip? {
        RouteFromBounds(providers, visit.offers, d, candidates, i + 1, calls, replies);
      } else if visit.Answer? && Refusal(visit.answer) {
        RouteFromBounds(providers, visit.offers, d, candidates, i + 1, calls + [Call(c, visit.answer)], replies);
      }
    }
  }

  /** The only internal reservation written is the winner's, by exactly the requested quantity. */
  lemma RoutingEffect(providers: Providers, offers: Offers, item: Item, replies: Uuid -> CandidateReply)
    ensures RoutingWrites(providers, offers, Demand(item.product, item.quantity), RouteItem(providers, offers, item, replies))
  {
    RouteFromWrites(providers, offers, Demand(item.product, item.quantity),
                    Candidates(providers, offers, OfferKey(item.product, item.provider)), 0, [], replies);
  }

  // ----- Every row after routing -----

  /** What one visit makes of the visited row. */
  function VisitedRow(p: Provider, o: Offer, quantity: int, reply: CandidateReply): Offer {
    if p.kind.Internal? then
      if o.onHand - o.reserved >= quantity then o.(reserved := o.reserved + quantity, version := o.version + 1) else o
    else if p.availability && reply.availability.Fresh? && reply.availability.available.Some? then
      var available := reply.availability.available.value;
      o.(onHand := if available >= o.reserved then available else o.reserved, version := o.version + 1)
    else o
  }

  /** Is the candidate among those from `i` up to the decisive one? */
  predicate Reached(candidates: seq<Uuid>, i: nat, w: nat, c: Uuid) {
    exists j | i <= j < |candidates| && j <= w :: candidates[j] == c
  }

  lemma VisitWritesRow(p: Provider, offers: Offers, k: OfferKey, quantity: int, reply: CandidateReply)
    requires k in offers
    ensures var next := VisitOne(p, offers, k, quantity, reply).offers;
            next == offers[k := VisitedRow(p, offers[k], quantity, reply)]
  {
    assert offers[k := offers[k]] == offers;
  }

  lemma {:induction false} RouteFromRows(providers: Providers, before: Offers, offers: Offers, d: Demand, candidates: seq<Uuid>,
                                         i: nat, calls: seq<Call>, replies: Uuid -> CandidateReply, k: OfferKey)
    requires i <= |candidates| && Distinct(candidates)
    requires forall c | c in candidates :: OfferKey(d.product, c) in before
    requires RowsUntouched(before, offers, d, candidates, i) && k in offers
    ensures var w := FirstDecisive(providers, before, d, candidates, i, replies);
            var t := RouteFrom(providers, offers, d, candidates, i, calls, replies).offers;
            && k in t
            && t[k] == if k.product == d.product && Reached(candidates, i, w, k.provider)
                       then VisitedRow(ProviderRow(providers, k.provider), offers[k], d.quantity, replies(k.provider))
                       else offers[k]
    decreases |candidates| - i
  {
    if i < |candidates| {
      RouteFromNext(providers, before, offers, d, candidates, i, calls, replies);
      var c := candidates[i];
      assert c in candidates;
      var key := OfferKey(d.product, c);
      var visit := VisitOne(ProviderRow(providers, c), offers, key, d.quantity, replies(c));
      VisitWritesRow(ProviderRow(providers, c), offers, key, d.quantity, replies(c));
      if Decisive(JudgeAt(providers, before, d, c, replies)) {
        assert Reached(candidates, i, i, k.provider) <==> k.provider == c;
      } else {
        var called := if visit.Answer? then calls + [Call(c, visit.answer)] else calls;
        RouteFromRows(providers, before, visit.offers, d, candidates, i + 1, called, replies, k);
        var w := FirstDecisive(providers, before, d, candidates, i + 1, replies);
        assert Reached(candidates, i, w, c) by { assert candidates[i] == c; }
        assert !Reached(candidates, i + 1, w, c);
      }
    }
  }

  /** Every row after routing: a candidate up to the decisive one has a fresh snapshot if it is external and gave one,
      and a new reservation if it is internal and had the units; every other row of the store is untouched. */
  lemma RoutingRows(providers: Providers, offers: Offers, item: Item, replies: Uuid -> CandidateReply, k: OfferKey)
    requires k in offers
    ensures var d := Demand(item.product, item.quantity);
            var c := Candidates(providers, offers, OfferKey(item.product, item.provider));
            var w := FirstDecisive(providers, offers, d, c, 0, replies);
            var t := RouteItem(providers, offers, item, replies).offers;
            && k in t
            && t[k] == if k.product == item.product && Reached(c, 0, w, k.provider)
                       then VisitedRow(ProviderRow(providers, k.provider), offers[k], item.quantity, replies(k.provider))
                       else offers[k]
  {
    CandidatesAreEligible(providers, offers, OfferKey(item.product, item.provider));
    RouteFromRows(providers, offers, offers, Demand(item.product, item.quantity),
                  Candidates(providers, offers, OfferKey(item.product, item.provider)), 0, [], replies, k);
  }

  // ----- On the columns -----

  lemma NoneLeft(providers: Providers, offers: Offers, d: Demand, candidates: seq<Uuid>, replies: Uuid -> CandidateReply)
    ensures CalledIds(providers, offers, d, candidates, |candidates|, replies) == []
  {
  }

  lemma {:induction false} CalledAreCandidates(providers: Providers, offers: Offers, d: Demand, candidates: seq<Uuid>, from: nat,
                                               replies: Uuid -> CandidateReply)
    requires from <= |candidates|
    ensures forall p | p in CalledIds(providers, offers, d, candidates, from, replies) :: p in candidates
    decreases |candidates| - from
  {
    hide JudgeAt, Asked, Decisive, CalledIds;
    if from == |candidates| {
      NoneLeft(providers, offers, d, candidates, replies);
    } else {
      CalledIdsNext(providers, offers, d, candidates, from, replies);
      CalledAreCandidates(providers, offers, d, candidates, from + 1, replies);
    }
  }

  /** Whoever is called offers the product, is enabled, can hold and can be reached, and is the selected provider or,
      when the selected offer has a routing group, in that group. */
  lemma CalledColumns(providers: Providers, offers: Offers, item: Item, replies: Uuid -> CandidateReply, p: Uuid)
    requires p in IdsOf(RouteItem(providers, offers, item, replies).calls)
    ensures var k, selected := OfferKey(item.product, p), OfferKey(item.product, item.provider);
            && k in offers && p in providers
            && providers[p].enabled && providers[p].hold && (providers[p].kind.Internal? || providers[p].http)
            && (if selected in offers && offers[selected].group.Some? then offers[k].group == offers[selected].group
                else p == item.provider)
  {
    var selected := OfferKey(item.product, item.provider);
    RoutingSafety(providers, offers, item, replies);
    CalledAreCandidates(providers, offers, Demand(item.product, item.quantity), Candidates(providers, offers, selected), 0, replies);
    CandidateColumns(providers, offers, selected);
    hide RouteItem, Candidates, CalledIds;
  }

  /** The provider at which routing ended, if it did. */
  function EndedAt(end: RoutingEnd): Option<Uuid> {
    match end
    case RoutedTo(hold) => Some(hold.provider)
    case UnknownAt(p) => Some(p)
    case RaisedAt(p) => Some(p)
    case Exhausted => None
  }

  lemma EndAtColumns(providers: Providers, offers: Offers, d: Demand, candidates: seq<Uuid>, w: nat, replies: Uuid -> CandidateReply)
    requires w < |candidates| ==> Decisive(JudgeAt(providers, offers, d, candidates[w], replies))
    ensures EndedAt(EndAt(providers, offers, d, candidates, w, replies)) == if w < |candidates| then Some(candidates[w]) else None
  {
  }

  /** Routing ends at a candidate, or after all of them. */
  lemma EndsAtCandidate(providers: Providers, offers: Offers, item: Item, replies: Uuid -> CandidateReply) returns (w: nat)
    ensures var d, c := Demand(item.product, item.quantity), Candidates(providers, offers, OfferKey(item.product, item.provider));
            && w <= |c|
            && (forall j | 0 <= j < w :: !Decisive(JudgeAt(providers, offers, d, c[j], replies)))
            && (w < |c| ==> Decisive(JudgeAt(providers, offers, d, c[w], replies))
                            && RouteItem(providers, offers, item, replies).end == EndOf(c[w], JudgeAt(providers, offers, d, c[w], replies)))
            && EndedAt(RouteItem(providers, offers, item, replies).end) == if w < |c| then Some(c[w]) else None
  {
    var d, c := Demand(item.product, item.quantity), Candidates(providers, offers, OfferKey(item.product, item.provider));
    RoutingSafety(providers, offers, item, replies);
    w := FirstDecisive(providers, offers, d, c, 0, replies);
    EndAtColumns(providers, offers, d, c, w, replies);
    hide RouteItem, Candidates, JudgeAt, Decisive;
  }

  /** What the end says about the provider it names: an internal one had the units free; an external one was not kept
      from being asked by an availability reading, and the end is its answer. */
  lemma EndColumns(providers: Providers, offers: Offers, item: Item, replies: Uuid -> CandidateReply, p: Uuid)
    requires EndedAt(RouteItem(providers, offers, item, replies).end) == Some(p)
    ensures OfferKey(item.product, p) in offers && p in providers && providers[p].enabled && providers[p].hold
    ensures var o, q, reply := offers[OfferKey(item.product, p)], providers[p], replies(p);
            var asked := q.availability ==>
              || reply.availability.Stale?
              || (reply.availability.Fresh? && (reply.availability.available.None? || reply.availability.available.value >= item.quantity));
            match RouteItem(providers, offers, item, replies).end
            case RoutedTo(hold) =>
              if q.kind.Internal? then o.reserved + item.quantity <= o.onHand && hold.reference.None?
              else asked && reply.hold == HoldReply.Held(hold.reference)
            case UnknownAt(_) => q.kind.External? && asked && reply.hold.Unknown?
            case RaisedAt(_) => q.kind.External? && if asked then reply.hold.Raised? else reply.availability.AvailabilityRaised?
            case Exhausted => false
  {
    var selected := OfferKey(item.product, item.provider);
    var w := EndsAtCandidate(providers, offers, item, replies);
    CandidateColumns(providers, offers, selected);
    assert Candidates(providers, offers, selected)[w] in Candidates(providers, offers, selected);
    hide RouteItem, Candidates;
  }

  /** The winner is one of those that may be called. */
  lemma WinnerColumns(providers: Providers, offers: Offers, item: Item, replies: Uuid -> CandidateReply)
    requires RouteItem(providers, offers, item, replies).end.RoutedTo?
    ensures var p := RouteItem(providers, offers, item, replies).end.hold.provider;
            var k, selected := OfferKey(item.product, p), OfferKey(item.product, item.provider);
            && k in offers && p in providers
            && providers[p].enabled && providers[p].hold && (providers[p].kind.Internal? || providers[p].http)
            && (if selected in offers && offers[selected].group.Some? then offers[k].group == offers[selected].group
                else p == item.provider)
  {
    var selected := OfferKey(item.product, item.provider);
    var w := EndsAtCandidate(providers, offers, item, replies);
    CandidateColumns(providers, offers, selected);
    assert Candidates(providers, offers, selected)[w] in Candidates(providers, offers, selected);
    hide RouteItem, Candidates;
  }

  /** Why an earlier candidate did not get the item, and any candidate when nobody did: an internal one lacked the units;
      an external one was unavailable, had fewer on a fresh reading, or declined the hold. */
  lemma PassedOverColumns(providers: Providers, offers: Offers, item: Item, replies: Uuid -> CandidateReply, p: Uuid)
    requires p in Candidates(providers, offers, OfferKey(item.product, item.provider))
    requires OfferKey(item.product, p) in offers && p in providers
    requires match EndedAt(RouteItem(providers, offers, item, replies).end)
             case None => true
             case Some(q) =>
               OfferKey(item.product, q) in offers ==>
                 var o, e := offers[OfferKey(item.product, p)], offers[OfferKey(item.product, q)];
                 o.priority < e.priority || (o.priority == e.priority && p < q)
    ensures var o, reply := offers[OfferKey(item.product, p)], replies(p);
            if providers[p].kind.Internal? then o.reserved + item.quantity > o.onHand
            else
              || (providers[p].availability
                  && (reply.availability.Unavailable?
                      || (reply.availability.Fresh? && reply.availability.available.Some? && reply.availability.available.value < item.quantity)))
              || (!(providers[p].availability && reply.availability.AvailabilityRaised?)
                  && (reply.hold.OutOfStock? || reply.hold.TemporarilyUnavailable?))
  {
    var selected := OfferKey(item.product, item.provider);
    var c := Candidates(providers, offers, selected);
    var w := EndsAtCandidate(providers, offers, item, replies);
    CandidateColumns(providers, offers, selected);
    hide RouteItem, Candidates;
    var i :| 0 <= i < |c| && c[i] == p;
    if w < |c| { assert c[w] in c; }
    assert i < w;
    assert !Decisive(JudgeAt(providers, offers, Demand(item.product, item.quantity), c[i], replies));
  }

  // ----- The winner -----

  /** The winner offers the product, had the units free if it is internal, and is the selected provider
      or shares the selected offer's routing group. */
  lemma WinnerIsEligible(providers: Providers, offers: Offers, item: Item, replies: Uuid -> CandidateReply)
    requires RouteItem(providers, offers, item, replies).end.RoutedTo?
    ensures var selected := OfferKey(item.product, item.provider);
            var k := OfferKey(item.product, RouteItem(providers, offers, item, replies).end.hold.provider);
            && k in offers && k.provider in providers
            && (IsInternal(providers, k.provider) ==> offers[k].reserved + item.quantity <= offers[k].onHand)
            && (k == selected ||
                (selected in offers && offers[selected].group.Some? && offers[k].group == offers[selected].group))
  {
    var selected := OfferKey(item.product, item.provider);
    WinnerIsCandidate(providers, offers, item, replies);
    var k := OfferKey(item.product, RouteItem(providers, offers, item, replies).end.hold.provider);
    assert IsCandidate(providers, offers, selected, k);
  }

  lemma WinnerIsCandidate(providers: Providers, offers: Offers, item: Item, replies: Uuid -> CandidateReply)
    requires RouteItem(providers, offers, item, replies).end.RoutedTo?
    ensures var k := OfferKey(item.product, RouteItem(providers, offers, item, replies).end.hold.provider);
            && IsCandidate(providers, offers, OfferKey(item.product, item.provider), k)
            && (IsInternal(providers, k.provider) ==> offers[k].reserved + item.quantity <= offers[k].onHand)
  {
    var d := Demand(item.product, item.quantity);
    var c := Candidates(providers, offers, OfferKey(item.product, item.provider));
    CandidatesAreEligible(providers, offers, OfferKey(item.product, item.provider));
    RouteFromDecides(providers, offers, offers, d, c, 0, [], replies);
    var w := FirstDecisive(providers, offers, d, c, 0, replies);
    assert c[w] in c;
    EndNamesWinner(providers, offers, d, c, w, replies);
  }

  lemma EndNamesWinner(providers: Providers, offers: Offers, d: Demand, candidates: seq<Uuid>, w: nat, replies: Uuid -> CandidateReply)
    requires w < |candidates| ==> Decisive(JudgeAt(providers, offers, d, candidates[w], replies))
    requires EndAt(providers, offers, d, candidates, w, replies).RoutedTo?
    ensures w < |candidates|
    ensures var k := OfferKey(d.product, candidates[w]);
            && EndAt(providers, offers, d, candidates, w, replies).hold.provider == candidates[w]
            && (IsInternal(providers, candidates[w]) ==> k in offers && offers[k].reserved + d.quantity <= offers[k].onHand)
  {
  }

  /** Without a routing group nobody but the selected provider is called, and it is called at most once. */
  lemma UngroupedNeverFallsBack(providers: Providers, offers: Offers, item: Item, replies: Uuid -> CandidateReply)
    requires SelectedGroup(offers, OfferKey(item.product, item.provider)).None?
    ensures var calls := RouteItem(providers, offers, item, replies).calls;
            IdsOf(calls) == [] || IdsOf(calls) == [item.provider]
  {
    var selected := OfferKey(item.product, item.provider);
    CandidatesAreEligible(providers, offers, selected);
    var c := Candidates(providers, offers, selected);
    assert forall j | 0 <= j < |c| :: c[j] in c && c[j] == item.provider;
    RoutingSafety(providers, offers, item, replies);
    var d := Demand(item.product, item.quantity);
    if |c| == 1 { assert CalledIds(providers, offers, d, c, 1, replies) == []; }
  }
}
