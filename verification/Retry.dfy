/**
  Retrying against the service: harness/runner.py's loop and harness/plan.py's list of methods,
  with api/main.py and api/store.py at the other end of a network that loses messages.
 */
module Retry {
  import opened Json
  import opened Text
  import opened Plan
  import opened Store
  import opened Service
  import opened Validator
  import opened Runner

  // ----- any service -----

  /** A second delivery of the request changes nothing more. */
  predicate Settles<S(==)>(service: Endpoint<S>, s: S, r: Request) {
    service(service(s, r).0, r).0 == service(s, r).0
  }

  /** Some request among these attempts arrived. */
  predicate Arrived(fates: nat -> Fate, from: nat, attempts: nat) {
    exists i | from <= i < from + attempts :: !fates(i).RequestLost?
  }

  /** No answer among these attempts came through. */
  predicate Silent(fates: nat -> Fate, from: nat, attempts: nat) {
    forall i | from <= i < from + attempts :: !fates(i).Delivered?
  }

  /** The loop stops at the first answer that comes through, or when the budget is used up. */
  lemma {:induction false} PlayStops<S>(service: Endpoint<S>, s: S, r: Request, fates: nat -> Fate, from: nat,
      budget: nat)
    ensures var p := Play(service, s, r, fates, from, budget);
      && p.attempts <= budget
      && if p.answer.Some?
         then p.attempts >= 1 && Silent(fates, from, p.attempts - 1) && fates(from + p.attempts - 1).Delivered?
         else p.attempts == budget && Silent(fates, from, budget)
    decreases budget
  {
    if budget > 0 && !fates(from).Delivered? {
      PlayStops(service, if fates(from).RequestLost? then s else service(s, r).0, r, fates, from + 1, budget - 1);
    }
  }

  /**
    Whatever was lost, the service ends as after one delivery, or as it was when no request
    arrived. The answer is that of the first delivery, or that of a second one when an earlier
    request had arrived.
   */
  lemma {:induction false} PlayIsOneDelivery<S>(service: Endpoint<S>, s: S, r: Request, fates: nat -> Fate, from: nat,
      budget: nat)
    requires Settles(service, s, r) || budget <= 1
    ensures var p := Play(service, s, r, fates, from, budget);
      && p.state == (if Arrived(fates, from, p.attempts) then service(s, r).0 else s)
      && (p.answer.Some? ==>
            p.attempts >= 1
            && p.answer.value == if Arrived(fates, from, p.attempts - 1)
                                 then service(service(s, r).0, r).1
                                 else service(s, r).1)
    decreases budget
  {
    if budget > 0 {
      var p := Play(service, s, r, fates, from, budget);
      var next := if fates(from).RequestLost? then s else service(s, r).0;
      if fates(from).Delivered? {
        assert Arrived(fates, from, 1);
      } else {
        PlayIsOneDelivery(service, next, r, fates, from + 1, budget - 1);
        ArrivedStep(fates, from, p.attempts);
        if p.answer.Some? && p.attempts >= 2 { ArrivedStep(fates, from, p.attempts - 1); }
      }
    }
  }

  lemma ArrivedStep(fates: nat -> Fate, from: nat, attempts: nat)
    requires attempts >= 1
    ensures Arrived(fates, from, attempts) <==> !fates(from).RequestLost? || Arrived(fates, from + 1, attempts - 1)
  {
  }

  // ----- the registry's operations -----

  lemma ReplacedTwice(store: Store, id: int, name: string, status: Status)
    ensures Replaced(Replaced(store, id, name, status), id, name, status) == Replaced(store, id, name, status)
  {
    if id in store.devices {
      var d := Device(id, name, status);
      assert store.devices[id := d][id := d] == store.devices[id := d];
    }
  }

  lemma ReplaceAgain(store: Store, id: string, body: Body)
    ensures HandleReplace(HandleReplace(store, id, body).0, id, body) == HandleReplace(store, id, body)
  {
    if body.Payload? && ParseInt(id).Some? && ValidUpdate(body.json).Some? {
      var (name, status) := ValidUpdate(body.json).value;
      ReplacedTwice(store, ParseInt(id).value, name, status);
    }
  }

  lemma StatusSetTwice(store: Store, id: int, status: Status)
    requires id in store.devices
    ensures StatusSet(StatusSet(store, id, status), id, status) == StatusSet(store, id, status)
  {
    var d := Device(store.devices[id].id, store.devices[id].name, status);
    assert store.devices[id := d][id := d] == store.devices[id := d];
  }

  lemma SetStateAgain(store: Store, id: string, body: Body)
    ensures HandleSetState(HandleSetState(store, id, body).0, id, body) == HandleSetState(store, id, body)
  {
    if ParseInt(id).Some? && ParseInt(id).value in store.devices && body.Payload? && ValidStatus(body.json).Some? {
      StatusSetTwice(store, ParseInt(id).value, ValidStatus(body.json).value);
    }
  }

  /** The store keeps no trace of a second delivery, unless the request is a POST. */
  lemma ServeSettles(store: Store, r: Request)
    requires r.httpMethod != "POST"
    ensures Serve(Serve(store, r).0, r).0 == Serve(store, r).0
  {
    match Route(r)
    case Some(Replace(id, body)) => ReplaceAgain(store, id, body);
    case Some(SetState(id, body)) => SetStateAgain(store, id, body);
    case _ =>
  }

  /** Only a DELETE that removed something is answered differently the second time. */
  lemma ServeAgain(store: Store, r: Request)
    requires r.httpMethod != "POST"
    ensures Serve(Serve(store, r).0, r).1 ==
      (if r.httpMethod == "DELETE" && Serve(store, r).1.status == 204
       then NoDevice(DeletedId(r)) else Serve(store, r).1)
  {
    match Route(r)
    case Some(Replace(id, body)) => ReplaceAgain(store, id, body);
    case Some(SetState(id, body)) => SetStateAgain(store, id, body);
    case Some(Delete(id)) => DeleteAgain(store, r, id);
    case _ => ReadsNeverSay204(store, r);
  }

  /** The id in a DELETE's path. */
  function DeletedId(r: Request): int {
    match Route(r)
    case Some(Delete(id)) => ParseInt(id).GetOr(0)
    case _ => 0
  }

  lemma DeleteAgain(store: Store, r: Request, id: string)
    requires Route(r) == Some(Delete(id))
    ensures r.httpMethod == "DELETE"
    ensures Serve(Serve(store, r).0, r).1 ==
      if Serve(store, r).1.status == 204 then NoDevice(DeletedId(r)) else Serve(store, r).1
  {
  }

  lemma ReadsNeverSay204(store: Store, r: Request)
    requires match Route(r) case Some(Delete(_)) => false case Some(Create(_)) => false case _ => true
    ensures Serve(store, r).1.status != 204
    ensures match Route(r)
            case Some(Replace(_, _)) => true
            case Some(SetState(_, _)) => true
            case _ => Serve(store, r).0 == store
  {
  }

  /** POST is the method that does not settle: sent twice, it creates twice. */
  lemma PostDoesNotSettle(store: Store, r: Request)
    requires Good(store) && r.httpMethod == "POST" && Serve(store, r).1.status == 201
    ensures Serve(store, r).0 != store && Serve(Serve(store, r).0, r).1.status == 409
  {
    if Route(r).Some? && Route(r).value.Create? {
      CreateAgain(store, r.body);
    }
  }

  lemma CreateAgain(store: Store, body: Body)
    requires Good(store) && HandleCreate(store, body).1.status == 201
    ensures var next := HandleCreate(store, body).0; next != store && HandleCreate(next, body).1.status == 409
  {
    var next := HandleCreate(store, body).0;
    assert store.nextId in next.devices;
  }

  // ----- retry safety -----

  /** The service as the harness meets it. */
  function Registered(dumps: Json -> string): Endpoint<Store> {
    (store: Store, r: Request) => Deliver(dumps, store, r)
  }

  /** What is answered to a request that has been carried out before. */
  function SecondAnswer(store: Store, r: Request): Answer {
    if r.httpMethod == "DELETE" && Serve(store, r).1.status == 204 then NoDevice(DeletedId(r)) else Serve(store, r).1
  }

  /** The retry loop of a case, for a service that carries the request out once and then repeats itself. */
  lemma CaseIsOneDelivery<S>(service: Endpoint<S>, s: S, k: TestCase, fates: nat -> Fate, from: nat,
      second: HttpResponse)
    requires k.retries >= 0
    requires k.request.httpMethod != "POST" ==>
      service(service(s, k.request).0, k.request) == (service(s, k.request).0, second)
    ensures var played := Play(service, s, k.request, fates, from, k.MaxAttempts());
      var (once, first) := service(s, k.request);
      && 1 <= played.attempts <= 1 + k.retries
      && (k.request.httpMethod == "POST" ==> played.attempts == 1)
      && played.state == (if Arrived(fates, from, played.attempts) then once else s)
      && (played.answer.Some? ==>
            played.answer.value == if Arrived(fates, from, played.attempts - 1) then second else first)
  {
    PlayStops(service, s, k.request, fates, from, k.MaxAttempts());
    PlayIsOneDelivery(service, s, k.request, fates, from, k.MaxAttempts());
  }

  lemma DeliverAgain(dumps: Json -> string, store: Store, r: Request)
    requires r.httpMethod != "POST"
    ensures Deliver(dumps, Deliver(dumps, store, r).0, r)
            == (Deliver(dumps, store, r).0, ToResponse(dumps, SecondAnswer(store, r), r))
  {
    ServeSettles(store, r);
    ServeAgain(store, r);
  }

  /**
    Running a case against the registry, with any pattern of lost requests and lost answers and
    `retries` at least 0, leaves the store as after exactly one delivery, or untouched when no
    request arrived; a POST is sent once. The answer seen is that of a single delivery, except to a
    DELETE whose success was answered before and lost: that one sees 404 instead of 204.
   */
  lemma RetrySafety(dumps: Json -> string, store: Store, k: TestCase, fates: nat -> Fate, from: nat)
    requires k.retries >= 0
    ensures var played := Play(Registered(dumps), store, k.request, fates, from, k.MaxAttempts());
      && 1 <= played.attempts <= 1 + k.retries
      && (k.request.httpMethod == "POST" ==> played.attempts == 1)
      && played.state == (if Arrived(fates, from, played.attempts) then Serve(store, k.request).0 else store)
      && (played.answer.Some? ==>
            played.answer.value == ToResponse(dumps,
              if Arrived(fates, from, played.attempts - 1) then SecondAnswer(store, k.request)
              else Serve(store, k.request).1, k.request))
  {
    var second := ToResponse(dumps, SecondAnswer(store, k.request), k.request);
    if k.request.httpMethod != "POST" { DeliverAgain(dumps, store, k.request); }
    CaseIsOneDelivery(Registered(dumps), store, k, fates, from, second);
  }

  /** For GET, PUT and PATCH any answer seen is the single delivery's. */
  lemma AnswerIsFirst(dumps: Json -> string, store: Store, k: TestCase, fates: nat -> Fate, from: nat)
    requires k.retries >= 0 && k.request.httpMethod != "DELETE"
    ensures var answer := Play(Registered(dumps), store, k.request, fates, from, k.MaxAttempts()).answer;
            answer.Some? ==> answer.value == Deliver(dumps, store, k.request).1
  {
    RetrySafety(dumps, store, k, fates, from);
  }

  /**
    For DELETE the answer is the single delivery's exactly when no success was answered and lost
    before.
   */
  lemma DeleteAnswerIsFirstIff(dumps: Json -> string, store: Store, k: TestCase, fates: nat -> Fate, from: nat)
    requires k.retries >= 0 && k.request.httpMethod == "DELETE"
    ensures var played := Play(Registered(dumps), store, k.request, fates, from, k.MaxAttempts());
      played.answer.Some? ==>
        (played.answer.value == Deliver(dumps, store, k.request).1
         <==> !(Arrived(fates, from, played.attempts - 1) && Serve(store, k.request).1.status == 204))
  {
    RetrySafety(dumps, store, k, fates, from);
  }

  /** The loop's answer is the first that comes through within the budget. */
  lemma FirstDelivered<S>(service: Endpoint<S>, s: S, r: Request, fates: nat -> Fate, from: nat, budget: nat)
    ensures var p := Play(service, s, r, fates, from, budget);
      && (p.answer.Some? <==> exists i | from <= i < from + budget :: fates(i).Delivered?)
      && (p.answer.Some? ==>
            && 1 <= p.attempts <= budget && fates(from + p.attempts - 1).Delivered?
            && forall i | from <= i < from + p.attempts - 1 :: !fates(i).Delivered?)
      && (p.answer.None? ==> p.attempts == budget)
  {
    PlayStops(service, s, r, fates, from, budget);
  }

  /** The six methods by name: all attempts are made until an answer comes, which is the first to come through. */
  lemma SixAreRetried<S>(service: Endpoint<S>, s: S, k: TestCase, fates: nat -> Fate, from: nat)
    requires k.retries >= 0
    requires var m := k.request.httpMethod;
      m == "GET" || m == "PUT" || m == "DELETE" || m == "PATCH" || m == "HEAD" || m == "OPTIONS"
    ensures var p := Play(service, s, k.request, fates, from, k.MaxAttempts());
      && (p.answer.Some? <==> exists i | from <= i <= from + k.retries :: fates(i).Delivered?)
      && (p.answer.Some? ==>
            && 1 <= p.attempts <= 1 + k.retries && fates(from + p.attempts - 1).Delivered?
            && forall i | from <= i < from + p.attempts - 1 :: !fates(i).Delivered?)
      && (p.answer.None? ==> p.attempts == 1 + k.retries)
  {
    FirstDelivered(service, s, k.request, fates, from, k.MaxAttempts());
  }

  /** Any other method is tried once, whatever `retries` says. */
  lemma OthersAreTriedOnce<S>(service: Endpoint<S>, s: S, k: TestCase, fates: nat -> Fate, from: nat)
    requires var m := k.request.httpMethod;
      m != "GET" && m != "PUT" && m != "DELETE" && m != "PATCH" && m != "HEAD" && m != "OPTIONS"
    ensures var p := Play(service, s, k.request, fates, from, k.MaxAttempts());
      p.attempts == 1 && (p.answer.Some? <==> fates(from).Delivered?)
  {
    FirstDelivered(service, s, k.request, fates, from, k.MaxAttempts());
  }

  /**
    A case that no answer came to passes exactly when its method may be retried and `retries` is
    negative: then nothing was sent, and nothing could fail.
   */
  lemma UnansweredPassesIff<S>(service: Endpoint<S>, s: S, k: TestCase, fates: nat -> Fate, from: nat)
    requires Play(service, s, k.request, fates, from, k.MaxAttempts()).answer.None?
    ensures var played := Play(service, s, k.request, fates, from, k.MaxAttempts());
      && (CaseResult(None, played.attempts, [], played.attempts > 0).Passed() <==> k.IsIdempotent() && k.retries < 0)
      && (k.IsIdempotent() && k.retries < 0 ==> played == Played(s, None, 0))
  {
  }
}
