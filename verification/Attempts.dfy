/**
  A case retried through the fault proxy: harness/runner.py's loop at one end of a proxy run
  (proxy/server.py), the registry at the other. The fates that `Play` is told are read off the run.
 */
module Attempts {
  import opened Json
  import opened Plan
  import opened Validator
  import opened Runner
  import opened Store
  import opened Service
  import opened Retry
  import E = Environment
  import F = Faults
  import H = Http
  import P = Proxy

  // ----- requests that follow one another -----

  /** No request is in hand. */
  ghost predicate Idle(s: P.State) { forall c | c in s.connections :: P.Working(s.connections[c]).None? }

  /** The next request is read only after the one before was answered or given up. */
  ghost predicate OneAtATime(run: seq<P.State>) {
    forall i | 0 <= i < |run| - 1 && |run[i].decisions| < |run[i + 1].decisions| :: Idle(run[i])
  }

  predicate Increasing(xs: seq<nat>) { forall i, j | 0 <= i < j < |xs| :: xs[i] < xs[j] }

  /** Requests went upstream in the order they came, and only the last one read can be in hand. */
  ghost predicate InOrder(s: P.State) {
    && Increasing(s.sent)
    && forall c | c in s.connections && P.Working(s.connections[c]).Some? ::
         P.Working(s.connections[c]).value + 1 == |s.decisions|
  }

  lemma AdmitInOrder(s: P.State, t: P.State, c: nat, stream: H.Bytes)
    requires InOrder(s) && Idle(s) && P.Admit(s, t, c, stream)
    ensures InOrder(t)
  {
  }

  lemma OneMoreInOrder(xs: seq<nat>, x: nat)
    requires Increasing(xs) && forall y | y in xs :: y < x
    ensures Increasing(xs + [x])
  {
    forall i | 0 <= i < |xs| ensures xs[i] < x { assert xs[i] in xs; }
  }

  lemma SendOnInOrder(s: P.State, t: P.State, c: nat)
    requires InOrder(s) && P.SentOnce(s) && P.Separate(s) && P.SendOn(s, t, c)
    ensures InOrder(t)
  {
    var k := s.connections[c].k;
    assert P.Working(s.connections[c]) == Some(k);
    OneMoreInOrder(s.sent, k);
  }

  lemma OthersInOrder(s: P.State, t: P.State, c: nat, stream: H.Bytes)
    requires InOrder(s)
    requires P.Connect(s, t, c) || P.AnswerError(s, t, c) || P.Answer(s, t, c, stream) || P.GiveUp(s, t, c)
    ensures InOrder(t)
  {
  }

  lemma StepInOrder(s: P.State, t: P.State)
    requires InOrder(s) && P.SentOnce(s) && P.Separate(s) && P.Step(s, t)
    requires |s.decisions| < |t.decisions| ==> Idle(s)
    ensures InOrder(t)
  {
    var c: nat, stream: H.Bytes :| P.StepOf(s, t, c, stream);
    if P.Admit(s, t, c, stream) { AdmitInOrder(s, t, c, stream); }
    else if P.SendOn(s, t, c) { SendOnInOrder(s, t, c); }
    else { OthersInOrder(s, t, c, stream); }
  }

  /** Read one at a time, requests reach upstream in the order they were read, across every run. */
  lemma {:induction false} SentInOrder(run: seq<P.State>, i: nat)
    requires P.IsRun(run) && OneAtATime(run) && i < |run|
    ensures InOrder(run[i])
  {
    if i > 0 {
      SentInOrder(run, i - 1);
      P.EveryRunIsCounted(run, i - 1);
      StepInOrder(run[i - 1], run[i]);
    }
  }

  // ----- the retry loop over a run -----

  /** How the client turns header lines into a mapping. */
  type HeaderReader = H.Headers -> map<string, string>

  /** The service after so many deliveries of one request. */
  function After<S>(service: Endpoint<S>, s: S, r: Request, deliveries: nat): S {
    if deliveries == 0 then s else service(After(service, s, r, deliveries - 1), r).0
  }

  /** The first p of these numbers are below k, and no other is. */
  predicate SplitsAt(xs: seq<nat>, p: nat, k: nat) {
    && p <= |xs|
    && (forall i | 0 <= i < p :: xs[i] < k)
    && (forall i | p <= i < |xs| :: k <= xs[i])
  }

  lemma NextSplit(xs: seq<nat>, p: nat, k: nat) returns (next: nat)
    requires Increasing(xs) && SplitsAt(xs, p, k)
    ensures k in xs <==> p < |xs| && xs[p] == k
    ensures next == (if k in xs then p + 1 else p) && SplitsAt(xs, next, k + 1)
    ensures next < |xs| ==> k < xs[next]
  {
    next := if k in xs then p + 1 else p;
  }

  /** Of the attempts from number a to number last, only the last can have been answered. */
  predicate OnlyLastDelivered(fates: nat -> Fate, sent: seq<nat>, a: nat, last: nat) {
    && (forall j | a <= j <= last :: fates(j).RequestLost? <==> j !in sent)
    && (forall j | a <= j < last :: !fates(j).Delivered?)
  }

  /** What the loop comes to from attempt a on, when p requests had reached the service. */
  lemma {:induction false} PlayFollows<S>(service: Endpoint<S>, s: S, r: Request, fates: nat -> Fate, sent: seq<nat>,
      q: nat, p: nat, a: nat, last: nat, budget: nat)
    requires Increasing(sent) && SplitsAt(sent, p, a) && q <= p && a <= last
    requires forall j | 0 <= j < |sent| :: sent[j] <= last
    requires OnlyLastDelivered(fates, sent, a, last)
    requires last + 1 - a <= budget && (fates(last).Delivered? || last + 1 - a == budget)
    ensures q <= |sent| && (fates(last).Delivered? ==> q < |sent| && sent[|sent| - 1] == last)
    ensures Play(service, After(service, s, r, p - q), r, fates, a, budget)
         == Played(After(service, s, r, |sent| - q),
                   if fates(last).Delivered? then Some(service(After(service, s, r, |sent| - q - 1), r).1) else None,
                   last + 1 - a)
    decreases last - a
  {
    var next := NextSplit(sent, p, a);
    if a < last {
      PlayFollows(service, s, r, fates, sent, q, next, a + 1, last, budget - 1);
    }
  }

  /** A whole message came back. */
  ghost predicate Answered(s: P.State, k: nat) { k in s.replies && H.Read(s.replies[k], true).Got? }

  /** What the client hands to the harness. */
  ghost function Seen(s: P.State, k: nat, r: Request, read: HeaderReader): Option<HttpResponse>
    requires Answered(s, k)
  {
    var m := H.Read(s.replies[k], true).message;
    E.Received(m, read(m.headers), r)
  }

  /**
    The requests from number `first` on are the attempts of one case, `last` being the latest:
    another was made only when none before was answered, and the last was answered or used up the
    budget.
   */
  ghost predicate AreAttempts(s: P.State, first: nat, last: nat, budget: int) {
    && first <= last && last == |s.decisions| - 1 && last + 1 - first <= budget
    && (forall a | first <= a < last :: !Answered(s, a))
    && (Answered(s, last) || last + 1 - first == budget)
  }

  /** Upstream is this service, q requests having reached it before: it answers each in its turn. */
  ghost predicate Serves<S(!new)>(s: P.State, q: nat, service: Endpoint<S>, store: S, r: Request, read: HeaderReader) {
    forall p | q <= p < |s.sent| && s.sent[p] in s.answers ::
      E.Received(s.answers[s.sent[p]], read(s.answers[s.sent[p]].headers), r)
      == Some(service(After(service, store, r, p - q), r).1)
  }

  /** The fates of a run's requests. */
  ghost function FatesOf(s: P.State): nat -> Fate { (k: nat) => P.FateOf(s, k) }

  /** The proxy did nothing to this request, or only made it wait. */
  predicate Untouched(s: P.State, k: nat) { k < |s.decisions| && (s.decisions[k] ==> s.config.mode == F.Latency) }

  lemma AnsweredIsDelivered(s: P.State, k: nat)
    requires P.Honest(s) && !P.Refused(s, k)
    ensures P.FateOf(s, k).Delivered? <==> Answered(s, k)
  {
    if k in s.replies { assert P.HonestReply(s, k, s.replies[k]); }
  }

  lemma LastIsDelivered(s: P.State, first: nat, last: nat, budget: int)
    requires P.Honest(s) && AreAttempts(s, first, last, budget)
    ensures OnlyLastDelivered(FatesOf(s), s.sent, first, last)
  {
    forall j | first <= j < last ensures !P.FateOf(s, j).Delivered? { assert !Answered(s, j); }
  }

  ghost predicate Orderly(s: P.State) { P.Honest(s) && P.SentOnce(s) && Increasing(s.sent) }

  lemma RunIsOrderly(run: seq<P.State>, i: nat)
    requires P.IsRun(run) && OneAtATime(run) && i < |run|
    ensures Orderly(run[i])
  {
    P.EveryRunIsCounted(run, i);
    SentInOrder(run, i);
  }

  /** One case's attempts as the loop sees them: they end at the last, and reach the service in order. */
  ghost predicate EndsAt(fates: nat -> Fate, sent: seq<nat>, q: nat, first: nat, last: nat, budget: nat,
      answered: bool) {
    && Increasing(sent) && SplitsAt(sent, q, first) && first <= last
    && (forall j | 0 <= j < |sent| :: sent[j] <= last)
    && OnlyLastDelivered(fates, sent, first, last) && (answered <==> fates(last).Delivered?)
    && last + 1 - first <= budget && (answered || last + 1 - first == budget)
  }

  /** Then the last attempt, if it was answered, was the last to reach the service. */
  ghost predicate PlaysAs<S(!new)>(played: Played<S>, prior: S, service: Endpoint<S>, store: S, r: Request,
      sent: seq<nat>, q: nat, first: nat, last: nat, answered: bool)
    requires q <= |sent| && first <= last
  {
    && played.attempts == last + 1 - first && played.state == After(service, store, r, |sent| - q)
    && (answered ==>
          && q < |sent| && sent[|sent| - 1] == last && prior == After(service, store, r, |sent| - 1 - q)
          && played.answer == Some(service(prior, r).1))
    && (!answered ==> played.answer == None)
  }

  lemma PlayFromFirst<S(!new)>(service: Endpoint<S>, store: S, r: Request, fates: nat -> Fate, sent: seq<nat>, q: nat,
      first: nat, last: nat, budget: nat, answered: bool) returns (played: Played<S>, prior: S)
    requires EndsAt(fates, sent, q, first, last, budget, answered)
    ensures played == Play(service, store, r, fates, first, budget)
    ensures PlaysAs(played, prior, service, store, r, sent, q, first, last, answered)
  {
    PlayFollows(service, store, r, fates, sent, q, q, first, last, budget);
    played := Play(service, store, r, fates, first, budget);
    prior := if q < |sent| then After(service, store, r, |sent| - 1 - q) else store;
  }

  lemma AttemptsEnd(s: P.State, fates: nat -> Fate, first: nat, q: nat, budget: nat, last: nat)
    requires Orderly(s) && SplitsAt(s.sent, q, first) && fates == FatesOf(s)
    requires AreAttempts(s, first, last, budget) && !P.Refused(s, last)
    ensures EndsAt(fates, s.sent, q, first, last, budget, Answered(s, last))
  {
    LastIsDelivered(s, first, last, budget);
    AnsweredIsDelivered(s, last);
    NoneSentLater(s, last);
  }

  lemma NoneSentLater(s: P.State, last: nat)
    requires P.SentOnce(s) && last == |s.decisions| - 1
    ensures forall j | 0 <= j < |s.sent| :: s.sent[j] <= last
  {
    forall j | 0 <= j < |s.sent| ensures s.sent[j] <= last { assert s.sent[j] in s.sent; }
  }

  /** Where the proxy left an answer alone, the client reads what upstream said. */
  ghost predicate ReadAsIs(s: P.State, k: nat) {
    Answered(s, k) && Untouched(s, k) ==> k in s.answers && H.Read(s.replies[k], true) == H.Got(s.answers[k], "")
  }

  lemma UntouchedReads(run: seq<P.State>, i: nat, k: nat)
    requires P.IsRun(run) && i < |run| && !P.Refused(run[i], k)
    ensures ReadAsIs(run[i], k)
  {
    if Answered(run[i], k) && Untouched(run[i], k) { P.WhatTheClientReads(run, i, k); }
  }

  lemma SeenUntouched<S(!new)>(s: P.State, last: nat, service: Endpoint<S>, store: S, prior: S, r: Request, q: nat,
      read: HeaderReader)
    requires Answered(s, last) && Untouched(s, last) && ReadAsIs(s, last)
    requires q < |s.sent| && s.sent[|s.sent| - 1] == last
    requires Serves(s, q, service, store, r, read) && prior == After(service, store, r, |s.sent| - 1 - q)
    ensures Seen(s, last, r, read) == Some(service(prior, r).1)
  {
  }

  /** What a play of the retry loop and a state of the proxy have in common. */
  ghost predicate Matches<S(!new)>(played: Played<S>, s: P.State, service: Endpoint<S>, store: S, r: Request,
      first: nat, q: nat, last: nat, read: HeaderReader)
    requires q <= |s.sent| && first <= last
  {
    && played.attempts == last + 1 - first && played.state == After(service, store, r, |s.sent| - q)
    && (played.answer.Some? <==> Answered(s, last))
    && (Answered(s, last) ==>
          q < |s.sent| && played.answer == Some(service(After(service, store, r, |s.sent| - 1 - q), r).1))
    && (Answered(s, last) && Untouched(s, last) ==> Seen(s, last, r, read) == played.answer)
  }

  lemma StateMatches<S(!new)>(played: Played<S>, prior: S, s: P.State, service: Endpoint<S>, store: S, r: Request,
      first: nat, q: nat, last: nat, read: HeaderReader)
    requires q <= |s.sent| && first <= last && ReadAsIs(s, last) && Serves(s, q, service, store, r, read)
    requires PlaysAs(played, prior, service, store, r, s.sent, q, first, last, Answered(s, last))
    ensures Matches(played, s, service, store, r, first, q, last, read)
  {
    if Answered(s, last) && Untouched(s, last) { SeenUntouched(s, last, service, store, prior, r, q, read); }
  }

  /**
    What the proxy lets through and what it loses is a play of the retry loop: as many attempts, the
    service's state after the requests that reached it, an answer when one came, and if the proxy
    left that one alone, the same answer. Any service; requests of other cases may come before. Only
    the proxy's own answer to the last attempt has no place in a play.
   */
  lemma RunIsPlay<S(!new)>(run: seq<P.State>, i: nat, service: Endpoint<S>, store: S, r: Request, first: nat, q: nat,
      last: nat, budget: int, read: HeaderReader)
    requires P.IsRun(run) && OneAtATime(run) && i < |run|
    requires AreAttempts(run[i], first, last, budget) && SplitsAt(run[i].sent, q, first)
    requires Serves(run[i], q, service, store, r, read) && !P.Refused(run[i], last)
    ensures Matches(Play(service, store, r, FatesOf(run[i]), first, budget), run[i], service, store, r, first, q, last,
              read)
  {
    RunIsOrderly(run, i);
    UntouchedReads(run, i, last);
    AttemptsEnd(run[i], FatesOf(run[i]), first, q, budget, last);
    var played, prior := PlayFromFirst(service, store, r, FatesOf(run[i]), run[i].sent, q, first, last, budget,
      Answered(run[i], last));
    StateMatches(played, prior, run[i], service, store, r, first, q, last, read);
  }

  // ----- retry safety, end to end -----

  /** However often it is delivered, a request that settles leaves the service as after one delivery. */
  lemma {:induction false} AfterOnce<S>(service: Endpoint<S>, s: S, r: Request, deliveries: nat)
    requires Settles(service, s, r) || deliveries <= 1
    ensures After(service, s, r, deliveries) == if deliveries == 0 then s else service(s, r).0
  {
    if deliveries > 0 { AfterOnce(service, s, r, deliveries - 1); }
  }

  lemma TwoGoFarther(xs: seq<nat>, q: nat, k: nat)
    requires (forall i, j | 0 <= i < j < |xs| :: xs[i] != xs[j]) && SplitsAt(xs, q, k) && |xs| > q + 1
    ensures xs[q] > k || xs[q + 1] > k
  {
  }

  /** A case whose method may not be retried has one attempt, and so at most one request upstream. */
  lemma PostIsSentOnce(s: P.State, k: TestCase, first: nat, q: nat, last: nat)
    requires P.SentOnce(s) && SplitsAt(s.sent, q, first) && AreAttempts(s, first, last, k.MaxAttempts())
    requires k.request.httpMethod == "POST"
    ensures last == first && |s.sent| <= q + 1
  {
    if |s.sent| > q + 1 { TwoGoFarther(s.sent, q, first); }
    NoneSentLater(s, last);
  }

  /** The registry after the deliveries of one case. */
  lemma RegistryAfter(dumps: Json -> string, store: Store, r: Request, deliveries: nat, after: Store)
    requires r.httpMethod == "POST" ==> deliveries <= 1
    requires after == After(Registered(dumps), store, r, deliveries)
    ensures after == if deliveries == 0 then store else Serve(store, r).0
  {
    if r.httpMethod != "POST" { ServeSettles(store, r); }
    AfterOnce(Registered(dumps), store, r, deliveries);
  }

  lemma AnswerAt(dumps: Json -> string, store: Store, r: Request, prior: Store, again: bool)
    requires prior == (if again then Serve(store, r).0 else store) && (again ==> r.httpMethod != "POST")
    ensures Registered(dumps)(prior, r).1
         == ToResponse(dumps, if again then SecondAnswer(store, r) else Serve(store, r).1, r)
  {
    if again { DeliverAgain(dumps, store, r); }
  }

  lemma RegistryAnswers(dumps: Json -> string, store: Store, r: Request, deliveries: nat, prior: Store)
    requires deliveries >= 1 && (r.httpMethod == "POST" ==> deliveries == 1)
    requires prior == After(Registered(dumps), store, r, deliveries - 1)
    ensures Registered(dumps)(prior, r).1
         == ToResponse(dumps, if deliveries > 1 then SecondAnswer(store, r) else Serve(store, r).1, r)
  {
    RegistryAfter(dumps, store, r, deliveries - 1, prior);
    AnswerAt(dumps, store, r, prior, deliveries > 1);
  }

  /**
    Whatever the proxy delayed, refused, corrupted or dropped, and even when attempts overlap, a case
    leaves the registry as after exactly one delivery, or untouched when no request was sent on; a
    POST is sent on at most once.
   */
  lemma OneDeliveryThroughProxy(run: seq<P.State>, i: nat, dumps: Json -> string, store: Store, k: TestCase, first: nat,
      q: nat, last: nat)
    requires P.IsRun(run) && i < |run|
    requires AreAttempts(run[i], first, last, k.MaxAttempts()) && SplitsAt(run[i].sent, q, first)
    ensures k.request.httpMethod == "POST" ==> last == first && |run[i].sent| <= q + 1
    ensures After(Registered(dumps), store, k.request, |run[i].sent| - q)
         == if |run[i].sent| == q then store else Serve(store, k.request).0
  {
    var deliveries := |run[i].sent| - q;
    P.EveryRunIsCounted(run, i);
    if k.request.httpMethod == "POST" { PostIsSentOnce(run[i], k, first, q, last); }
    RegistryAfter(dumps, store, k.request, deliveries, After(Registered(dumps), store, k.request, deliveries));
  }

  lemma MatchedAnswer<S(!new)>(played: Played<S>, s: P.State, service: Endpoint<S>, store: S, r: Request, first: nat,
      q: nat, last: nat, read: HeaderReader) returns (prior: S, deliveries: nat)
    requires q <= |s.sent| && first <= last && Matches(played, s, service, store, r, first, q, last, read)
    requires Answered(s, last) && Untouched(s, last)
    ensures deliveries == |s.sent| - q && deliveries >= 1 && prior == After(service, store, r, deliveries - 1)
    ensures Seen(s, last, r, read) == Some(service(prior, r).1)
  {
    deliveries := |s.sent| - q;
    prior := After(service, store, r, deliveries - 1);
  }

  lemma StateAnswer(played: Played<Store>, s: P.State, dumps: Json -> string, store: Store, r: Request, first: nat,
      q: nat, last: nat, read: HeaderReader)
    requires q <= |s.sent| && first <= last && Matches(played, s, Registered(dumps), store, r, first, q, last, read)
    requires Answered(s, last) && Untouched(s, last) && (r.httpMethod == "POST" ==> |s.sent| <= q + 1)
    ensures q < |s.sent|
    ensures Seen(s, last, r, read)
         == Some(ToResponse(dumps, if |s.sent| > q + 1 then SecondAnswer(store, r) else Serve(store, r).1, r))
  {
    var prior, deliveries := MatchedAnswer(played, s, Registered(dumps), store, r, first, q, last, read);
    RegistryAnswers(dumps, store, r, deliveries, prior);
  }

  /**
    Retry safety through the proxy: when the requests of a case follow one another, the client sees,
    where the proxy left the last answer alone, that of the single delivery, or of a second one when
    an earlier request had been sent on.
   */
  lemma RetrySafetyThroughProxy(run: seq<P.State>, i: nat, dumps: Json -> string, store: Store, k: TestCase, first: nat,
      q: nat, last: nat, read: HeaderReader)
    requires P.IsRun(run) && OneAtATime(run) && i < |run|
    requires AreAttempts(run[i], first, last, k.MaxAttempts()) && SplitsAt(run[i].sent, q, first)
    requires Serves(run[i], q, Registered(dumps), store, k.request, read)
    requires Answered(run[i], last) && Untouched(run[i], last)
    ensures q < |run[i].sent|
    ensures Seen(run[i], last, k.request, read) == Some(ToResponse(dumps,
              if |run[i].sent| > q + 1 then SecondAnswer(store, k.request) else Serve(store, k.request).1, k.request))
  {
    OneDeliveryThroughProxy(run, i, dumps, store, k, first, q, last);
    RunIsPlay(run, i, Registered(dumps), store, k.request, first, q, last, k.MaxAttempts(), read);
    var played := Play(Registered(dumps), store, k.request, FatesOf(run[i]), first, k.MaxAttempts());
    StateAnswer(played, run[i], dumps, store, k.request, first, q, last, read);
  }
}
