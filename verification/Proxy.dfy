/**
  The fault proxy as a state machine: proxy/server.py, `FaultProxy.handle`, one step per stretch
  of code between two awaits, for any number of connections interleaved in any order.
 */
module Proxy {
  import opened Json
  import opened JsonText
  import opened JsonPrint
  import opened Http
  import opened Faults
  import opened Validator
  import opened Runner
  import opened Plan

  /** How far one connection has come; k numbers the requests in the order they are decided. */
  datatype Phase =
    | Reading
    | Decided(k: nat, request: Message)
    | Forwarded(k: nat)
    | Closed

  /**
    `position`: how far the generator has come. `sent`: which requests were written upstream.
    `answers`: the message read from upstream for each. `replies`: what was written to each client.
   */
  datatype State = State(
    config: FaultConfig, draws: Draws,
    position: nat, decisions: seq<bool>, requestsSeen: nat, faultsInjected: nat,
    connections: map<nat, Phase>, sent: seq<nat>, answers: map<nat, Message>, replies: map<nat, Bytes>)

  predicate Init(s: State) {
    && s.position == 0 && s.decisions == [] && s.requestsSeen == 0 && s.faultsInjected == 0
    && s.connections == map[] && s.sent == [] && s.answers == map[] && s.replies == map[]
  }

  function Put(s: State, c: nat, phase: Phase): State { s.(connections := s.connections[c := phase]) }

  ghost predicate Connect(s: State, t: State, c: nat) {
    c !in s.connections && t == Put(s, c, Reading)
  }

  /** The request arrives, is counted, and is decided about by the next draw, if the mode draws at all. */
  ghost predicate Admit(s: State, t: State, c: nat, stream: Bytes) {
    && c in s.connections && s.connections[c] == Reading && Read(stream, false).Got?
    && var k := |s.decisions|;
       var hit := s.config.mode != NoFault && s.draws(s.config.seed, s.position) < s.config.probability;
       t == Put(s, c, Decided(k, Read(stream, false).message)).(
              position := if s.config.mode == NoFault then s.position else s.position + 1,
              decisions := s.decisions + [hit],
              requestsSeen := s.requestsSeen + 1,
              faultsInjected := s.faultsInjected + if hit then 1 else 0)
  }

  /** ERROR_CODE: the proxy answers by itself. */
  ghost predicate AnswerError(s: State, t: State, c: nat) {
    && c in s.connections && s.connections[c].Decided?
    && var k := s.connections[c].k;
       && k < |s.decisions| && s.decisions[k] && s.config.mode == ErrorCode
       && t == Put(s, c, Closed).(replies := s.replies[k := Print(ErrorMessage(s.config.errorStatus))])
  }

  /** Everything else is sent on, after a delay under LATENCY. */
  ghost predicate SendOn(s: State, t: State, c: nat) {
    && c in s.connections && s.connections[c].Decided?
    && var k := s.connections[c].k;
       && k < |s.decisions| && !(s.decisions[k] && s.config.mode == ErrorCode)
       && t == Put(s, c, Forwarded(k)).(sent := s.sent + [k])
  }

  /** The upstream answer comes and goes back, edited or not. */
  ghost predicate Answer(s: State, t: State, c: nat, stream: Bytes) {
    && c in s.connections && s.connections[c].Forwarded? && Read(stream, true).Got?
    && var k := s.connections[c].k;
       && k < |s.decisions|
       && t == Put(s, c, Closed).(
                 answers := s.answers[k := Read(stream, true).message],
                 replies := s.replies[k := Reply(s.config.mode, s.decisions[k], Read(stream, true).message)])
  }

  /** A connection ends without an answer: a peer went away, or sent what is no message. */
  ghost predicate GiveUp(s: State, t: State, c: nat) {
    c in s.connections && s.connections[c] != Closed && t == Put(s, c, Closed)
  }

  ghost predicate StepOf(s: State, t: State, c: nat, stream: Bytes) {
    || Connect(s, t, c) || Admit(s, t, c, stream) || AnswerError(s, t, c)
    || SendOn(s, t, c) || Answer(s, t, c, stream) || GiveUp(s, t, c)
  }

  ghost predicate Step(s: State, t: State) { exists c: nat, stream: Bytes :: StepOf(s, t, c, stream) }

  /** An execution, from the start, one step after another. */
  ghost predicate IsRun(run: seq<State>) {
    && run != [] && Init(run[0])
    && forall i | 0 <= i < |run| - 1 :: Step(run[i], run[i + 1])
  }

  // ----- what every run keeps -----

  /** The request a connection is working on. */
  function Working(phase: Phase): Option<nat> {
    match phase
    case Decided(k, _) => Some(k)
    case Forwarded(k) => Some(k)
    case _ => None
  }

  /**
    The counters are what their names say, one number is drawn per decision, and so each decision
    depends on its number alone.
   */
  ghost predicate Counted(s: State) {
    && s.requestsSeen == |s.decisions|
    && s.faultsInjected == CountTrue(s.decisions)
    && s.position == (if s.config.mode == NoFault then 0 else |s.decisions|)
    && forall k | 0 <= k < |s.decisions| :: s.decisions[k] == Decision(s.config, s.draws, k)
  }

  /** The proxy answers request k itself. */
  predicate Refused(s: State, k: nat) {
    k < |s.decisions| && s.decisions[k] && s.config.mode == ErrorCode
  }

  /** No request reaches upstream twice, and none that the proxy refused does. */
  ghost predicate SentOnce(s: State) {
    && (forall i, j | 0 <= i < j < |s.sent| :: s.sent[i] != s.sent[j])
    && (forall k | k in s.sent :: k < |s.decisions| && !Refused(s, k))
  }

  /** No two connections work on one request; one not yet sent on has reached nobody. */
  ghost predicate Separate(s: State) {
    && (forall c | c in s.connections && Working(s.connections[c]).Some? ::
          && Working(s.connections[c]).value < |s.decisions|
          && Working(s.connections[c]).value !in s.replies)
    && (forall c, d | c in s.connections && d in s.connections && c != d
          && Working(s.connections[c]).Some? ::
          Working(s.connections[c]) != Working(s.connections[d]))
    && (forall c | c in s.connections && s.connections[c].Decided? :: s.connections[c].k !in s.sent)
    && (forall c | c in s.connections && s.connections[c].Forwarded? ::
          s.connections[c].k in s.sent && !Refused(s, s.connections[c].k))
  }

  /** The proxy reads m off this upstream stream. */
  predicate Gives(stream: Bytes, m: Message) {
    Read(stream, true).Got? && Read(stream, true).message == m
  }

  /** A message as the proxy can have read it. */
  ghost predicate IsRead(m: Message) { exists stream: Bytes :: Gives(stream, m) }

  /** A reply is what upstream answered to this very request, edited as decided, or is the proxy's own. */
  ghost predicate HonestReply(s: State, k: nat, bytes: Bytes) {
    && k < |s.decisions|
    && if Refused(s, k) then bytes == Print(ErrorMessage(s.config.errorStatus)) && k !in s.sent
       else k in s.sent && k in s.answers && IsRead(s.answers[k])
            && bytes == Reply(s.config.mode, s.decisions[k], s.answers[k])
  }

  ghost predicate Honest(s: State) {
    && (forall k | k in s.replies :: HonestReply(s, k, s.replies[k]))
    && (forall k | k in s.answers :: k in s.replies)
  }

  ghost predicate Inv(s: State) { Counted(s) && SentOnce(s) && Separate(s) && Honest(s) }

  /** Everything in the first map is in the second, unchanged. */
  ghost predicate Extends<T(!new)>(a: map<nat, T>, b: map<nat, T>) { forall k | k in a :: k in b && b[k] == a[k] }

  /** Decisions are only added, requests only sent, and none that was refused; no answer changes. */
  ghost predicate GoesOn(s: State, t: State) {
    && t.config == s.config && s.decisions <= t.decisions && Extends(s.answers, t.answers)
    && (forall j | j in s.sent :: j in t.sent)
    && (forall j | j in t.sent :: j in s.sent || !Refused(s, j))
  }

  lemma HonestStays(s: State, t: State, k: nat, bytes: Bytes)
    requires HonestReply(s, k, bytes) && GoesOn(s, t)
    ensures HonestReply(t, k, bytes)
  {
  }

  lemma AllStayHonest(s: State, t: State)
    requires Honest(s) && GoesOn(s, t) && t.replies == s.replies && t.answers == s.answers
    ensures Honest(t)
  {
    forall k | k in t.replies ensures HonestReply(t, k, t.replies[k]) {
      HonestStays(s, t, k, s.replies[k]);
    }
  }

  lemma AdmitCounts(s: State, t: State, c: nat, stream: Bytes)
    requires Counted(s) && Admit(s, t, c, stream)
    ensures Counted(t)
  {
    assert t.decisions[..|s.decisions|] == s.decisions;
  }

  lemma SentStays(s: State, t: State)
    requires SentOnce(s) && t.sent == s.sent && t.config == s.config && s.decisions <= t.decisions
    ensures SentOnce(t)
  {
  }

  lemma OneMoreSent(s: State, t: State, k: nat)
    requires SentOnce(s) && t.sent == s.sent + [k] && t.config == s.config && t.decisions == s.decisions
    requires t.answers == s.answers
    requires k !in s.sent && k < |s.decisions| && !Refused(s, k)
    ensures SentOnce(t) && GoesOn(s, t)
  {
  }

  lemma AdmitSeparate(s: State, t: State, c: nat, stream: Bytes)
    requires Inv(s) && Admit(s, t, c, stream)
    ensures Separate(t)
  {
    forall k | k in s.replies ensures k < |s.decisions| { assert HonestReply(s, k, s.replies[k]); }
    SeparateStays(s, t, c, t.connections[c]);
  }

  lemma AdmitKeeps(s: State, t: State, c: nat, stream: Bytes)
    requires Inv(s) && Admit(s, t, c, stream)
    ensures Inv(t)
  {
    AdmitCounts(s, t, c, stream);
    SentStays(s, t);
    AllStayHonest(s, t);
    AdmitSeparate(s, t, c, stream);
  }

  /** The part of Separate that a step of connection c has to re-establish is about c alone. */
  lemma SeparateStays(s: State, t: State, c: nat, phase: Phase)
    requires Separate(s) && t.connections == s.connections[c := phase]
    requires t.config == s.config && s.decisions <= t.decisions
    requires forall k | k in t.sent && k !in s.sent :: c in s.connections && Working(s.connections[c]) == Some(k)
    requires forall k | k in s.sent :: k in t.sent
    requires forall k | k in t.replies && k !in s.replies :: c in s.connections && Working(s.connections[c]) == Some(k)
    requires Working(phase).Some? ==>
        var k := Working(phase).value;
        && k < |t.decisions| && k !in t.replies
        && ((c in s.connections && Working(s.connections[c]) == Some(k)) || k >= |s.decisions|)
        && (phase.Decided? ==> k !in t.sent)
        && (phase.Forwarded? ==> k in t.sent && !Refused(t, k))
    ensures Separate(t)
  {
    forall d | d in t.connections && d != c ensures d in s.connections && t.connections[d] == s.connections[d] {
    }
  }

  lemma HonestKept(s: State, t: State, k: nat, bytes: Bytes)
    requires Honest(s) && HonestReply(t, k, bytes) && GoesOn(s, t)
    requires t.replies == s.replies[k := bytes] && forall j | j in t.answers :: j == k || j in s.answers
    ensures Honest(t)
  {
    forall j | j in t.replies && j != k ensures HonestReply(t, j, t.replies[j]) {
      HonestStays(s, t, j, t.replies[j]);
    }
  }

  lemma ReplySeparate(s: State, t: State, c: nat, k: nat, bytes: Bytes)
    requires Separate(s) && c in s.connections && Working(s.connections[c]) == Some(k)
    requires t.connections == s.connections[c := Closed] && t.replies == s.replies[k := bytes]
    requires t.config == s.config && t.decisions == s.decisions && t.sent == s.sent
    ensures Separate(t)
  {
    SeparateStays(s, t, c, Closed);
  }

  lemma AnswerErrorKeeps(s: State, t: State, c: nat)
    requires Inv(s) && AnswerError(s, t, c)
    ensures Inv(t)
  {
    var k, bytes := s.connections[c].k, Print(ErrorMessage(s.config.errorStatus));
    SentStays(s, t);
    HonestKept(s, t, k, bytes);
    ReplySeparate(s, t, c, k, bytes);
  }

  /** Nothing was answered yet to the request in hand, so no answer is overwritten. */
  lemma NothingYet(s: State, c: nat, k: nat, m: Message)
    requires Separate(s) && Honest(s) && c in s.connections && Working(s.connections[c]) == Some(k)
    ensures k !in s.replies && k !in s.answers && Extends(s.answers, s.answers[k := m])
  {
  }

  lemma AnswerHonest(s: State, t: State, k: nat, m: Message, bytes: Bytes)
    requires Honest(s) && k in s.sent && k < |s.decisions| && !Refused(s, k) && k !in s.answers
    requires IsRead(m) && bytes == Reply(s.config.mode, s.decisions[k], m)
    requires t.config == s.config && t.decisions == s.decisions && t.sent == s.sent
    requires t.answers == s.answers[k := m] && t.replies == s.replies[k := bytes]
    ensures Honest(t)
  {
    HonestKept(s, t, k, bytes);
  }

  lemma AnswerKeeps(s: State, t: State, c: nat, stream: Bytes)
    requires Inv(s) && Answer(s, t, c, stream)
    ensures Inv(t)
  {
    var k, m := s.connections[c].k, Read(stream, true).message;
    assert Gives(stream, m);
    NothingYet(s, c, k, m);
    SentStays(s, t);
    AnswerHonest(s, t, k, m, t.replies[k]);
    ReplySeparate(s, t, c, k, t.replies[k]);
  }

  lemma SendOnSeparate(s: State, t: State, c: nat)
    requires Inv(s) && SendOn(s, t, c)
    ensures Separate(t)
  {
    SeparateStays(s, t, c, t.connections[c]);
  }

  lemma SendOnKeeps(s: State, t: State, c: nat)
    requires Inv(s) && SendOn(s, t, c)
    ensures Inv(t)
  {
    OneMoreSent(s, t, s.connections[c].k);
    AllStayHonest(s, t);
    SendOnSeparate(s, t, c);
  }

  lemma OtherStepsKeep(s: State, t: State, c: nat)
    requires Inv(s) && (Connect(s, t, c) || GiveUp(s, t, c))
    ensures Inv(t)
  {
    SentStays(s, t);
    AllStayHonest(s, t);
    assert Separate(t) by { SeparateStays(s, t, c, t.connections[c]); }
  }

  lemma StartsWell(s: State)
    requires Init(s)
    ensures Inv(s)
  {
  }

  lemma StepKeeps(s: State, t: State)
    requires Inv(s) && Step(s, t)
    ensures Inv(t) && t.config == s.config && t.draws == s.draws && s.decisions <= t.decisions
  {
    var c: nat, stream: Bytes :| StepOf(s, t, c, stream);
    if Admit(s, t, c, stream) { AdmitKeeps(s, t, c, stream); }
    else if AnswerError(s, t, c) { AnswerErrorKeeps(s, t, c); }
    else if SendOn(s, t, c) { SendOnKeeps(s, t, c); }
    else if Answer(s, t, c, stream) { AnswerKeeps(s, t, c, stream); }
    else { OtherStepsKeep(s, t, c); }
  }

  /**
    Over every interleaving: the counters count, the k-th decision depends on the configuration
    and k alone, a refused request never reaches upstream, and any other reaches it at most once.
   */
  lemma {:induction false} EveryRunIsCounted(run: seq<State>, i: nat)
    requires IsRun(run) && i < |run|
    ensures Inv(run[i]) && run[i].config == run[0].config && run[i].draws == run[0].draws
  {
    if i == 0 {
      StartsWell(run[0]);
    } else {
      EveryRunIsCounted(run, i - 1);
      StepKeeps(run[i - 1], run[i]);
    }
  }

  /** Two runs of equally configured proxies decide the same, request by request. */
  lemma DecisionsAreReproducible(run: seq<State>, other: seq<State>, i: nat, j: nat, k: nat)
    requires IsRun(run) && IsRun(other) && i < |run| && j < |other|
    requires run[0].config == other[0].config && run[0].draws == other[0].draws
    requires k < |run[i].decisions| && k < |other[j].decisions|
    ensures run[i].decisions[k] == other[j].decisions[k]
  {
    EveryRunIsCounted(run, i);
    EveryRunIsCounted(other, j);
  }

  /** What is drawn is at least 0 and below 1. */
  ghost predicate DrawsFit(draws: Draws) { forall seed: int, n: nat :: 0.0 <= draws(seed, n) < 1.0 }

  /** In every reachable state the k-th request is hit exactly when the k-th number drawn is below the probability. */
  lemma HitsBelowProbability(run: seq<State>, i: nat, k: nat)
    requires IsRun(run) && i < |run| && k < |run[i].decisions|
    ensures run[i].decisions[k] <==>
      run[0].config.mode != NoFault && run[0].draws(run[0].config.seed, k) < run[0].config.probability
  {
    EveryRunIsCounted(run, i);
  }

  predicate AllAre(bs: seq<bool>, b: bool) { forall k | 0 <= k < |bs| :: bs[k] == b }

  lemma {:induction false} CountedTrue(bs: seq<bool>)
    ensures 0 <= CountTrue(bs) <= |bs|
    ensures CountTrue(bs) == |bs| <==> AllAre(bs, true)
    ensures CountTrue(bs) == 0 <==> AllAre(bs, false)
  {
    if bs != [] {
      var init, last := bs[..|bs| - 1], bs[|bs| - 1];
      CountedTrue(init);
      OneMoreIs(init, last, true);
      OneMoreIs(init, last, false);
      assert bs == init + [last];
    }
  }

  lemma OneMoreIs(bs: seq<bool>, last: bool, b: bool)
    ensures AllAre(bs + [last], b) <==> AllAre(bs, b) && last == b
  {
    forall k | 0 <= k < |bs| ensures (bs + [last])[k] == bs[k] {
    }
    assert (bs + [last])[|bs|] == last;
  }

  /**
    In every reachable state: with probability 1 every request is hit, with probability 0 none, and
    none without a mode, whatever the generator gives.
   */
  lemma CertainAndImpossible(run: seq<State>, i: nat)
    requires IsRun(run) && i < |run| && DrawsFit(run[0].draws)
    ensures run[0].config.mode != NoFault && run[0].config.probability >= 1.0 ==>
      run[i].faultsInjected == run[i].requestsSeen
    ensures run[0].config.mode == NoFault || run[0].config.probability <= 0.0 ==> run[i].faultsInjected == 0
  {
    EveryRunIsCounted(run, i);
    forall k | 0 <= k < |run[i].decisions|
      ensures run[i].decisions[k] <==>
        run[0].config.mode != NoFault && run[0].draws(run[0].config.seed, k) < run[0].config.probability
    {
      HitsBelowProbability(run, i, k);
    }
    CountedTrue(run[i].decisions);
  }

  lemma {:induction false} MoreTrue(a: seq<bool>, b: seq<bool>)
    requires |a| <= |b| && forall k | 0 <= k < |a| :: a[k] ==> b[k]
    ensures CountTrue(a) <= CountTrue(b)
    decreases |b|
  {
    if b != [] {
      if |a| < |b| {
        MoreTrue(a, b[..|b| - 1]);
      } else {
        MoreTrue(a[..|a| - 1], b[..|b| - 1]);
      }
    }
  }

  /** With a higher probability and everything else the same, what was hit is hit, and at least as many are. */
  lemma RaisingProbability(run: seq<State>, other: seq<State>, i: nat, j: nat)
    requires IsRun(run) && IsRun(other) && i < |run| && j < |other|
    requires run[0].config.mode == other[0].config.mode && run[0].config.seed == other[0].config.seed
    requires run[0].draws == other[0].draws && run[0].config.probability <= other[0].config.probability
    requires run[i].requestsSeen <= other[j].requestsSeen
    ensures |run[i].decisions| <= |other[j].decisions|
    ensures forall k | 0 <= k < |run[i].decisions| :: run[i].decisions[k] ==> other[j].decisions[k]
    ensures run[i].faultsInjected <= other[j].faultsInjected
  {
    EveryRunIsCounted(run, i);
    EveryRunIsCounted(other, j);
    forall k | 0 <= k < |run[i].decisions| ensures run[i].decisions[k] ==> other[j].decisions[k] {
      HitsBelowProbability(run, i, k);
      HitsBelowProbability(other, j, k);
    }
    MoreTrue(run[i].decisions, other[j].decisions);
  }

  /** Whatever happens later, what was answered and what was replied stay as they are. */
  ghost predicate RecordsStay(s: State, t: State) {
    Extends(s.answers, t.answers) && Extends(s.replies, t.replies)
  }

  /** Everything in the first map but k is in the second, unchanged. */
  ghost predicate ExtendsBut<T(!new)>(a: map<nat, T>, b: map<nat, T>, k: nat) {
    forall j | j in a && j != k :: j in b && b[j] == a[j]
  }

  lemma NewReplyRecords(s: State, t: State, c: nat, k: nat)
    requires Separate(s) && Honest(s) && c in s.connections && Working(s.connections[c]) == Some(k)
    requires ExtendsBut(s.answers, t.answers, k) && ExtendsBut(s.replies, t.replies, k)
    ensures RecordsStay(s, t)
  {
  }

  lemma AnswerRecords(s: State, t: State, c: nat, stream: Bytes)
    requires Separate(s) && Honest(s) && Answer(s, t, c, stream)
    ensures RecordsStay(s, t)
  {
    NewReplyRecords(s, t, c, s.connections[c].k);
  }

  lemma AnswerErrorRecords(s: State, t: State, c: nat)
    requires Separate(s) && Honest(s) && AnswerError(s, t, c)
    ensures RecordsStay(s, t)
  {
    NewReplyRecords(s, t, c, s.connections[c].k);
  }

  lemma AdmitRecords(s: State, t: State, c: nat, stream: Bytes)
    requires Admit(s, t, c, stream)
    ensures RecordsStay(s, t)
  {
  }

  lemma StepRecords(s: State, t: State)
    requires Separate(s) && Honest(s) && Step(s, t)
    ensures RecordsStay(s, t)
  {
    var c: nat, stream: Bytes :| StepOf(s, t, c, stream);
    if Answer(s, t, c, stream) { AnswerRecords(s, t, c, stream); }
    else if AnswerError(s, t, c) { AnswerErrorRecords(s, t, c); }
    else if Admit(s, t, c, stream) { AdmitRecords(s, t, c, stream); }
  }

  /** Over every interleaving: an answer is read once, a reply is written once, and neither is revised. */
  lemma {:induction false} NothingIsRewritten(run: seq<State>, i: nat, j: nat)
    requires IsRun(run) && i <= j < |run|
    ensures RecordsStay(run[i], run[j])
    decreases j - i
  {
    if i < j {
      NothingIsRewritten(run, i, j - 1);
      EveryRunIsCounted(run, j - 1);
      StepRecords(run[j - 1], run[j]);
    }
  }

  /** What reading the reply to request k gives, when upstream answered m. */
  ghost predicate ClientReads(s: State, k: nat, m: Message)
    requires k < |s.decisions| && k in s.replies
  {
    var seen := Read(s.replies[k], true);
    && (!s.decisions[k] || s.config.mode == Latency ==> seen == Got(m, ""))
    && (s.decisions[k] && s.config.mode == CorruptBody ==> seen == Got(Corrupt(m), ""))
    && (s.decisions[k] && s.config.mode == Drop ==> BodyLength(m.headers).Some? && seen == AfterDrop(m))
    && (s.decisions[k] && s.config.mode == Drop && Announced(m) ==> !seen.Got?)
  }

  /**
    What a client can make of a reply in any reachable state, reading it to the end: under an
    injected ERROR_CODE the proxy's own answer; otherwise it depends on what upstream answered to
    this request. Under an injected DROP it is what the cut leaves of that, which is nothing if it
    announced its length; under an injected CORRUPT_BODY that with half the body; without an
    injection just that.
   */
  lemma WhatTheClientReads(run: seq<State>, i: nat, k: nat)
    requires IsRun(run) && i < |run| && k in run[i].replies
    ensures k < |run[i].decisions|
    ensures Refused(run[i], k) ==>
      Read(run[i].replies[k], true) == Got(ErrorMessage(run[i].config.errorStatus), "")
    ensures !Refused(run[i], k) ==>
      && k in run[i].sent && k in run[i].answers && IsRead(run[i].answers[k])
      && ClientReads(run[i], k, run[i].answers[k])
  {
    EveryRunIsCounted(run, i);
    var s := run[i];
    assert HonestReply(s, k, s.replies[k]);
    if Refused(s, k) {
      ErrorResponseReadsBack(s.config.errorStatus, true);
    } else {
      ReplyReads(s, k, s.answers[k]);
    }
  }

  /** What was read can be printed and read again. */
  lemma ReadsAgain(m: Message)
    requires IsRead(m)
    ensures WellFormed(m) && Framed(m, true) && Read(Print(m), true) == Got(m, "")
  {
    var stream: Bytes :| Gives(stream, m);
    ReadIsWellFormed(stream, true);
    ParsePrintParse(stream, true);
  }

  lemma CorruptedReads(m: Message)
    requires IsRead(m)
    ensures Read(Print(Corrupt(m)), true) == Got(Corrupt(m), "")
  {
    ReadsAgain(m);
    if m.body != "" { CorruptedReadsBack(m, true); }
  }

  lemma DroppedReads(m: Message, seen: Reading)
    requires IsRead(m) && seen == Read(Reply(Drop, true, m), true)
    ensures BodyLength(m.headers).Some? && seen == AfterDrop(m) && (Announced(m) ==> !seen.Got?)
  {
    ReadsAgain(m);
    DropDeliversIff(m);
    if Announced(m) { DroppedIsNoMessage(m); }
  }

  lemma ReplyReads(s: State, k: nat, m: Message)
    requires k < |s.decisions| && k in s.replies && s.replies[k] == Reply(s.config.mode, s.decisions[k], m)
    requires IsRead(m)
    ensures ClientReads(s, k, m)
  {
    if s.decisions[k] && s.config.mode == Drop {
      DroppedReads(m, Read(s.replies[k], true));
    } else if s.decisions[k] && s.config.mode == CorruptBody {
      CorruptedReads(m);
    } else {
      ReadsAgain(m);
    }
  }

  /** What became of a request that the proxy did not refuse, as the retry loop sees it. */
  ghost function FateOf(s: State, k: nat): Fate {
    if k !in s.sent then RequestLost
    else if k in s.replies && Read(s.replies[k], true).Got? then Delivered
    else ResponseLost
  }

  /** The answer to this request was dropped. */
  predicate Dropped(s: State, k: nat) { k < |s.decisions| && s.decisions[k] && s.config.mode == Drop }

  /**
    Once a reply is written, the request has reached upstream, and the answer that upstream gave it
    is lost exactly when it was dropped and the cut leaves no message of it: always, if it announced
    its length.
   */
  lemma AnswersAreLostIff(run: seq<State>, i: nat, k: nat)
    requires IsRun(run) && i < |run| && k in run[i].replies && !Refused(run[i], k)
    ensures k in run[i].answers && IsRead(run[i].answers[k]) && BodyLength(run[i].answers[k].headers).Some?
    ensures var m := run[i].answers[k];
      && FateOf(run[i], k) == (if Dropped(run[i], k) && !AfterDrop(m).Got? then ResponseLost else Delivered)
      && (Dropped(run[i], k) && Announced(m) ==> FateOf(run[i], k) == ResponseLost)
  {
    WhatTheClientReads(run, i, k);
    AnnouncedIsLost(run[i].answers[k]);
    EveryRunIsCounted(run, i);
    assert run[i].decisions[k] ==> run[i].config.mode != NoFault;
  }

  lemma AnnouncedIsLost(m: Message)
    requires IsRead(m)
    ensures BodyLength(m.headers).Some? && (Announced(m) ==> !AfterDrop(m).Got?)
  {
    DroppedReads(m, Read(Reply(Drop, true, m), true));
  }

  // ----- what the harness makes of a corrupted body -----

  /** The response as the harness sees it when its body has been cut in half. */
  function Corrupted(r: HttpResponse): HttpResponse
    requires r.text != ""
  {
    r.(text := r.text[..Half(r.text)])
  }

  /**
    Cutting a JSON object or array in half leaves no JSON exactly when the half does not reach its
    closing bracket, so not when it stands in front of as much white space as itself.
   */
  lemma CorruptionIsExact(r: HttpResponse)
    requires Loads(r.text).Some? && IsContainerText(r.text)
    ensures r.text != ""
    ensures Loads(Corrupted(r).text).None? <==> Half(r.text) < ValueEnd(r.text)
  {
    CutContainer(r.text, Half(r.text));
  }

  /**
    A corrupted JSON object or array without white space behind it is reported as no JSON whenever
    a schema or an expectation applies, and never raises for its body.
   */
  lemma CorruptionIsReported(c: Contract, k: TestCase, r: HttpResponse)
    requires Loads(r.text).Some? && IsContainerText(r.text) && !IsJsonSpace(r.text[|r.text| - 1])
    ensures r.text != ""
    ensures !HasValue(Corrupted(r))
    ensures LooksAtBody(c, k, r) ==>
      Violation(BodyNotJson, "response.body") in FirstViolations(c, k, Corrupted(r))
  {
    CorruptionIsExact(r);
    ValueEndsText(r.text);
    ContainersAreLong(r.text);
    assert SchemaFor(c, k, Corrupted(r)) == SchemaFor(c, k, r);
  }

  /** So every object or array that the service prints is reported when the proxy corrupts it. */
  lemma PrintedCorruptionIsReported(st: Style, c: Contract, k: TestCase, r: HttpResponse, j: Json)
    requires Printable(j) && (j.JArr? || j.JObj?) && r.text == Dumps(st, j)
    ensures r.text != "" && !HasValue(Corrupted(r))
    ensures LooksAtBody(c, k, r) ==>
      Violation(BodyNotJson, "response.body") in FirstViolations(c, k, Corrupted(r))
  {
    PrintedReadsBack(st, j);
    PrintedContainer(st, j);
    CorruptionIsReported(c, k, r);
  }

  /** Whatever case looks at a body with this text reports that it is no JSON. */
  ghost predicate AlwaysReported(text: string) {
    forall c: Contract, k: TestCase, r: HttpResponse, vs: seq<Violation>
      | r.text == text && LooksAtBody(c, k, r) && !JudgingRaises(c, k, r) && IsVerdict(vs, c, k, r) ::
      Violation(BodyNotJson, "response.body") in vs
  }

  /** An object or array with nothing behind it. */
  predicate IsCleanContainer(text: string) {
    Loads(text).Some? && IsContainerText(text) && !IsJsonSpace(text[|text| - 1])
  }

  lemma FirstIsInVerdict(v: Violation, vs: seq<Violation>, c: Contract, k: TestCase, r: HttpResponse)
    requires v in FirstViolations(c, k, r) && !JudgingRaises(c, k, r) && IsVerdict(vs, c, k, r)
    ensures v in vs
  {
  }

  lemma HalfIsReported(whole: HttpResponse, c: Contract, k: TestCase, r: HttpResponse, vs: seq<Violation>)
    requires IsCleanContainer(whole.text) && whole.text != "" && r == Corrupted(whole)
    requires LooksAtBody(c, k, r) && !JudgingRaises(c, k, r) && IsVerdict(vs, c, k, r)
    ensures Violation(BodyNotJson, "response.body") in vs
  {
    SameSchema(c, k, whole, r);
    CorruptionIsReported(c, k, whole);
    FirstIsInVerdict(Violation(BodyNotJson, "response.body"), vs, c, k, r);
  }

  lemma SameSchema(c: Contract, k: TestCase, a: HttpResponse, b: HttpResponse)
    requires a.statusCode == b.statusCode
    ensures LooksAtBody(c, k, a) == LooksAtBody(c, k, b)
  {
  }

  lemma CorruptIsHalf(m: Message, r: HttpResponse)
    requires m.body != "" && r.text == Corrupt(m).body
    ensures Corrupted(r.(text := m.body)) == r
  {
  }

  lemma HalfIsAlwaysReported(m: Message)
    requires IsCleanContainer(m.body)
    ensures m.body != "" && AlwaysReported(Corrupt(m).body)
  {
    forall c: Contract, k: TestCase, r: HttpResponse, vs: seq<Violation>
      | r.text == Corrupt(m).body && LooksAtBody(c, k, r) && !JudgingRaises(c, k, r) && IsVerdict(vs, c, k, r)
      ensures Violation(BodyNotJson, "response.body") in vs
    {
      CorruptIsHalf(m, r);
      HalfIsReported(r.(text := m.body), c, k, r, vs);
    }
  }

  /**
    From the wire to the verdict: in every reachable state, the reply to a request that CORRUPT_BODY
    hit reads as what upstream answered to it with half the body, and if that body was an object or
    array with nothing behind it, every case that looks at the half reports it.
   */
  lemma CorruptionIsCaught(run: seq<State>, i: nat, k: nat)
    requires IsRun(run) && i < |run| && k in run[i].replies
    requires k < |run[i].decisions| && run[i].decisions[k] && run[i].config.mode == CorruptBody
    ensures k in run[i].answers && Read(run[i].replies[k], true) == Got(Corrupt(run[i].answers[k]), "")
    ensures IsCleanContainer(run[i].answers[k].body) ==> AlwaysReported(Corrupt(run[i].answers[k]).body)
  {
    WhatTheClientReads(run, i, k);
    var m := run[i].answers[k];
    if IsCleanContainer(m.body) { HalfIsAlwaysReported(m); }
  }

  /** Admitting takes one request off the connection, and what was sent behind it is not part of it. */
  lemma AdmitsOneRequest(s: State, t: State, c: nat, request: Message, behind: Bytes)
    requires Admit(s, t, c, Print(request) + behind) && WellFormed(request) && Framed(request, false)
    ensures t.connections[c] == Decided(|s.decisions|, request)
  {
    ReadsOneMessage(request, behind);
  }

  /** Upstream's answer is recorded whole, even where only the end of the stream ends it. */
  lemma RecordsTheAnswer(s: State, t: State, c: nat, response: Message)
    requires Answer(s, t, c, Print(response)) && WellFormed(response) && Framed(response, true)
    ensures var k := s.connections[c].k; k in t.answers && t.answers[k] == response
  {
    RoundTrip(response, true);
  }

  /** An object or array is at least two characters long. */
  lemma ContainersAreLong(text: string)
    requires Loads(text).Some? && IsContainerText(text)
    ensures |text| >= 2
  {
    var i := Skip(text, 0);
    assert Skip(text, i + 1) >= i + 1;
    assert ParseValue(text, i).at >= i + 2;
  }

  /** A body of one byte is never changed: its first half is all of it. */
  lemma OneByteSurvives(r: HttpResponse)
    requires |r.text| == 1
    ensures Corrupted(r) == r
  {
    assert r.text[..1] == r.text;
  }
}
