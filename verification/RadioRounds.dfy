/** Which ping a round's pong answers.

    The messages do not say it.  Here the pings of one drone d, and the pongs that answer
    them, carry the number of the round they come from, in proof only: the state underneath
    is that of RadioLoop and takes its steps. */
module RadioRounds {
  import opened Codec
  import opened Handlers
  import opened Options
  import opened RadioLoop

  // A pong that d took in one of its rounds, and the round of the ping it answers.
  datatype Taken = Taken(round: nat, answers: nat)

  // round: how many pings d has put on the air; pings, pongs: the rounds of those under way.
  datatype Rounds = Rounds(state: State, round: nat, pings: multiset<nat>, pongs: multiset<nat>, taken: seq<Taken>)

  // A step, and the round of the ping or pong of d that it removes, if it removes one.
  datatype Move = Move(step: Step, stamp: nat)

  predicate RemovesPing(d: int, step: Step) {
    match step
    case Serve(p, _, _) => p == Sound(Ping(d))
    case Lose(place, p) => place.None? && p == Sound(Ping(d))
    case _ => false
  }

  predicate RemovesPong(d: int, step: Step) {
    match step
    case Hear(e, p) => e == d && p == Sound(Pong(d))
    case Lose(place, p) => place == Some(d) && p == Sound(Pong(d))
    case _ => false
  }

  ghost predicate CanMove(d: int, r: Rounds, move: Move) {
    && Wellformed(r.state) && Enabled(r.state, move.step)
    && (RemovesPing(d, move.step) ==> move.stamp in r.pings)
    && (RemovesPong(d, move.step) ==> move.stamp in r.pongs)
  }

  predicate NewPing(d: int, step: Step) {
    step.Tick? && step.drone == d && step.aired
  }

  predicate NewPong(d: int, step: Step) {
    step.Serve? && step.packet == Sound(Ping(d)) && step.aired
  }

  function Less(stamps: multiset<nat>, removed: bool, stamp: nat): multiset<nat> {
    if removed then stamps - multiset{stamp} else stamps
  }

  function More(stamps: multiset<nat>, added: bool, stamp: nat): multiset<nat> {
    if added then stamps + multiset{stamp} else stamps
  }

  predicate Takes(d: int, s: State, step: Step) {
    step.Hear? && RemovesPong(d, step) && d in s.phases && s.phases[d] == AwaitPong
  }

  function Next(d: int, r: Rounds, move: Move): Rounds
    requires Enabled(r.state, move.step) && r.state.toDrone.Keys == r.state.phases.Keys
  {
    Stamped(d, r, move, Apply(r.state, move.step))
  }

  // The same with the state that the step leads to given.
  function Stamped(d: int, r: Rounds, move: Move, state: State): Rounds {
    var round := if NewPing(d, move.step) then r.round + 1 else r.round;
    Rounds(
      state, round,
      More(Less(r.pings, RemovesPing(d, move.step), move.stamp), NewPing(d, move.step), round),
      More(Less(r.pongs, RemovesPong(d, move.step), move.stamp), NewPong(d, move.step), move.stamp),
      if Takes(d, r.state, move.step) then r.taken + [Taken(r.round, move.stamp)] else r.taken)
  }

  // The stamps are those of the pings and pongs of d that are under way.
  ghost predicate Agrees(d: int, r: Rounds) {
    && Wellformed(r.state) && d in r.state.phases
    && |r.pings| == Count(r.state.toBase, Sound(Ping(d))) && |r.pongs| == Count(r.state.toDrone[d], Sound(Pong(d)))
    && (forall n :: n in r.pings || n in r.pongs ==> n <= r.round)
  }

  // Every state can be stamped, and every step of RadioLoop is the step of some move.
  lemma EveryStateAgrees(d: int, s: State) returns (r: Rounds)
    requires Wellformed(s) && d in s.phases
    ensures r.state == s && Agrees(d, r)
  {
    var pings: multiset<nat> := multiset{}[0 := s.toBase[Sound(Ping(d))]];
    var pongs: multiset<nat> := multiset{}[0 := s.toDrone[d][Sound(Pong(d))]];
    r := Rounds(s, 0, pings, pongs, []);
  }

  lemma EveryStepMoves(d: int, r: Rounds, step: Step) returns (move: Move)
    requires Agrees(d, r) && Enabled(r.state, step)
    ensures move.step == step && CanMove(d, r, move)
  {
    var stamp: nat := 0;
    if RemovesPing(d, step) {
      assert |r.pings| > 0;
      stamp :| stamp in r.pings;
    } else if RemovesPong(d, step) {
      assert |r.pongs| > 0;
      stamp :| stamp in r.pongs;
    }
    move := Move(step, stamp);
  }

  // How a step changes the numbers of d's pings and pongs under way.
  ghost predicate CountsChange(d: int, s: State, step: Step, r: State)
    requires d in s.toDrone && d in r.toDrone
  {
    && Count(r.toBase, Sound(Ping(d)))
         == Count(s.toBase, Sound(Ping(d)))
              - (if RemovesPing(d, step) then 1 else 0) + (if NewPing(d, step) then 1 else 0)
    && Count(r.toDrone[d], Sound(Pong(d)))
         == Count(s.toDrone[d], Sound(Pong(d)))
              - (if RemovesPong(d, step) then 1 else 0) + (if NewPong(d, step) then 1 else 0)
  }

  lemma AirCounts(d: int, s: State, e: int, m: Message)
    requires d in s.toDrone && (m == Ping(e) || m == Confirmation(e))
    ensures var r := Air(s, e, m);
            && Count(r.toBase, Sound(Ping(d))) == Count(s.toBase, Sound(Ping(d))) + (if m == Ping(d) then 1 else 0)
            && Count(r.toDrone[d], Sound(Pong(d))) == Count(s.toDrone[d], Sound(Pong(d)))
  {
    Distinct();
  }

  lemma TickCounts(d: int, s: State, e: int, aired: bool, ok: bool)
    requires Wellformed(s) && d in s.phases && Enabled(s, Tick(e, aired, ok))
    ensures CountsChange(d, s, Tick(e, aired, ok), ApplyTick(s, e, aired, ok))
  {
    AirCounts(d, s.(phases := s.phases[e := if ok then AwaitPong else RadioLoop.Idle]), e, Ping(e));
  }

  lemma ConfirmCounts(d: int, s: State, e: int, aired: bool, ok: bool)
    requires Wellformed(s) && d in s.phases && Enabled(s, Confirm(e, aired, ok))
    ensures CountsChange(d, s, Confirm(e, aired, ok), ApplyConfirm(s, e, aired, ok))
  {
    AirCounts(d, s.(phases := s.phases[e := if ok then AwaitAck else RadioLoop.Idle]), e, Confirmation(e));
    Distinct();
  }

  lemma ServeCounts(d: int, s: State, p: Packet, given: string, aired: bool)
    requires Wellformed(s) && d in s.phases && Enabled(s, Serve(p, given, aired))
    ensures CountsChange(d, s, Serve(p, given, aired), ApplyServe(s, p, given, aired))
  {
    if p.Sound? {
      RequestIds(p.message, given, d);
    }
  }

  // Taking a packet out of one receiver changes d's pongs only if it is one of them.
  lemma ConsumeCounts(d: int, s: State, e: int, p: Packet)
    requires d in s.toDrone && e in s.toDrone && p in s.toDrone[e]
    ensures Count(Consume(s, e, p).toDrone[d], Sound(Pong(d)))
         == Count(s.toDrone[d], Sound(Pong(d))) - (if e == d && p == Sound(Pong(d)) then 1 else 0)
  {
  }

  lemma HearAlters(s: State, e: int, p: Packet)
    requires e in s.phases && e in s.toDrone
    ensures ApplyHear(s, e, p).toBase == s.toBase && ApplyHear(s, e, p).toDrone == Consume(s, e, p).toDrone
  {
  }

  lemma HearCounts(d: int, s: State, e: int, p: Packet)
    requires Wellformed(s) && d in s.phases && Enabled(s, Hear(e, p))
    ensures CountsChange(d, s, Hear(e, p), ApplyHear(s, e, p))
  {
    HearAlters(s, e, p);
    ConsumeCounts(d, s, e, p);
  }

  lemma LoseCounts(d: int, s: State, place: Option<int>, p: Packet)
    requires Wellformed(s) && d in s.phases && Enabled(s, Lose(place, p))
    ensures CountsChange(d, s, Lose(place, p), ApplyLose(s, place, p))
  {
    if place.Some? {
      ConsumeCounts(d, s, place.value, p);
    }
  }

  lemma NoiseCounts(d: int, s: State, place: Option<int>)
    requires Wellformed(s) && d in s.phases && Enabled(s, Noise(place))
    ensures CountsChange(d, s, Noise(place), ApplyNoise(s, place))
  {
  }

  lemma StepCounts(d: int, s: State, step: Step)
    requires Wellformed(s) && d in s.phases && Enabled(s, step) && d in Apply(s, step).toDrone
    ensures CountsChange(d, s, step, Apply(s, step))
  {
    match step
    case Tick(e, aired, ok) => TickCounts(d, s, e, aired, ok);
    case Confirm(e, aired, ok) => ConfirmCounts(d, s, e, aired, ok);
    case Serve(p, given, aired) => ServeCounts(d, s, p, given, aired);
    case Hear(e, p) => HearCounts(d, s, e, p);
    case Lose(place, p) => LoseCounts(d, s, place, p);
    case Noise(place) => NoiseCounts(d, s, place);
    case GiveUp(_) =>
  }

  // The numbers of stamps change as the numbers of pings and pongs do, whatever the state.
  lemma StampsChange(d: int, r: Rounds, move: Move, state: State)
    requires RemovesPing(d, move.step) ==> move.stamp in r.pings
    requires RemovesPong(d, move.step) ==> move.stamp in r.pongs
    ensures var next := Stamped(d, r, move, state);
            && |next.pings| == |r.pings| - (if RemovesPing(d, move.step) then 1 else 0)
                               + (if NewPing(d, move.step) then 1 else 0)
            && |next.pongs| == |r.pongs| - (if RemovesPong(d, move.step) then 1 else 0)
                               + (if NewPong(d, move.step) then 1 else 0)
  {
  }

  lemma StampsBounded(d: int, r: Rounds, move: Move, state: State)
    requires forall n :: n in r.pings || n in r.pongs ==> n <= r.round
    requires RemovesPing(d, move.step) ==> move.stamp in r.pings
    ensures var next := Stamped(d, r, move, state); forall n :: n in next.pings || n in next.pongs ==> n <= next.round
  {
    assert NewPong(d, move.step) ==> RemovesPing(d, move.step);
  }

  lemma MoveKeepsAgreement(d: int, r: Rounds, move: Move)
    requires Agrees(d, r) && CanMove(d, r, move)
    ensures Agrees(d, Next(d, r, move))
  {
    StepKeepsWellformed(r.state, move.step);
    PhasesStay(r.state, move.step);
    var state := Apply(r.state, move.step);
    StepCounts(d, r.state, move.step);
    Agreed(d, r, move, state);
  }

  lemma PhasesStay(s: State, step: Step)
    requires Wellformed(s) && Enabled(s, step)
    ensures Apply(s, step).phases.Keys == s.phases.Keys
  {
  }

  lemma Agreed(d: int, r: Rounds, move: Move, state: State)
    requires Agrees(d, r) && Wellformed(state) && d in state.phases && CountsChange(d, r.state, move.step, state)
    requires RemovesPing(d, move.step) ==> move.stamp in r.pings
    requires RemovesPong(d, move.step) ==> move.stamp in r.pongs
    ensures Agrees(d, Stamped(d, r, move, state))
  {
    StampsChange(d, r, move, state);
    StampsBounded(d, r, move, state);
  }

  ghost predicate Possible(d: int, r: Rounds, moves: seq<Move>)
    decreases |moves|
  {
    moves == [] || (CanMove(d, r, moves[0]) && Possible(d, Next(d, r, moves[0]), moves[1..]))
  }

  ghost function After(d: int, r: Rounds, moves: seq<Move>): Rounds
    requires Possible(d, r, moves)
    decreases |moves|
  {
    if moves == [] then r else After(d, Next(d, r, moves[0]), moves[1..])
  }

  // ----- No pong from before -----

  // All pings and pongs under way, and all pongs taken since n were, are of round n or later.
  ghost predicate Since(r: Rounds, n: nat, k: nat) {
    && (forall m :: m in r.pings || m in r.pongs ==> m >= n)
    && (forall i :: k <= i < |r.taken| ==> n <= r.taken[i].answers <= r.taken[i].round <= r.round)
  }

  lemma MoveKeepsSince(d: int, r: Rounds, move: Move, n: nat, k: nat)
    requires Agrees(d, r) && CanMove(d, r, move) && Since(r, n, k) && n <= r.round + 1 && k <= |r.taken|
    ensures Since(Next(d, r, move), n, k)
  {
  }

  predicate OwnPongs(taken: seq<Taken>, from: nat, round: nat) {
    forall k :: from <= k < |taken| ==> taken[k] == Taken(round, round)
  }

  lemma OwnInRound(r: Rounds, k: nat)
    requires Since(r, r.round, k)
    ensures OwnPongs(r.taken, k, r.round)
  {
  }

  lemma {:induction false} RunKeepsSince(d: int, r: Rounds, moves: seq<Move>, n: nat, k: nat)
    requires Agrees(d, r) && Possible(d, r, moves) && Since(r, n, k) && n <= r.round + 1 && k <= |r.taken|
    ensures After(d, r, moves).round == n ==> OwnPongs(After(d, r, moves).taken, k, n)
    decreases |moves|
  {
    if moves == [] {
      if r.round == n {
        OwnInRound(r, k);
      }
    } else {
      MoveKeepsAgreement(d, r, moves[0]);
      MoveKeepsSince(d, r, moves[0], n, k);
      RunKeepsSince(d, Next(d, r, moves[0]), moves[1..], n, k);
    }
  }

  ghost predicate Leads(d: int, r: Rounds, done: Rounds) {
    exists moves :: Possible(d, r, moves) && After(d, r, moves) == done
  }

  lemma LeadsBy(d: int, r: Rounds, move: Move, done: Rounds)
    requires CanMove(d, r, move) && Leads(d, Next(d, r, move), done)
    ensures Leads(d, r, done)
  {
    var moves :| Possible(d, Next(d, r, move), moves) && After(d, Next(d, r, move), moves) == done;
    assert ([move] + moves)[1..] == moves;
    assert Possible(d, r, [move] + moves);
  }

  lemma LeadsNowhere(d: int, r: Rounds)
    ensures Leads(d, r, r)
  {
    assert Possible(d, r, []) && After(d, r, []) == r;
  }

  // d puts its ping on the air and begins to wait.
  predicate Begins(d: int, step: Step) {
    step.Tick? && step.drone == d && step.aired && step.ok
  }

  // Whatever happens from r on in the round that d is in, a pong that it takes in this round
  // answers the ping of this round.
  ghost predicate AnswersItself(d: int, r: Rounds) {
    forall moves :: Possible(d, r, moves) && After(d, r, moves).round == r.round ==>
      OwnPongs(After(d, r, moves).taken, |r.taken|, r.round)
  }

  // No ping and no pong of d is under way.
  ghost predicate Quiet(d: int, s: State)
    requires d in s.toDrone
  {
    Sound(Ping(d)) !in s.toBase && Sound(Pong(d)) !in s.toDrone[d]
  }

  lemma QuietMeansEmpty(d: int, r: Rounds)
    requires Agrees(d, r)
    ensures Quiet(d, r.state) <==> r.pings == multiset{} && r.pongs == multiset{}
  {
    if Quiet(d, r.state) {
      assert |r.pings| == 0 && |r.pongs| == 0;
    }
  }

  lemma BegunPhase(s: State, step: Step, d: int)
    requires Wellformed(s) && Enabled(s, step) && Begins(d, step)
    ensures Apply(s, step).phases == s.phases[d := AwaitPong]
  {
  }

  lemma BegunStamps(d: int, r: Rounds, move: Move, state: State)
    requires Begins(d, move.step)
    ensures Stamped(d, r, move, state)
         == Rounds(state, r.round + 1, r.pings + multiset{r.round + 1}, r.pongs, r.taken)
  {
  }

  // The state in which d waits for the pong of its new round.
  lemma Started(d: int, r: Rounds, move: Move, next: Rounds)
    requires CanMove(d, r, move) && Begins(d, move.step) && next == Next(d, r, move)
    ensures next.round == r.round + 1 && next.taken == r.taken
    ensures next.pings == r.pings + multiset{r.round + 1} && next.pongs == r.pongs
    ensures next.state.phases == r.state.phases[d := AwaitPong]
  {
    BegunPhase(r.state, move.step, d);
    BegunStamps(d, r, move, Apply(r.state, move.step));
  }

  function Hears(d: int, stamp: nat): Move {
    Move(Hear(d, Sound(Pong(d))), stamp)
  }

  function Serves(d: int, stamp: nat): Move {
    Move(Serve(Sound(Ping(d)), "", true), stamp)
  }

  // A pong of an earlier round can be taken at once.
  lemma TakesOldPong(d: int, r: Rounds, stamp: nat) returns (done: Rounds)
    requires Agrees(d, r) && r.state.phases[d] == AwaitPong && stamp in r.pongs
    ensures CanMove(d, r, Hears(d, stamp)) && done == Next(d, r, Hears(d, stamp))
    ensures done.round == r.round && done.taken == r.taken + [Taken(r.round, stamp)]
  {
    assert |r.pongs| > 0;
    done := Next(d, r, Hears(d, stamp));
  }

  lemma CanServe(d: int, r: Rounds, stamp: nat)
    requires Agrees(d, r) && stamp in r.pings
    ensures CanMove(d, r, Serves(d, stamp))
  {
    assert |r.pings| > 0;
  }

  // A ping of an earlier round can be answered first.
  lemma AnswersOldPing(d: int, r: Rounds, stamp: nat) returns (next: Rounds)
    requires CanMove(d, r, Serves(d, stamp))
    ensures next == Next(d, r, Serves(d, stamp)) && stamp in next.pongs
    ensures next.state.phases == r.state.phases && next.round == r.round && next.taken == r.taken
  {
    next := Next(d, r, Serves(d, stamp));
    assert next.state == ApplyServe(r.state, Sound(Ping(d)), "", true);
    ServedPhases(r.state, Sound(Ping(d)));
  }

  lemma ServedPhases(s: State, p: Packet)
    ensures ApplyServe(s, p, "", true).phases == s.phases
  {
  }

  // Two ways to take the pong of an earlier round.
  lemma StaleWithPong(d: int, r: Rounds, stamp: nat)
    requires Agrees(d, r) && r.state.phases[d] == AwaitPong && stamp in r.pongs && stamp < r.round
    ensures !AnswersItself(d, r)
  {
    var done := TakesOldPong(d, r, stamp);
    LeadsNowhere(d, done);
    LeadsBy(d, r, Hears(d, stamp), done);
    assert done.taken[|r.taken|].answers == stamp;
  }

  lemma StaleWithPing(d: int, r: Rounds, stamp: nat)
    requires Agrees(d, r) && r.state.phases[d] == AwaitPong && stamp in r.pings && stamp < r.round
    ensures !AnswersItself(d, r)
  {
    CanServe(d, r, stamp);
    MoveKeepsAgreement(d, r, Serves(d, stamp));
    var served := AnswersOldPing(d, r, stamp);
    var done := TakesOldPong(d, served, stamp);
    LeadsNowhere(d, done);
    LeadsBy(d, served, Hears(d, stamp), done);
    LeadsBy(d, r, Serves(d, stamp), done);
    assert done.taken[|r.taken|].answers == stamp;
  }

  lemma OwnWhenNoneOlder(d: int, r: Rounds)
    requires Agrees(d, r) && Since(r, r.round, |r.taken|)
    ensures AnswersItself(d, r)
  {
    forall moves | Possible(d, r, moves) && After(d, r, moves).round == r.round
      ensures OwnPongs(After(d, r, moves).taken, |r.taken|, r.round)
    {
      RunKeepsSince(d, r, moves, r.round, |r.taken|);
    }
  }

  // Exactly when a round's pong is sure to answer that round's ping: no ping and no pong of
  // the drone was under way when the round began.
  lemma AnswersItselfExactlyWhen(d: int, r: Rounds, move: Move)
    requires Agrees(d, r) && CanMove(d, r, move) && Begins(d, move.step)
    ensures AnswersItself(d, Next(d, r, move)) <==> Quiet(d, r.state)
  {
    var next := Next(d, r, move);
    MoveKeepsAgreement(d, r, move);
    Started(d, r, move, next);
    QuietMeansEmpty(d, r);
    Decided(d, r, next);
  }

  lemma Decided(d: int, r: Rounds, next: Rounds)
    requires Agrees(d, next) && next.state.phases[d] == AwaitPong && next.round == r.round + 1 && next.taken == r.taken
    requires next.pings == r.pings + multiset{r.round + 1} && next.pongs == r.pongs
    requires forall n :: n in r.pings || n in r.pongs ==> n <= r.round
    ensures AnswersItself(d, next) <==> r.pings == multiset{} && r.pongs == multiset{}
  {
    if r.pongs != multiset{} {
      var stamp :| stamp in r.pongs;
      StaleWithPong(d, next, stamp);
    } else if r.pings != multiset{} {
      var stamp :| stamp in r.pings;
      StaleWithPing(d, next, stamp);
    } else {
      OwnWhenNoneOlder(d, next);
    }
  }
}
