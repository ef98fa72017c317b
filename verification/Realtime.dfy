/** Running a callback under real-time settings, on a thread whose every system call may
    fail, and putting the thread back as it was. */
module Realtime {
  import opened Options
  import Seqs

  datatype Config = Config(enabled: bool, strict: bool, policy: string, priority: int, cpu: int, mlock: bool)

  // An error is the list of the faults joined in it; no fault is no error.
  datatype Fault =
    | BadPolicy | BadPriority | BadCpu | NilCallback
    | ReadScheduler | ReadAffinity | SetAffinity | SetScheduler
    | RestoreScheduler | RestoreAffinity | Mlockall | CallbackFault(text: string)

  type Error = seq<Fault>

  // Scheduling attributes; rest stands for the ones that a request leaves zero.
  datatype Attr = Attr(policy: nat, priority: nat, rest: nat)

  const SCHED_FIFO := 1
  const SCHED_RR := 2

  // How many CPUs a mask has bits for.
  const CPU_SETSIZE := 1024

  datatype Settings = Settings(scheduler: Attr, affinity: set<nat>)

  datatype Call =
    | CallGetScheduler | CallGetAffinity
    | CallSetScheduler(attr: Attr) | CallSetAffinity(mask: set<nat>)
    | CallBack

  // A thread, the CPUs it may use, which of its coming system calls will fail, and the
  // calls it has made.
  datatype World = World(now: Settings, online: set<nat>, failing: seq<bool>, calls: seq<Call>)
  {
    predicate Fails() {
      failing != [] && failing[0]
    }

    function Made(call: Call): World {
      this.(failing := if failing == [] then [] else failing[1..], calls := calls + [call])
    }

    // The kernel keeps the CPUs that exist and refuses a mask without any.
    ghost predicate Possible() {
      now.affinity <= online && now.affinity != {}
    }
  }

  function AfterSetScheduler(w: World, a: Attr): (World, bool) {
    var made := w.Made(CallSetScheduler(a));
    if w.Fails() then (made, false) else (made.(now := w.now.(scheduler := a)), true)
  }

  function AfterSetAffinity(w: World, mask: set<nat>): (World, bool) {
    var made := w.Made(CallSetAffinity(mask));
    if w.Fails() || mask * w.online == {} then (made, false)
    else (made.(now := w.now.(affinity := mask * w.online)), true)
  }

  function Validate(config: Config): Error {
    if config.policy != "fifo" && config.policy != "rr" then [BadPolicy]
    else if config.priority < 1 || config.priority > 99 then [BadPriority]
    else if config.cpu < -1 then [BadCpu]
    else []
  }

  // Exactly what passes, and which of several faults is named.
  lemma ValidExactlyWhen(config: Config)
    ensures Validate(config) == []
            <==> config.policy in {"fifo", "rr"} && 1 <= config.priority <= 99 && config.cpu >= -1
    ensures BadPolicy in Validate(config) <==> config.policy !in {"fifo", "rr"}
    ensures BadPriority in Validate(config) ==> !(1 <= config.priority <= 99)
    ensures BadCpu in Validate(config) ==> config.cpu < -1
    ensures |Validate(config)| <= 1
  {
  }

  // What the code asks the kernel for.
  function Requested(config: Config): Attr {
    Attr(if config.policy == "rr" then SCHED_RR else SCHED_FIFO, config.priority % 0x1_0000_0000, 0)
  }

  // CPUSet.Set ignores a number that the mask has no bit for.
  function Mask(cpu: nat): set<nat> {
    if cpu < CPU_SETSIZE then {cpu} else {}
  }

  // What setupThread remembers for restore.
  datatype ThreadState = ThreadState(
    scheduler: Attr, affinity: set<nat>, restoreScheduler: bool, restoreAffinity: bool)

  const BLANK := ThreadState(Attr(0, 0, 0), {}, false, false)

  datatype Setup = Setup(world: World, state: ThreadState, error: Error)

  function SetupSpec(config: Config, w: World): Setup {
    var read := w.Made(CallGetScheduler);
    if w.Fails() then Setup(read, BLANK, [ReadScheduler])
    else
      var state := BLANK.(scheduler := w.now.scheduler);
      if config.cpu < 0 then SetupScheduler(config, read, state)
      else
        var asked := read.Made(CallGetAffinity);
        if read.Fails() then Setup(asked, state, [ReadAffinity])
        else
          var known := state.(affinity := read.now.affinity);
          var (pinned, ok) := AfterSetAffinity(asked, Mask(config.cpu));
          if !ok then Setup(pinned, known, [SetAffinity])
          else SetupScheduler(config, pinned, known.(restoreAffinity := true))
  }

  function SetupScheduler(config: Config, w: World, state: ThreadState): Setup {
    var (set_, ok) := AfterSetScheduler(w, Requested(config));
    if ok then Setup(set_, state.(restoreScheduler := true), []) else Setup(set_, state, [SetScheduler])
  }

  function RestoreSpec(state: ThreadState, w: World): (World, Error) {
    var (first, ok) := if state.restoreScheduler then AfterSetScheduler(w, state.scheduler) else (w, true);
    var (second, ok') := if state.restoreAffinity then AfterSetAffinity(first, state.affinity) else (first, true);
    var error: Error := if ok then [] else [] + [RestoreScheduler];
    (second, if ok' then error else error + [RestoreAffinity])
  }

  // A whole run: what it leaves, what it returns, what it reports, and under which settings
  // it called the callback, which returns `answer`.
  datatype Ran = Ran(
    world: World, result: Error, reported: seq<Error>, under: seq<Settings>, setup: Error, restore: Error)

  function RunSpec(config: Config, answer: Option<Error>, w: World): Ran {
    if answer.None? then Ran(w, [NilCallback], [], [], [], [])
    else if !config.enabled then Ran(w.(calls := w.calls + [CallBack]), answer.value, [], [w.now], [], [])
    else
      var s := SetupSpec(config, w);
      if s.error == [] then
        var called := s.world.(calls := s.world.calls + [CallBack]);
        var (world, restore) := RestoreSpec(s.state, called);
        Ran(world, answer.value + restore, if restore != [] && !config.strict then [restore] else [],
            [called.now], [], restore)
      else
        var (world, restore) := RestoreSpec(s.state, s.world);
        if config.strict then Ran(world, s.error + restore, [], [], s.error, restore)
        else
          var called := world.(calls := world.calls + [CallBack]);
          Ran(called, answer.value + restore, [s.error] + if restore != [] then [restore] else [],
              [called.now], s.error, restore)
  }

  // ----- What the runs have in common -----

  // Setting up leaves each setting either alone or as requested, and remembers to undo
  // exactly what it did.
  ghost predicate Undoable(config: Config, w: World, s: Setup) {
    && s.world.online == w.online
    && s.world.now.scheduler == (if s.state.restoreScheduler then Requested(config) else w.now.scheduler)
    && s.world.now.affinity == (if s.state.restoreAffinity then {config.cpu} else w.now.affinity)
    && (s.state.restoreScheduler ==> s.state.scheduler == w.now.scheduler)
    && (s.state.restoreAffinity ==> s.state.affinity == w.now.affinity && 0 <= config.cpu < CPU_SETSIZE)
    && (s.error == [] <==> s.state.restoreScheduler) && (s.error == [] && config.cpu >= 0 ==> s.state.restoreAffinity)
  }

  lemma SetupUndoable(config: Config, w: World)
    requires w.Possible()
    ensures Undoable(config, w, SetupSpec(config, w))
  {
    assert config.cpu >= 0 ==> Mask(config.cpu) * w.online == {} || Mask(config.cpu) * w.online == {config.cpu};
  }

  // Where restoring ends up, fault by fault.
  lemma RestoreUndoes(config: Config, w: World, s: Setup, at: World)
    requires w.Possible() && Undoable(config, w, s) && at.now == s.world.now && at.online == w.online
    ensures var (world, error) := RestoreSpec(s.state, at);
            && (RestoreScheduler in error ==> s.state.restoreScheduler)
            && (RestoreAffinity in error ==> s.state.restoreAffinity)
            && world.now.scheduler == (if RestoreScheduler in error then Requested(config) else w.now.scheduler)
            && world.now.affinity == (if RestoreAffinity in error then {config.cpu} else w.now.affinity)
            && (error == [] <==> RestoreScheduler !in error && RestoreAffinity !in error)
  {
    assert w.now.affinity * w.online == w.now.affinity;
  }

  // Every run, whatever fails: each setting ends as it was unless its own restoration
  // failed, and then it is left as requested.
  lemma EndsAsItWas(config: Config, answer: Option<Error>, w: World)
    requires w.Possible()
    ensures var r := RunSpec(config, answer, w);
            && r.world.now.scheduler == (if RestoreScheduler in r.restore then Requested(config) else w.now.scheduler)
            && r.world.now.affinity == (if RestoreAffinity in r.restore then {config.cpu} else w.now.affinity)
            && (r.restore == [] ==> r.world.now == w.now)
  {
    if answer.Some? && config.enabled {
      var s := SetupSpec(config, w);
      SetupUndoable(config, w);
      RestoreUndoes(config, w, s, s.world);
      RestoreUndoes(config, w, s, s.world.(calls := s.world.calls + [CallBack]));
    }
  }

  // Exactly when a thread does not get its settings back: a restoration failed that
  // mattered.
  lemma AlteredExactlyWhen(config: Config, answer: Option<Error>, w: World)
    requires w.Possible()
    ensures var r := RunSpec(config, answer, w);
            r.world.now != w.now <==>
              || (RestoreScheduler in r.restore && Requested(config) != w.now.scheduler)
              || (RestoreAffinity in r.restore && {config.cpu} != w.now.affinity)
  {
    EndsAsItWas(config, answer, w);
  }

  // A strict run calls back only under the requested settings; a lenient one whose set-up
  // failed calls back under the original ones, unless undoing failed too.
  lemma CalledUnder(config: Config, answer: Option<Error>, w: World)
    requires w.Possible() && config.enabled
    ensures var r := RunSpec(config, answer, w);
            forall s :: s in r.under ==>
              if r.setup == [] then
                s == Settings(Requested(config), if config.cpu < 0 then w.now.affinity else {config.cpu})
              else !config.strict && (r.restore == [] ==> s == w.now)
  {
    EndsAsItWas(config, answer, w);
    SetupUndoable(config, w);
  }

  // The callback runs once, or not at all when there is none or a strict set-up failed.
  lemma CalledOnce(config: Config, answer: Option<Error>, w: World)
    requires w.Possible()
    ensures var r := RunSpec(config, answer, w);
            |r.under| == if answer.None? || (config.enabled && config.strict && r.setup != []) then 0 else 1
  {
    if answer.Some? && config.enabled {
      SetupUndoable(config, w);
    }
  }

  // No fault goes unmentioned where faults are mentioned, and a run without an error had
  // none but lenient set-up faults.
  lemma NothingSilent(config: Config, answer: Option<Error>, w: World)
    ensures var r := RunSpec(config, answer, w);
            && (forall f :: f in r.restore ==> f in r.result)
            && (r.setup != [] ==> if config.strict then r.setup <= r.result else r.setup in r.reported)
            && (r.restore != [] && !config.strict ==> r.restore in r.reported)
            && (config.strict ==> r.reported == [])
            && (r.result == [] <==> answer == Some([]) && r.restore == [] && (config.strict ==> r.setup == []))
  {
    var r := RunSpec(config, answer, w);
    if r.reported != [] {
      assert r.reported[0] in r.reported && r.reported[|r.reported| - 1] in r.reported;
    }
  }

  function Flat(errors: seq<Error>): Error {
    if errors == [] then [] else errors[0] + Flat(errors[1..])
  }

  // Every fault of a run, as often as it occurred: in setting up, in restoring, and in the
  // callback if it was called.
  function Faults(r: Ran, answer: Option<Error>): Error {
    r.setup + r.restore + if r.under != [] && answer.Some? then answer.value else []
  }

  // Every one of these faults is in the returned error or in one of the reports.
  ghost predicate Told(faults: Error, result: Error, reports: seq<Error>) {
    multiset(faults) <= multiset(result + Flat(reports))
  }

  // What a run returns, and what it hands to whoever takes reports, if anybody does.
  ghost predicate TellsAll(r: Ran, answer: Option<Error>, reports: bool) {
    Told(Faults(r, answer), r.result, if reports then r.reported else [])
  }

  lemma FlatOne(error: Error)
    ensures Flat([error]) == error
  {
    assert [error][1..] == [] && error + [] == error;
  }

  lemma FlatTwo(one: Error, two: Error)
    ensures Flat([one] + [two]) == one + two
  {
    assert ([one] + [two])[1..] == [two];
    FlatOne(two);
  }

  // What set-up and restoring can come to, and that these are different faults.
  lemma FaultKinds(config: Config, w: World, at: World, state: ThreadState)
    ensures var setup, restore := SetupSpec(config, w).error, RestoreSpec(state, at).1;
            && |setup| <= 1 && (setup == [] || setup[0] in {ReadScheduler, ReadAffinity, SetAffinity, SetScheduler})
            && forall f :: f in restore ==> f == RestoreScheduler || f == RestoreAffinity
  {
  }

  lemma LostSetup(setup: Error, restore: Error, answer: Error)
    requires |setup| == 1 && setup[0] !in restore
    ensures !Told(setup + restore + answer, answer + restore, [])
  {
    assert multiset(setup + restore + answer)[setup[0]] == 1 + multiset(answer)[setup[0]];
    assert Flat([]) == [];
    assert multiset(answer + restore + Flat([]))[setup[0]] == multiset(answer)[setup[0]];
  }

  lemma ToldAfterSetup(restore: Error, answer: Error, reports: seq<Error>)
    ensures Told([] + restore + answer, answer + restore, reports)
  {
    assert [] + restore == restore;
  }

  lemma ToldStrictly(setup: Error, restore: Error)
    ensures Told(setup + restore + [], setup + restore, [])
  {
    assert setup + restore + [] == setup + restore && Flat([]) == [];
    assert setup + restore + Flat([]) == setup + restore;
  }

  lemma ToldLeniently(setup: Error, restore: Error, answer: Error)
    ensures Told(setup + restore + answer, answer + restore, [setup] + if restore != [] then [restore] else [])
  {
    if restore == [] {
      FlatOne(setup);
      assert [setup] + [] == [setup];
    } else {
      FlatTwo(setup, restore);
    }
  }

  // The three ways in which a run with a callback can have gone.
  lemma ToldByWay(strict: bool, reports: bool, setup: Error, restore: Error, answer: Error)
    requires |setup| <= 1 && (setup != [] ==> setup[0] !in restore)
    ensures var both := [setup] + if restore != [] then [restore] else [];
            && (setup != [] ==> Told(setup + restore + [], setup + restore, []))
            && (setup != [] ==> (Told(setup + restore + answer, answer + restore, if reports then both else [])
                <==> reports))
  {
    if setup != [] {
      ToldStrictly(setup, restore);
      if reports {
        ToldLeniently(setup, restore, answer);
      } else {
        LostSetup(setup, restore, answer);
      }
    }
  }

  // The shape of a run with a callback.
  ghost predicate Shaped(r: Ran, strict: bool, answer: Error) {
    && |r.setup| <= 1 && (r.setup != [] ==> r.setup[0] !in r.restore)
    && (r.under == [] <==> strict && r.setup != [])
    && r.result == (if strict && r.setup != [] then r.setup + r.restore else answer + r.restore)
    && (r.setup != [] ==>
          r.reported == if strict then [] else [r.setup] + if r.restore != [] then [r.restore] else [])
  }

  lemma RunShaped(config: Config, answer: Error, w: World)
    ensures Shaped(RunSpec(config, Some(answer), w), config.strict, answer)
  {
    if config.enabled {
      var s := SetupSpec(config, w);
      FaultKinds(config, w, s.world, s.state);
      FaultKinds(config, w, s.world.(calls := s.world.calls + [CallBack]), s.state);
    } else {
      assert answer + [] == answer;
    }
  }

  lemma TellsByShape(r: Ran, strict: bool, answer: Error, reports: bool)
    requires Shaped(r, strict, answer)
    ensures TellsAll(r, Some(answer), reports) <==> strict || reports || r.setup == []
  {
    ToldByWay(strict, reports, r.setup, r.restore, answer);
    ToldAfterSetup(r.restore, answer, if reports then r.reported else []);
  }

  // Exactly when a run tells all its faults to its caller or to whoever takes reports: it is
  // strict, or somebody takes them, or setting up did not fail.
  lemma ToldExactlyWhen(config: Config, answer: Option<Error>, w: World, reports: bool)
    ensures var r := RunSpec(config, answer, w);
            TellsAll(r, answer, reports) <==> config.strict || reports || r.setup == []
  {
    if answer.Some? {
      RunShaped(config, answer.value, w);
      TellsByShape(RunSpec(config, answer, w), config.strict, answer.value, reports);
    }
  }

  lemma ToldInTheEnd(config: Config, answer: Option<Error>, w: World, reports: bool,
                     before: seq<Error>, after: seq<Error>, error: Error)
    requires var r := RunSpec(config, answer, w);
             error == r.result && after == before + if reports then r.reported else []
    ensures var r := RunSpec(config, answer, w);
            Told(Faults(r, answer), error, after[|before|..]) <==> config.strict || reports || r.setup == []
  {
    ToldExactlyWhen(config, answer, w, reports);
    var r := RunSpec(config, answer, w);
    assert after[|before|..] == if reports then r.reported else [];
  }

  // The calls that change settings, in order.
  function Changes(calls: seq<Call>): seq<Call> {
    if calls == [] then []
    else
      var last := calls[|calls| - 1];
      Changes(calls[..|calls| - 1]) + if last.CallSetScheduler? || last.CallSetAffinity? then [last] else []
  }

  lemma ChangesMade(w: World, call: Call)
    ensures Changes(w.Made(call).calls)
         == Changes(w.calls) + if call.CallSetScheduler? || call.CallSetAffinity? then [call] else []
  {
    assert w.Made(call).calls[..|w.calls|] == w.calls;
  }

  lemma SetupChanges(config: Config, w: World)
    requires Changes(w.calls) == [] && SetupSpec(config, w).error == []
    ensures Changes(SetupSpec(config, w).world.calls)
         == (if config.cpu < 0 then [] else [CallSetAffinity(Mask(config.cpu))]) + [CallSetScheduler(Requested(config))]
  {
    var read := w.Made(CallGetScheduler);
    ChangesMade(w, CallGetScheduler);
    if config.cpu < 0 {
      UnpinnedChanges(config, read);
    } else {
      ChangesMade(read, CallGetAffinity);
      PinnedChanges(config, read.Made(CallGetAffinity));
    }
  }

  lemma UnpinnedChanges(config: Config, w: World)
    requires Changes(w.calls) == []
    ensures Changes(AfterSetScheduler(w, Requested(config)).0.calls) == [] + [CallSetScheduler(Requested(config))]
  {
    ChangesMade(w, CallSetScheduler(Requested(config)));
  }

  lemma PinnedChanges(config: Config, w: World)
    requires Changes(w.calls) == [] && config.cpu >= 0
    ensures var pinned := AfterSetAffinity(w, Mask(config.cpu)).0;
            Changes(AfterSetScheduler(pinned, Requested(config)).0.calls)
              == [CallSetAffinity(Mask(config.cpu))] + [CallSetScheduler(Requested(config))]
  {
    ChangesMade(w, CallSetAffinity(Mask(config.cpu)));
    ChangesMade(AfterSetAffinity(w, Mask(config.cpu)).0, CallSetScheduler(Requested(config)));
  }

  // The undoing of a successful set-up goes back over its changes, last change first.
  lemma UndoneInReverse(config: Config, w: World)
    requires w.Possible() && w.calls == [] && SetupSpec(config, w).error == []
    ensures var s := SetupSpec(config, w);
            && Changes(s.world.calls) == (if config.cpu < 0 then [] else [CallSetAffinity(Mask(config.cpu))])
                 + [CallSetScheduler(Requested(config))]
            && Changes(RestoreSpec(s.state, s.world.(calls := [])).0.calls) == [CallSetScheduler(w.now.scheduler)]
                 + if config.cpu < 0 then [] else [CallSetAffinity(w.now.affinity)]
  {
    SetupChanges(config, w);
    SetupUndoable(config, w);
    var s := SetupSpec(config, w);
    RestoreChanges(s.state, s.world.(calls := []));
  }

  lemma RestoreChanges(state: ThreadState, w: World)
    requires w.calls == [] && state.restoreScheduler
    ensures Changes(RestoreSpec(state, w).0.calls) == [CallSetScheduler(state.scheduler)]
              + if state.restoreAffinity then [CallSetAffinity(state.affinity)] else []
  {
    var first := AfterSetScheduler(w, state.scheduler).0;
    assert Changes(first.calls) == [CallSetScheduler(state.scheduler)] by {
      assert Changes(w.calls) == [];
      ChangesMade(w, CallSetScheduler(state.scheduler));
    }
    if state.restoreAffinity {
      ChangesMade(first, CallSetAffinity(state.affinity));
    } else {
      assert RestoreSpec(state, w).0 == first;
    }
  }

  // None of the next n system calls is one that will fail.
  ghost predicate NoneFails(w: World, n: nat) {
    forall k :: 0 <= k < n && k < |w.failing| ==> !w.failing[k]
  }

  // The CPU asked for, if any, is one that the mask can name and the machine has.
  predicate CpuThere(config: Config, w: World) {
    config.cpu < 0 || (config.cpu < 1024 && config.cpu in w.online)
  }

  // How many system calls a set-up makes when all goes well.
  function SetupCalls(config: Config): nat {
    if config.cpu < 0 then 2 else 4
  }

  lemma NoneFailsNext(w: World, call: Call, n: nat)
    ensures NoneFails(w, n + 1) <==> !w.Fails() && NoneFails(w.Made(call), n)
  {
    var f, g := w.failing, w.Made(call).failing;
    if f != [] && !f[0] {
      if NoneFails(w.Made(call), n) {
        forall k | 0 <= k < n + 1 && k < |f| ensures !f[k] {
          if k > 0 {
            assert f[k] == g[k - 1];
          }
        }
      }
    }
  }

  // Exactly when a set-up succeeds.
  lemma SetupExactlyWhen(config: Config, w: World)
    ensures SetupSpec(config, w).error == [] <==> NoneFails(w, SetupCalls(config)) && CpuThere(config, w)
  {
    var read := w.Made(CallGetScheduler);
    NoneFailsNext(w, CallGetScheduler, SetupCalls(config) - 1);
    if config.cpu < 0 {
      LastCall(config, read);
    } else {
      var asked := read.Made(CallGetAffinity);
      NoneFailsNext(read, CallGetAffinity, 2);
      NoneFailsNext(asked, CallSetAffinity(Mask(config.cpu)), 1);
      assert CpuThere(config, w) <==> Mask(config.cpu) * w.online != {} by {
        assert config.cpu in Mask(config.cpu) * w.online <==> CpuThere(config, w);
      }
      LastCall(config, AfterSetAffinity(asked, Mask(config.cpu)).0);
    }
  }

  // The system calls of a set-up, in order, by the fault that their failing is.
  function SetupFaults(config: Config): seq<Fault> {
    [ReadScheduler] + (if config.cpu < 0 then [] else [ReadAffinity, SetAffinity]) + [SetScheduler]
  }

  // A set-up that fails names the first of its calls that failed; a CPU that is not there
  // fails to be set.
  lemma SetupFaultIs(config: Config, w: World, k: nat)
    requires k < SetupCalls(config) && NoneFails(w, k) && k < |w.failing| && w.failing[k]
    ensures CpuThere(config, w) || k <= 2 ==> SetupSpec(config, w).error == [SetupFaults(config)[k]]
    ensures !CpuThere(config, w) && k > 2 ==> SetupSpec(config, w).error == [SetAffinity]
  {
    var read := w.Made(CallGetScheduler);
    if k > 0 {
      FailsLater(w, CallGetScheduler, k);
      if config.cpu < 0 {
        assert SetupSpec(config, w).error == SetupScheduler(config, read, BLANK).error;
      } else if k > 1 {
        FailsLater(read, CallGetAffinity, k - 1);
        PinningFails(config, read.Made(CallGetAffinity), k - 2);
      }
    }
  }

  lemma FailsLater(w: World, call: Call, k: nat)
    requires 0 < k < |w.failing| && NoneFails(w, k) && w.failing[k]
    ensures var next := w.Made(call);
            !w.Fails() && k - 1 < |next.failing| && NoneFails(next, k - 1) && next.failing[k - 1]
  {
    assert !w.failing[0];
  }

  lemma PinningFails(config: Config, w: World, k: nat)
    requires config.cpu >= 0 && k < 2 && k < |w.failing| && NoneFails(w, k) && w.failing[k]
    ensures var (pinned, ok) := AfterSetAffinity(w, Mask(config.cpu));
            && (k == 0 ==> !ok) && (k == 1 ==> (ok <==> CpuThere(config, w)))
            && (k == 1 ==> !AfterSetScheduler(pinned, Requested(config)).1)
  {
    assert config.cpu in Mask(config.cpu) * w.online <==> CpuThere(config, w);
    assert k == 1 ==> !w.failing[0];
  }

  // When real time is not enabled, or there is nothing to call, no system call is made.
  lemma Untouched(config: Config, answer: Option<Error>, w: World)
    ensures answer.None? ==> RunSpec(config, answer, w) == Ran(w, [NilCallback], [], [], [], [])
    ensures answer.Some? && !config.enabled ==>
              var r := RunSpec(config, answer, w);
              && r.world.now == w.now && r.world.failing == w.failing && r.world.calls == w.calls + [CallBack]
              && r.result == answer.value && r.reported == [] && r.under == [w.now]
  {
  }

  lemma LastCall(config: Config, w: World)
    ensures AfterSetScheduler(w, Requested(config)).1 <==> NoneFails(w, 1)
    ensures forall now :: NoneFails(w.(now := now), 1) <==> NoneFails(w, 1)
  {
  }

  // Exactly when a validated configuration is applied: no system call fails, and the CPU is
  // there.  It is then applied as it is written, and the callback runs under it.
  lemma ValidatedMeansApplied(config: Config, answer: Option<Error>, w: World)
    requires Validate(config) == [] && w.Possible() && config.enabled && answer.Some?
    ensures config.policy == "fifo" || config.policy == "rr"
    ensures var r := RunSpec(config, answer, w);
            var requested := Attr(if config.policy == "fifo" then 1 else 2, config.priority, 0);
            var applied := Settings(requested, if config.cpu < 0 then w.now.affinity else {config.cpu});
            && (r.setup == [] <==> NoneFails(w, SetupCalls(config)) && CpuThere(config, w))
            && (r.setup == [] ==> r.under == [applied])
            && (r.setup != [] && config.strict ==> r.under == [])
  {
    SetupExactlyWhen(config, w);
    SetupUndoable(config, w);
  }

  // Validation does not know the machine: CPU 4 of a machine with CPUs 0 to 3 passes, and
  // its set-up fails although every system call is willing.
  lemma AbsentCpu(config: Config, w: World)
    requires Validate(config) == [] && config.cpu == 4 && w.online == {0, 1, 2, 3} && w.failing == []
    ensures SetupSpec(config, w).error == [SetAffinity]
  {
    assert Mask(4) * w.online == {};
  }

  // And a fault that nobody hears of: the same CPU, a lenient run, and no reporter.
  lemma FaultUntold(config: Config, answer: Error, w: World)
    requires Validate(config) == [] && config.enabled && !config.strict
    requires config.cpu == 4 && w.online == {0, 1, 2, 3} && w.failing == []
    ensures var r := RunSpec(config, Some(answer), w);
            && SetAffinity in r.setup
            && (SetAffinity !in answer ==> SetAffinity !in r.result)
            && !TellsAll(r, Some(answer), false)
  {
    AbsentCpu(config, w);
    ToldExactlyWhen(config, Some(answer), w, false);
    var s := SetupSpec(config, w);
    FaultKinds(config, w, s.world, s.state);
  }

  // ----- The code -----

  class System {
    var w: World
    var mlockFails: bool
    var mlocks: nat  // calls of mlockall

    constructor (w: World, mlockFails: bool)
      ensures this.w == w && this.mlockFails == mlockFails && mlocks == 0
    {
      this.w, this.mlockFails, mlocks := w, mlockFails, 0;
    }

    method GetScheduler() returns (attr: Option<Attr>)
      modifies `w
      ensures w == old(w).Made(CallGetScheduler)
      ensures attr == if old(w).Fails() then None else Some(old(w).now.scheduler)
    {
      attr := if w.Fails() then None else Some(w.now.scheduler);
      w := w.Made(CallGetScheduler);
    }

    method GetAffinity() returns (mask: Option<set<nat>>)
      modifies `w
      ensures w == old(w).Made(CallGetAffinity)
      ensures mask == if old(w).Fails() then None else Some(old(w).now.affinity)
    {
      mask := if w.Fails() then None else Some(w.now.affinity);
      w := w.Made(CallGetAffinity);
    }

    method SetScheduler(attr: Attr) returns (ok: bool)
      modifies `w
      ensures (w, ok) == AfterSetScheduler(old(w), attr)
    {
      var (next, done) := AfterSetScheduler(w, attr);
      w, ok := next, done;
    }

    method SetAffinity(mask: set<nat>) returns (ok: bool)
      modifies `w
      ensures (w, ok) == AfterSetAffinity(old(w), mask)
    {
      var (next, done) := AfterSetAffinity(w, mask);
      w, ok := next, done;
    }

    method Mlockall() returns (ok: bool)
      modifies `mlocks
      ensures mlocks == old(mlocks) + 1 && ok == !mlockFails
    {
      mlocks := mlocks + 1;
      ok := !mlockFails;
    }
  }

  // The callback: what it answers, and the settings it has been called under.
  class Callback {
    const answer: Error
    var under: seq<Settings>

    constructor (answer: Error)
      ensures this.answer == answer && under == []
    {
      this.answer, under := answer, [];
    }

    method Call(system: System) returns (error: Error)
      modifies `under, system`w
      ensures error == answer && under == old(under) + [old(system.w).now]
      ensures system.w == old(system.w).(calls := old(system.w).calls + [CallBack])
    {
      under := under + [system.w.now];
      system.w := system.w.(calls := system.w.calls + [CallBack]);
      error := answer;
    }
  }

  method Restore(state: ThreadState, system: System) returns (error: Error)
    modifies system`w
    ensures (system.w, error) == RestoreSpec(state, old(system.w))
  {
    error := [];
    if state.restoreScheduler {
      var ok := system.SetScheduler(state.scheduler);
      if !ok {
        error := error + [RestoreScheduler];
      }
    }
    if state.restoreAffinity {
      var ok := system.SetAffinity(state.affinity);
      if !ok {
        error := error + [RestoreAffinity];
      }
    }
  }

  class Runtime {
    const config: Config
    const system: System
    const reports: bool  // whether there is anybody to report to
    var reported: seq<Error>
    var prepared: bool
    var prepareErr: Error

    ghost predicate Valid()
      reads this, system
    {
      && (prepared ==> prepareErr == if config.strict && system.mlockFails then [Mlockall] else [])
      && system.mlocks == if prepared then 1 else 0
    }

    constructor (config: Config, system: System, reports: bool)
      requires system.mlocks == 0
      ensures Valid() && this.config == config && this.system == system && this.reports == reports
      ensures reported == [] && !prepared
    {
      this.config, this.system, this.reports := config, system, reports;
      reported, prepared, prepareErr := [], false, [];
    }

    method ReportError(error: Error)
      modifies `reported
      ensures reported == if reports then old(reported) + [error] else old(reported)
    {
      if reports {
        reported := reported + [error];
      }
    }

    // However often it is called, memory is locked once, a lenient failure is reported
    // once, and the answer is always the same.
    method Prepare() returns (error: Error)
      requires Valid()
      modifies this, system`mlocks
      ensures Valid()
      ensures error == if config.enabled && config.mlock && config.strict && system.mlockFails then [Mlockall] else []
      ensures prepared == (old(prepared) || (config.enabled && config.mlock))
      ensures reported == old(reported)
                + if reports && prepared && !old(prepared) && system.mlockFails && !config.strict
                   then [[Mlockall]] else []
    {
      assert reported + [] == reported;
      if !config.enabled || !config.mlock {
        return [];
      }
      if !prepared {
        var ok := system.Mlockall();
        prepared, prepareErr := true, [];
        if !ok {
          prepareErr := [Mlockall];
          if !config.strict {
            ReportError(prepareErr);
            prepareErr := [];
          }
        }
      }
      return prepareErr;
    }

    method SetupThread() returns (state: ThreadState, error: Error)
      modifies system`w
      ensures Setup(system.w, state, error) == SetupSpec(config, old(system.w))
    {
      state := BLANK;
      var original := system.GetScheduler();
      if original.None? {
        return state, [ReadScheduler];
      }
      state := state.(scheduler := original.value);
      if config.cpu >= 0 {
        var affinity := system.GetAffinity();
        if affinity.None? {
          return state, [ReadAffinity];
        }
        state := state.(affinity := affinity.value);
        var pinned := system.SetAffinity(Mask(config.cpu));
        if !pinned {
          return state, [SetAffinity];
        }
        state := state.(restoreAffinity := true);
      }
      var ok := system.SetScheduler(Requested(config));
      if !ok {
        return state, [SetScheduler];
      }
      return state.(restoreScheduler := true), [];
    }

    // A run of a callback; what it returns and reports tells all faults of the run exactly
    // when it is strict, somebody takes reports, or setting up did not fail.
    method Run(callback: Callback?) returns (error: Error)
      requires Valid() && (callback != null ==> callback.under == [])
      modifies `reported, system`w, callback
      ensures Valid() && old(reported) <= reported
      ensures var answer := if callback == null then None else Some(callback.answer);
              var r := RunSpec(config, answer, old(system.w));
              && system.w == r.world && error == r.result
              && reported == old(reported) + (if reports then r.reported else [])
              && (callback != null ==> callback.under == r.under)
              && (Told(Faults(r, answer), error, reported[|old(reported)|..])
                  <==> config.strict || reports || r.setup == [])
    {
      ghost var answer := if callback == null then None else Some(callback.answer);
      ghost var r := RunSpec(config, answer, system.w);
      ghost var w := system.w;
      if callback == null {
        error := [NilCallback];
      } else if !config.enabled {
        error := callback.Call(system);
      } else {
        error := RunOnThread(callback);
      }
      assert reported == old(reported) + (if reports then r.reported else []);
      ToldInTheEnd(config, answer, w, reports, old(reported), reported, error);
    }

    // The rest of it, on a thread of its own.
    method RunOnThread(callback: Callback) returns (error: Error)
      requires Valid() && callback.under == [] && config.enabled
      modifies `reported, system`w, callback
      ensures Valid()
      ensures var r := RunSpec(config, Some(callback.answer), old(system.w));
              && system.w == r.world && error == r.result && callback.under == r.under
              && reported == old(reported) + if reports then r.reported else []
    {
      assert reported + [] == reported;
      var state, setupErr := SetupThread();
      if setupErr != [] {
        var restoreErr := Restore(state, system);
        if config.strict {
          return setupErr + restoreErr;
        }
        ReportError(setupErr);
        Seqs.Assoc(old(reported), [setupErr], [restoreErr]);
        Seqs.Assoc(old(reported), [setupErr], []);
        if restoreErr != [] {
          ReportError(restoreErr);
        }
        var callbackErr := callback.Call(system);
        return callbackErr + restoreErr;
      }
      var callbackErr := callback.Call(system);
      var restoreErr := Restore(state, system);
      if restoreErr != [] && !config.strict {
        ReportError(restoreErr);
      }
      return callbackErr + restoreErr;
    }
  }
}
