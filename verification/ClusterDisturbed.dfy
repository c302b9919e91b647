/**
 How commands that disturb one another make a completed result false; together
 with module ClusterTruth, exactly when results can be relied on.
 */
module ClusterDisturbed {
  import opened Wrappers
  import opened Errors
  import opened Validation
  import opened Options
  import opened Events
  import opened Delivery
  import opened Cluster
  import opened ClusterTruth
  import opened Folds

  // ----- one undisturbed delivery after another -----

  lemma WithSnoc(setup: Setup, commands: set<Command>, moves: seq<Move>, move: Move)
    requires ReachWith(setup, commands, moves).Some?
    requires MovesWith(setup, commands)(ReachWith(setup, commands, moves).value, move).Some?
    ensures ReachWith(setup, commands, moves + [move])
         == Some(Do(setup, ReachWith(setup, commands, moves).value, move))
  {
    hide Enabled, Do;
    RunSnoc(MovesWith(setup, commands), Initial(setup), moves, move);
  }

  /** Every command is queued and may be read. */
  ghost predicate Rested(s: State) {
    && |s.readCounts| == |s.sent|
    && forall id: nat :: id < |s.sent| ==> id in s.queue && s.queue[id].visibleAt <= s.now
  }

  /** One attempt more than in the state before, at this command and in this phase. */
  ghost predicate Underway(setup: Setup, before: State, s: State, id: nat, phase: Phase,
                           store: map<string, Bytes>, results: seq<Posted>) {
    && s.sent == before.sent && |s.readCounts| == |s.sent|
    && (forall other: nat :: other < |s.sent| ==> other in s.queue && s.queue[other].visibleAt <= s.now + Lease(setup.service))
    && |s.attempts| == |before.attempts| + 1
    && (forall k :: 0 <= k < |before.attempts| ==> s.attempts[k].id == before.attempts[k].id)
    && s.attempts[|before.attempts|].id == id && !s.attempts[|before.attempts|].crashed
    && s.attempts[|before.attempts|].phase == phase
    && s.store == store && s.results == results
  }

  lemma ReadStep(setup: Setup, s: State, id: nat)
    requires Rested(s) && id < |s.sent|
    ensures Enabled(setup, s, Read(id))
    ensures Underway(setup, s, Do(setup, s, Read(id)), id, Start(setup.service, s.sent[id]), s.store, s.results)
  {
    hide Start, Next;
  }

  function StoreWith(store: map<string, Bytes>, effect: Effect): map<string, Bytes> {
    if effect.Store? then store[effect.key := effect.content] else store
  }

  function ResultsWith(results: seq<Posted>, k: nat, effect: Effect): seq<Posted> {
    if effect.Enqueue? then results + [Posted(k, effect.outcome)] else results
  }

  lemma ActStep(setup: Setup, before: State, s: State, id: nat, phase: Phase, next: Phase,
                store: map<string, Bytes>, results: seq<Posted>, effect: Effect)
    requires Underway(setup, before, s, id, phase, store, results)
    requires forall readCount: nat :: Next(setup.service, readCount, phase, effect) == Some(next)
    requires match effect
             case Fetch(key, content) => key in store && store[key] == content
             case Store(_, _, landed, _) => landed
             case Enqueue(_, landed, _) => landed
             case _ => false
    ensures var act := Act(|before.attempts|, effect);
            && Enabled(setup, s, act)
            && Underway(setup, before, Do(setup, s, act), id, next, StoreWith(store, effect),
                        ResultsWith(results, |before.attempts|, effect))
  {
    hide Next, Lease;
  }

  lemma RestStep(setup: Setup, before: State, s: State, id: nat, phase: Phase, store: map<string, Bytes>,
                 results: seq<Posted>)
    requires Underway(setup, before, s, id, phase, store, results)
    ensures var t := Do(setup, s, Tick(Lease(setup.service)));
            Rested(t) && Underway(setup, before, t, id, phase, store, results)
  {
  }

  /** The object that a delivery of this work leaves behind. */
  function Made(setup: Setup, spec: Spec, store: map<string, Bytes>): Bytes
    requires spec.sourceKey in store
  {
    setup.service.tools.optimize(store[spec.sourceKey], spec.options)
  }

  lemma WorkSteps(service: Service, job: Job, spec: Spec, source: Bytes)
    requires |source| <= service.tools.MaxInputBytes()
    ensures forall readCount: nat ::
              Next(service, readCount, Working(job, spec), Fetch(spec.sourceKey, source)) == Some(Fetched(job, spec, source))
    ensures forall readCount: nat ::
              Next(service, readCount, Fetched(job, spec, source),
                   Store(spec.outputKey, service.tools.optimize(source, spec.options), true, true))
              == Some(Stored(job, spec, source))
    ensures forall readCount: nat ::
              Next(service, readCount, Stored(job, spec, source),
                   Enqueue(CompletedFrom(service.tools, job, spec, source), true, true)) == Some(Returned(Ok))
  {
  }

  /** A delivery that runs through, and the time for its lease to expire. */
  lemma Deliver(setup: Setup, commands: set<Command>, moves: seq<Move>, id: nat) returns (more: seq<Move>)
    requires ReachWith(setup, commands, moves).Some?
    requires var s := ReachWith(setup, commands, moves).value;
             && Rested(s) && id < |s.sent| && Start(setup.service, s.sent[id]).Working?
             && var spec := Start(setup.service, s.sent[id]).spec;
             spec.sourceKey in s.store && |s.store[spec.sourceKey]| <= setup.service.tools.MaxInputBytes()
    ensures ReachWith(setup, commands, more).Some?
    ensures var s, t := ReachWith(setup, commands, moves).value, ReachWith(setup, commands, more).value;
            var phase := Start(setup.service, s.sent[id]);
            && Rested(t)
            && Underway(setup, s, t, id, Returned(Ok),
                        s.store[phase.spec.outputKey := Made(setup, phase.spec, s.store)],
                        s.results + [Posted(|s.attempts|,
                                            CompletedFrom(setup.service.tools, phase.job, phase.spec, s.store[phase.spec.sourceKey]))])
  {
    var s := ReachWith(setup, commands, moves).value;
    var phase := Start(setup.service, s.sent[id]);
    var job, spec, source, k := phase.job, phase.spec, s.store[phase.spec.sourceKey], |s.attempts|;
    var output := Made(setup, spec, s.store);
    var outcome := CompletedFrom(setup.service.tools, job, spec, source);
    var fetch, upload, publish := Fetch(spec.sourceKey, source), Store(spec.outputKey, output, true, true), Enqueue(outcome, true, true);
    WorkSteps(setup.service, job, spec, source);
    hide ReachWith, Start, Enabled, Do, Underway, Rested, Next, CompletedFrom, Lease;
    ReadStep(setup, s, id);
    WithSnoc(setup, commands, moves, Read(id));
    more := moves + [Read(id)];
    ActStep(setup, s, ReachWith(setup, commands, more).value, id, phase, Fetched(job, spec, source), s.store, s.results, fetch);
    WithSnoc(setup, commands, more, Act(k, fetch));
    more := more + [Act(k, fetch)];
    ActStep(setup, s, ReachWith(setup, commands, more).value, id, Fetched(job, spec, source), Stored(job, spec, source), s.store, s.results, upload);
    WithSnoc(setup, commands, more, Act(k, upload));
    more := more + [Act(k, upload)];
    var store := s.store[spec.outputKey := output];
    ActStep(setup, s, ReachWith(setup, commands, more).value, id, Stored(job, spec, source), Returned(Ok), store, s.results, publish);
    WithSnoc(setup, commands, more, Act(k, publish));
    more := more + [Act(k, publish)];
    RestStep(setup, s, ReachWith(setup, commands, more).value, id, Returned(Ok), store, s.results + [Posted(k, outcome)]);
    CanTick(setup, ReachWith(setup, commands, more).value, Lease(setup.service));
    WithSnoc(setup, commands, more, Tick(Lease(setup.service)));
    more := more + [Tick(Lease(setup.service))];
  }

  lemma CanTick(setup: Setup, s: State, seconds: nat)
    ensures Enabled(setup, s, Tick(seconds))
  {
  }

  // ----- the disturbing runs -----

  /** The service with another optimizer; which commands it accepts does not change. */
  function WithOptimizer(service: Service, optimize: (Bytes, Options) -> Bytes): Service {
    service.(tools := service.tools.(optimize := optimize))
  }

  lemma SameStart(service: Service, optimize: (Bytes, Options) -> Bytes, command: Command)
    ensures Start(WithOptimizer(service, optimize), command) == Start(service, command)
  {
    hide NewMeshJobSpec, ValidateJobId;
  }

  lemma SendStep(setup: Setup, commands: set<Command>, moves: seq<Move>, command: Command)
    requires ReachWith(setup, commands, moves).Some? && command in commands
    requires var s := ReachWith(setup, commands, moves).value; Rested(s) && command !in s.sent
    ensures var more := moves + [Send(command)];
            var s := ReachWith(setup, commands, moves).value;
            && ReachWith(setup, commands, more).Some?
            && var t := ReachWith(setup, commands, more).value;
            Rested(t) && t.sent == s.sent + [command] && t.store == s.store && t.results == s.results && t.attempts == s.attempts
  {
    hide ReachWith, Start, Next;
    WithSnoc(setup, commands, moves, Send(command));
  }

  /** Both commands sent once, in this order; one command twice is one command. */
  lemma SendBoth(setup: Setup, commands: set<Command>, first: Command, second: Command) returns (moves: seq<Move>, id: nat)
    requires first in commands && second in commands
    ensures ReachWith(setup, commands, moves).Some?
    ensures var s := ReachWith(setup, commands, moves).value;
            && Rested(s) && id < |s.sent| && s.sent[0] == first && s.sent[id] == second && (id == 0 <==> first == second)
            && s.store == setup.store && s.results == [] && s.attempts == []
  {
    assert ReachWith(setup, commands, []) == Some(Initial(setup));
    hide ReachWith;
    SendStep(setup, commands, [], first);
    moves := [] + [Send(first)];
    if first == second {
      id := 0;
    } else {
      SendStep(setup, commands, moves, second);
      moves := moves + [Send(second)];
      id := 1;
    }
  }

  const ZERO: Bytes := [0]
  const ONE: Bytes := [1]

  /** An optimizer whose third output, along the way of these two, has another size than the first. */
  function Disturber(writer: Spec, reader: Spec): (Bytes, Options) -> Bytes {
    if writer.sourceKey == reader.outputKey
    then (source, options) => if source == [] then ZERO else if source == ZERO then ONE else []
    else (source, options) => if source == [] then ZERO else []
  }

  /** What reader, writer and reader again make of empty sources. */
  lemma ThreeDeliveries(w: Spec, r: Spec)
    requires w.outputKey == r.sourceKey
    ensures var optimize := Disturber(w, r);
            var s0: map<string, Bytes> := map[w.sourceKey := [], r.sourceKey := []];
            var s1 := s0[r.outputKey := optimize(s0[r.sourceKey], r.options)];
            var s2 := s1[w.outputKey := optimize(s1[w.sourceKey], w.options)];
            var s3 := s2[r.outputKey := optimize(s2[r.sourceKey], r.options)];
            && s0[r.sourceKey] == [] && optimize([], r.options) == ZERO
            && |s1[w.sourceKey]| <= 1 && |s2[r.sourceKey]| <= 1 && s3[r.outputKey] == []
  {
  }

  /** A result that claims a size which its object no longer has. */
  lemma WrongSize(setup: Setup, s: State, i: nat, k: nat, id: nat, spec: Spec, outcome: Outcome)
    requires i < |s.results| && s.results[i] == Posted(k, outcome) && outcome.Completed?
    requires k < |s.attempts| && s.attempts[k].id == id < |s.sent| && SpecOf(setup.service, s.sent[id]) == Some(spec)
    requires spec.outputKey in s.store && |s.store[spec.outputKey]| != outcome.complete.fileSize
    ensures !Truthful(setup, s)
  {
    hide SpecOf;
    assert !TruthfulResult(setup, s, s.results[i]);
  }

  lemma CompletedSize(tools: Tools, job: Job, spec: Spec, source: Bytes)
    ensures var outcome := CompletedFrom(tools, job, spec, source);
            outcome.Completed? && outcome.complete.fileSize == |tools.optimize(source, spec.options)|
  {
  }

  ghost predicate Lies(service: Service, commands: set<Command>, optimize: (Bytes, Options) -> Bytes,
                       store: map<string, Bytes>, moves: seq<Move>) {
    var setup := Setup(WithOptimizer(service, optimize), store);
    ReachWith(setup, commands, moves).Some? && !Truthful(setup, ReachWith(setup, commands, moves).value)
  }

  /** One command writes what the other reads: delivered again, the other makes something else of it. */
  lemma SourceOverwritten(service: Service, commands: set<Command>, writer: Command, reader: Command)
    returns (optimize: (Bytes, Options) -> Bytes, store: map<string, Bytes>, moves: seq<Move>)
    requires writer in commands && reader in commands
    requires Start(service, writer).Working? && Start(service, reader).Working?
    requires Start(service, writer).spec.outputKey == Start(service, reader).spec.sourceKey
    ensures Lies(service, commands, optimize, store, moves)
  {
    var w, r := Start(service, writer).spec, Start(service, reader).spec;
    optimize := Disturber(w, r);
    store := map[w.sourceKey := [], r.sourceKey := []];
    var setup := Setup(WithOptimizer(service, optimize), store);
    SameStart(service, optimize, writer);
    SameStart(service, optimize, reader);
    ThreeDeliveries(w, r);
    hide ReachWith, Start, Rested, CompletedFrom, Lies, Truthful, Disturber;
    var id;
    moves, id := SendBoth(setup, commands, reader, writer);
    moves := Deliver(setup, commands, moves, 0);
    var s1 := ReachWith(setup, commands, moves).value;
    moves := Deliver(setup, commands, moves, id);
    moves := Deliver(setup, commands, moves, 0);
    var s3 := ReachWith(setup, commands, moves).value;
    CompletedSize(setup.service.tools, Start(service, reader).job, r, []);
    assert s3.results[0] == s1.results[0];
    WrongSize(setup, s3, 0, 0, 0, r, s3.results[0].outcome);
    LiesByDefinition(service, commands, optimize, store, moves);
  }

  lemma LiesByDefinition(service: Service, commands: set<Command>, optimize: (Bytes, Options) -> Bytes,
                         store: map<string, Bytes>, moves: seq<Move>)
    requires var setup := Setup(WithOptimizer(service, optimize), store);
             ReachWith(setup, commands, moves).Some? && !Truthful(setup, ReachWith(setup, commands, moves).value)
    ensures Lies(service, commands, optimize, store, moves)
  {
  }

  /** Tells the options apart, or else hands the source through. */
  function Divider(first: Spec, second: Spec): (Bytes, Options) -> Bytes {
    if first.options != second.options then (source, options) => if options == first.options then ZERO else []
    else (source, options) => source
  }

  function DividedStore(first: Spec, second: Spec): map<string, Bytes> {
    map[first.sourceKey := if first.options != second.options then [] else ZERO][second.sourceKey := []]
  }

  lemma TwoDeliveries(a: Spec, b: Spec)
    requires a.outputKey == b.outputKey && a.outputKey != a.sourceKey && a.outputKey != b.sourceKey
    requires a.sourceKey != b.sourceKey || a.options != b.options
    ensures var optimize := Divider(a, b);
            var s0 := DividedStore(a, b);
            && a.sourceKey in s0 && b.sourceKey in s0 && |s0[a.sourceKey]| <= 1
            && optimize(s0[a.sourceKey], a.options) == ZERO
            && var s1 := s0[a.outputKey := ZERO];
            && s1[b.sourceKey] == [] && optimize(s1[b.sourceKey], b.options) == []
  {
  }

  /** Two commands make different objects under one key: the later one makes the earlier result false. */
  lemma OutputShared(service: Service, commands: set<Command>, first: Command, second: Command)
    returns (optimize: (Bytes, Options) -> Bytes, store: map<string, Bytes>, moves: seq<Move>)
    requires first in commands && second in commands
    requires Start(service, first).Working? && Start(service, second).Working?
    requires var a, b := Start(service, first).spec, Start(service, second).spec;
             && a.outputKey == b.outputKey && a.outputKey != a.sourceKey && a.outputKey != b.sourceKey
             && (a.sourceKey != b.sourceKey || a.options != b.options)
    ensures Lies(service, commands, optimize, store, moves)
  {
    var a, b := Start(service, first).spec, Start(service, second).spec;
    optimize, store := Divider(a, b), DividedStore(a, b);
    var setup := Setup(WithOptimizer(service, optimize), store);
    SameStart(service, optimize, first);
    SameStart(service, optimize, second);
    TwoDeliveries(a, b);
    hide ReachWith, Start, Rested, CompletedFrom, Lies, Truthful, Divider, DividedStore;
    var id;
    moves, id := SendBoth(setup, commands, first, second);
    moves := Deliver(setup, commands, moves, 0);
    moves := Deliver(setup, commands, moves, id);
    var s2 := ReachWith(setup, commands, moves).value;
    CompletedSize(setup.service.tools, Start(service, first).job, a, store[a.sourceKey]);
    WrongSize(setup, s2, 0, 0, 0, a, s2.results[0].outcome);
    LiesByDefinition(service, commands, optimize, store, moves);
  }

  // ----- exactly -----

  /** Whatever the optimizer makes, whatever the store holds and however the commands are delivered. */
  ghost predicate AlwaysTruthful(service: Service, commands: set<Command>) {
    forall optimize: (Bytes, Options) -> Bytes, store: map<string, Bytes>, moves: seq<Move> ::
      !Lies(service, commands, optimize, store, moves)
  }

  /**
   Completed results tell the truth across all redeliveries exactly when no
   accepted command writes what an accepted command reads, and commands that
   share an output key share their source and options.
   */
  lemma TruthfulExactly(service: Service, commands: set<Command>)
    ensures AlwaysTruthful(service, commands) <==> Undisturbed(service, commands)
  {
    hide ReachWith, Truthful;
    if Undisturbed(service, commands) {
      forall optimize: (Bytes, Options) -> Bytes, store: map<string, Bytes>, moves: seq<Move>
        ensures !Lies(service, commands, optimize, store, moves) {
        NeverLies(service, commands, optimize, store, moves);
      }
    } else {
      SomeoneLies(service, commands);
    }
  }

  lemma NeverLies(service: Service, commands: set<Command>, optimize: (Bytes, Options) -> Bytes,
                  store: map<string, Bytes>, moves: seq<Move>)
    requires Undisturbed(service, commands)
    ensures !Lies(service, commands, optimize, store, moves)
  {
    var setup := Setup(WithOptimizer(service, optimize), store);
    forall c ensures SpecOf(setup.service, c) == SpecOf(service, c) {
      SameStart(service, optimize, c);
    }
    hide ReachWith, Truthful, SpecOf;
    assert Undisturbed(setup.service, commands);
    if ReachWith(setup, commands, moves).Some? {
      StaysTruthful(setup, commands, moves);
    }
  }

  lemma SomeoneLies(service: Service, commands: set<Command>)
    requires !Undisturbed(service, commands)
    ensures !AlwaysTruthful(service, commands)
  {
    hide Start, Lies;
    var a, b :| a in commands && b in commands && SpecOf(service, a).Some? && SpecOf(service, b).Some?
                && Clash(SpecOf(service, a).value, SpecOf(service, b).value);
    var v, w := Start(service, a).spec, Start(service, b).spec;
    assert Clash(v, w);
    if v.outputKey == w.sourceKey {
      var optimize, store, moves := SourceOverwritten(service, commands, a, b);
    } else if v.outputKey == v.sourceKey {
      var optimize, store, moves := SourceOverwritten(service, commands, a, a);
    } else {
      var optimize, store, moves := OutputShared(service, commands, a, b);
    }
  }
}
