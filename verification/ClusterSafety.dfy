/** What holds in every state that any run reaches. */
module ClusterSafety {
  import opened Wrappers
  import opened Events
  import opened Delivery
  import opened Cluster
  import opened Folds

  // ----- the invariants -----

  /** Every command that was sent is in exactly one place. */
  ghost predicate Placed(s: State) {
    && |s.readCounts| == |s.sent|
    && (forall id: nat :: id < |s.sent| <==> id in s.queue || id in s.deleted || id in s.archived)
    && (forall id :: id in s.queue ==> id !in s.deleted && id !in s.archived)
    && (forall id :: id in s.deleted ==> id !in s.archived)
    && (forall id :: id in s.queue && id < |s.readCounts| ==> s.queue[id].readCount == s.readCounts[id])
  }

  /** An attempt is a delivery of its command, by one of the reads that were counted. */
  ghost predicate AttemptOk(setup: Setup, s: State, a: Attempt) {
    && a.id < |s.sent| && a.id < |s.readCounts|
    && 1 <= a.readCount <= s.readCounts[a.id]
    && After(setup.service, a.readCount, s.sent[a.id], a.effects) == Some(a.phase)
    && MonotoneSamples(a.effects) && (Sample(true) in a.effects ==> a.cancelled)
  }

  ghost predicate AttemptsOk(setup: Setup, s: State) {
    forall k :: 0 <= k < |s.attempts| ==> AttemptOk(setup, s, s.attempts[k])
  }

  /** Later attempts at a command come from later reads. */
  ghost predicate ReadsClimb(s: State) {
    forall j, k :: 0 <= j < k < |s.attempts| && s.attempts[j].id == s.attempts[k].id ==>
      s.attempts[j].readCount < s.attempts[k].readCount
  }

  predicate Landed(a: Attempt, outcome: Outcome) {
    Enqueue(outcome, true, true) in a.effects || Enqueue(outcome, true, false) in a.effects
  }

  predicate Deleted(a: Attempt) {
    Delete(true, true) in a.effects || Delete(true, false) in a.effects
  }

  predicate Archived(a: Attempt) {
    Archive(true, true) in a.effects || Archive(true, false) in a.effects
  }

  /** The results are exactly those that attempts landed. */
  ghost predicate ResultsLanded(s: State) {
    && (forall i :: 0 <= i < |s.results| ==>
          s.results[i].origin < |s.attempts| && Landed(s.attempts[s.results[i].origin], s.results[i].outcome))
    && (forall k, outcome :: 0 <= k < |s.attempts| && Landed(s.attempts[k], outcome) ==> Posted(k, outcome) in s.results)
  }

  /** Rows leave the queue by the hand of an attempt at them. */
  ghost predicate Removed(s: State) {
    && (forall id :: id in s.deleted ==>
          s.deleted[id] < |s.attempts| && s.attempts[s.deleted[id]].id == id && Deleted(s.attempts[s.deleted[id]]))
    && (forall id :: id in s.archived ==>
          s.archived[id] < |s.attempts| && s.attempts[s.archived[id]].id == id && Archived(s.attempts[s.archived[id]]))
  }

  ghost predicate Sound(setup: Setup, s: State) {
    Placed(s) && AttemptsOk(setup, s) && ReadsClimb(s) && ResultsLanded(s) && Removed(s)
  }

  // ----- every step keeps them -----

  lemma TouchedPlaced(s: State, k: nat, effect: Effect)
    requires Placed(s) && k < |s.attempts|
    ensures Placed(Touched(s, k, effect))
  {
  }

  lemma LeasedPlaced(setup: Setup, s: State, id: nat)
    requires Placed(s) && Visible(s, id)
    ensures Placed(Leased(setup, s, id))
  {
  }

  lemma SentPlaced(setup: Setup, s: State, command: Command)
    requires Placed(s)
    ensures Placed(Do(setup, s, Send(command)))
  {
    hide Next, Start, Touched, Leased;
  }

  lemma PlacedKept(setup: Setup, s: State, move: Move)
    requires Placed(s) && Enabled(setup, s, move)
    ensures Placed(Do(setup, s, move))
  {
    match move {
      case Send(command) => SentPlaced(setup, s, command);
      case Read(id) => LeasedPlaced(setup, s, id);
      case LoseRead(id) => LeasedPlaced(setup, s, id);
      case Act(k, effect) => TouchedPlaced(s, k, effect);
      case _ =>
    }
    hide Next, Start, Touched, Leased, Started, Advanced;
  }

  lemma AdvancedOk(setup: Setup, s: State, k: nat, effect: Effect)
    requires CanAct(setup, s, k, effect) && AttemptOk(setup, s, s.attempts[k])
    ensures AttemptOk(setup, s, Advanced(setup, s.attempts[k], effect))
  {
    var a := s.attempts[k];
    AfterSnoc(setup.service, a.readCount, s.sent[a.id], a.effects, effect);
    hide Next, Start, After;
  }

  lemma StartedOk(setup: Setup, s: State, id: nat)
    requires Placed(s) && Visible(s, id)
    ensures AttemptOk(setup, Leased(setup, s, id), Started(setup, s, id))
  {
    hide Start;
  }

  /** Reads only grow, and what was sent stays. */
  ghost predicate Extends(s: State, t: State) {
    && |s.sent| <= |t.sent| && |s.readCounts| <= |t.readCounts|
    && (forall id :: 0 <= id < |s.sent| ==> t.sent[id] == s.sent[id])
    && (forall id :: 0 <= id < |s.readCounts| ==> t.readCounts[id] >= s.readCounts[id])
  }

  lemma TouchedExtends(s: State, k: nat, effect: Effect)
    requires k < |s.attempts|
    ensures var t := Touched(s, k, effect);
            t.sent == s.sent && t.readCounts == s.readCounts && t.attempts == s.attempts && t.now == s.now
  {
  }

  lemma DoExtends(setup: Setup, s: State, move: Move)
    requires Placed(s) && Enabled(setup, s, move)
    ensures Extends(s, Do(setup, s, move))
  {
    if move.Act? {
      TouchedExtends(s, move.k, move.effect);
    }
    hide Next, Start, Touched, Started, Advanced;
  }

  lemma AttemptsKept(setup: Setup, s: State, move: Move)
    requires Placed(s) && AttemptsOk(setup, s) && Enabled(setup, s, move)
    ensures AttemptsOk(setup, Do(setup, s, move))
  {
    var t := Do(setup, s, move);
    DoExtends(setup, s, move);
    if move.Act? {
      AdvancedOk(setup, s, move.k, move.effect);
      TouchedExtends(s, move.k, move.effect);
    }
    if move.Read? {
      StartedOk(setup, s, move.id);
    }
    hide Next, Start, After, MonotoneSamples, Placed, Touched, Started, Advanced;
    forall k | 0 <= k < |t.attempts| ensures AttemptOk(setup, t, t.attempts[k]) {
      if k < |s.attempts| {
        assert AttemptOk(setup, s, s.attempts[k]);
      }
    }
  }

  lemma ClimbKept(setup: Setup, s: State, move: Move)
    requires Placed(s) && AttemptsOk(setup, s) && ReadsClimb(s) && Enabled(setup, s, move)
    ensures ReadsClimb(Do(setup, s, move))
  {
    DoLonger(setup, s, move);
    if move.Read? {
      NewestRead(setup, s, move.id);
    } else {
      NoNewAttempt(setup, s, move);
    }
    hide Do, Enabled, AttemptsOk, Placed;
  }

  lemma NoNewAttempt(setup: Setup, s: State, move: Move)
    requires Enabled(setup, s, move) && !move.Read?
    ensures |Do(setup, s, move).attempts| == |s.attempts|
  {
    if move.Act? {
      TouchedExtends(s, move.k, move.effect);
    }
    hide Next, Touched, Lease;
  }

  lemma NewestRead(setup: Setup, s: State, id: nat)
    requires Placed(s) && AttemptsOk(setup, s) && Visible(s, id)
    ensures var t := Do(setup, s, Read(id));
            && |t.attempts| == |s.attempts| + 1 && t.attempts[|s.attempts|].id == id
            && forall k :: 0 <= k < |s.attempts| && s.attempts[k].id == id ==>
                 s.attempts[k].readCount < t.attempts[|s.attempts|].readCount
  {
    hide Start, Lease, After, MonotoneSamples;
    assert forall k :: 0 <= k < |s.attempts| ==> AttemptOk(setup, s, s.attempts[k]);
  }

  /** The history of attempts only grows. */
  ghost predicate Longer(s: State, t: State) {
    && |s.attempts| <= |t.attempts|
    && forall k :: 0 <= k < |s.attempts| ==>
         && t.attempts[k].id == s.attempts[k].id && t.attempts[k].readCount == s.attempts[k].readCount
         && s.attempts[k].effects <= t.attempts[k].effects
  }

  lemma DoLonger(setup: Setup, s: State, move: Move)
    requires Enabled(setup, s, move)
    ensures Longer(s, Do(setup, s, move))
  {
    if move.Act? {
      TouchedExtends(s, move.k, move.effect);
    }
    hide Next, Start, Touched, Leased;
  }

  lemma SameAfter(a: Attempt, b: Attempt)
    requires a.effects <= b.effects
    ensures Deleted(a) ==> Deleted(b)
    ensures Archived(a) ==> Archived(b)
    ensures forall outcome :: Landed(a, outcome) ==> Landed(b, outcome)
  {
    assert forall e :: e in a.effects ==> e in b.effects;
  }

  lemma LongerKeeps(s: State, t: State)
    requires Longer(s, t)
    ensures forall k :: 0 <= k < |s.attempts| ==>
              && (Deleted(s.attempts[k]) ==> Deleted(t.attempts[k]))
              && (Archived(s.attempts[k]) ==> Archived(t.attempts[k]))
    ensures forall k, outcome :: 0 <= k < |s.attempts| && Landed(s.attempts[k], outcome) ==> Landed(t.attempts[k], outcome)
  {
    hide Deleted, Archived, Landed;
    forall k | 0 <= k < |s.attempts|
      ensures Deleted(s.attempts[k]) ==> Deleted(t.attempts[k])
      ensures Archived(s.attempts[k]) ==> Archived(t.attempts[k])
      ensures forall outcome :: Landed(s.attempts[k], outcome) ==> Landed(t.attempts[k], outcome) {
      SameAfter(s.attempts[k], t.attempts[k]);
    }
  }

  /** Which parts of the state an effect can change. */
  lemma TouchedParts(s: State, k: nat, effect: Effect)
    requires k < |s.attempts|
    ensures var t, id := Touched(s, k, effect), s.attempts[k].id;
            && t.deleted == (if effect.Delete? && effect.landed && id in s.queue then s.deleted[id := k] else s.deleted)
            && t.archived == (if effect.Archive? && effect.landed && id in s.queue then s.archived[id := k] else s.archived)
            && t.retries == s.retries + (if effect.SetVisibility? && s.attempts[k].phase.Failing? then [Delayed(k, effect.delay)] else [])
            && t.results == s.results + (if effect.Enqueue? && effect.landed then [Posted(k, effect.outcome)] else [])
  {
  }

  lemma AdvancedDid(setup: Setup, a: Attempt, effect: Effect)
    requires Next(setup.service, a.readCount, a.phase, effect).Some?
    ensures var b := Advanced(setup, a, effect);
            && (effect.Delete? && effect.landed ==> Deleted(b))
            && (effect.Archive? && effect.landed ==> Archived(b))
            && (forall outcome :: Landed(b, outcome) <==>
                  Landed(a, outcome) || (effect.Enqueue? && effect.landed && effect.outcome == outcome))
  {
    var b := Advanced(setup, a, effect);
    hide Next;
    assert effect in b.effects;
    assert forall e :: e in b.effects <==> e in a.effects || e == effect;
  }

  lemma RemovedKept(setup: Setup, s: State, move: Move)
    requires Removed(s) && Enabled(setup, s, move)
    ensures Removed(Do(setup, s, move))
  {
    var t := Do(setup, s, move);
    DoLonger(setup, s, move);
    LongerKeeps(s, t);
    if move.Act? {
      TouchedExtends(s, move.k, move.effect);
      TouchedParts(s, move.k, move.effect);
      AdvancedDid(setup, s.attempts[move.k], move.effect);
    }
    hide Next, Start, Touched, Deleted, Archived, Landed, Advanced;
  }

  lemma ResultsKept(setup: Setup, s: State, move: Move)
    requires ResultsLanded(s) && Enabled(setup, s, move)
    ensures ResultsLanded(Do(setup, s, move))
  {
    var t := Do(setup, s, move);
    DoLonger(setup, s, move);
    LongerKeeps(s, t);
    if move.Act? {
      TouchedExtends(s, move.k, move.effect);
      TouchedParts(s, move.k, move.effect);
      AdvancedDid(setup, s.attempts[move.k], move.effect);
      ActResults(setup, s, move.k, move.effect);
    } else {
      assert forall k, outcome :: 0 <= k < |t.attempts| && Landed(t.attempts[k], outcome) ==>
               k < |s.attempts| && t.attempts[k].effects == s.attempts[k].effects;
    }
    hide Next, Start, Touched, Advanced;
  }

  lemma ActResults(setup: Setup, s: State, k: nat, effect: Effect)
    requires ResultsLanded(s) && CanAct(setup, s, k, effect)
    ensures ResultsLanded(Do(setup, s, Act(k, effect)))
  {
    var t := Do(setup, s, Act(k, effect));
    DoLonger(setup, s, Act(k, effect));
    LongerKeeps(s, t);
    TouchedParts(s, k, effect);
    AdvancedDid(setup, s.attempts[k], effect);
    hide Next, Start, Touched, Advanced, Landed;
    assert s.results <= t.results;
    assert effect.Enqueue? && effect.landed ==> t.results[|s.results|] == Posted(k, effect.outcome);
  }

  lemma SoundKept(setup: Setup, s: State, move: Move)
    requires Sound(setup, s) && Enabled(setup, s, move)
    ensures Sound(setup, Do(setup, s, move))
  {
    PlacedKept(setup, s, move);
    AttemptsKept(setup, s, move);
    ClimbKept(setup, s, move);
    ResultsKept(setup, s, move);
    RemovedKept(setup, s, move);
    hide Placed, AttemptsOk, ReadsClimb, ResultsLanded, Removed, Do;
  }

  lemma AlwaysSound(setup: Setup, moves: seq<Move>)
    requires Reach(setup, moves).Some?
    ensures Sound(setup, Reach(setup, moves).value)
  {
    hide Sound, Do, Enabled;
    assert Sound(setup, Initial(setup)) by {
      InitiallySound(setup);
    }
    forall s, move | Sound(setup, s) && Moves(setup)(s, move).Some? ensures Sound(setup, Moves(setup)(s, move).value) {
      SoundKept(setup, s, move);
    }
    RunKeeps(Moves(setup), s => Sound(setup, s), Initial(setup), moves);
  }

  lemma InitiallySound(setup: Setup)
    ensures Sound(setup, Initial(setup))
  {
  }
}
