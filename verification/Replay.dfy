/** Replaying Phase 1 and Phase 2 contributions: exact folds over an unknown transition check. */
module Replay {
  import opened Common
  import opened Layout
  import opened Preflight

  const CHALLENGE_SIZE := 32

  /** What a loader returns for one ordinal. */
  datatype Loaded<S> = LoadFailed | Nil | Archived(state: S)

  type Loader<S> = Option<nat -> Loaded<S>>

  datatype ReplayFault =
    | BadInputs | NegativeCount | NoLoader | NoGenesis | GenesisShape | BindingMismatch
    | NotLoaded(at: nat) | NilContribution(at: nat) | BadChallenge(at: nat)
    | NotCloned(at: nat) | WrongShape(at: nat) | Refused(at: nat)

  // ----- Phase 2 states and shapes -----

  /** The slice lengths of a Phase 2 object, its challenge, and everything else it holds. */
  datatype Phase2State = Phase2State(
    sigma: nat, sigmaCKK: seq<nat>, sigmas: nat, pkk: nat, z: nat, challenge: seq<Byte>, content: string)

  predicate Representable(lengths: seq<nat>) {
    forall i | 0 <= i < |lengths| :: lengths[i] < 0x1_0000_0000
  }

  function Narrow(lengths: seq<nat>): (narrowed: seq<U32>)
    requires Representable(lengths)
    ensures |narrowed| == |lengths|
  {
    seq(|lengths|, i requires 0 <= i < |lengths| => lengths[i])
  }

  predicate Derivable(p: Phase2State) {
    && p.sigma <= MAX_PHASE2_COMMITMENTS
    && |p.sigmaCKK| == p.sigma == p.sigmas
    && p.pkk < 0x1_0000_0000 && p.z < 0x1_0000_0000 && |p.challenge| < 0x100
    && Representable(p.sigmaCKK)
  }

  function LengthsOf(p: Phase2State): Phase2Shape
    requires Derivable(p)
  {
    Phase2Shape(p.sigma, p.pkk, p.z, Narrow(p.sigmaCKK), |p.challenge|)
  }

  /** The serialization shape of a state, if its lengths are consistent, representable and within the size limit. */
  function ShapeOf(p: Phase2State): Option<Phase2Shape> {
    if Derivable(p) && Phase2Size(LengthsOf(p)).Ok? then Some(LengthsOf(p)) else None
  }

  method DerivePhase2Shape(p: Phase2State) returns (shape: Option<Phase2Shape>)
    ensures shape == ShapeOf(p)
    ensures shape.Some? <==>
              && p.sigma == p.sigmas == |p.sigmaCKK| <= 255 && |p.challenge| < 0x100
              && p.pkk < 0x1_0000_0000 && p.z < 0x1_0000_0000
              && (forall i | 0 <= i < |p.sigmaCKK| :: p.sigmaCKK[i] < 0x1_0000_0000)
              && Phase2Size(Phase2Shape(p.sigma, p.pkk, p.z, Narrow(p.sigmaCKK), |p.challenge|)).Ok?
    ensures shape.Some? ==>
              var s := shape.value;
              && s.commitments == p.sigma && s.pkk == p.pkk && s.z == p.z && s.sigmaCKK == p.sigmaCKK
              && s.challengeLength == |p.challenge|
  {
    if p.sigma > MAX_PHASE2_COMMITMENTS || |p.sigmaCKK| != p.sigma || p.sigmas != p.sigma {
      return None;
    }
    if p.pkk >= 0x1_0000_0000 || p.z >= 0x1_0000_0000 || |p.challenge| >= 0x100 {
      return None;
    }
    var lengths: seq<U32> := [];
    for i := 0 to |p.sigmaCKK|
      invariant Representable(p.sigmaCKK[..i]) && lengths == p.sigmaCKK[..i]
    {
      if p.sigmaCKK[i] >= 0x1_0000_0000 {
        return None;
      }
      lengths := lengths + [p.sigmaCKK[i]];
    }
    assert p.sigmaCKK[..|p.sigmaCKK|] == p.sigmaCKK;
    assert lengths == Narrow(p.sigmaCKK);
    var candidate := Phase2Shape(p.sigma, p.pkk, p.z, lengths, |p.challenge|);
    var size := ExpectedPhase2Size(candidate);
    shape := if size.Ok? then Some(candidate) else None;
  }

  /** Equal in everything but the challenge length. */
  predicate SameStructure(a: Phase2Shape, b: Phase2Shape) {
    a.(challengeLength := b.challengeLength) == b
  }

  predicate HasStructure(expected: Phase2Shape, actual: Phase2State) {
    var got := ShapeOf(actual);
    got.Some? && SameStructure(got.value, expected)
  }

  // ----- Phase 2 replay -----

  /** Foreign operations. A None is a panic or an error of the library. */
  datatype Engine2 = Engine2(
    inputsValid: bool,
    binding: Phase2Shape,
    initialize: Option<Phase2State>,
    clone: Phase2State -> Option<Phase2State>,
    contribute: Phase2State -> Option<Phase2State>,
    verify: (Phase2State, Phase2State) -> bool)

  /** verifyPhase2Transition. */
  predicate Transition2(e: Engine2, previous: Phase2State, next: Phase2State) {
    && |next.challenge| == CHALLENGE_SIZE
    && ShapeOf(previous).Some? && HasStructure(ShapeOf(previous).value, next)
    && e.verify(previous, next)
  }

  function Genesis2(e: Engine2): Result<Phase2State, ReplayFault> {
    match e.initialize
    case None => Err(NoGenesis)
    case Some(genesis) =>
      if ShapeOf(genesis).None? then Err(GenesisShape)
      else if ShapeOf(genesis).value != e.binding then Err(BindingMismatch)
      else Ok(genesis)
  }

  /** One archived contribution applied to the head. */
  function Step2(e: Engine2, head: Phase2State, loaded: Loaded<Phase2State>, at: nat): Result<Phase2State, ReplayFault> {
    match loaded
    case LoadFailed => Err(NotLoaded(at))
    case Nil => Err(NilContribution(at))
    case Archived(archived) =>
      if |archived.challenge| != CHALLENGE_SIZE then Err(BadChallenge(at))
      else
        match e.clone(archived)
        case None => Err(NotCloned(at))
        case Some(next) =>
          if !HasStructure(e.binding, next) then Err(WrongShape(at))
          else if !Transition2(e, head, next) then Err(Refused(at))
          else Ok(next)
  }

  /** The fold over the first `count` contributions. */
  function Fold2(e: Engine2, load: nat -> Loaded<Phase2State>, count: nat): Result<Phase2State, ReplayFault> {
    if count == 0 then Genesis2(e)
    else
      var head :- Fold2(e, load, count - 1);
      Step2(e, head, load(count - 1), count - 1)
  }

  function Admission<S>(inputsValid: bool, count: int, load: Loader<S>): Option<ReplayFault> {
    if !inputsValid then Some(BadInputs)
    else if count < 0 then Some(NegativeCount)
    else if count > 0 && load.None? then Some(NoLoader)
    else None
  }

  function LoaderOf<S>(load: Loader<S>): nat -> Loaded<S> {
    if load.Some? then load.value else _ => LoadFailed
  }

  /** One round of the replay loop. */
  method Admit2(e: Engine2, initialShape: Phase2Shape, previous: Phase2State, loaded: Loaded<Phase2State>, i: nat)
    returns (result: Result<Phase2State, ReplayFault>)
    requires initialShape == e.binding
    ensures result == Step2(e, previous, loaded, i)
  {
    hide HasStructure, Transition2;
    if loaded.LoadFailed? {
      return Err(NotLoaded(i));
    }
    if loaded.Nil? {
      return Err(NilContribution(i));
    }
    if |loaded.state.challenge| != CHALLENGE_SIZE {
      return Err(BadChallenge(i));
    }
    var next := e.clone(loaded.state);
    if next.None? {
      return Err(NotCloned(i));
    }
    if !HasStructure(initialShape, next.value) {
      return Err(WrongShape(i));
    }
    if !Transition2(e, previous, next.value) {
      return Err(Refused(i));
    }
    result := Ok(next.value);
  }

  method ReplayPhase2(e: Engine2, count: int, load: Loader<Phase2State>)
    returns (result: Result<Phase2State, ReplayFault>)
    ensures result ==
            match Admission(e.inputsValid, count, load)
            case Some(fault) => Err(fault)
            case None => Fold2(e, LoaderOf(load), count)
  {
    hide ShapeOf, HasStructure, Transition2, Step2;
    var refused := Admission(e.inputsValid, count, load);
    if refused.Some? {
      return Err(refused.value);
    }
    FaultStays2(e, LoaderOf(load), 0, count);
    if e.initialize.None? {
      return Err(NoGenesis);
    }
    var previous := e.initialize.value;
    var initialShape := DerivePhase2Shape(previous);
    if initialShape.None? {
      return Err(GenesisShape);
    }
    if initialShape.value != e.binding {
      return Err(BindingMismatch);
    }
    for i := 0 to count
      invariant Fold2(e, LoaderOf(load), i) == Ok(previous)
    {
      FaultStays2(e, LoaderOf(load), i + 1, count);
      var next := Admit2(e, initialShape.value, previous, load.value(i), i);
      if next.Err? {
        return next;
      }
      previous := next.value;
    }
    result := Ok(previous);
  }

  /** A fold that has failed stays failed in the same way. */
  lemma {:induction false} FaultStays2(e: Engine2, load: nat -> Loaded<Phase2State>, i: nat, count: nat)
    requires i <= count
    ensures Fold2(e, load, i).Err? ==> Fold2(e, load, count) == Fold2(e, load, i)
    decreases count
  {
    hide Step2, Genesis2;
    if i < count {
      FaultStays2(e, load, i, count - 1);
    }
  }

  /** Every replayed state keeps the genesis structure; after the first contribution its challenge is 32 bytes. */
  lemma {:induction false} ReplayKeepsStructure(e: Engine2, load: nat -> Loaded<Phase2State>, count: nat)
    requires Fold2(e, load, count).Ok?
    ensures HasStructure(e.binding, Fold2(e, load, count).value)
    ensures count > 0 ==> |Fold2(e, load, count).value.challenge| == CHALLENGE_SIZE
    ensures forall i | 0 <= i <= count :: Fold2(e, load, i).Ok?
  {
    forall i | 0 <= i <= count ensures Fold2(e, load, i).Ok? {
      FaultStays2(e, load, i, count);
    }
  }

  /**
   The fold law: a replay of n+1 contributions succeeds exactly when the replay of n does and the next archive,
   with a 32-byte challenge and cloned, is an accepted transition from that head. The check against the genesis
   structure never refuses what the step check accepts, nor the other way round.
   */
  lemma {:induction false} ReplayIsFold2(e: Engine2, load: nat -> Loaded<Phase2State>, count: nat)
    ensures Fold2(e, load, count + 1).Ok? <==>
            && Fold2(e, load, count).Ok?
            && load(count).Archived?
            && |load(count).state.challenge| == CHALLENGE_SIZE
            && e.clone(load(count).state).Some?
            && Transition2(e, Fold2(e, load, count).value, e.clone(load(count).state).value)
    ensures Fold2(e, load, count + 1).Ok? ==>
              Fold2(e, load, count + 1).value == e.clone(load(count).state).value
    ensures Fold2(e, load, count).Ok? ==> forall next: Phase2State ::
              HasStructure(e.binding, next) <==> HasStructure(ShapeOf(Fold2(e, load, count).value).value, next)
  {
    if Fold2(e, load, count).Ok? {
      ReplayKeepsStructure(e, load, count);
    }
  }

  /** State `i` of an archived transcript on its own: the genesis, or the copy read from archive `i - 1`. */
  function StateAt2(e: Engine2, load: nat -> Loaded<Phase2State>, i: nat): Option<Phase2State> {
    if i == 0 then (if Genesis2(e).Ok? then Some(Genesis2(e).value) else None)
    else if load(i - 1).Archived? then e.clone(load(i - 1).state)
    else None
  }

  /** Archive `i` is an accepted transition from the state before it, whatever else the transcript holds. */
  predicate Edge2(e: Engine2, load: nat -> Loaded<Phase2State>, i: nat) {
    && StateAt2(e, load, i).Some? && StateAt2(e, load, i + 1).Some?
    && load(i).Archived? && |load(i).state.challenge| == CHALLENGE_SIZE
    && Transition2(e, StateAt2(e, load, i).value, StateAt2(e, load, i + 1).value)
  }

  /** A full replay succeeds exactly when the genesis is good and every edge on its own is, and ends in the last state. */
  lemma {:induction false} ReplayIsEdgewise2(e: Engine2, load: nat -> Loaded<Phase2State>, count: nat)
    ensures Fold2(e, load, count).Ok? <==> Genesis2(e).Ok? && forall i: nat | i < count :: Edge2(e, load, i)
    ensures Fold2(e, load, count).Ok? ==> StateAt2(e, load, count) == Some(Fold2(e, load, count).value)
  {
    hide Transition2, HasStructure, ShapeOf;
    if count > 0 {
      ReplayIsEdgewise2(e, load, count - 1);
      ReplayIsFold2(e, load, count - 1);
      assert Fold2(e, load, count).Ok? <==> Fold2(e, load, count - 1).Ok? && Edge2(e, load, count - 1);
    }
  }

  /** The coordinator's check of a candidate: a transition from the archived predecessor alone. */
  predicate CoordinatorAccepts2(e: Engine2, load: nat -> Loaded<Phase2State>, i: nat) {
    && load(i).Archived?
    && (i == 0 ==> e.initialize.Some? && Transition2(e, e.initialize.value, load(i).state))
    && (i > 0 ==> load(i - 1).Archived? && Transition2(e, load(i - 1).state, load(i).state))
  }

  /**
   Incremental acceptance and full replay agree: when reading an archive back gives the archived state, a transcript
   replays exactly when the coordinator accepted each contribution against the one before it, and the replay then
   ends in the last archive.
   */
  lemma IncrementalIsFull2(e: Engine2, load: nat -> Loaded<Phase2State>, count: nat)
    requires forall i: nat | i < count :: load(i).Archived? ==> e.clone(load(i).state) == Some(load(i).state)
    ensures Fold2(e, load, count).Ok? <==>
            Genesis2(e).Ok? && forall i: nat | i < count :: CoordinatorAccepts2(e, load, i)
    ensures Fold2(e, load, count).Ok? && count > 0 ==> Fold2(e, load, count).value == load(count - 1).state
  {
    hide HasStructure, ShapeOf, Fold2;
    ReplayIsEdgewise2(e, load, count);
    if Genesis2(e).Ok? {
      forall i: nat | i < count
        ensures Edge2(e, load, i) <==> CoordinatorAccepts2(e, load, i)
      {
        assert i > 0 && load(i - 1).Archived? ==> e.clone(load(i - 1).state) == Some(load(i - 1).state);
        GenesisIsInitial2(e);
      }
    }
  }

  lemma GenesisIsInitial2(e: Engine2)
    ensures Genesis2(e).Ok? ==> e.initialize == Some(Genesis2(e).value)
  {
  }

  /**
   A replayed state has exactly the genesis lengths: the same commitments, PKK, Z and commitment bases. Only its
   challenge may be longer, and each archive was accepted by the transition check after the state before it.
   */
  lemma ReplayKeepsLengths(e: Engine2, load: nat -> Loaded<Phase2State>, count: nat)
    requires Fold2(e, load, count).Ok?
    ensures e.initialize.Some?
    ensures var genesis, head := e.initialize.value, Fold2(e, load, count).value;
            && head.sigma == genesis.sigma && head.sigmas == genesis.sigmas && head.sigmaCKK == genesis.sigmaCKK
            && head.pkk == genesis.pkk && head.z == genesis.z
    ensures count > 0 ==> |Fold2(e, load, count).value.challenge| == 32
    ensures forall i: nat | i < count :: VerifiedAt2(e, load, i)
  {
    hide Phase2Size;
    var genesis, head := e.initialize, Fold2(e, load, count).value;
    ReplayKeepsStructure(e, load, count);
    ReplayIsEdgewise2(e, load, count);
    GenesisFits2(e);
    assert ShapeOf(head).Some?;
    SameLengths(genesis.value, head);
    forall i: nat | i < count
      ensures VerifiedAt2(e, load, i)
    {
      assert Edge2(e, load, i);
    }
  }

  /** The copy of archive `i` verifies against the state before it. */
  predicate VerifiedAt2(e: Engine2, load: nat -> Loaded<Phase2State>, i: nat) {
    && StateAt2(e, load, i).Some? && load(i).Archived? && e.clone(load(i).state).Some?
    && e.verify(StateAt2(e, load, i).value, e.clone(load(i).state).value)
  }

  /** A transition is accepted exactly for a 32-byte challenge, unchanged lengths that still fit, and a good proof. */
  lemma TransitionStates2(e: Engine2, a: Phase2State, b: Phase2State)
    ensures Transition2(e, a, b) <==>
            && |b.challenge| == 32
            && ShapeOf(a).Some? && ShapeOf(b).Some?
            && b.sigma == a.sigma && b.sigmas == a.sigmas && b.sigmaCKK == a.sigmaCKK && b.pkk == a.pkk && b.z == a.z
            && e.verify(a, b)
  {
    hide Phase2Size;
    if ShapeOf(a).Some? && ShapeOf(b).Some? {
      assert a.sigmaCKK == Narrow(a.sigmaCKK) && b.sigmaCKK == Narrow(b.sigmaCKK);
    }
  }

  lemma GenesisFits2(e: Engine2)
    requires Genesis2(e).Ok?
    ensures e.initialize.Some? && ShapeOf(e.initialize.value) == Some(e.binding)
  {
  }

  /** Equal structures are equal lengths. */
  lemma SameLengths(a: Phase2State, b: Phase2State)
    requires ShapeOf(a).Some?
    ensures HasStructure(ShapeOf(a).value, b) ==>
              && b.sigma == a.sigma && b.sigmas == a.sigmas && b.sigmaCKK == a.sigmaCKK && b.pkk == a.pkk && b.z == a.z
  {
    hide Phase2Size;
    if HasStructure(ShapeOf(a).value, b) {
      assert a.sigmaCKK == Narrow(a.sigmaCKK) && b.sigmaCKK == Narrow(b.sigmaCKK);
    }
  }

  /** Only the first `count` archives matter, so a verified prefix never needs re-examination. */
  lemma {:induction false} ReplayIsLocal2(
    e: Engine2, load: nat -> Loaded<Phase2State>, other: nat -> Loaded<Phase2State>, count: nat)
    requires forall i: nat | i < count :: load(i) == other(i)
    ensures Fold2(e, load, count) == Fold2(e, other, count)
  {
    hide Step2, Genesis2;
    if count > 0 {
      ReplayIsLocal2(e, load, other, count - 1);
    }
  }

  /** Replays everything, then lets the engine contribute to a copy of the head and checks its own work. */
  method ContributePhase2(e: Engine2, count: int, load: Loader<Phase2State>) returns (result: Option<Phase2State>)
    ensures result.Some? ==>
              && Admission(e.inputsValid, count, load).None?
              && Fold2(e, LoaderOf(load), count).Ok?
              && var head := Fold2(e, LoaderOf(load), count).value;
                 && Transition2(e, head, result.value)
                 && e.clone(head).Some? && e.contribute(e.clone(head).value) == result
  {
    hide Fold2, ShapeOf, HasStructure;
    var replayed := ReplayPhase2(e, count, load);
    if replayed.Err? {
      return None;
    }
    var copy := e.clone(replayed.value);
    if copy.None? {
      return None;
    }
    var next := e.contribute(copy.value);
    if next.None? || |next.value.challenge| != CHALLENGE_SIZE {
      return None;
    }
    if !(ShapeOf(replayed.value).Some? && HasStructure(ShapeOf(replayed.value).value, next.value)) {
      return None;
    }
    if !e.verify(replayed.value, next.value) {
      return None;
    }
    result := next;
  }

  /** Appending one archive to the loader. */
  function Archive<S>(load: nat -> Loaded<S>, count: nat, state: S): nat -> Loaded<S> {
    (i: nat) => if i == count then Archived(state) else load(i)
  }

  /** A contribution this engine hands out is accepted by every later replay of the extended chain. */
  lemma ContributionReplays2(e: Engine2, load: nat -> Loaded<Phase2State>, count: nat, head: Phase2State, next: Phase2State)
    requires Fold2(e, load, count) == Ok(head) && Transition2(e, head, next)
    requires e.clone(next) == Some(next)
    ensures Fold2(e, Archive(load, count, next), count + 1) == Ok(next)
  {
    ReplayIsLocal2(e, load, Archive(load, count, next), count);
    ReplayIsFold2(e, Archive(load, count, next), count);
  }

  // ----- Phase 1 replay -----

  datatype Phase1State = Phase1State(challenge: seq<Byte>, content: string)

  datatype Engine1 = Engine1(
    domainN: U64,
    genesis: Phase1State,
    clone: Phase1State -> Option<Phase1State>,
    verify: (Phase1State, Phase1State) -> bool)

  /** verifyPhase1Transition. */
  predicate Transition1(e: Engine1, previous: Phase1State, next: Phase1State) {
    ValidDomain(e.domainN) && |next.challenge| == CHALLENGE_SIZE && e.verify(previous, next)
  }

  function Step1(e: Engine1, head: Phase1State, loaded: Loaded<Phase1State>, at: nat): Result<Phase1State, ReplayFault> {
    match loaded
    case LoadFailed => Err(NotLoaded(at))
    case Nil => Err(NilContribution(at))
    case Archived(archived) =>
      if |archived.challenge| != CHALLENGE_SIZE then Err(BadChallenge(at))
      else
        match e.clone(archived)
        case None => Err(NotCloned(at))
        case Some(next) => if Transition1(e, head, next) then Ok(next) else Err(Refused(at))
  }

  function Fold1(e: Engine1, load: nat -> Loaded<Phase1State>, count: nat): Result<Phase1State, ReplayFault> {
    if count == 0 then
      if ExpectedPhase1Size(Phase1Shape(e.domainN, 0)).Ok? then Ok(e.genesis) else Err(GenesisShape)
    else
      var head :- Fold1(e, load, count - 1);
      Step1(e, head, load(count - 1), count - 1)
  }

  method ReplayPhase1(e: Engine1, count: int, load: Loader<Phase1State>)
    returns (result: Result<Phase1State, ReplayFault>)
    ensures result ==
            match Admission(ValidDomain(e.domainN), count, load)
            case Some(fault) => Err(fault)
            case None => Fold1(e, LoaderOf(load), count)
  {
    var refused := Admission(ValidDomain(e.domainN), count, load);
    if refused.Some? {
      return Err(refused.value);
    }
    if ExpectedPhase1Size(Phase1Shape(e.domainN, 0)).Err? {
      FaultStays1(e, LoaderOf(load), 0, count);
      return Err(GenesisShape);
    }
    var previous := e.genesis;
    for i := 0 to count
      invariant Fold1(e, LoaderOf(load), i) == Ok(previous)
    {
      FaultStays1(e, LoaderOf(load), i + 1, count);
      var loaded := load.value(i);
      if loaded.LoadFailed? {
        return Err(NotLoaded(i));
      }
      if loaded.Nil? {
        return Err(NilContribution(i));
      }
      if |loaded.state.challenge| != CHALLENGE_SIZE {
        return Err(BadChallenge(i));
      }
      var next := e.clone(loaded.state);
      if next.None? {
        return Err(NotCloned(i));
      }
      if !Transition1(e, previous, next.value) {
        return Err(Refused(i));
      }
      previous := next.value;
    }
    result := Ok(previous);
  }

  lemma {:induction false} FaultStays1(e: Engine1, load: nat -> Loaded<Phase1State>, i: nat, count: nat)
    requires i <= count
    ensures Fold1(e, load, i).Err? ==> Fold1(e, load, count) == Fold1(e, load, i)
    decreases count
  {
    if i < count {
      FaultStays1(e, load, i, count - 1);
    }
  }

  /** The fold law for Phase 1, and the trace of replayed states behind every success. */
  lemma {:induction false} ReplayIsFold1(e: Engine1, load: nat -> Loaded<Phase1State>, count: nat) returns (trace: seq<Phase1State>)
    ensures Fold1(e, load, count + 1).Ok? <==>
            && Fold1(e, load, count).Ok?
            && load(count).Archived?
            && |load(count).state.challenge| == CHALLENGE_SIZE
            && e.clone(load(count).state).Some?
            && Transition1(e, Fold1(e, load, count).value, e.clone(load(count).state).value)
    ensures Fold1(e, load, count).Ok? ==>
              && |trace| == count + 1 && trace[0] == e.genesis
              && (forall i | 0 <= i <= count :: Fold1(e, load, i) == Ok(trace[i]))
              && (forall i | 0 <= i < count ::
                    && load(i).Archived? && e.clone(load(i).state) == Some(trace[i + 1])
                    && Transition1(e, trace[i], trace[i + 1]))
  {
    trace := [e.genesis];
    if count > 0 {
      trace := ReplayIsFold1(e, load, count - 1);
      if Fold1(e, load, count).Ok? {
        trace := trace + [Fold1(e, load, count).value];
      }
    }
  }

  function StateAt1(e: Engine1, load: nat -> Loaded<Phase1State>, i: nat): Option<Phase1State> {
    if i == 0 then Some(e.genesis)
    else if load(i - 1).Archived? then e.clone(load(i - 1).state)
    else None
  }

  predicate Edge1(e: Engine1, load: nat -> Loaded<Phase1State>, i: nat) {
    && StateAt1(e, load, i).Some? && StateAt1(e, load, i + 1).Some?
    && load(i).Archived? && |load(i).state.challenge| == CHALLENGE_SIZE
    && Transition1(e, StateAt1(e, load, i).value, StateAt1(e, load, i + 1).value)
  }

  lemma {:induction false} ReplayIsEdgewise1(e: Engine1, load: nat -> Loaded<Phase1State>, count: nat)
    ensures Fold1(e, load, count).Ok? <==>
            && ExpectedPhase1Size(Phase1Shape(e.domainN, 0)).Ok?
            && forall i: nat | i < count :: Edge1(e, load, i)
    ensures Fold1(e, load, count).Ok? ==> StateAt1(e, load, count) == Some(Fold1(e, load, count).value)
  {
    hide Transition1, ExpectedPhase1Size;
    if count > 0 {
      ReplayIsEdgewise1(e, load, count - 1);
      var _ := ReplayIsFold1(e, load, count - 1);
      assert Fold1(e, load, count).Ok? <==> Fold1(e, load, count - 1).Ok? && Edge1(e, load, count - 1);
    }
  }

  /** The coordinator's check of a Phase 1 candidate. */
  predicate CoordinatorAccepts1(e: Engine1, load: nat -> Loaded<Phase1State>, i: nat) {
    && load(i).Archived?
    && (i == 0 ==> Transition1(e, e.genesis, load(i).state))
    && (i > 0 ==> load(i - 1).Archived? && Transition1(e, load(i - 1).state, load(i).state))
  }

  /** In Phase 1 too incremental acceptance and full replay agree. */
  lemma IncrementalIsFull1(e: Engine1, load: nat -> Loaded<Phase1State>, count: nat)
    requires forall i: nat | i < count :: load(i).Archived? ==> e.clone(load(i).state) == Some(load(i).state)
    ensures Fold1(e, load, count).Ok? <==>
            && ExpectedPhase1Size(Phase1Shape(e.domainN, 0)).Ok?
            && forall i: nat | i < count :: CoordinatorAccepts1(e, load, i)
    ensures Fold1(e, load, count).Ok? && count > 0 ==> Fold1(e, load, count).value == load(count - 1).state
  {
    hide Fold1, ExpectedPhase1Size;
    ReplayIsEdgewise1(e, load, count);
    forall i: nat | i < count
      ensures Edge1(e, load, i) <==> CoordinatorAccepts1(e, load, i)
    {
      assert i > 0 && load(i - 1).Archived? ==> e.clone(load(i - 1).state) == Some(load(i - 1).state);
    }
  }
}
