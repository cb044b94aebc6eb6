/**
 Ownership of the prepared prover session: which call or session owns each opened bundle and engine, which
 constraint systems have been given away to the consuming prover, and which engine is installed for the process.
 */
module PreparedSessions {
  import opened Common

  /** Verified key artifacts opened for streaming. */
  class Artifacts {
    /** The request key these were opened for. */
    const key: string
    var open: bool
    ghost var closes: nat

    constructor (key: string)
      ensures open && closes == 0 && this.key == key
    {
      this.key := key;
      open, closes := true, 0;
    }

    method Close()
      requires open
      modifies this
      ensures !open && closes == old(closes) + 1
    {
      open, closes := false, closes + 1;
    }

    /** Any read through the open artifacts. */
    method Use()
      requires open
    {
    }
  }

  /** A multi-scalar-multiplication engine with its worker pool. */
  class Engine {
    /** The request key whose tuning it was selected with. */
    const key: string
    var open: bool
    ghost var closes: nat

    constructor (key: string)
      ensures open && closes == 0 && this.key == key
    {
      this.key := key;
      open, closes := true, 0;
    }

    method Close()
      requires open
      modifies this
      ensures !open && closes == old(closes) + 1
    {
      open, closes := false, closes + 1;
    }

    /** Any multiplication run on the pool. */
    method Use()
      requires open
    {
    }
  }

  /** A loaded constraint system; `given` once the consuming prover has had it. */
  class ConstraintSystem {
    /** The key of the artifacts that pin it. */
    const key: string
    var given: bool

    constructor (key: string)
      ensures !given && this.key == key
    {
      this.key := key;
      given := false;
    }

    /** The borrowing prover reads it and leaves it with its owner. */
    method Borrow()
      requires !given
    {
    }

    /** The consuming prover may release it at any point; it is not to be used again. */
    method Give()
      requires !given
      modifies this
      ensures given
    {
      given := true;
    }
  }

  /** What of a request the session depends on: its key over artifacts and tuning, the W3 option and the CCS URL. */
  datatype Request = Request(key: string, w3: bool, hasCcsUrl: bool)

  datatype Attempt = Succeeds | Fails | FailsClosed

  /** How the environment answers along the way; every combination is possible. */
  datatype Fate = Fate(
    parses: bool, inputsDecode: bool, artifactsOpen: bool, systemOpens: bool,
    pathFound: bool, witnessBuilt: bool, totalsKnown: bool,
    primary: Attempt, reloads: bool, retry: Attempt, verifies: bool, serializes: bool)

  datatype Session = Session(key: string, artifacts: Artifacts, system: ConstraintSystem?, engine: Engine)

  datatype Call = Preflight(request: Request, fate: Fate) | Prove(request: Request, fate: Fate)

  /** What one proof attempt ran on; no engine stands for the built-in one. */
  datatype Attempted = Attempted(artifacts: Artifacts, engine: Engine?, system: ConstraintSystem)

  /** Everything an attempt ran on belongs to the key. */
  predicate ForKey(a: Attempted, key: string) {
    a.artifacts.key == key && a.system.key == key && (a.engine != null ==> a.engine.key == key)
  }

  /** The log grew by attempts on these artifacts alone, all for the key. */
  ghost predicate AttemptsOn(before: seq<Attempted>, after: seq<Attempted>, bundle: Artifacts, key: string) {
    && before <= after
    && forall k | |before| <= k < |after| :: after[k].artifacts == bundle && ForKey(after[k], key)
  }

  /** Whether an attempt or its retry yields a proof: a retry of a consuming attempt needs a pinned system to reload. */
  predicate Proved(request: Request, fate: Fate) {
    || fate.primary.Succeeds?
    || (fate.primary.Fails? && (request.w3 ==> request.hasCcsUrl && fate.reloads) && fate.retry.Succeeds?)
  }

  /** What must go well once there are artifacts, given whether a constraint system is at hand. */
  predicate ProofSucceeds(request: Request, fate: Fate, systemAtHand: bool) {
    && (systemAtHand || fate.systemOpens)
    && fate.pathFound && fate.witnessBuilt && fate.totalsKnown
    && Proved(request, fate)
    && fate.verifies && fate.serializes
  }

  class Prover {
    var session: Option<Session>
    /** The engine provers use, which is global to the process; none is the built-in one, which is never closed. */
    var current: Engine?
    /** The constraint systems handed to a consuming attempt, in order. */
    ghost var given: seq<ConstraintSystem>
    /** The attempts made, in order. */
    ghost var log: seq<Attempted>
    /** Everything ever opened. */
    ghost var artifacts: set<Artifacts>
    ghost var engines: set<Engine>
    ghost var systems: set<ConstraintSystem>

    /** Another part of the process may have installed an engine of its own. */
    constructor (installed: Engine?)
      requires installed != null ==> installed.open
      ensures Valid() && artifacts == {} && engines == {} && systems == {} && given == [] && log == [] && current == installed
    {
      session, current := None, installed;
      artifacts, engines, systems, given, log := {}, {}, {}, [], [];
    }

    /** No system was handed out twice, and the systems handed out are exactly those that are not to be used again. */
    ghost predicate GivenOnce()
      reads this, systems
    {
      && (forall i, j | 0 <= i < j < |given| :: given[i] != given[j])
      && (forall s | s in given :: s in systems)
      && (forall s | s in systems :: s.given <==> s in given)
    }

    /** The installed engine is not one of this prover's, and is open. */
    ghost predicate Installed()
      reads this, current
    {
      current != null ==> current !in engines && current.open
    }

    /**
     Every open resource has exactly one owner: the session, or the call in progress, which holds
     `heldArtifacts` and `heldEngines`. Everything else has been closed, once.
     */
    ghost predicate Owned(heldArtifacts: set<Artifacts>, heldEngines: set<Engine>)
      reads this, artifacts, engines, systems, current
    {
      && GivenOnce() && Installed()
      && heldArtifacts <= artifacts && heldEngines <= engines
      && (session.Some? ==>
            var s := session.value;
            && s.artifacts in artifacts - heldArtifacts && s.engine in engines - heldEngines
            && s.artifacts.key == s.engine.key == s.key
            && (s.system != null ==> s.system in systems && !s.system.given && s.system.key == s.key))
      && (forall a | a in artifacts ::
            && (a.open <==> a in heldArtifacts || (session.Some? && session.value.artifacts == a))
            && a.closes == if a.open then 0 else 1)
      && (forall e | e in engines ::
            && (e.open <==> e in heldEngines || (session.Some? && session.value.engine == e))
            && e.closes == if e.open then 0 else 1)
    }

    /** Between calls only the session owns anything. */
    ghost predicate Valid()
      reads this, artifacts, engines, systems, current
    {
      Owned({}, {})
    }

    /** Only what this prover opened is ever touched, what it opens is new, and the installed engine is put back. */
    twostate predicate Grows()
      reads this, artifacts, engines, systems
    {
      && current == old(current)
      && old(given) <= given && old(log) <= log
      && old(artifacts) <= artifacts && fresh(artifacts - old(artifacts))
      && old(engines) <= engines && fresh(engines - old(engines))
      && old(systems) <= systems && fresh(systems - old(systems))
    }

    method ClosePrepared()
      requires Valid()
      modifies this, artifacts, engines
      ensures Valid() && session.None?
      ensures artifacts == old(artifacts) && engines == old(engines) && systems == old(systems)
      ensures given == old(given) && current == old(current) && log == old(log)
      ensures forall s | s in systems :: s.given == old(s.given)
    {
      var closing := session;
      session := None;
      if closing.None? {
        return;
      }
      closing.value.engine.Close();
      closing.value.artifacts.Close();
    }

    method OpenArtifacts(key: string) returns (bundle: Artifacts)
      requires Valid()
      modifies this
      ensures bundle.key == key
      ensures Owned({bundle}, {}) && fresh(bundle) && artifacts == old(artifacts) + {bundle}
      ensures engines == old(engines) && systems == old(systems) && session == old(session)
      ensures given == old(given) && current == old(current) && log == old(log)
    {
      bundle := new Artifacts(key);
      artifacts := artifacts + {bundle};
    }

    /**
     Succeeds exactly when the request parses and its artifacts and constraint system open. Then the session is this
     request's; otherwise there is none, unless the request did not even parse.
     */
    method PreflightAssets(request: Request, fate: Fate) returns (ok: bool)
      requires Valid()
      modifies this, artifacts, engines, systems
      ensures Valid() && Grows() && log == old(log) && given == old(given)
      ensures ok <==> fate.parses && fate.artifactsOpen && fate.systemOpens
      ensures ok ==> session.Some? && session.value.key == request.key && session.value.system != null
      ensures ok ==> fresh(session.value.artifacts) && fresh(session.value.engine) && fresh(session.value.system)
      ensures !fate.parses ==> session == old(session)
      ensures !ok && fate.parses ==> session.None?
    {
      if !fate.parses {
        return false;
      }
      ClosePrepared();
      ok := Prepare(request, fate);
    }

    /** Opens the artifacts and their constraint system and hands both, with a new engine, to a session. */
    method Prepare(request: Request, fate: Fate) returns (ok: bool)
      requires Valid() && session.None?
      modifies this
      ensures Valid() && Grows() && log == old(log) && given == old(given)
      ensures ok <==> fate.artifactsOpen && fate.systemOpens
      ensures ok ==> session.Some? && session.value.key == request.key && session.value.system != null
      ensures ok ==> fresh(session.value.artifacts) && fresh(session.value.engine) && fresh(session.value.system)
      ensures !ok ==> session.None?
    {
      if !fate.artifactsOpen {
        return false;
      }
      var bundle := OpenArtifacts(request.key);
      var system := LoadSystem(fate.systemOpens, bundle);
      if system == null {
        bundle.Close();
        return false;
      }
      var engine := new Engine(request.key);
      engines := engines + {engine};
      session := Some(Session(request.key, bundle, system, engine));
      ok := true;
    }

    /**
     A request that parses keeps the session exactly when it was prepared for the request's key, and then runs on it;
     any other session is closed. Every attempt runs on artifacts, a constraint system and an engine of that key. The
     call succeeds exactly when everything it needs goes well.
     */
    method ProveDestination(request: Request, fate: Fate) returns (ok: bool)
      requires Valid()
      modifies this, artifacts, engines, systems
      ensures Valid() && Grows()
      ensures !fate.parses || !fate.inputsDecode ==> !ok && session == old(session) && log == old(log)
      ensures fate.parses && fate.inputsDecode ==>
                (session.Some? <==> old(session).Some? && old(session).value.key == request.key)
      ensures fate.parses && fate.inputsDecode && session.Some? ==> OnSession(request, old(session).value, old(log))
      ensures forall k | |old(log)| <= k < |log| :: ForKey(log[k], request.key)
      ensures fate.parses && fate.inputsDecode && session.Some? ==>
                && AttemptsOn(old(log), log, session.value.artifacts, request.key)
                && (ok <==> ProofSucceeds(request, fate, old(session).value.system != null))
      ensures fate.parses && fate.inputsDecode && session.None? ==>
                (ok <==> fate.artifactsOpen && ProofSucceeds(request, fate, false))
      ensures ok ==> |log| > |old(log)|
    {
      if !fate.parses || !fate.inputsDecode {
        return false;
      }
      var reused := session.Some? && session.value.key == request.key;
      if session.Some? && !reused {
        ClosePrepared();
      }
      if reused {
        ok := ProveWith(request, fate, reused, session.value.artifacts);
      } else {
        ok := ProveAfresh(request, fate);
      }
    }

    /** Without a session to reuse: on artifacts that are opened for this call and closed with it. */
    method ProveAfresh(request: Request, fate: Fate) returns (ok: bool)
      requires Valid() && session.None?
      modifies this, engines, systems
      ensures Valid() && Grows() && session.None?
      ensures forall k | |old(log)| <= k < |log| :: ForKey(log[k], request.key)
      ensures ok <==> fate.artifactsOpen && ProofSucceeds(request, fate, false)
      ensures ok ==> |log| > |old(log)|
    {
      if !fate.artifactsOpen {
        return false;
      }
      var bundle := OpenArtifacts(request.key);
      ok := ProveWith(request, fate, false, bundle);
      bundle.Close();
    }

    /** The session is the request's own and lends its artifacts, or there is none and the call holds them. */
    ghost predicate Ready(request: Request, reused: bool, bundle: Artifacts)
      reads this, artifacts, engines, systems, current
    {
      && bundle.key == request.key
      && (reused ==> Valid() && session.Some? && session.value.artifacts == bundle)
      && (!reused ==> Owned({bundle}, {}) && session.None?)
    }

    /**
     The session `before` is still there; its first attempt ran on its own engine and, if it had one, on its own
     constraint system, which it gave up just when a consuming attempt was made.
     */
    ghost predicate OnSession(request: Request, before: Session, logged: seq<Attempted>)
      reads this
    {
      && session.Some? && session.value.(system := null) == before.(system := null)
      && session.value.system == (if request.w3 && |log| > |logged| then null else before.system)
      && (|log| > |logged| ==>
            && log[|logged|].engine == before.engine
            && (before.system != null ==> log[|logged|].system == before.system))
    }

    /** From the opened artifacts on: the constraint system, the path and witness, and the engine. */
    method ProveWith(request: Request, fate: Fate, reused: bool, bundle: Artifacts) returns (ok: bool)
      requires Ready(request, reused, bundle)
      modifies this, engines, systems
      ensures Ready(request, reused, bundle) && Grows() && artifacts == old(artifacts)
      ensures reused ==> OnSession(request, old(session).value, old(log))
      ensures AttemptsOn(old(log), log, bundle, request.key)
      ensures ok <==> ProofSucceeds(request, fate, reused && old(session).value.system != null)
      ensures ok ==> |log| > |old(log)|
    {
      var system := ObtainSystem(request, fate, reused, bundle);
      if system == null || !fate.pathFound || !fate.witnessBuilt {
        return false;
      }
      if reused {
        ok := ProveOnSession(request, fate, system);
      } else {
        ok := ProveOnOwn(request, fate, bundle, system);
      }
    }

    /** The session's constraint system if it still has one, or else one read anew. */
    method ObtainSystem(request: Request, fate: Fate, reused: bool, bundle: Artifacts) returns (system: ConstraintSystem?)
      requires Ready(request, reused, bundle)
      modifies `systems
      ensures Ready(request, reused, bundle) && Grows()
      ensures system != null <==> (reused && session.value.system != null) || fate.systemOpens
      ensures system != null ==> system in systems && !system.given && system.key == request.key
      ensures system != null && reused && session.value.system != null ==> session.value.system == system
    {
      if reused && session.value.system != null {
        return session.value.system;
      }
      system := LoadSystem(fate.systemOpens, bundle);
    }

    /** Reads the constraint system pinned by the artifacts; the caller owns it. */
    method LoadSystem(opens: bool, bundle: Artifacts) returns (system: ConstraintSystem?)
      requires bundle.open && GivenOnce()
      modifies `systems
      ensures GivenOnce()
      ensures system != null <==> opens
      ensures system == null ==> systems == old(systems)
      ensures system != null ==>
                fresh(system) && !system.given && system.key == bundle.key && systems == old(systems) + {system}
    {
      bundle.Use();
      if !opens {
        return null;
      }
      system := new ConstraintSystem(bundle.key);
      systems := systems + {system};
    }

    /** On the session's engine. */
    method ProveOnSession(request: Request, fate: Fate, system: ConstraintSystem) returns (ok: bool)
      requires Valid() && session.Some? && (session.value.system != null ==> session.value.system == system)
      requires session.value.key == request.key == system.key
      requires system in systems && !system.given
      modifies this, systems
      ensures Valid() && Grows() && artifacts == old(artifacts)
      ensures session.Some? && session.value.(system := null) == old(session).value.(system := null)
      ensures session.value.system == (if request.w3 && |log| > |old(log)| then null else old(session).value.system)
      ensures AttemptsOn(old(log), log, session.value.artifacts, request.key)
      ensures |log| > |old(log)| ==> log[|old(log)|] == Attempted(session.value.artifacts, session.value.engine, system)
      ensures ok <==> fate.totalsKnown && Proved(request, fate) && fate.verifies && fate.serializes
      ensures ok ==> |log| > |old(log)|
    {
      var previous := current;
      ok := RunProof(request, fate, session.value.artifacts, session.value.engine, system);
      current := previous;
    }

    /** On an engine opened for this call and closed with it. */
    method ProveOnOwn(request: Request, fate: Fate, bundle: Artifacts, system: ConstraintSystem) returns (ok: bool)
      requires Owned({bundle}, {}) && session.None?
      requires bundle.key == request.key == system.key
      requires system in systems && !system.given
      modifies this, systems
      ensures Owned({bundle}, {}) && session.None? && Grows() && artifacts == old(artifacts)
      ensures AttemptsOn(old(log), log, bundle, request.key)
      ensures ok <==> fate.totalsKnown && Proved(request, fate) && fate.verifies && fate.serializes
      ensures ok ==> |log| > |old(log)|
    {
      var engine := OpenEngine(request.key, bundle);
      ok := RunRestoring(request, fate, bundle, engine, system);
      CloseEngine(bundle, engine);
    }

    /** Runs the proof and puts the installed engine back, before the engine of this call can be closed. */
    method RunRestoring(request: Request, fate: Fate, bundle: Artifacts, engine: Engine, system: ConstraintSystem)
      returns (ok: bool)
      requires Owned({bundle}, {engine}) && session.None?
      requires bundle.key == engine.key == request.key == system.key
      requires system in systems && !system.given
      modifies this, systems
      ensures Owned({bundle}, {engine}) && session.None?
      ensures Grows() && artifacts == old(artifacts) && engines == old(engines)
      ensures AttemptsOn(old(log), log, bundle, request.key)
      ensures ok <==> fate.totalsKnown && Proved(request, fate) && fate.verifies && fate.serializes
      ensures ok ==> |log| > |old(log)|
    {
      var previous := current;
      ok := RunProof(request, fate, bundle, engine, system);
      current := previous;
    }

    method OpenEngine(key: string, bundle: Artifacts) returns (engine: Engine)
      requires Owned({bundle}, {}) && session.None?
      modifies `engines
      ensures Owned({bundle}, {engine}) && fresh(engine) && engine.key == key && engines == old(engines) + {engine}
    {
      engine := new Engine(key);
      engines := engines + {engine};
    }

    method CloseEngine(bundle: Artifacts, engine: Engine)
      requires Owned({bundle}, {engine}) && session.None?
      modifies engine
      ensures Owned({bundle}, {})
    {
      engine.Close();
    }

    /** The attempts themselves. The session drops a system that is about to be given away. */
    method RunProof(request: Request, fate: Fate, bundle: Artifacts, engine: Engine, system: ConstraintSystem)
      returns (ok: bool)
      requires bundle.open && engine.open && !system.given && system in systems && GivenOnce()
      requires bundle.key == engine.key == request.key == system.key
      requires session.Some? && session.value.system != null ==>
                 session.value.system in systems && !session.value.system.given && session.value.system == system
      modifies `session, `systems, `given, `current, `log, systems
      ensures GivenOnce() && old(given) <= given && (!request.w3 ==> given == old(given))
      ensures old(systems) <= systems && fresh(systems - old(systems))
      ensures artifacts == old(artifacts) && engines == old(engines)
      ensures session.Some? == old(session).Some?
      ensures session.Some? ==>
                && session.value.(system := null) == old(session).value.(system := null)
                && (session.value.system != null ==> session.value.system in systems && !session.value.system.given)
                && session.value.system == (if request.w3 && |log| > |old(log)| then null else old(session).value.system)
      ensures AttemptsOn(old(log), log, bundle, request.key)
      ensures |log| > |old(log)| ==> log[|old(log)|] == Attempted(bundle, engine, system)
      ensures ok <==> fate.totalsKnown && Proved(request, fate) && fate.verifies && fate.serializes
      ensures ok ==> |log| > |old(log)|
    {
      bundle.Use();
      if !fate.totalsKnown {
        return false;
      }
      if session.Some? && request.w3 {
        session := Some(session.value.(system := null));
      }
      var proved := false;
      if request.w3 {
        proved := ConsumingAttempts(request, fate, bundle, engine, system);
      } else {
        Attempting(engine, bundle, system);
        system.Borrow();
        proved := fate.primary.Succeeds?;
        if fate.primary.Fails? {
          Attempting(null, bundle, system);
          system.Borrow();
          proved := fate.retry.Succeeds?;
        }
      }
      ok := proved && fate.verifies && fate.serializes;
    }

    /** Installs the engine of one attempt; the prover then uses whichever engine is installed. */
    method Attempting(engine: Engine?, bundle: Artifacts, system: ConstraintSystem)
      requires bundle.open && (engine != null ==> engine.open)
      modifies `current, `log
      ensures current == engine && log == old(log) + [Attempted(bundle, engine, system)]
    {
      current := engine;
      log := log + [Attempted(bundle, engine, system)];
      bundle.Use();
      if current != null {
        current.Use();
      }
    }

    /** Hands a system out for good. */
    method Give(system: ConstraintSystem)
      requires GivenOnce() && system in systems && !system.given
      modifies `given, system
      ensures GivenOnce() && system.given && given == old(given) + [system]
    {
      system.Give();
      given := given + [system];
    }

    /**
     W3: each attempt is given its own system; the retry reloads and never sees the first one again. What is given
     is the system at hand and possibly one more, loaded since; no system given before is among them.
     */
    method ConsumingAttempts(request: Request, fate: Fate, bundle: Artifacts, engine: Engine, system: ConstraintSystem)
      returns (proved: bool)
      requires bundle.open && engine.open && !system.given && system in systems && GivenOnce()
      requires bundle.key == engine.key == request.key == system.key && request.w3
      modifies `systems, `given, `current, `log, system
      ensures GivenOnce() && session == old(session)
      ensures old(systems) <= systems && fresh(systems - old(systems))
      ensures given == old(given) + [system]
              || (|given| == |old(given)| + 2 && given[..|old(given)| + 1] == old(given) + [system]
                  && fresh(given[|old(given)| + 1]))
      ensures forall s | s in old(systems) && s != system :: s.given == old(s.given)
      ensures AttemptsOn(old(log), log, bundle, request.key)
      ensures |log| - |old(log)| == |given| - |old(given)|
      ensures forall k | |old(log)| <= k < |log| :: log[k].system == given[k - |old(log)| + |old(given)|]
      ensures |log| > |old(log)| && log[|old(log)|] == Attempted(bundle, engine, system)
      ensures proved <==> Proved(request, fate)
    {
      Attempting(engine, bundle, system);
      Give(system);
      if !fate.primary.Fails? {
        return fate.primary.Succeeds?;
      }
      if !request.hasCcsUrl || !fate.reloads {
        return false;
      }
      var reloaded := LoadSystem(true, bundle);
      Attempting(null, bundle, reloaded);
      Give(reloaded);
      proved := fate.retry.Succeeds?;
    }

    /** Any sequence of calls, with any outcomes, keeps single ownership. */
    method Run(calls: seq<Call>)
      requires Valid()
      modifies this, artifacts, engines, systems
      ensures Valid() && Grows()
    {
      for i := 0 to |calls|
        invariant Valid() && Grows()
      {
        match calls[i] {
          case Preflight(request, fate) =>
            var _ := PreflightAssets(request, fate);
          case Prove(request, fate) =>
            var _ := ProveDestination(request, fate);
        }
      }
    }
  }
}
