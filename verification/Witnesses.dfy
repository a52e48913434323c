/**
 Concrete calls of the engine: one that fails, and two rejections that are retried
 although nothing a retry could change went wrong with them.
 */
module Witnesses {
  import opened Wrappers
  import opened Profiles
  import opened Engine
  import opened EngineFacts
  import Capability
  import Duplicates
  import Recovery

  /** A session in which the one GPU refuses its compute mode. */
  lemma RefusedCompute(node: NodeConfig, m: Manager) returns (p: Profile, session: Session)
    ensures NoPanic(p, session) && Helper(node, m, p, session).failed
    ensures p == ONE_GPU
  {
    hide Visit, StepFails, Clears, Rejects, CallsOf;
    p := ONE_GPU;
    var g := p.groups[0];
    var a := Answer(true, true, "SPX", "NPS1", Capability.Unavailable, 0, "", Recovery.IDLE, "SPX", 30);
    session := Session(1, _ => a);
    OneGpuProfile();
    var plan := PlanOf(node, p, 1);
    assert After(m, plan, session.answers, 0) == Start(m, plan);
    RefusedAnswer(node, g, a);
    AfterStep(m, plan, session.answers, 1);
    VisitFacts(node, 0, g, Start(m, plan), a);
  }

  /** A session in which the one GPU holds the requested pair already. */
  lemma AlreadyMatching(node: NodeConfig, m: Manager) returns (session: Session)
    ensures NoPanic(ONE_GPU, session)
    ensures !Helper(node, m, ONE_GPU, session).failed && Helper(node, m, ONE_GPU, session).final == FinalSuccess
  {
    hide Visit, CallsOf;
    var g := ONE_GPU.groups[0];
    var a := Answer(true, true, "CPX", "NPS1", Capability.Unavailable, 0, "", Recovery.IDLE, "CPX", 0);
    session := Session(1, _ => a);
    OneGpuProfile();
    var plan := PlanOf(node, ONE_GPU, 1);
    assert After(m, plan, session.answers, 0) == Start(m, plan);
    AfterStep(m, plan, session.answers, 1);
    VisitFacts(node, 0, g, Start(m, plan), a);
  }

  const ONE_GPU := Profile(None, [Group("CPX", "NPS1", 1)])

  lemma RefusedAnswer(node: NodeConfig, g: Group, a: Answer)
    requires g == Group("CPX", "NPS1", 1)
    requires a.typeKnown && a.isGpu && a.compute0 == "SPX" && a.memory0 == "NPS1" && a.compute1 == "SPX"
    requires a.setCompute == 30
    ensures StepFails(node, g, a) && !Rejects(g, a)
  {
  }

  lemma OneGpuProfile()
    ensures Validate(ONE_GPU, 1) == Accepted && Flatten(ONE_GPU.groups) == ONE_GPU.groups && UsableGpus([], 1) == [0]
  {
    var g := ONE_GPU.groups[0];
    assert [g][..0] == [];
    assert Prefix([g], 1) == Prefix([g], 0) + 1;
    GroupVerdictExact([g], 0);
    assert Flatten([]) == [];
    assert seq(1, _ => g) == [g];
  }

  /** A file whose only profile is "p". */
  lemma OneEntry(m: Manager, p: Profile, file: ConfigFile)
    requires file.Present? && file.profiles == Some([("p", p)])
    ensures Prepare(m, "p", file, true).Opened? && Prepare(m, "p", file, true).profile == p
    ensures Prepare(m, "p", file, true).mgr.failed == m.failed
  {
    var entries := [("p", p)];
    assert Duplicates.Names(entries) == ["p"];
    Duplicates.RepeatedExact(["p"]);
    Duplicates.LastWinsUnique(entries, 0);
    assert entries[0].0 == "p";
  }

  // ----- rejections that are retried -----

  /**
   A failed call leaves the flag true; the next call finds no sockets, which is a
   rejection before the flag is cleared, and returns an error all the same.
   */
  lemma StaleFlagRetried(node: NodeConfig, m: Manager) returns (file: ConfigFile, s1: Session, s2: Session)
    requires !m.failed
    ensures Runnable(m, "p", file, true, s1)
    ensures var first := PartitionGpu(node, m, "p", file, true, s1);
            && first.err && Runnable(first.mgr, "p", file, true, s2)
            && RejectedEarly(first.mgr, "p", file, true, s2)
            && PartitionGpu(node, first.mgr, "p", file, true, s2).err
            && !PartitionGpu(node, m, "p", file, true, s2).err
  {
    hide Prepare, Helper, Validate;
    file := Present(Some([("p", ONE_GPU)]), Some([]));
    OneEntry(m, ONE_GPU, file);
    var p;
    p, s1 := RefusedCompute(node, Prepare(m, "p", file, true).mgr);
    s2 := Session(0, s1.answers);
    var first := PartitionGpu(node, m, "p", file, true, s1);
    OneEntry(first.mgr, ONE_GPU, file);
    RetryExactly(node, first.mgr, "p", file, true, s2);
    RetryExactly(node, m, "p", file, true, s2);
  }

  /**
   An unsupported memory mode ends the call early, but the call returns an error,
   and is retried, because a step of an earlier GPU failed.
   */
  lemma UnsupportedModeRetried(node: NodeConfig, m: Manager) returns (file: ConfigFile, s: Session)
    ensures Runnable(m, "p", file, true, s)
    ensures PartitionGpu(node, m, "p", file, true, s).err
    ensures PartitionGpu(node, m, "p", file, true, s).mgr.reason == Rejected(MemoryUnsupported)
  {
    hide Prepare, Helper;
    file := Present(Some([("p", TWO_GPUS)]), Some([]));
    OneEntry(m, TWO_GPUS, file);
    s := UnsupportedSession(node, Prepare(m, "p", file, true).mgr);
  }

  const TWO_GPUS := Profile(None, [Group("CPX", "NPS4", 2)])

  lemma UnsupportedSession(node: NodeConfig, m: Manager) returns (s: Session)
    ensures NoPanic(TWO_GPUS, s)
    ensures var out := Helper(node, m, TWO_GPUS, s); out.reason == Rejected(MemoryUnsupported) && out.failed
  {
    hide Visit, Capability.Supported, StepFails, Clears, Rejects, CallsOf;
    var g := TWO_GPUS.groups[0];
    var caps := Capability.Config(1, 1);
    var a0 := Answer(true, true, "SPX", "NPS4", caps, 0, "NPS4", Recovery.IDLE, "SPX", 30);
    var a1 := Answer(true, true, "CPX", "NPS1", caps, 0, "NPS1", Recovery.IDLE, "CPX", 0);
    s := Session(2, i => if i == 0 then a0 else a1);
    TwoGpuProfile(g);
    var plan := PlanOf(node, TWO_GPUS, 2);
    var s0 := After(m, plan, s.answers, 0);
    var s1 := After(m, plan, s.answers, 1);
    UnsupportedAnswers(node, g, caps, a0, a1);
    AfterStep(m, plan, s.answers, 1);
    VisitFacts(node, 0, g, s0, a0);
    AfterStep(m, plan, s.answers, 2);
    UnsupportedVisit(node, 1, g, s1, a1);
    assert Helper(node, m, TWO_GPUS, s) == Conclude(After(m, plan, s.answers, 2));
  }

  lemma UnsupportedAnswers(node: NodeConfig, g: Group, caps: Capability.Config, a0: Answer, a1: Answer)
    requires g == Group("CPX", "NPS4", 2) && caps == Capability.Config(1, 1)
    requires a0.typeKnown && a0.isGpu && a0.compute0 == "SPX" && a0.memory0 == "NPS4" && a0.compute1 == "SPX"
    requires a0.setCompute == 30
    requires a1.typeKnown && a1.isGpu && a1.memory0 == "NPS1" && a1.caps == caps
    ensures !Rejects(g, a0) && StepFails(node, g, a0)
    ensures Capability.Supported(a1.caps) != [] && g.memory !in Capability.Supported(a1.caps)
  {
    hide Capability.Supported;
    Capability.SupportedExact(1, 1);
  }

  lemma UnsupportedVisit(node: NodeConfig, gpu: nat, req: Group, st: Loop, a: Answer)
    requires st.idx < |st.mgr.gpus| && a.typeKnown && a.isGpu && req.memory != a.memory0
    requires Capability.Supported(a.caps) != [] && req.memory !in Capability.Supported(a.caps)
    ensures var st' := Visit(node, gpu, req, st, a);
            st'.returned && st'.mgr.reason == Rejected(MemoryUnsupported) && st'.mgr.failed == st.mgr.failed
  {
    hide Capability.Supported;
  }
}
