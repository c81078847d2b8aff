/** One scan as interleaved steps of its tasks: the semaphore, the host locks, the shared findings
    and the shared certificate inventory, for any mix of successes and failures. */
module Batch {
  import opened Bytes
  import opened Sets

  type Fingerprint = string

  datatype Target = Target(hostname: string)

  /** A certificate served, under the name of the endpoint as it was then probed: host, port and protocol. */
  datatype Visit = Visit(fingerprint: Fingerprint, usage: string)

  /** What is scanned, and the certificates each probe would be served if it got that far, a retry under another
      protocol included. */
  datatype Config = Config(targets: seq<Target>, chains: seq<seq<Visit>>, concurrency: nat)

  /** How far a task is. It waits for a host lock while it already counts as admitted. */
  datatype Stage = Queued | Admitted | HostLocked | Paced | Probed | Appended | HostReleased | Left

  datatype Task = Task(stage: Stage, served: nat, ok: bool)

  datatype Outcome = Outcome(task: nat, ok: bool)

  type Inventory = map<Fingerprint, seq<string>>

  datatype State = State(tasks: seq<Task>, findings: seq<Outcome>, inventory: Inventory)

  function Rank(s: Stage): nat {
    match s
    case Queued => 0
    case Admitted => 1
    case HostLocked => 2
    case Paced => 3
    case Probed => 4
    case Appended => 5
    case HostReleased => 6
    case Left => 7
  }

  /** Inside the semaphore. */
  predicate Inside(s: Stage) { 1 <= Rank(s) <= 6 }

  /** Holding the lock of its host. */
  predicate HoldsHost(s: Stage) { 2 <= Rank(s) <= 5 }

  /** Its finding has been appended. */
  predicate Reported(s: Stage) { Rank(s) >= 5 }

  /** One certificate of an endpoint entered: the endpoint is named once however often it comes. */
  function Enter(inventory: Inventory, fingerprint: Fingerprint, usage: string): Inventory {
    var usages := if fingerprint in inventory then inventory[fingerprint] else [];
    inventory[fingerprint := if usage in usages then usages else usages + [usage]]
  }

  function EnterVisit(inventory: Inventory, visit: Visit): Inventory {
    Enter(inventory, visit.fingerprint, visit.usage)
  }

  // ------------------------------------------------------------------- steps

  ghost predicate ValidConfig(c: Config) {
    |c.chains| == |c.targets|
  }

  function Init(c: Config): State {
    State(seq(|c.targets|, _ => Task(Queued, 0, false)), [], map[])
  }

  function InsideSet(tasks: seq<Task>): set<nat> {
    set i: nat | 0 <= i < |tasks| && Inside(tasks[i].stage)
  }

  ghost predicate HostFree(c: Config, s: State, host: string)
    requires ValidConfig(c) && |s.tasks| == |c.targets|
  {
    forall i :: 0 <= i < |s.tasks| && HoldsHost(s.tasks[i].stage) ==> c.targets[i].hostname != host
  }

  /** Task `t` takes one step; a probe may serve its next certificate, succeed or fail. */
  ghost predicate Step(c: Config, s: State, t: nat, s': State)
    requires ValidConfig(c) && |s.tasks| == |c.targets|
  {
    t < |s.tasks| &&
    var task := s.tasks[t];
    var target := c.targets[t];
    match task.stage
    case Queued =>
      |InsideSet(s.tasks)| < c.concurrency && s' == s.(tasks := s.tasks[t := task.(stage := Admitted)])
    case Admitted =>
      HostFree(c, s, target.hostname) && s' == s.(tasks := s.tasks[t := task.(stage := HostLocked)])
    case HostLocked =>
      s' == s.(tasks := s.tasks[t := task.(stage := Paced)])
    case Paced =>
      || (exists ok :: s' == s.(tasks := s.tasks[t := task.(stage := Probed, ok := ok)]))
      || (task.served < |c.chains[t]|
          && s' == s.(tasks := s.tasks[t := task.(served := task.served + 1)],
                      inventory := EnterVisit(s.inventory, c.chains[t][task.served])))
    case Probed =>
      s' == s.(tasks := s.tasks[t := task.(stage := Appended)], findings := s.findings + [Outcome(t, task.ok)])
    case Appended =>
      s' == s.(tasks := s.tasks[t := task.(stage := HostReleased)])
    case HostReleased =>
      s' == s.(tasks := s.tasks[t := task.(stage := Left)])
    case Left =>
      false
  }

  // -------------------------------------------------------------- invariants

  ghost predicate HostsExclusive(c: Config, s: State)
    requires ValidConfig(c) && |s.tasks| == |c.targets|
  {
    forall i, j :: 0 <= i < j < |s.tasks| && HoldsHost(s.tasks[i].stage) && HoldsHost(s.tasks[j].stage) ==>
      c.targets[i].hostname != c.targets[j].hostname
  }

  ghost predicate HasFinding(findings: seq<Outcome>, t: int) {
    exists k :: 0 <= k < |findings| && findings[k].task == t
  }

  /** Every reported task is in the findings once with its outcome, and no other is. */
  ghost predicate FindingsMatch(s: State) {
    && (forall i, j :: 0 <= i < j < |s.findings| ==> s.findings[i].task != s.findings[j].task)
    && (forall k :: 0 <= k < |s.findings| ==>
          var f := s.findings[k];
          f.task < |s.tasks| && Reported(s.tasks[f.task].stage) && f.ok == s.tasks[f.task].ok)
    && (forall t :: 0 <= t < |s.tasks| && Reported(s.tasks[t].stage) ==> HasFinding(s.findings, t))
  }

  /** Task `i` was served this certificate from this endpoint. */
  ghost predicate ServedBy(c: Config, s: State, i: int, fingerprint: Fingerprint, usage: string)
    requires ValidConfig(c) && |s.tasks| == |c.targets|
  {
    && 0 <= i < |s.tasks| && s.tasks[i].served <= |c.chains[i]|
    && Visit(fingerprint, usage) in c.chains[i][..s.tasks[i].served]
  }

  ghost predicate Distinct(usages: seq<string>) {
    forall i, j :: 0 <= i < j < |usages| ==> usages[i] != usages[j]
  }

  ghost predicate AllDistinct(inventory: Inventory) {
    forall f :: f in inventory ==> Distinct(inventory[f])
  }

  ghost predicate Lists(inventory: Inventory, fingerprint: Fingerprint, usage: string) {
    fingerprint in inventory && usage in inventory[fingerprint]
  }

  /** The inventory lists exactly what was served, without repeats. */
  ghost predicate InventoryMatch(c: Config, s: State)
    requires ValidConfig(c) && |s.tasks| == |c.targets|
  {
    && (forall i :: 0 <= i < |s.tasks| ==> s.tasks[i].served <= |c.chains[i]|)
    && AllDistinct(s.inventory)
    && (forall f, u :: Lists(s.inventory, f, u) <==> exists i :: ServedBy(c, s, i, f, u))
  }

  ghost predicate Inv(c: Config, s: State) {
    && ValidConfig(c) && |s.tasks| == |c.targets|
    && |InsideSet(s.tasks)| <= c.concurrency
    && HostsExclusive(c, s)
    && FindingsMatch(s)
    && InventoryMatch(c, s)
  }

  lemma InitInv(c: Config)
    requires ValidConfig(c)
    ensures Inv(c, Init(c))
  {
  }

  lemma InsideAfter(tasks: seq<Task>, t: nat, task: Task)
    requires t < |tasks|
    ensures InsideSet(tasks[t := task]) == if Inside(task.stage) then InsideSet(tasks) + {t} else InsideSet(tasks) - {t}
  {
  }

  lemma StepKeepsCount(c: Config, s: State, t: nat, s': State)
    requires Inv(c, s) && Step(c, s, t, s')
    ensures |s'.tasks| == |s.tasks| && |InsideSet(s'.tasks)| <= c.concurrency
  {
    InsideAfter(s.tasks, t, s'.tasks[t]);
    if s.tasks[t].stage != Queued {
      assert InsideSet(s'.tasks) <= InsideSet(s.tasks);
      SubsetNoLarger(InsideSet(s'.tasks), InsideSet(s.tasks));
    }
  }

  lemma StepKeepsHosts(c: Config, s: State, t: nat, s': State)
    requires Inv(c, s) && Step(c, s, t, s')
    ensures HostsExclusive(c, s')
  {
  }

  lemma FindingsUpdate(s: State, t: nat, task: Task, findings: seq<Outcome>, inventory: Inventory)
    requires FindingsMatch(s) && t < |s.tasks|
    requires if Reported(task.stage) && !Reported(s.tasks[t].stage) then findings == s.findings + [Outcome(t, task.ok)]
             else findings == s.findings && Reported(task.stage) == Reported(s.tasks[t].stage)
                  && (Reported(task.stage) ==> task.ok == s.tasks[t].ok)
    ensures FindingsMatch(State(s.tasks[t := task], findings, inventory))
  {
    var s' := State(s.tasks[t := task], findings, inventory);
    forall i | 0 <= i < |s'.tasks| && Reported(s'.tasks[i].stage) ensures HasFinding(findings, i) {
      if Reported(s.tasks[i].stage) {
        assert HasFinding(s.findings, i);
        var k :| 0 <= k < |s.findings| && s.findings[k].task == i;
        assert findings[k].task == i;
      } else {
        assert findings[|s.findings|].task == i;
      }
    }
  }

  lemma StepKeepsFindings(c: Config, s: State, t: nat, s': State)
    requires Inv(c, s) && Step(c, s, t, s')
    ensures FindingsMatch(s')
  {
    hide FindingsMatch, HostsExclusive, InventoryMatch, HostFree, Enter;
    FindingsUpdate(s, t, s'.tasks[t], s'.findings, s'.inventory);
    assert s' == State(s.tasks[t := s'.tasks[t]], s'.findings, s'.inventory);
  }

  lemma Entered(inventory: Inventory, fingerprint: Fingerprint, usage: string)
    requires AllDistinct(inventory)
    ensures var r := Enter(inventory, fingerprint, usage);
            && AllDistinct(r)
            && (forall f, u :: Lists(r, f, u) <==> Lists(inventory, f, u) || (f == fingerprint && u == usage))
  {
  }

  lemma StepKeepsInventory(c: Config, s: State, t: nat, s': State)
    requires Inv(c, s) && Step(c, s, t, s')
    ensures InventoryMatch(c, s')
  {
    var before, after := s.tasks[t].served, s'.tasks[t].served;
    if after == before + 1 {
      var visit := c.chains[t][before];
      var fp, usage := visit.fingerprint, visit.usage;
      Entered(s.inventory, fp, usage);
      assert c.chains[t][..after] == c.chains[t][..before] + [visit];
      forall f, u ensures Lists(s'.inventory, f, u) <==> exists i :: ServedBy(c, s', i, f, u) {
        if i :| ServedBy(c, s, i, f, u) {
          assert ServedBy(c, s', i, f, u);
        }
        if f == fp && u == usage {
          assert ServedBy(c, s', t, f, u);
        }
        if i :| ServedBy(c, s', i, f, u) {
          assert ServedBy(c, s, i, f, u) || (i == t && f == fp && u == usage);
        }
      }
    } else {
      forall f, u ensures Lists(s'.inventory, f, u) <==> exists i :: ServedBy(c, s', i, f, u) {
        if i :| ServedBy(c, s, i, f, u) {
          assert ServedBy(c, s', i, f, u);
        }
        if i :| ServedBy(c, s', i, f, u) {
          assert ServedBy(c, s, i, f, u);
        }
      }
    }
  }

  lemma StepKeepsInv(c: Config, s: State, t: nat, s': State)
    requires Inv(c, s) && Step(c, s, t, s')
    ensures Inv(c, s')
  {
    hide Step, HostsExclusive, FindingsMatch, InventoryMatch;
    StepKeepsCount(c, s, t, s');
    StepKeepsHosts(c, s, t, s');
    StepKeepsFindings(c, s, t, s');
    StepKeepsInventory(c, s, t, s');
  }

  // ---------------------------------------------------------------- progress

  ghost predicate AllLeft(s: State) {
    forall i :: 0 <= i < |s.tasks| ==> s.tasks[i].stage == Left
  }

  ghost predicate CanStep(c: Config, s: State)
    requires ValidConfig(c)
  {
    |s.tasks| == |c.targets| && exists t, s' :: Step(c, s, t, s')
  }

  /** A task past the host lock needs nothing from anyone else. */
  lemma HolderSteps(c: Config, s: State, t: nat)
    requires ValidConfig(c) && |s.tasks| == |c.targets| && t < |s.tasks|
    requires 2 <= Rank(s.tasks[t].stage) <= 6
    ensures CanStep(c, s)
  {
    var task := s.tasks[t];
    var s' := match task.stage
      case HostLocked => s.(tasks := s.tasks[t := task.(stage := Paced)])
      case Paced => s.(tasks := s.tasks[t := task.(stage := Probed, ok := true)])
      case Probed => s.(tasks := s.tasks[t := task.(stage := Appended)], findings := s.findings + [Outcome(t, task.ok)])
      case Appended => s.(tasks := s.tasks[t := task.(stage := HostReleased)])
      case HostReleased => s.(tasks := s.tasks[t := task.(stage := Left)]);
    assert Step(c, s, t, s');
  }

  /** Tasks hold the semaphore while they wait for a host lock, and still nothing can stop the
      batch before every task has left, if at least one task may be inside at all. */
  lemma NoDeadlock(c: Config, s: State)
    requires Inv(c, s) && c.concurrency > 0
    ensures CanStep(c, s) <==> !AllLeft(s)
  {
    if !AllLeft(s) {
      if t: nat :| t < |s.tasks| && 2 <= Rank(s.tasks[t].stage) <= 6 {
        HolderSteps(c, s, t);
      } else if t: nat :| t < |s.tasks| && s.tasks[t].stage == Admitted {
        assert Step(c, s, t, s.(tasks := s.tasks[t := s.tasks[t].(stage := HostLocked)]));
      } else {
        assert InsideSet(s.tasks) == {};
        var t: nat :| t < |s.tasks| && s.tasks[t].stage != Left;
        assert s.tasks[t].stage == Queued;
        assert Step(c, s, t, s.(tasks := s.tasks[t := s.tasks[t].(stage := Admitted)]));
      }
    }
  }

  /** A semaphore of zero admits nobody. */
  lemma ZeroConcurrencyStalls(c: Config)
    requires ValidConfig(c) && c.concurrency == 0
    ensures !CanStep(c, Init(c))
  {
  }

  /** The steps a task may still take. */
  function Remaining(task: Task, chain: seq<Visit>): nat {
    7 - Rank(task.stage) + if Rank(task.stage) <= 3 && task.served <= |chain| then |chain| - task.served else 0
  }

  function Measure(tasks: seq<Task>, chains: seq<seq<Visit>>): nat
    requires |tasks| == |chains|
  {
    if tasks == [] then 0 else Remaining(tasks[0], chains[0]) + Measure(tasks[1..], chains[1..])
  }

  lemma {:induction false} MeasureUpdate(tasks: seq<Task>, chains: seq<seq<Visit>>, t: nat, task: Task)
    requires |tasks| == |chains| && t < |tasks|
    ensures Measure(tasks[t := task], chains)
         == Measure(tasks, chains) - Remaining(tasks[t], chains[t]) + Remaining(task, chains[t])
  {
    if t == 0 {
      assert tasks[t := task][1..] == tasks[1..];
    } else {
      MeasureUpdate(tasks[1..], chains[1..], t - 1, task);
      assert tasks[t := task][1..] == tasks[1..][t - 1 := task];
    }
  }

  /** Every step brings the end closer. */
  lemma StepDescends(c: Config, s: State, t: nat, s': State)
    requires Inv(c, s) && Step(c, s, t, s')
    ensures Measure(s'.tasks, c.chains) < Measure(s.tasks, c.chains)
  {
    hide HostsExclusive, InventoryMatch, FindingsMatch, Enter, InsideSet, Measure;
    assert s'.tasks == s.tasks[t := s'.tasks[t]];
    MeasureUpdate(s.tasks, c.chains, t, s'.tasks[t]);
  }

  // -------------------------------------------------------------- whole runs

  ghost predicate Next(c: Config, s: State, s': State)
    requires ValidConfig(c)
  {
    |s.tasks| == |c.targets| && exists t :: Step(c, s, t, s')
  }

  /** Any interleaving from the start. */
  ghost predicate IsRun(c: Config, run: seq<State>) {
    && ValidConfig(c) && run != [] && run[0] == Init(c)
    && forall i :: 0 <= i < |run| - 1 ==> Next(c, run[i], run[i + 1])
  }

  lemma {:induction false} RunKeeps(c: Config, run: seq<State>, i: nat)
    requires IsRun(c, run) && i < |run|
    ensures Inv(c, run[i])
    ensures Measure(run[i].tasks, c.chains) + i <= Measure(Init(c).tasks, c.chains)
  {
    hide Step, Inv;
    if i == 0 {
      InitInv(c);
      assert Inv(c, run[0]);
    } else {
      RunKeeps(c, run, i - 1);
      assert Next(c, run[i - 1], run[i - 1 + 1]);
      var t :| Step(c, run[i - 1], t, run[i]);
      StepKeepsInv(c, run[i - 1], t, run[i]);
      StepDescends(c, run[i - 1], t, run[i]);
    }
    InvSizes(c, run[i]);
  }

  lemma InvSizes(c: Config, s: State)
    requires Inv(c, s)
    ensures ValidConfig(c) && |s.tasks| == |c.targets|
  {
  }

  /** Safety over every interleaving: the semaphore and the host locks hold in every state, the
      inventory is exact in every state, and no run is longer than the work there is. */
  lemma EveryStateSafe(c: Config, run: seq<State>, i: nat)
    requires IsRun(c, run) && i < |run|
    ensures |run[i].tasks| == |c.targets|
    ensures |InsideSet(run[i].tasks)| <= c.concurrency && HostsExclusive(c, run[i])
    ensures FindingsMatch(run[i]) && InventoryMatch(c, run[i])
    ensures |run| <= 1 + Measure(Init(c).tasks, c.chains)
  {
    RunKeeps(c, run, i);
    RunKeeps(c, run, |run| - 1);
  }

  /** A run that can go no further has exactly one finding for each target. */
  lemma EveryTargetReported(c: Config, run: seq<State>)
    requires IsRun(c, run) && c.concurrency > 0
    requires !CanStep(c, run[|run| - 1])
    ensures var s := run[|run| - 1];
            && AllLeft(s) && |s.findings| == |c.targets|
            && (forall t :: 0 <= t < |c.targets| ==> HasFinding(s.findings, t))
            && (forall j, k :: 0 <= j < k < |s.findings| ==> s.findings[j].task != s.findings[k].task)
  {
    var s := run[|run| - 1];
    RunKeeps(c, run, |run| - 1);
    NoDeadlock(c, s);
    hide IsRun, CanStep, HostsExclusive, InventoryMatch, FindingsMatch;
    OneFindingEach(s);
  }

  /** When every task has left, there is one finding for each. */
  lemma OneFindingEach(s: State)
    requires AllLeft(s) && FindingsMatch(s)
    ensures |s.findings| == |s.tasks|
    ensures forall t :: 0 <= t < |s.tasks| ==> HasFinding(s.findings, t)
    ensures forall j, k :: 0 <= j < k < |s.findings| ==> s.findings[j].task != s.findings[k].task
  {
    var ids := Reporters(s.findings);
    forall t | 0 <= t < |s.tasks| ensures HasFinding(s.findings, t) && t in ids {
      assert s.tasks[t].stage == Left;
      var k :| 0 <= k < |s.findings| && s.findings[k].task == t;
    }
    RangeCount(|s.tasks|);
    assert ids == Range(|s.tasks|);
    DistinctCount(s.findings);
  }

  ghost function Reporters(findings: seq<Outcome>): set<nat> {
    set k | 0 <= k < |findings| :: findings[k].task
  }

  lemma {:induction false} DistinctCount(findings: seq<Outcome>)
    requires forall j, k :: 0 <= j < k < |findings| ==> findings[j].task != findings[k].task
    ensures |Reporters(findings)| == |findings|
  {
    if findings != [] {
      var last := |findings| - 1;
      var shorter := findings[..last];
      DistinctCount(shorter);
      forall id ensures id in Reporters(findings) <==> id in Reporters(shorter) + {findings[last].task} {
        if k :| 0 <= k < last && findings[k].task == id {
          assert shorter[k].task == id;
        }
      }
      assert Reporters(findings) == Reporters(shorter) + {findings[last].task};
    }
  }

  ghost function Range(n: nat): set<nat> {
    if n == 0 then {} else Range(n - 1) + {n - 1}
  }

  lemma {:induction false} RangeCount(n: nat)
    ensures |Range(n)| == n && forall t: nat :: t in Range(n) <==> t < n
  {
    if n > 0 {
      RangeCount(n - 1);
    }
  }

  // ---------------------------------------------------- the shared inventory

  class Certificate {
    const fingerprint: Fingerprint
    var usages: seq<string>

    constructor (fingerprint: Fingerprint)
      ensures this.fingerprint == fingerprint && usages == []
    {
      this.fingerprint, usages := fingerprint, [];
    }
  }

  /** The certificates of a scan, shared by all its probes. */
  class CertificateStore {
    var certificates: map<Fingerprint, Certificate>

    ghost predicate Valid()
      reads this, certificates.Values
    {
      forall f :: f in certificates ==> certificates[f].fingerprint == f
    }

    ghost function Contents(): Inventory
      reads this, certificates.Values
    {
      map f | f in certificates :: certificates[f].usages
    }

    constructor ()
      ensures Valid() && Contents() == map[]
    {
      certificates := map[];
    }

    method EnterCertificate(fingerprint: Fingerprint, usage: string)
      requires Valid()
      modifies this, certificates.Values
      ensures Valid() && Contents() == Enter(old(Contents()), fingerprint, usage)
      ensures forall f :: f in certificates ==> certificates[f] in old(certificates).Values || fresh(certificates[f])
    {
      if fingerprint !in certificates {
        var created := new Certificate(fingerprint);
        certificates := certificates[fingerprint := created];
      }
      var stored := certificates[fingerprint];
      if usage !in stored.usages {
        stored.usages := stored.usages + [usage];
      }
    }

    /** Enters every certificate that parses, in order; a malformed one is passed over. */
    method EnterChain(chain: seq<Option<Fingerprint>>, usage: string) returns (fingerprints: seq<Fingerprint>)
      requires Valid()
      modifies this, certificates.Values
      ensures Valid() && fingerprints == Parsed(chain)
      ensures Contents() == EnterAll(old(Contents()), Parsed(chain), usage)
    {
      fingerprints := [];
      for i := 0 to |chain|
        invariant Valid()
        invariant fingerprints == Parsed(chain[..i])
        invariant Contents() == EnterAll(old(Contents()), fingerprints, usage)
        invariant forall f :: f in certificates ==>
                  certificates[f] in old(certificates).Values || fresh(certificates[f])
      {
        ParsedSnoc(chain, i);
        if chain[i].Some? {
          EnterCertificate(chain[i].value, usage);
          fingerprints := fingerprints + [chain[i].value];
        }
      }
      assert chain[..|chain|] == chain;
    }
  }

  function Parsed(chain: seq<Option<Fingerprint>>): seq<Fingerprint> {
    if chain == [] then []
    else Parsed(chain[..|chain| - 1]) + (if chain[|chain| - 1].Some? then [chain[|chain| - 1].value] else [])
  }

  lemma ParsedSnoc(chain: seq<Option<Fingerprint>>, i: nat)
    requires i < |chain|
    ensures Parsed(chain[..i + 1]) == Parsed(chain[..i]) + (if chain[i].Some? then [chain[i].value] else [])
  {
    assert chain[..i + 1][..i] == chain[..i];
  }

  /** What parses, in order: certificate by certificate, a malformed one leaving nothing. */
  lemma {:induction false} ParsedMeans(a: seq<Option<Fingerprint>>, b: seq<Option<Fingerprint>>,
                                       fingerprint: Fingerprint)
    ensures Parsed([]) == [] && Parsed([None]) == [] && Parsed([Some(fingerprint)]) == [fingerprint]
    ensures Parsed(a + b) == Parsed(a) + Parsed(b)
    decreases b
  {
    var one: seq<Option<Fingerprint>> := [Some(fingerprint)];
    var none: seq<Option<Fingerprint>> := [None];
    assert one[..0] == [] && none[..0] == [];
    if b == [] {
      assert a + b == a;
    } else {
      var last := |b| - 1;
      ParsedMeans(a, b[..last], fingerprint);
      assert (a + b)[..|a + b| - 1] == a + b[..last];
    }
  }

  /** A certificate entered for an endpoint: the endpoint is named last under it if it was not named there, and nothing
      else changes. */
  lemma EnterMeans(inventory: Inventory, fingerprint: Fingerprint, usage: string, r: Inventory)
    requires r == Enter(inventory, fingerprint, usage)
    ensures r.Keys == inventory.Keys + {fingerprint}
    ensures forall f :: f in inventory && f != fingerprint ==> r[f] == inventory[f]
    ensures fingerprint !in inventory ==> r[fingerprint] == [usage]
    ensures fingerprint in inventory ==>
              r[fingerprint] == if usage in inventory[fingerprint] then inventory[fingerprint]
                                else inventory[fingerprint] + [usage]
  {
  }

  /** A probe may be served its next certificate, and may succeed or fail whatever it was served. */
  lemma ProbeMayEnd(c: Config, s: State, t: nat, ok: bool)
    requires ValidConfig(c) && |s.tasks| == |c.targets| && t < |s.tasks| && s.tasks[t].stage == Paced
    ensures Step(c, s, t, s.(tasks := s.tasks[t := s.tasks[t].(stage := Probed, ok := ok)]))
    ensures s.tasks[t].served < |c.chains[t]| ==>
              var visit := c.chains[t][s.tasks[t].served];
              Step(c, s, t, s.(tasks := s.tasks[t := s.tasks[t].(served := s.tasks[t].served + 1)],
                               inventory := Enter(s.inventory, visit.fingerprint, visit.usage)))
  {
  }

  /** Entering a chain one certificate after the other. */
  function EnterAll(inventory: Inventory, fingerprints: seq<Fingerprint>, usage: string): Inventory {
    if fingerprints == [] then inventory
    else Enter(EnterAll(inventory, fingerprints[..|fingerprints| - 1], usage), fingerprints[|fingerprints| - 1], usage)
  }

  /** Afterwards the inventory lists what it listed and this endpoint under each of the certificates, and no
      list gains a repeat. */
  lemma {:induction false} EnterAllLists(inventory: Inventory, fingerprints: seq<Fingerprint>, usage: string)
    requires AllDistinct(inventory)
    ensures var r := EnterAll(inventory, fingerprints, usage);
            && AllDistinct(r)
            && (forall f, u :: Lists(r, f, u) <==> Lists(inventory, f, u) || (f in fingerprints && u == usage))
  {
    hide Enter, AllDistinct, Lists;
    if fingerprints != [] {
      var last: nat := |fingerprints| - 1;
      EnterAllLists(inventory, fingerprints[..last], usage);
      var before := EnterAll(inventory, fingerprints[..last], usage);
      Entered(before, fingerprints[last], usage);
      assert EnterAll(inventory, fingerprints, usage) == Enter(before, fingerprints[last], usage);
      assert fingerprints == fingerprints[..last] + [fingerprints[last]];
      forall f ensures f in fingerprints <==> f in fingerprints[..last] || f == fingerprints[last] {}
    }
  }

  /** Probing an endpoint again, as a retry does, changes nothing. */
  lemma {:induction false} ReentryChangesNothing(inventory: Inventory, fingerprints: seq<Fingerprint>, usage: string)
    requires forall f :: f in fingerprints ==> Lists(inventory, f, usage)
    ensures EnterAll(inventory, fingerprints, usage) == inventory
  {
    if fingerprints != [] {
      ReentryChangesNothing(inventory, fingerprints[..|fingerprints| - 1], usage);
      assert Lists(inventory, fingerprints[|fingerprints| - 1], usage);
    }
  }
}
