/** Data model of the behavior-tree runtime: node kinds, statuses, host answers,
    lifecycle events, and the run-time tree itself. */
module BtTypes {
  import opened Wrappers

  datatype Kind =
    | Leaf | Sequence | Fallback | Inverter | ForceSuccess | ForceFailure
    | Retry | Repeat | Timeout | Delay | Parallel | ReactiveSequence | RunOnce
    | IfThenElse | Precondition | WhileDo | Switch | KeepRunning
    | Pipeline | EntryUpdated | ConsumeQueue | ReactiveFallback

  datatype Status = Success | Failure | Running

  /** Return codes. `Host(n)` is any error code a callback chooses. */
  datatype Code = Ok | EInval | EBusy | ENoBufs | Host(n: int)

  /** One answer of the host to one callback (or clock read). Each callback reads
      only the components it returns; `status == None` is a value outside the
      three legal statuses. */
  datatype Answer = Answer(
    code: Code, status: Option<Status>, flag: bool,
    index: nat, limit: nat, duration: nat, now: nat)

  const DEFAULT_ANSWER := Answer(Ok, Some(Success), false, 0, 0, 0, 0)

  /** The ids from the root down to a node, the node itself last. */
  type Path = seq<nat>

  /** What the runtime does to its host, in order. For the void hooks the last
      component says whether a hook is installed (otherwise the action is silent). */
  datatype Event =
    | Handler(path: Path, answer: Option<Status>)
    | Halt(path: Path, hooked: bool)
    | Resolve(path: Path, code: Code)
    | Prepare(path: Path, index: nat, code: Code)
    | Complete(path: Path, index: nat, status: Status, code: Code)
    | PipelineAbort(path: Path, index: nat, hooked: bool)
    | Changed(path: Path, code: Code, flag: bool)
    | Begin(path: Path, code: Code, flag: bool)
    | Finish(path: Path, code: Code, flag: bool)
    | QueueAbort(path: Path, hooked: bool)
    | Condition(path: Path, code: Code, answer: Option<Status>)
    | Select(path: Path, code: Code, index: nat)
    | Clock(path: Path, now: nat)
    | Enter(path: Path, branch: Path, index: nat, first: bool, code: Code)
    | Step(path: Path, branch: Path, index: nat, status: Status, code: Code)
    | Join(path: Path, status: Status, code: Code)
    | BranchFinish(path: Path, branch: Path, index: nat, status: Status, code: Code)
    | BranchAbort(path: Path, branch: Path, index: nat, hooked: bool)

  /** An attached parameter resolver; `token` stands for the callback and its user pointer. */
  datatype Resolver = NoResolver | LimitResolver(token: nat) | DurationResolver(token: nat)

  /** The part of a node that ticking never changes. `hooks` is the presence of the
      Parallel enter/step/join/finish quadruple, `condition` that of a predicate
      callback, `abort` that of the pipeline, queue or Parallel abort hook. */
  datatype Config = Config(
    path: Path, kind: Kind, halt: bool, condition: bool, hooks: bool, abort: bool,
    limit: nat, duration: nat, resolver: Resolver)

  /** The part of a node that ticking does change. `cursor` is a child index or NO_CHILD. */
  datatype Run = Run(
    last: Status, cursor: int, counter: nat, limit: nat, duration: nat,
    deadline: nat, timerBegan: nat, timerStarted: bool, delayElapsed: bool,
    evaluated: bool, runOnceComplete: bool, observed: bool,
    prepared: bool, branchPrepared: bool, running: bool)

  const NO_CHILD: int := -1
  const UINT64_MAX: nat := 0xFFFF_FFFF_FFFF_FFFF

  datatype Tree = Node(cfg: Config, run: Run, kids: seq<Tree>)

  /** The static skeleton of a tree. */
  datatype Shape = Shape(cfg: Config, kids: seq<Shape>)

  function ShapeOf(t: Tree): Shape {
    Shape(t.cfg, seq(|t.kids|, i requires 0 <= i < |t.kids| => ShapeOf(t.kids[i])))
  }

  lemma ShapeKid(t: Tree, i: nat)
    requires i < |t.kids|
    ensures ShapeOf(t).kids[i] == ShapeOf(t.kids[i])
  {
  }

  /** Two states of the same tree. */
  ghost predicate Alike(t: Tree, u: Tree) {
    ShapeOf(t) == ShapeOf(u) && t.cfg == u.cfg && |t.kids| == |u.kids|
  }

  /** Run state of a node that has just been added with this configuration. */
  function FreshRun(cfg: Config): Run {
    Run(Failure, NO_CHILD, 0, cfg.limit, cfg.duration, 0, 0,
        false, false, false, false, false, false, false, false)
  }

  predicate IsLoop(k: Kind) {
    k == Retry || k == Repeat || k == WhileDo || k == KeepRunning
  }

  predicate IsTimed(k: Kind) { k == Timeout || k == Delay }

  predicate IsGuarded(k: Kind) { k == IfThenElse || k == Precondition || k == WhileDo }

  predicate IsAdapter(k: Kind) { k == Pipeline || k == ConsumeQueue }

  predicate IsSingleChild(k: Kind) {
    k == Inverter || k == ForceSuccess || k == ForceFailure || k == Retry || k == Repeat ||
    k == Timeout || k == Delay || k == RunOnce || k == KeepRunning || k == EntryUpdated ||
    k == ConsumeQueue
  }

  /** Start plus duration, saturating at the largest 64-bit value. */
  function Deadline(start: nat, duration: nat): nat {
    if duration > UINT64_MAX - start then UINT64_MAX else start + duration
  }
}
