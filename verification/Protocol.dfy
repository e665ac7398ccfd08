/** The durable world of one Task: refs, PR facts, local workspace and the LCK store,
    the steps each actor may take on it, and the invariant every step keeps. */
module Protocol {
  import opened Wrappers
  import opened CommitDag
  import Checks

  type Id = nat
  type Hash = nat

  /** Normal return, or an LckStopError. */
  datatype Outcome = Done | Stop

  // ---- durable store -------------------------------------------------------

  datatype Verdict = PASS | FAIL

  // `derived` stands for merge base, effective diff and changed files; `artifact` for
  // the Research artifact, whose outcome the profile may still bind at completion.
  datatype Identity = Identity(pr: nat, base: Commit, head: Commit, body: Hash, derived: Hash, artifact: Hash)

  predicate SameTarget(x: Identity, y: Identity) {
    x.pr == y.pr && x.base == y.base && x.head == y.head && x.body == y.body && x.derived == y.derived
  }

  datatype Boundary = Boundary(source: Id, head: Commit)
  datatype Candidate = Candidate(op: Id, start: Commit, head: Commit, tree: Tree)
  datatype Session = Session(review: Id, op: Id, start: Commit, pr: nat, base: Commit, candidate: Option<Candidate>)
  datatype Record = Record(review: Id, verdict: Verdict, identity: Identity)
  datatype Latest = Latest(review: Id, verdict: Verdict)
  datatype Guard = Guard(review: Id, identity: Identity)
  datatype Receipt = Receipt(review: Id, start: Commit, pr: nat, base: Commit, summary: Hash)
  datatype Marker = InFlight | HandedOff(review: Id)

  /** Review guards, records and the latest pointer.  `sealed` is history: every guard ever
      written, kept after the guard file is deleted; ids below `nextId` have been issued. */
  datatype Reviews = Reviews(
    latest: Option<Latest>,
    records: map<Id, Record>,
    guards: map<Id, Guard>,
    sealed: map<Id, Guard>,
    nextId: Id)

  /** Everything LCK keeps under .workflow.local. */
  datatype Store = Store(
    boundary: Option<Boundary>,
    session: Option<Session>,
    receipts: map<Id, Receipt>,
    marker: Option<Marker>,
    reviews: Reviews)

  // ---- local workspace -----------------------------------------------------

  datatype Head = OnTask | At(commit: Commit)
  datatype GitOp = NoGitOp | Rebasing | OtherGitOp

  /** `branch` is the local Task ref; `files` is the whole worktree, untracked included. */
  datatype Work = Work(branch: Option<Commit>, head: Head, index: Tree, files: Tree, gitop: GitOp) {
    function HeadCommit(): Commit {
      match head
      case OnTask => if branch.Some? then branch.value else UNBORN
      case At(c) => c
    }

    predicate Unborn() { head.OnTask? && branch.None? }

    predicate Clean() {
      files == index == HeadCommit().tree
    }

    /** Clean on the Task branch, with no Git operation in progress. */
    predicate Settled() {
      head.OnTask? && branch.Some? && Clean() && gitop == NoGitOp
    }

    /** In the middle of a rebase that has not touched the branch of `before`. */
    predicate Stuck(before: Work) {
      branch == before.branch && gitop == Rebasing
    }

    /** The exact clean Task branch workspace at `c`. */
    predicate CleanAt(c: Commit) {
      head.OnTask? && branch == Some(c) && Clean()
    }
  }

  const UNBORN := Commit([], 0, 0)

  // ---- remote side ---------------------------------------------------------

  datatype Pr = Pr(number: nat, head: Commit, base: Commit, open: bool, draft: bool, sameBranch: bool, sameRepo: bool,
                   rollup: Option<seq<Checks.Entry>>, mergeable: bool)

  /** Who put the current remote Task head there.  Heads pushed with their session's candidate or by
      Refresh owe a fresh Review; `judged` says that one has been completed since. */
  datatype Origin =
    | Other
    | Remediated(head: Commit, judged: bool)
    | Refreshed(op: Id, start: Commit, head: Commit, prior: Origin, judged: bool)

  predicate Tracked(o: Origin) { !o.Other? }

  /** The head is on the remote and nothing has judged it since it got there. */
  predicate Owes(o: Origin) { !o.Other? && !o.judged }

  function WithJudgment(o: Origin): Origin { if o.Other? then o else o.(judged := true) }

  ghost predicate OriginOk(o: Origin, remote: Option<Commit>, nextId: Id) {
    match o
    case Other => true
    case Remediated(h, _) => remote == Some(h)
    case Refreshed(op, start, h, prior, _) => op < nextId && remote == Some(h) && OriginOk(prior, Some(start), op)
  }

  // ---- the running process (history only, nothing the code reads) ------------

  datatype RefreshRun = RefreshRun(op: Id, start: Commit, new_: Commit, main: Commit)

  /** basis: Task head of this operation's snapshot.  gated, gateLeft: files the last passing profile
      gates started on and left behind.  formal: files the last passing formal validation started on.
      target, reviewed: base and head of the PR as this operation saw it open, and of the last passing
      Review validation.  verdict: the Review whose record this process has written, and its head. */
  datatype Proc = Proc(basis: Option<Commit>, gated: Option<Tree>, gateLeft: Option<Tree>, formal: Option<Tree>,
                       refresh: Option<RefreshRun>, target: Option<(Commit, Commit)>,
                       reviewed: Option<(Commit, Commit)>, verdict: Option<(Id, Commit)>)

  const IDLE := Proc(None, None, None, None, None, None, None, None)

  /** Neither a Refresh nor a verdict is under way. */
  predicate Ordinary(p: Proc) { p.refresh.None? && p.verdict.None? }

  datatype State = State(
    remote: Option<Commit>,
    origin: Origin,
    main: Commit,
    pr: Option<Pr>,
    body: Hash,
    work: Work,
    store: Store,
    proc: Proc)

  // ---- invariant -----------------------------------------------------------

  /** Something durable still forces a Review of this head. */
  predicate CoveredHead(st: Store, head: Commit) {
    st.boundary.Some? || (st.session.Some? && st.session.value.start != head)
  }

  ghost predicate Covered(s: State) {
    Owes(s.origin) ==> s.remote.Some? && CoveredHead(s.store, s.remote.value)
  }

  predicate Mine(o: Origin, op: Id) { o.Refreshed? && o.op == op }

  /** While the running Refresh's candidate push is the last write to the remote ref,
      the boundary for exactly that candidate is stored. */
  ghost predicate CandidateGuarded(s: State) {
    s.proc.refresh.Some? && Mine(s.origin, s.proc.refresh.value.op) ==>
      var run := s.proc.refresh.value;
      && s.origin.start == run.start && s.origin.head == run.new_
      && s.store.boundary == Some(Boundary(run.op, run.new_))
  }

  ghost predicate RecordOk(rv: Reviews, id: Id) {
    id in rv.records ==>
      && rv.records[id].review == id && id in rv.sealed
      && SameTarget(rv.sealed[id].identity, rv.records[id].identity)
  }

  ghost predicate GuardOk(rv: Reviews, id: Id) {
    && (id in rv.guards ==> id in rv.sealed && rv.guards[id] == rv.sealed[id])
    && (id in rv.sealed ==> rv.sealed[id].review == id && id < rv.nextId)
  }

  /** Every record is about a target that an earlier Review Prepare sealed under the same id,
      and the latest pointer always leads to a record. */
  ghost predicate Provenance(rv: Reviews) {
    && (forall id: Id {:trigger RecordOk(rv, id)} :: RecordOk(rv, id))
    && (forall id: Id {:trigger GuardOk(rv, id)} :: GuardOk(rv, id))
    && (rv.latest.Some? ==> rv.latest.value.review in rv.records)
  }

  ghost predicate Inv(s: State) {
    && OriginOk(s.origin, s.remote, s.store.reviews.nextId)
    && Covered(s)
    && CandidateGuarded(s)
    && Provenance(s.store.reviews)
  }

  // ---- what each actor may do ------------------------------------------------

  /** Validations and verdicts are steps of their own; `Lck` is any other step of an operation. */
  datatype Actor =
    | External
    | Agent
    | Lck
    | GatesPassed
    | FormalPassed
    | ReviewPassed
    | VerdictWritten(review: Id)

  datatype Event = Event(actor: Actor, s: State)

  /** Independent writers: any move of the remote Task ref, of main, of the PR
      and of the Issue body.  They never touch this workspace or its store. */
  ghost predicate Rely(a: State, b: State) {
    && a.work == b.work && a.store == b.store && a.proc == b.proc
    && ((a.remote == b.remote && a.origin == b.origin) || b.origin == Other)
  }

  /** Nothing but the store, the process and the judgment of the remote head differs, whatever other
      writers do. */
  ghost predicate OnlyVerdict(a: State, b: State) {
    && Rely(a.(store := b.store, proc := b.proc, origin := b.origin), b)
    && (b.origin == a.origin || b.origin == WithJudgment(a.origin) || b.origin == Other)
  }

  /** The implementation agent edits and commits in the workspace between operations. */
  ghost predicate AgentStep(a: State, b: State) {
    b == a.(work := b.work)
  }

  /** Profile gates pass, starting on the files as they are and leaving any behind. */
  ghost predicate GatesStep(a: State, b: State) {
    b == a.(work := b.work,
            proc := a.proc.(gated := Some(a.work.files), gateLeft := Some(b.work.files), formal := None))
  }

  /** Formal validation passes, likewise. */
  ghost predicate FormalStep(a: State, b: State) {
    b == a.(work := b.work, proc := a.proc.(formal := Some(a.work.files)))
  }

  /** Review validation passes on a clone of the target this operation saw. */
  ghost predicate ReviewStep(a: State, b: State) {
    a.proc.target.Some? && b == a.(proc := a.proc.(reviewed := a.proc.target))
  }

  /** A record is written from the guard on disk, for exactly its target. */
  ghost predicate VerdictStep(a: State, b: State, id: Id) {
    && id in a.store.reviews.guards && id in b.store.reviews.records
    && var rec := b.store.reviews.records[id];
       && rec.review == id && SameTarget(a.store.reviews.guards[id].identity, rec.identity)
       && b == a.(store := a.store.(reviews := a.store.reviews.(records := a.store.reviews.records[id := rec])),
                  proc := a.proc.(verdict := Some((id, rec.identity.head))),
                  origin := if a.remote == Some(rec.identity.head) then WithJudgment(a.origin) else a.origin)
  }

  /** The gates of this operation ran on the tree of `c`, and formal validation on the files that the
      gates left behind. */
  ghost predicate Validated(p: Proc, c: Commit) {
    p.gated == Some(c.tree) && p.formal.Some? && p.formal == p.gateLeft
  }

  /** What `git rev-parse HEAD^` compares. */
  predicate FirstParent(c: Commit, p: Commit) { |c.parents| > 0 && c.parents[0] == p }

  ghost predicate RemoteKept(a: State, b: State) { a.remote == b.remote && a.origin == b.origin }

  /** Delivery or Remediation push: no force, of a head carrying the validated tree that is the
      snapshot head or its child. */
  ghost predicate FastForward(a: State, b: State) {
    && b.remote.Some? && a.proc.basis.Some? && a.proc.refresh.None? && a.remote != b.remote
    && var h, basis := b.remote.value, a.proc.basis.value;
       && (a.remote.Some? ==> IsAncestor(a.remote.value, h))
       && Validated(a.proc, h)
       && (h == basis || FirstParent(h, basis))
       && b.origin == PushOrigin(a.store, h)
  }

  predicate OwnedCandidate(st: Store, h: Commit) {
    && st.session.Some? && st.session.value.candidate.Some?
    && var ses := st.session.value;
       ses.start != h && ses.candidate == Some(Candidate(ses.op, ses.start, h, h.tree))
  }

  /** A head that is the open session's own candidate owes a Review. */
  function PushOrigin(st: Store, h: Commit): Origin {
    if OwnedCandidate(st, h) then Remediated(h, false) else Other
  }

  /** Refresh candidate push: exact lease on the start head, boundary already stored. */
  ghost predicate LeasePush(a: State, b: State) {
    && a.proc.refresh.Some?
    && var run := a.proc.refresh.value;
       && a.remote == Some(run.start) && b.remote == Some(run.new_) && run.start != run.new_
       && b.origin == Refreshed(run.op, run.start, run.new_, a.origin, false)
       && a.store.boundary == Some(Boundary(run.op, run.new_))
       && IsAncestor(run.main, run.new_)
       && Validated(a.proc, run.new_)
  }

  /** Refresh compensation: exact lease on the candidate, back to the start head. */
  ghost predicate Compensation(a: State, b: State) {
    && a.proc.refresh.Some?
    && var run := a.proc.refresh.value;
       && a.remote == Some(run.new_) && b.remote == Some(run.start) && run.start != run.new_
       && b.origin == (if Mine(a.origin, run.op) then a.origin.prior else Other)
       && a.store.boundary == Some(Boundary(run.op, run.new_))
  }

  /** A guard appears only for a target whose Review validation has just passed. */
  ghost predicate SealStep(a: Reviews, b: Reviews, reviewed: Option<(Commit, Commit)>, id: Id) {
    && (id in a.sealed ==> id in b.sealed && a.sealed[id] == b.sealed[id])
    && (id in b.sealed && id !in a.sealed ==>
          reviewed == Some((b.sealed[id].identity.base, b.sealed[id].identity.head)))
  }

  ghost predicate ReviewsGrow(a: Reviews, b: Reviews, reviewed: Option<(Commit, Commit)>) {
    && a.nextId <= b.nextId && a.records == b.records
    && (forall id: Id {:trigger SealStep(a, b, reviewed, id)} :: SealStep(a, b, reviewed, id))
  }

  /** The fresh-Review boundary goes away only when Refresh undoes its own, or after this very process
      wrote a verdict and made it the latest; a head that owed a Review has had it by then. */
  ghost predicate BoundaryReleased(a: State, b: State) {
    a.store.boundary.Some? && b.store.boundary.None? ==> UndoesOwn(a) || VerdictStands(a)
  }

  ghost predicate UndoesOwn(a: State) {
    && a.proc.refresh.Some? && !Mine(a.origin, a.proc.refresh.value.op)
    && a.store.boundary == Some(Boundary(a.proc.refresh.value.op, a.proc.refresh.value.new_))
  }

  ghost predicate VerdictStands(a: State) {
    && a.proc.verdict.Some? && a.store.reviews.latest.Some?
    && a.store.reviews.latest.value.review == a.proc.verdict.value.0 && !Owes(a.origin)
  }

  /** No process that writes a verdict ever sets up a boundary. */
  ghost predicate BoundaryWritten(a: State, b: State) {
    b.store.boundary.Some? && b.store.boundary != a.store.boundary ==> a.proc.verdict.None? && b.proc.verdict.None?
  }

  /** A session is closed only behind a boundary or behind its own no-change receipt. */
  ghost predicate SessionReleased(a: State, b: State) {
    a.store.session.Some? && b.store.session.None? ==>
      var ses := a.store.session.value;
      || a.store.boundary.Some?
      || (ses.review in a.store.receipts && a.store.receipts[ses.review].start == ses.start)
  }

  ghost predicate Kept<T>(a: Option<T>, b: Option<T>) { b.None? || b == a }

  /** What a process knows is forgotten or kept; a snapshot head, a target or a Refresh candidate is
      taken up only from what is there, and validations and verdicts have their own steps. */
  ghost predicate ProcStep(a: State, p: Proc) {
    && Kept(a.proc.gated, p.gated) && Kept(a.proc.gateLeft, p.gateLeft) && Kept(a.proc.formal, p.formal)
    && Kept(a.proc.reviewed, p.reviewed) && Kept(a.proc.verdict, p.verdict)
    && (Kept(a.proc.basis, p.basis) || p.basis == a.work.branch)
    && (Kept(a.proc.target, p.target) || (a.pr.Some? && ShowsTarget(a.pr.value, p.target)))
    && (Kept(a.proc.refresh, p.refresh) ||
          a.store.boundary == Some(Boundary(p.refresh.value.op, p.refresh.value.new_)))
  }

  predicate ShowsTarget(pr: Pr, target: Option<(Commit, Commit)>) {
    pr.open && target == Some((pr.base, pr.head))
  }

  /** LCK opens a PR on main where there is none; otherwise only the head follows its own push. */
  ghost predicate PrStep(a: State, b: State) {
    || b.pr == a.pr
    || (a.pr.Some? && b.remote.Some? && a.remote != b.remote && b.pr == Some(a.pr.value.(head := b.remote.value)))
    || ((a.pr.Some? ==> !a.pr.value.open) && b.pr.Some? && b.pr.value.open && b.pr.value.base == a.main)
  }

  ghost predicate Guarantee(a: State, b: State) {
    && a.main == b.main && a.body == b.body && PrStep(a, b)
    && (RemoteKept(a, b) || FastForward(a, b) || LeasePush(a, b) || Compensation(a, b))
    && ReviewsGrow(a.store.reviews, b.store.reviews, a.proc.reviewed)
    && BoundaryReleased(a, b) && BoundaryWritten(a, b) && SessionReleased(a, b) && ProcStep(a, b.proc)
  }

  ghost predicate StepOk(a: State, e: Event) {
    match e.actor
    case External => Rely(a, e.s)
    case Agent => AgentStep(a, e.s)
    case Lck => Guarantee(a, e.s)
    case GatesPassed => GatesStep(a, e.s)
    case FormalPassed => FormalStep(a, e.s)
    case ReviewPassed => ReviewStep(a, e.s)
    case VerdictWritten(id) => VerdictStep(a, e.s, id)
  }

  ghost predicate InvAt(t: seq<Event>, i: nat) { i < |t| && Inv(t[i].s) }

  ghost predicate StepAt(t: seq<Event>, i: nat) { 0 < i < |t| && StepOk(t[i - 1].s, t[i]) }

  /** A run from a moment when no operation is under way: every state it passes through, whoever
      moved. */
  ghost predicate History(t: seq<Event>) {
    && (t != [] ==> t[0].s.proc == IDLE)
    && (forall i: nat | i < |t| :: InvAt(t, i))
    && (forall i: nat | 0 < i < |t| :: StepAt(t, i))
  }

  lemma {:induction false} HistoryAppend(t: seq<Event>, e: Event)
    requires History(t) && |t| > 0 && Inv(e.s) && StepOk(t[|t| - 1].s, e)
    ensures History(t + [e])
  {
    var u := t + [e];
    forall i: nat | i < |u| ensures InvAt(u, i) {
      assert i < |t| ==> InvAt(t, i);
    }
    forall i: nat | 0 < i < |u| ensures StepAt(u, i) {
      assert i < |t| ==> StepAt(t, i);
    }
  }

  lemma {:induction false} HistoryPrefix(t: seq<Event>, n: nat)
    requires History(t) && n <= |t|
    ensures History(t[..n])
  {
    var u := t[..n];
    forall i: nat | i < |u| ensures InvAt(u, i) {
      assert InvAt(t, i);
    }
    forall i: nat | 0 < i < |u| ensures StepAt(u, i) {
      assert StepAt(t, i);
    }
  }

  lemma {:induction false} OriginOkLater(o: Origin, remote: Option<Commit>, n: Id, m: Id)
    requires OriginOk(o, remote, n) && n <= m
    ensures OriginOk(o, remote, m)
  {
  }

  /** Issuing ids changes nothing that has been recorded. */
  lemma {:induction false} ReviewsOnly(a: Reviews, b: Reviews)
    requires Provenance(a) && b == a.(nextId := b.nextId) && a.nextId <= b.nextId
    ensures Provenance(b)
  {
    forall id: Id ensures RecordOk(b, id) && GuardOk(b, id) {
      assert RecordOk(a, id) && GuardOk(a, id);
    }
  }

  /** What a crash leaves of a state: everything but the process. */
  function Durable(s: State): State { s.(proc := IDLE) }

  lemma {:induction false} InvAfterCrash(s: State)
    requires Inv(s)
    ensures Inv(Durable(s))
  {
  }

  /** No move of an independent writer can break the invariant. */
  lemma {:induction false} InvUnderRely(a: State, b: State)
    requires Inv(a) && Rely(a, b)
    ensures Inv(b)
  {
  }
}
