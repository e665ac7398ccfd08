/** Git, GitHub and the marker directory as commands.  Every command first lets independent
    writers move, then takes at most one atomic step; any command may fail. */
module World {
  import opened Wrappers
  import opened CommitDag
  import opened Protocol

  class Repo {
    var s: State
    var trace: seq<Event>
    // How many commands have failed so far.
    var failures: nat
    // Where the run began; `trace` is every state since, in order.
    const start: State
    // A calm world has no other writer, and every command works but for those whose failure the
    // operations are made for: validations may fail, a rebase may conflict, a leased push may be
    // rejected or land behind a failing exit, and the PR may lag behind it.
    const calm: bool
    // In a quiet world not even those fail.
    const quiet: bool
    // Whether `git diff base...head` shows anything.
    const differs: (Commit, Commit) -> bool

    ghost predicate Sound()
      reads this
    {
      && (quiet ==> calm) && Inv(s) && History(trace) && |trace| > 0 && trace[0].s == start && trace[|trace| - 1].s == s
    }

    constructor (initial: State, calm: bool, quiet: bool, differs: (Commit, Commit) -> bool)
      requires Inv(initial) && initial.proc == IDLE && (quiet ==> calm)
      ensures Sound() && s == initial && start == initial && trace == [Event(External, initial)]
      ensures this.calm == calm && this.quiet == quiet && this.differs == differs
    {
      s, trace, start, failures := initial, [Event(External, initial)], initial, 0;
      this.calm, this.quiet, this.differs := calm, quiet, differs;
    }

    method Take(e: Event)
      requires Sound() && Inv(e.s) && StepOk(s, e)
      modifies this`s, this`trace
      ensures Sound() && s == e.s && trace == old(trace) + [e]
    {
      HistoryAppend(trace, e);
      s, trace := e.s, trace + [e];
    }

    method Interfere()
      requires Sound()
      modifies this`s, this`trace
      ensures Sound() && old(trace) <= trace && Rely(old(s), s)
      ensures calm ==> s == old(s) && trace == old(trace)
    {
      var remote: Option<Commit>, moved: bool, main: Commit, pr: Option<Pr>, body: Hash := *, *, *, *, *;
      if !calm {
        var t := s.(main := main, pr := pr, body := body);
        if moved {
          t := t.(remote := remote, origin := Other);
        }
        assert Rely(s, t);
        InvUnderRely(s, t);
        Take(Event(External, t));
      }
    }

    /** A read-only command: only its success matters, the facts are read from `s`. */
    method Query() returns (ok: bool)
      requires Sound()
      modifies this
      ensures Sound() && old(trace) <= trace && Rely(old(s), s)
      ensures failures == old(failures) + if ok then 0 else 1
      ensures calm ==> ok && s == old(s) && trace == old(trace)
    {
      Interfere();
      ok := *;
      ok := ok || calm;
      failures := failures + if ok then 0 else 1;
    }

    /** An atomic marker or record write; it may fail without effect. */
    method Save(st: Store) returns (r: Outcome)
      requires Sound()
      requires Inv(s.(store := st)) && Guarantee(s, s.(store := st))
      modifies this
      ensures Sound() && old(trace) <= trace && s.store == (if r.Done? then st else old(s.store))
      ensures failures == old(failures) + if r.Done? then 0 else 1
      ensures Rely(old(s).(store := s.store), s)
      ensures calm ==> r.Done? && s == old(s).(store := st) && trace == old(trace) + [Event(Lck, s)]
    {
      ghost var before := s;
      Interfere();
      var fails: bool := *;
      if fails && !calm {
        failures := failures + 1;
        return Stop;
      }
      var t := s.(store := st);
      assert Rely(before.(store := st), t);
      InvUnderRely(before.(store := st), t);
      Take(Event(Lck, t));
      r := Done;
    }

    static function NextId(st: Store): Store {
      st.(reviews := st.reviews.(nextId := st.reviews.nextId + 1))
    }

    /** Between operations the implementation agent edits and commits as it likes. */
    method AgentEdits(work: Work)
      requires Sound()
      modifies this`s, this`trace
      ensures Sound() && s == old(s).(work := work)
    {
      Take(Event(Agent, s.(work := work)));
    }

    /** The process dies: what is left is the durable part of some state it passed through. */
    method Crash(at: nat)
      requires Sound() && at < |trace|
      modifies this`s, this`trace
      ensures Sound() && s == Durable(old(trace)[at].s) && trace == old(trace)[..at + 1] + [Event(Lck, s)]
    {
      HistoryPrefix(trace, at + 1);
      assert InvAt(trace, at);
      InvAfterCrash(trace[at].s);
      trace := trace[..at + 1];
      s := trace[at].s;
      Take(Event(Lck, Durable(s)));
    }

    /** A fresh invocation id (uuid4 collisions are excluded). */
    method NewId() returns (id: Id)
      requires Sound()
      modifies this`s, this`trace
      ensures Sound() && old(trace) <= trace
      ensures id == old(s.store.reviews.nextId) && s == old(s).(store := NextId(old(s.store)))
      ensures calm ==> trace == old(trace) + [Event(Lck, s)]
    {
      id := s.store.reviews.nextId;
      OriginOkLater(s.origin, s.remote, id, id + 1);
      ReviewsOnly(s.store.reviews, NextId(s.store).reviews);
      Take(Event(Lck, s.(store := NextId(s.store))));
    }

    /** History only: what the running process has established so far. */
    method Note(p: Proc)
      requires Sound() && CandidateGuarded(s.(proc := p)) && ProcStep(s, p)
      modifies this`s, this`trace
      ensures Sound() && old(trace) <= trace && s == old(s).(proc := p)
      ensures calm ==> trace == old(trace) + [Event(Lck, s)]
    {
      Take(Event(Lck, s.(proc := p)));
    }

    // ---- remote Task ref ---------------------------------------------------

    method ReadRemote() returns (ok: bool, oid: Option<Commit>)
      requires Sound()
      modifies this
      ensures Sound() && old(trace) <= trace && Rely(old(s), s) && oid == s.remote
      ensures failures == old(failures) + if ok then 0 else 1
      ensures calm ==> ok && s == old(s) && trace == old(trace)
    {
      ok := Query();
      oid := s.remote;
    }

    /** The state after a push of `h` took effect; GitHub may move the PR head later. */
    static function Pushed(a: State, h: Commit, o: Origin, prFollows: bool): State {
      a.(remote := Some(h), origin := o,
         pr := if prFollows && a.pr.Some? then Some(a.pr.value.(head := h)) else a.pr)
    }

    static ghost predicate IsPushed(a: State, h: Commit, o: Origin, b: State) {
      b == Pushed(a, h, o, true) || b == Pushed(a, h, o, false)
    }

    /** `git push --force-with-lease=<ref>:<start>` of the Refresh candidate, over the state
        `m` the server sees.  A zero exit proves the write; a non-zero exit proves nothing. */
    method PushCandidate(run: RefreshRun) returns (zero: bool, ghost m: State)
      requires Sound()
      requires s.proc.refresh == Some(run) && s.store.boundary == Some(Boundary(run.op, run.new_))
      requires run.op < s.store.reviews.nextId && OriginOk(s.origin, s.remote, run.op) && run.start != run.new_
      requires IsAncestor(run.main, run.new_) && Validated(s.proc, run.new_)
      modifies this
      ensures Sound() && Rely(old(s), m)
      ensures failures == old(failures) + if zero then 0 else 1
      ensures
        || (!zero && s == m)
        || (m.remote == Some(run.start)
            && IsPushed(m, run.new_, Refreshed(run.op, run.start, run.new_, m.origin, false), s))
      ensures quiet && old(s.remote) == Some(run.start) ==>
        zero && s == Pushed(old(s), run.new_, Refreshed(run.op, run.start, run.new_, old(s.origin), false), true)
    {
      Interfere();
      m := s;
      var lands: bool, follows: bool := *, *;
      zero := *;
      if s.remote == Some(run.start) && (lands || quiet) {
        var o := Refreshed(run.op, run.start, run.new_, s.origin, false);
        Take(Event(Lck, Pushed(s, run.new_, o, follows || quiet)));
        zero := zero || quiet;
      } else {
        zero := false;
      }
      failures := failures + if zero then 0 else 1;
    }

    /** `git push --force-with-lease=<ref>:<candidate>` back to the start head. */
    method PushBack(run: RefreshRun) returns (zero: bool, ghost m: State)
      requires Sound()
      requires s.proc.refresh == Some(run) && s.store.boundary == Some(Boundary(run.op, run.new_))
      requires run.start != run.new_
      modifies this
      ensures Sound() && Rely(old(s), m)
      ensures failures == old(failures) + if zero then 0 else 1
      ensures
        || (!zero && s == m)
        || (m.remote == Some(run.new_)
            && IsPushed(m, run.start, if Mine(m.origin, run.op) then m.origin.prior else Other, s))
    {
      Interfere();
      m := s;
      var lands: bool, follows: bool := *, *;
      zero := *;
      if s.remote == Some(run.new_) && (lands || quiet) {
        var o := if Mine(s.origin, run.op) then s.origin.prior else Other;
        if Mine(s.origin, run.op) {
          OriginOkLater(o, Some(run.start), run.op, s.store.reviews.nextId);
        }
        Take(Event(Lck, Pushed(s, run.start, o, follows || quiet)));
      } else {
        zero := false;
      }
      failures := failures + if zero then 0 else 1;
    }

    /** Plain `git push <head>:<ref>`: the server takes it only as a fast-forward. */
    method PushPlain(h: Commit) returns (zero: bool, ghost m: State)
      requires Sound()
      requires s.proc.basis.Some? && s.proc.refresh.None? && Validated(s.proc, h)
      requires h == s.proc.basis.value || FirstParent(h, s.proc.basis.value)
      modifies this
      ensures Sound() && old(trace) <= trace && Rely(old(s), m)
      ensures failures == old(failures) + if zero then 0 else 1
      ensures s == m || IsPushed(m, h, PushOrigin(m.store, h), s)
      ensures zero ==> s.remote == Some(h)
      ensures quiet && (old(s.remote).Some? ==> old(s.remote) != Some(h) && IsAncestor(old(s.remote).value, h)) ==>
        zero && s == Pushed(old(s), h, PushOrigin(old(s.store), h), true)
        && trace == old(trace) + [Event(Lck, s)]
    {
      Interfere();
      m := s;
      var lands: bool, follows: bool := *, *;
      zero := *;
      if s.remote != Some(h) {
        if (s.remote.Some? ==> IsAncestor(s.remote.value, h)) && (lands || quiet) {
          Take(Event(Lck, Pushed(s, h, PushOrigin(s.store, h), follows || quiet)));
          zero := zero || quiet;
        } else {
          zero := false;
        }
      }
      failures := failures + if zero then 0 else 1;
    }

    /** Resolve the OPEN PR of the Task branch, or open one. */
    method EnsurePr(h: Commit) returns (ok: bool)
      requires Sound()
      modifies this
      ensures Sound() && Rely(old(s).(pr := s.pr), s)
      ensures failures == old(failures) + if ok then 0 else 1
      ensures old(trace) <= trace && (ok ==> s.pr.Some? && s.pr.value.open)
      ensures quiet ==> ok && s == old(s).(pr := s.pr)
      ensures quiet ==>
        if OpenPrMissing(old(s.pr)) then s.pr == Some(NewPr(s.pr.value.number, h, s.main))
        else s.pr == old(s.pr)
    {
      ok := Query();
      if ok && OpenPrMissing(s.pr) {
        var number: int := *;
        Take(Event(Lck, s.(pr := Some(NewPr(if number < 0 then 0 else number, h, s.main)))));
      }
    }

    static function NewPr(number: nat, h: Commit, main: Commit): Pr {
      Pr(number, h, main, true, false, true, true, None, false)
    }

    static predicate OpenPrMissing(pr: Option<Pr>) { pr.None? || !pr.value.open }

    // ---- workspace -----------------------------------------------------------

    /** A command with one known effect on the workspace, or none when it fails. */
    method SetWork(w: Work) returns (ok: bool)
      requires Sound()
      modifies this
      ensures Sound() && old(trace) <= trace && Rely(old(s).(work := s.work), s)
      ensures failures == old(failures) + if ok then 0 else 1
      ensures s.work == if ok then w else old(s.work)
      ensures calm ==> ok && s == old(s).(work := w) && trace == old(trace) + [Event(Lck, s)]
    {
      ok := Query();
      if ok {
        Take(Event(Lck, s.(work := w)));
      }
    }

    /** A command whose effect on the workspace is not relied upon at all. */
    method Churn() returns (ok: bool)
      requires Sound() && !quiet
      modifies this
      ensures Sound() && old(trace) <= trace && Rely(old(s).(work := s.work), s)
      ensures failures == old(failures) + if ok then 0 else 1
    {
      ok := Query();
      var w: Work := *;
      Take(Event(Lck, s.(work := w)));
    }

    /** `git rebase --onto main`: any outcome.  In a calm world it puts the branch on a new clean head, or
        stops in the middle with the branch where it was; in a quiet one the Task diff survives. */
    method RebaseOnto(main: Commit) returns (ok: bool)
      requires Sound()
      modifies this
      ensures Sound() && Rely(old(s).(work := s.work), s)
      ensures failures == old(failures) + if ok then 0 else 1
      ensures calm ==> s == old(s).(work := s.work) && (if ok then s.work.Settled() else s.work.Stuck(old(s.work)))
      ensures quiet ==> ok
      ensures quiet ==> var c := s.work.HeadCommit();
        c.parents == [main] && c.tree != main.tree && s.work == Work(Some(c), OnTask, c.tree, c.tree, NoGitOp)
    {
      ok := Query();
      if !calm {
        var w: Work := *;
        Take(Event(Lck, s.(work := w)));
        return;
      }
      var conflict: bool, c: Commit, at: Commit, index: Tree, files: Tree := *, *, *, *, *;
      if quiet {
        c := Commit([main], if files != main.tree then files else main.tree + 1, 0);
      } else if conflict {
        Take(Event(Lck, s.(work := s.work.(head := At(at), index := index, files := files, gitop := Rebasing))));
        failures := failures + 1;
        return false;
      }
      Take(Event(Lck, s.(work := Work(Some(c), OnTask, c.tree, c.tree, NoGitOp))));
    }

    /** `git rebase --abort`; success leaves no operation in progress.  In a calm world it succeeds and
        puts HEAD, index and files back on the branch. */
    method AbortRebase() returns (ok: bool)
      requires Sound()
      modifies this
      ensures Sound() && Rely(old(s).(work := s.work), s)
      ensures failures == old(failures) + if ok then 0 else 1
      ensures ok ==> s.work.gitop == NoGitOp
      ensures calm && old(s.work.branch).Some? ==> var c := old(s.work.branch).value;
        ok && s == old(s).(work := Work(Some(c), OnTask, c.tree, c.tree, NoGitOp))
    {
      var earlier := failures;
      ok := Query();
      var w: Work := *;
      if calm && s.work.branch.Some? {
        var c := s.work.branch.value;
        w := Work(Some(c), OnTask, c.tree, c.tree, NoGitOp);
      }
      Take(Event(Lck, s.(work := w)));
      ok := ok && s.work.gitop == NoGitOp;
      failures := earlier + if ok then 0 else 1;
    }

    /** `git commit`: success puts HEAD on a new commit object, one the prepared session does
        not name; hooks may do anything else. */
    method CommitIndex() returns (ok: bool)
      requires Sound()
      modifies this
      ensures Sound() && old(trace) <= trace && Rely(old(s).(work := s.work), s)
      ensures failures == old(failures) + if ok then 0 else 1
      ensures ok ==> !SessionStart(s.store, s.work.HeadCommit())
      ensures quiet && old(s.work.head.OnTask?) ==>
        ok && s == old(s).(work := Committed(old(s))) && trace == old(trace) + [Event(Lck, s)]
    {
      var earlier := failures;
      if !quiet {
        ok := Churn();
        ok := ok && !SessionStart(s.store, s.work.HeadCommit());
      } else if s.work.head.OnTask? {
        ok := true;
        Take(Event(Lck, s.(work := Committed(s))));
      } else {
        ok := false;
      }
      failures := earlier + if ok then 0 else 1;
    }

    static predicate SessionStart(st: Store, c: Commit) {
      st.session.Some? && st.session.value.start == c
    }

    /** The workspace after an undisturbed commit of the index on the Task branch. */
    static function Committed(a: State): Work {
      var stamp := if a.store.session.Some? then a.store.session.value.start.stamp + 1 else 0;
      a.work.(branch := Some(Commit([a.work.HeadCommit()], a.work.index, stamp)))
    }

    // ---- validations ---------------------------------------------------------

    /** What a validation says; only a quiet world always agrees. */
    method Verdict() returns (pass: bool)
      requires Sound()
      modifies this
      ensures Sound() && old(trace) <= trace && Rely(old(s), s)
      ensures failures == old(failures) + if pass then 0 else 1
      ensures calm ==> s == old(s) && trace == old(trace)
      ensures quiet ==> pass
    {
      var earlier := failures;
      var read := Query();
      pass := *;
      pass := read && (pass || quiet);
      failures := earlier + if pass then 0 else 1;
    }

    /** Profile gates run on the files as they are; they may leave anything behind, but not in a calm
        world. */
    method RunGates() returns (pass: bool)
      requires Sound()
      modifies this
      ensures Sound() && old(trace) <= trace && Rely(old(s).(work := s.work, proc := s.proc), s)
      ensures failures == old(failures) + if pass then 0 else 1
      ensures s.proc == if pass
        then old(s.proc).(gated := Some(old(s.work.files)), gateLeft := Some(s.work.files), formal := None)
        else old(s.proc).(gated := None, gateLeft := None, formal := None)
      ensures calm ==> s == old(s).(proc := s.proc)
      ensures quiet ==> pass && trace == old(trace) + [Event(GatesPassed, s)]
    {
      pass := Verdict();
      var left: Work := *;
      if calm {
        left := s.work;
      }
      if pass {
        var p := s.proc.(gated := Some(s.work.files), gateLeft := Some(left.files), formal := None);
        Take(Event(GatesPassed, s.(work := left, proc := p)));
      } else {
        Take(Event(Lck, s.(work := left, proc := s.proc.(gated := None, gateLeft := None, formal := None))));
      }
    }

    /** Formal Delivery validation, likewise. */
    method RunFormal() returns (pass: bool)
      requires Sound()
      modifies this
      ensures Sound() && old(trace) <= trace && Rely(old(s).(work := s.work, proc := s.proc), s)
      ensures failures == old(failures) + if pass then 0 else 1
      ensures s.proc == old(s.proc).(formal := if pass then Some(old(s.work.files)) else None)
      ensures calm ==> s == old(s).(proc := s.proc)
      ensures quiet ==> pass && trace == old(trace) + [Event(FormalPassed, s)]
    {
      pass := Verdict();
      var left: Work := *;
      if calm {
        left := s.work;
      }
      if pass {
        Take(Event(FormalPassed, s.(work := left, proc := s.proc.(formal := Some(s.work.files)))));
      } else {
        Take(Event(Lck, s.(work := left, proc := s.proc.(formal := None))));
      }
    }

    /** Review validation on an isolated clone of the target this operation has seen. */
    method RunReview() returns (pass: bool)
      requires Sound() && s.proc.target.Some?
      modifies this
      ensures Sound() && Rely(old(s).(proc := s.proc), s)
      ensures failures == old(failures) + if pass then 0 else 1
      ensures s.proc == if pass then old(s.proc).(reviewed := old(s.proc.target)) else old(s.proc)
      ensures calm ==> s == old(s).(proc := s.proc)
      ensures quiet ==> pass
    {
      pass := Verdict();
      if pass {
        Take(Event(ReviewPassed, s.(proc := s.proc.(reviewed := s.proc.target))));
      }
    }

    // ---- verdicts --------------------------------------------------------------

    /** The store after the record of a guarded target was written. */
    static function WithRecord(st: Store, rec: Record): Store {
      st.(reviews := st.reviews.(records := st.reviews.records[rec.review := rec]))
    }

    /** Write a record for the guarded target, which is still the remote head if that owes a Review. */
    method SaveRecord(rec: Record) returns (r: Outcome)
      requires Sound() && rec.review in s.store.reviews.guards
      requires SameTarget(s.store.reviews.guards[rec.review].identity, rec.identity)
      requires Tracked(s.origin) ==> s.remote == Some(rec.identity.head)
      requires Inv(s.(store := WithRecord(s.store, rec)))
      modifies this
      ensures Sound() && old(trace) <= trace && OnlyVerdict(old(s), s)
      ensures failures == old(failures) + if r.Done? then 0 else 1
      ensures s.store == (if r.Done? then WithRecord(old(s.store), rec) else old(s.store))
      ensures r.Stop? ==> s.proc == old(s.proc)
      ensures r.Done? ==> s.proc == old(s.proc).(verdict := Some((rec.review, rec.identity.head))) && !Owes(s.origin)
      ensures calm ==>
        r.Done? && s == old(s).(store := s.store, proc := s.proc, origin := WithJudgment(old(s.origin)))
    {
      ghost var before := s;
      Interfere();
      var fails: bool := *;
      if fails && !calm {
        failures := failures + 1;
        return Stop;
      }
      var o := if s.remote == Some(rec.identity.head) then WithJudgment(s.origin) else s.origin;
      var p := s.proc.(verdict := Some((rec.review, rec.identity.head)));
      var t := s.(store := WithRecord(s.store, rec));
      assert Rely(before.(store := t.store), t);
      InvUnderRely(before.(store := t.store), t);
      Take(Event(VerdictWritten(rec.review), t.(origin := o, proc := p)));
      r := Done;
    }
  }
}
