/** What the path lists hold under every interleaving.  A path can outlive its session, or be
    added after its session was swept; but it is always one that brought an admitted packet of
    the id it is listed for. */
module RelayPaths {
  import opened Bounded
  import S = ServerState
  import opened Relay

  /** Task `x` is about to list, or to use, no path but those earned. */
  predicate TaskEarned(answers: seq<Answer>, earned: set<Earned>, x: ServerTask) {
    match x
    case Accepted(p, via, _) => Earned(p.id, via) in earned
    case Noted(p, via, _) => Earned(p.id, via) in earned
    case Fanning(d, left) => d < |answers| && forall v <- left :: Earned(answers[d].id, v) in earned
    case _ => true
  }

  ghost predicate ListsEarned(paths: map<U64, seq<S.Path>>, earned: set<Earned>) {
    forall id <- paths :: forall via <- paths[id] :: Earned(id, via) in earned
  }

  ghost predicate TasksEarned(answers: seq<Answer>, earned: set<Earned>, tasks: map<nat, ServerTask>) {
    forall t <- tasks :: TaskEarned(answers, earned, tasks[t])
  }

  ghost predicate PathsEarned(s: State) {
    ListsEarned(s.srv.paths, s.earned) && TasksEarned(s.answers, s.earned, s.serverTasks)
  }

  lemma TaskSet(answers: seq<Answer>, earned: set<Earned>, tasks: map<nat, ServerTask>, t: nat, x: ServerTask)
    requires TasksEarned(answers, earned, tasks) && TaskEarned(answers, earned, x)
    ensures TasksEarned(answers, earned, tasks[t := x]) && TasksEarned(answers, earned, tasks - {t})
  {
  }

  /** More answers and more earned paths do no harm. */
  lemma MoreEarned(answers: seq<Answer>, more: seq<Answer>, earned: set<Earned>, e: set<Earned>,
                   tasks: map<nat, ServerTask>, paths: map<U64, seq<S.Path>>)
    requires TasksEarned(answers, earned, tasks) && ListsEarned(paths, earned)
    requires answers <= more && earned <= e
    ensures TasksEarned(more, e, tasks) && ListsEarned(paths, e)
  {
    forall t | t in tasks ensures TaskEarned(more, e, tasks[t]) {
      assert TaskEarned(answers, earned, tasks[t]);
    }
  }

  lemma CheckEarns(size: nat, s: State, t: nat)
    requires PathsEarned(s) && PacketEnabled(s, t, CheckPacket)
    ensures PathsEarned(PacketApply(size, s, t, CheckPacket))
  {
    var x := s.serverTasks[t];
    var s' := PacketApply(size, s, t, CheckPacket);
    MoreEarned(s.answers, s.answers, s.earned, s'.earned, s.serverTasks, s.srv.paths);
    TaskSet(s.answers, s'.earned, s.serverTasks, t, TaskAt(s'.serverTasks, t));
  }

  lemma AddPathEarns(size: nat, s: State, t: nat)
    requires PathsEarned(s) && PacketEnabled(s, t, AddPath)
    ensures PathsEarned(PacketApply(size, s, t, AddPath))
  {
    var x := s.serverTasks[t];
    var s' := PacketApply(size, s, t, AddPath);
    assert TaskEarned(s.answers, s.earned, x);
    forall v | v in s'.srv.paths[x.p.id] ensures Earned(x.p.id, v) in s.earned {
      S.WithPathAddsOnly(S.PathsOf(s.srv, x.p.id), x.via, v);
    }
    TaskSet(s.answers, s.earned, s.serverTasks, t, Registered(x.p, x.k));
  }

  lemma PacketEarns(size: nat, s: State, t: nat, step: PacketStep)
    requires PathsEarned(s) && PacketEnabled(s, t, step)
    ensures PathsEarned(PacketApply(size, s, t, step))
  {
    var s' := PacketApply(size, s, t, step);
    match step
    case CheckPacket => CheckEarns(size, s, t);
    case AddPath => AddPathEarns(size, s, t);
    case ForwardPacket => TaskSet(s.answers, s.earned, s.serverTasks, t, Unlinking(0, 0));
    case NoteConn =>
      assert TaskEarned(s.answers, s.earned, s.serverTasks[t]);
      TaskSet(s.answers, s.earned, s.serverTasks, t, s'.serverTasks[t]);
    case _ =>
      TaskSet(s.answers, s.earned, s.serverTasks, t, TaskAt(s'.serverTasks, t));
  }

  lemma AnswerEarns(s: State, t: nat, step: AnswerStep)
    requires PathsEarned(s) && AnswerEnabled(s, t, step)
    ensures PathsEarned(AnswerApply(s, t, step))
  {
    var s' := AnswerApply(s, t, step);
    match step
    case DrawNumber =>
      MoreEarned(s.answers, s'.answers, s.earned, s.earned, s.serverTasks, s.srv.paths);
      TaskSet(s'.answers, s.earned, s.serverTasks, t, Numbered(|s.answers|));
    case SendCopy(_) =>
      var x := s.serverTasks[t];
      assert TaskEarned(s.answers, s.earned, x);
      assert forall v <- x.left[1..] :: v in x.left;
      TaskSet(s.answers, s.earned, s.serverTasks, t, Fanning(x.d, x.left[1..]));
    case UnlinkConn =>
      var x := s.serverTasks[t];
      if x.id in s.srv.paths { S.WithoutTcpLaws(s.srv.paths[x.id], x.conn); }
      TaskSet(s.answers, s.earned, s.serverTasks, t, Unlinking(0, 0));
    case _ =>
      TaskSet(s.answers, s.earned, s.serverTasks, t, TaskAt(s'.serverTasks, t));
  }

  lemma SweepEarns(s: State, step: SweepStep)
    requires PathsEarned(s) && SweepEnabled(s, step)
    ensures PathsEarned(SweepApply(s, step))
  {
    var s' := SweepApply(s, step);
    assert s'.answers == s.answers && s'.earned == s.earned && s'.serverTasks == s.serverTasks;
    assert forall id <- s'.srv.paths :: id in s.srv.paths && s'.srv.paths[id] == s.srv.paths[id];
  }

  lemma StepEarns(size: nat, s: State, step: Step)
    requires PathsEarned(s) && Enabled(s, step)
    ensures PathsEarned(Apply(size, s, step))
  {
    match step
    case OnSource(t, x) => SourceFrame(s, t, x);
    case OnResponse(t, x) => ResponseFrame(s, t, x);
    case OnPacket(t, x) => PacketEarns(size, s, t, x);
    case OnAnswer(t, x) => AnswerEarns(s, t, x);
    case OnSweep(x) => SweepEarns(s, x);
  }

  /** In every run, whatever the interleaving: every listed path, and every path an answer is
      being sent on, brought a packet of that id that some incarnation admitted. */
  lemma {:induction false} PathsAreEarned(size: nat, start: U64, steps: seq<Step>)
    requires Run(size, start, steps).Some?
    ensures PathsEarned(Run(size, start, steps).value)
  {
    if steps != [] {
      var n := |steps| - 1;
      PathsAreEarned(size, start, steps[..n]);
      StepEarns(size, Run(size, start, steps[..n]).value, steps[n]);
    }
  }
}
