/** Each terminal controls at most one session, over every run of job-control operations. */
module JobControlRuns {
  import opened Options
  import opened JobControl

  // ------------------------------------------------------------------ the terminal tie

  /** Only members, groups and processes changed. */
  predicate SameTies(s: State, u: State) {
    && u.terminals == s.terminals
    && (forall sid | sid in u.sessions ::
          if sid in s.sessions then u.sessions[sid].terminal == s.sessions[sid].terminal && u.sessions[sid].foreground == s.sessions[sid].foreground
          else u.sessions[sid].terminal.None?)
  }

  lemma TiesFrame(s: State, u: State)
    requires SameTies(s, u)
    ensures Ties(s) ==> Ties(u)
    ensures ZeroFree(s) ==> ZeroFree(u)
  {
    if Ties(s) {
      forall sid | sid in u.sessions && u.sessions[sid].terminal.Some?
        ensures Tied(u, sid, u.sessions[sid].terminal.value)
      {
        assert Tied(s, sid, s.sessions[sid].terminal.value);
      }
    }
  }

  lemma ReleaseTies(s: State, sid: SessionId, t: TerminalId)
    requires Ties(s)
    ensures Ties(Release(s, sid, t)) && (ZeroFree(s) ==> ZeroFree(Release(s, sid, t)))
    ensures forall k | k in Release(s, sid, t).sessions ::
      k in s.sessions && (k == sid && s.sessions[k].terminal == Some(t) ==> Release(s, sid, t).sessions[k].terminal.None?)
      && (k != sid ==> Release(s, sid, t).sessions[k] == s.sessions[k])
  {
    var u := Release(s, sid, t);
    forall k | k in u.sessions && u.sessions[k].terminal.Some? ensures Tied(u, k, u.sessions[k].terminal.value) {
      assert Tied(s, k, s.sessions[k].terminal.value);
      if sid in s.sessions && s.sessions[sid].terminal == Some(t) { assert Tied(s, sid, t); }
    }
  }

  lemma ForegroundTies(s: State, sid: SessionId, g: GroupId)
    requires sid in s.sessions
    ensures Ties(s) ==> Ties(Foreground(s, sid, g))
    ensures ZeroFree(s) ==> ZeroFree(Foreground(s, sid, g))
  {
    var u := Foreground(s, sid, g);
    if Ties(s) {
      forall k | k in u.sessions && u.sessions[k].terminal.Some? ensures Tied(u, k, u.sessions[k].terminal.value) {
        assert Tied(s, k, s.sessions[k].terminal.value);
        if s.sessions[sid].terminal.Some? { assert Tied(s, sid, s.sessions[sid].terminal.value); }
      }
    }
  }

  /** Giving a terminal to a session keeps the tie exactly when no other session is left holding it. */
  lemma GiveTies(s: State, sid: SessionId, t: TerminalId, g: GroupId)
    requires Ties(s) && sid in s.sessions && t in s.terminals
    requires s.sessions[sid].terminal.None? || s.sessions[sid].terminal == Some(t)
    ensures Ties(Give(s, sid, t, g)) <==> forall k | k in s.sessions && k != sid :: s.sessions[k].terminal != Some(t)
  {
    var u := Give(s, sid, t, g);
    if forall k | k in s.sessions && k != sid :: s.sessions[k].terminal != Some(t) {
      forall k | k in u.sessions && u.sessions[k].terminal.Some? ensures Tied(u, k, u.sessions[k].terminal.value) {
        if k != sid { assert Tied(s, k, s.sessions[k].terminal.value); }
      }
    } else {
      var k :| k in s.sessions && k != sid && s.sessions[k].terminal == Some(t);
      assert k in u.sessions && u.sessions[k].terminal == Some(t) && !Tied(u, k, t);
    }
  }

  /** What the session of the caller and the others hold once rivals have been parted. */
  lemma Cleared(s: State, sid: SessionId, t: TerminalId)
    requires Ties(s) && sid in s.sessions && t in s.terminals
    ensures var rival := Rival(s, sid, t);
      var u := if rival != 0 then Release(s, rival, t) else s;
      var mine := s.sessions[sid].terminal;
      var v := if mine.Some? && mine != Some(t) then Release(u, sid, mine.value) else u;
      && Ties(v) && v.sessions.Keys == s.sessions.Keys && v.terminals.Keys == s.terminals.Keys
      && (v.sessions[sid].terminal.None? || v.sessions[sid].terminal == Some(t))
      && (forall k | k in v.sessions && k != sid :: v.sessions[k].terminal == Some(t) <==> k == 0 && s.sessions[k].terminal == Some(t))
  {
    var rival := Rival(s, sid, t);
    var u := if rival != 0 then Release(s, rival, t) else s;
    var mine := s.sessions[sid].terminal;
    ReleaseTies(s, rival, t);
    if mine.Some? && mine != Some(t) { ReleaseTies(u, sid, mine.value); }
    forall k | k in s.sessions && k != sid && s.sessions[k].terminal == Some(t) ensures k == s.terminals[t].session {
      assert Tied(s, k, t);
    }
  }

  /** A successful attach keeps every terminal with one session exactly when the terminal is not held by
      session 0, or the caller is in session 0 itself: 0 doubles as "no session" when rivals are looked for. */
  lemma AttachTies(s: State, pid: Pid, t: TerminalId, force: bool)
    requires Ties(s) && AttachError(s, pid, t, force) == OK
    ensures Ties(Attach(s, pid, t, force).1) <==>
            !(0 in s.sessions && s.sessions[0].terminal == Some(t) && s.processes[pid].session != 0)
  {
    hide Release, Ties;
    var p := s.processes[pid];
    Cleared(s, p.session, t);
    var rival := Rival(s, p.session, t);
    var u := if rival != 0 then Release(s, rival, t) else s;
    var mine := s.sessions[p.session].terminal;
    var v := if mine.Some? && mine != Some(t) then Release(u, p.session, mine.value) else u;
    GiveTies(v, p.session, t, p.group);
  }

  /** After a successful attach the caller's session holds the terminal, the terminal names the session, every
      member knows it, and a live terminal's foreground group is the caller's. */
  lemma AttachGives(s: State, pid: Pid, t: TerminalId, force: bool)
    requires Ties(s) && AttachError(s, pid, t, force) == OK
    ensures var u := Attach(s, pid, t, force).1; var p := s.processes[pid];
      && p.session in u.sessions && u.sessions[p.session].terminal == Some(t) && u.sessions[p.session].foreground == p.group
      && t in u.terminals && u.terminals[t].session == p.session && u.terminals[t].live == s.terminals[t].live
      && (s.terminals[t].live ==> u.terminals[t].foreground == p.group)
      && (forall m | m in s.sessions[p.session].members && m in u.processes :: u.processes[m].terminal == Some(t))
  {
    var p := s.processes[pid];
    var rival := Rival(s, p.session, t);
    ReleaseTies(s, rival, t);
  }

  lemma AttachZeroFree(s: State, pid: Pid, t: TerminalId, force: bool)
    requires Ties(s) && ZeroFree(s) && AttachError(s, pid, t, force) == OK && s.processes[pid].session != 0
    ensures ZeroFree(Attach(s, pid, t, force).1)
  {
    var p := s.processes[pid];
    var rival := Rival(s, p.session, t);
    ReleaseTies(s, rival, t);
  }

  // ---------------------------------------------------------------------- the indexes

  /** A process changed in ways the indexes do not see. */
  predicate SamePlace(p: Process, q: Process) {
    p.session == q.session && p.group == q.group && p.inSession == q.inSession && p.inGroup == q.inGroup
  }

  predicate SameIndex(s: State, u: State) {
    && u.groups == s.groups && u.processes.Keys == s.processes.Keys && u.sessions.Keys == s.sessions.Keys
    && (forall pid | pid in s.processes :: SamePlace(s.processes[pid], u.processes[pid]))
    && (forall sid | sid in s.sessions :: u.sessions[sid].members == s.sessions[sid].members)
  }

  lemma IndexFrame(s: State, u: State)
    requires Indexed(s) && SameIndex(s, u)
    ensures Indexed(u)
  {
    forall pid | pid in u.processes ensures SamePlace(s.processes[pid], u.processes[pid]) {}
  }

  lemma ReleaseIndex(s: State, sid: SessionId, t: TerminalId)
    ensures SameIndex(s, Release(s, sid, t))
  {
  }

  lemma GiveIndex(s: State, sid: SessionId, t: TerminalId, g: GroupId)
    requires sid in s.sessions && t in s.terminals
    ensures SameIndex(s, Give(s, sid, t, g))
  {
  }

  lemma AttachIndex(s: State, pid: Pid, t: TerminalId, force: bool)
    requires Ties(s) && Indexed(s)
    ensures Indexed(Attach(s, pid, t, force).1)
  {
    hide Indexed, Ties, SameIndex, Release, Give;
    if AttachError(s, pid, t, force) == OK {
      var p := s.processes[pid];
      Cleared(s, p.session, t);
      var rival := Rival(s, p.session, t);
      var u := if rival != 0 then Release(s, rival, t) else s;
      ReleaseIndex(s, rival, t);
      if rival != 0 { IndexFrame(s, u); }
      var mine := s.sessions[p.session].terminal;
      var v := if mine.Some? && mine != Some(t) then Release(u, p.session, mine.value) else u;
      if mine.Some? && mine != Some(t) {
        ReleaseIndex(u, p.session, mine.value);
        IndexFrame(u, v);
      }
      GiveIndex(v, p.session, t, p.group);
      IndexFrame(v, Give(v, p.session, t, p.group));
    }
  }

  lemma RegisterIndex(s: State, pid: Pid, p: Process)
    requires Indexed(s) && (pid in s.processes ==> !s.processes[pid].inSession && !s.processes[pid].inGroup)
    ensures Indexed(Register(s, pid, p))
  {
    RegisterSessions(s, pid, p);
    RegisterGroups(s, pid, p);
  }

  lemma RegisterSessions(s: State, pid: Pid, p: Process)
    requires SessionsIndexed(s.processes, s.sessions) && (pid in s.processes ==> !s.processes[pid].inSession)
    ensures SessionsIndexed(Register(s, pid, p).processes, Register(s, pid, p).sessions)
  {
  }

  lemma RegisterGroups(s: State, pid: Pid, p: Process)
    requires GroupsIndexed(s.processes, s.groups) && (pid in s.processes ==> !s.processes[pid].inGroup)
    ensures GroupsIndexed(Register(s, pid, p).processes, Register(s, pid, p).groups)
  {
    var u := Register(s, pid, p);
    forall g | g in u.groups ensures u.groups[g].members != {} {
      if g == p.group { assert pid in u.groups[g].members; }
    }
  }

  lemma LeaveGroupIndex(ps: map<Pid, Process>, gs: map<GroupId, Group>, pid: Pid, q: Process)
    requires GroupsIndexed(ps, gs) && pid in ps && !q.inGroup
    ensures GroupsIndexed(ps[pid := q], if ps[pid].inGroup then LeaveGroup(gs, ps[pid].group, pid) else gs)
  {
    var us := if ps[pid].inGroup then LeaveGroup(gs, ps[pid].group, pid) else gs;
    forall k | k in ps && k != pid && ps[k].inGroup ensures ps[k].group in us && k in us[ps[k].group].members {
      assert k in gs[ps[k].group].members;
      assert k in gs[ps[k].group].members - {pid};
    }
  }

  lemma LeaveSessionIndex(ps: map<Pid, Process>, ss: map<SessionId, Session>, pid: Pid, q: Process)
    requires SessionsIndexed(ps, ss) && pid in ps && !q.inSession
    ensures SessionsIndexed(ps[pid := q], if ps[pid].inSession then LeaveSession(ss, ps[pid].session, pid) else ss)
  {
    var us := if ps[pid].inSession then LeaveSession(ss, ps[pid].session, pid) else ss;
    forall k | k in ps && k != pid && ps[k].inSession ensures ps[k].session in us && k in us[ps[k].session].members {
      assert k in ss[ps[k].session].members - {pid};
    }
  }

  lemma UnregisterKeeps(s: State, pid: Pid)
    requires pid in s.processes
    ensures Indexed(s) ==> Indexed(Unregister(s, pid))
    ensures SameTies(s, Unregister(s, pid))
  {
    if Indexed(s) {
      var q := s.processes[pid].(inSession := false, inGroup := false);
      LeaveGroupIndex(s.processes, s.groups, pid, q);
      LeaveSessionIndex(s.processes, s.sessions, pid, q);
    }
  }

  lemma RegisterTies(s: State, pid: Pid, p: Process)
    ensures SameTies(s, Register(s, pid, p))
  {
  }

  // ------------------------------------------------------------------- one per operation

  lemma SpawnKeeps(s: State, pid: Pid, parent: Option<Pid>)
    requires Inv(s)
    ensures Inv(Spawn(s, pid, parent))
  {
    hide Register, Ties, Indexed;
    var u := Spawn(s, pid, parent);
    if u != s {
      var p := if parent.Some?
               then Process(s.processes[parent.value].session, s.processes[parent.value].group, parent.value, true, false, false, false, None, 0)
               else Process(pid, pid, 0, true, false, false, false, None, 0);
      RegisterIndex(s, pid, p);
      RegisterTies(s, pid, p);
      TiesFrame(s, u);
    }
  }

  lemma SetSidKeeps(s: State, pid: Pid)
    requires Inv(s)
    ensures Inv(SetSid(s, pid).1)
  {
    hide Register, Unregister, Ties, Indexed, SameTies, ZeroFree;
    if pid in s.processes {
      var u := Unregister(s, pid);
      UnregisterKeeps(s, pid);
      TiesFrame(s, u);
      Unlinked(s, pid);
      var n := u.processes[pid].(session := pid, group := pid);
      RegisterIndex(u, pid, n);
      RegisterTies(u, pid, n);
      TiesFrame(u, Register(u, pid, n));
    }
  }

  lemma Unlinked(s: State, pid: Pid)
    requires pid in s.processes
    ensures pid in Unregister(s, pid).processes && !Unregister(s, pid).processes[pid].inSession && !Unregister(s, pid).processes[pid].inGroup
  {
  }

  /** A change to one process that the ties and indexes do not see. */
  lemma QuietProcess(s: State, pid: Pid, q: Process)
    requires pid in s.processes && SamePlace(s.processes[pid], q)
    ensures var u := s.(processes := s.processes[pid := q]); (Indexed(s) ==> Indexed(u)) && (Ties(s) ==> Ties(u)) && (ZeroFree(s) ==> ZeroFree(u))
  {
    hide Indexed, Ties;
    var u := s.(processes := s.processes[pid := q]);
    if Indexed(s) { IndexFrame(s, u); }
    TiesFrame(s, u);
  }

  lemma TellLeaderKeeps(s: State, sid: SessionId, g: GroupId)
    requires Inv(s)
    ensures Inv(TellLeader(s, sid, g))
  {
    hide Indexed, Ties, ZeroFree;
    if IsLeader(s, sid) { QuietProcess(s, sid, s.processes[sid].(foreground := g)); }
  }

  lemma ForegroundKeeps(s: State, sid: SessionId, g: GroupId)
    requires Inv(s) && sid in s.sessions
    ensures Inv(Foreground(s, sid, g))
  {
    hide Indexed, Ties, ZeroFree;
    ForegroundTies(s, sid, g);
    IndexFrame(s, Foreground(s, sid, g));
  }

  lemma MoveGroupIndex(s: State, pid: Pid, g: GroupId)
    requires Indexed(s) && pid in s.processes
    ensures Indexed(Rehomed(s, pid, g))
  {
    var p := s.processes[pid];
    var groups := if p.inGroup then LeaveGroup(s.groups, p.group, pid) else s.groups;
    var target := GroupOf(s.(groups := groups), p.session, g);
    LeaveGroupIndex(s.processes, s.groups, pid, p.(inGroup := false));
    JoinGroupIndex(s.processes[pid := p.(inGroup := false)], groups, pid, p.(group := g, inGroup := true), target);
    assert s.processes[pid := p.(inGroup := false)][pid := p.(group := g, inGroup := true)] == Rehomed(s, pid, g).processes;
  }

  lemma JoinGroupIndex(ps: map<Pid, Process>, gs: map<GroupId, Group>, pid: Pid, q: Process, target: Group)
    requires GroupsIndexed(ps, gs) && pid in ps && !ps[pid].inGroup && q.inGroup
    requires target.members == if q.group in gs then gs[q.group].members else {}
    ensures GroupsIndexed(ps[pid := q], gs[q.group := target.(members := target.members + {pid})])
  {
    assert pid in target.members + {pid};
  }

  lemma MoveGroupKeeps(s: State, pid: Pid, g: GroupId)
    requires Inv(s) && pid in s.processes
    ensures Inv(MoveGroup(s, pid, g))
  {
    hide Indexed, Ties, ZeroFree, LeaveGroup, GroupOf;
    MoveGroupIndex(s, pid, g);
    var v := Rehomed(s, pid, g);
    TiesFrame(s, v);
    if s.processes[pid].session in v.sessions { ForegroundKeeps(v, s.processes[pid].session, 0); }
  }

  lemma SetPgidKeeps(s: State, caller: Pid, pid: Pid, g: GroupId)
    requires Inv(s)
    ensures Inv(SetPgid(s, caller, pid, g).1)
  {
    hide Inv, MoveGroup, TellLeader;
    var target := if pid == 0 then caller else pid;
    if target in s.processes {
      var goal := if g == 0 then target else g;
      MoveGroupKeeps(s, target, goal);
      var u := MoveGroup(s, target, goal);
      var sid := s.processes[target].session;
      if sid in u.sessions { TellLeaderKeeps(u, sid, u.sessions[sid].foreground); }
    }
  }

  lemma ReleaseKeeps(s: State, sid: SessionId, t: TerminalId)
    requires Inv(s)
    ensures Inv(Release(s, sid, t))
  {
    hide Indexed, Ties, SameIndex, Release;
    ReleaseTies(s, sid, t);
    ReleaseIndex(s, sid, t);
    IndexFrame(s, Release(s, sid, t));
  }

  lemma ExitTerminalKeeps(s: State, pid: Pid)
    requires Inv(s) && pid in s.processes
    ensures Inv(ExitTerminal(s, pid))
  {
    hide Indexed, Ties, ZeroFree, Release;
    var p := s.processes[pid];
    var a := s.(processes := s.processes[pid := p.(cleaned := true)]);
    QuietProcess(s, pid, p.(cleaned := true));
    if p.session in s.sessions && s.sessions[p.session].terminal.Some? {
      ReleaseKeeps(a, p.session, s.sessions[p.session].terminal.value);
      QuietProcess(a, pid, a.processes[pid].(terminal := None));
    }
  }

  lemma ExitKeeps(s: State, pid: Pid)
    requires Inv(s)
    ensures Inv(Exit(s, pid))
  {
    hide Inv, ExitTerminal, Foreground, TellLeader, Unregister, SameTies, Indexed, Ties, ZeroFree;
    if pid in s.processes && !s.processes[pid].cleaned {
      var p := s.processes[pid];
      var b := ExitTerminal(s, pid);
      ExitTerminalKeeps(s, pid);
      if p.session in b.sessions {
        ForegroundKeeps(b, p.session, 0);
        TellLeaderKeeps(Foreground(b, p.session, 0), p.session, 0);
      }
      ExitKeepsLinks(s, pid);
      LeaveKeeps(ExitForeground(b, pid, p.session, p.group), pid);
    }
  }

  /** When a session leader leaves, its terminal is free for another session. */
  lemma LeaderExitFreesTerminal(s: State, pid: Pid, t: TerminalId)
    requires Inv(s) && pid in s.processes && !s.processes[pid].cleaned && s.processes[pid].session == pid
    requires pid in s.sessions && s.sessions[pid].terminal == Some(t)
    ensures var u := Exit(s, pid);
      && (pid in u.sessions ==> u.sessions[pid].terminal.None?)
      && t in u.terminals && u.terminals[t].session == 0 && (s.terminals[t].live ==> u.terminals[t].foreground == 0)
  {
    hide Indexed;
    assert Tied(s, pid, t);
    var b := ExitTerminal(s, pid);
    assert b.sessions[pid].terminal.None? && b.terminals[t].session == 0;
    assert s.terminals[t].live ==> b.terminals[t].foreground == 0;
    var c := ExitForeground(b, pid, pid, s.processes[pid].group);
    assert c.terminals == b.terminals && c.sessions[pid].terminal.None?;
    hide ExitTerminal, ExitForeground;
    ExitKeepsLinks(s, pid);
    UnregisterKeeps(c, pid);
  }

  lemma LeaveKeeps(s: State, pid: Pid)
    requires Inv(s) && pid in s.processes
    ensures Inv(Unregister(s, pid))
  {
    hide Indexed, Ties, ZeroFree, SameTies, Unregister;
    UnregisterKeeps(s, pid);
    TiesFrame(s, Unregister(s, pid));
  }

  lemma DeleteKeeps(s: State, pid: Pid)
    requires Inv(s)
    ensures Inv(Delete(s, pid))
  {
    if pid in s.processes {
      var u := Unregister(s, pid);
      UnregisterKeeps(s, pid);
      TiesFrame(s, u);
      RemovedIndex(u, pid);
      TiesFrame(u, u.(processes := u.processes - {pid}));
    }
  }

  lemma RemovedIndex(s: State, pid: Pid)
    requires Indexed(s) && pid in s.processes && !s.processes[pid].inSession && !s.processes[pid].inGroup
    ensures Indexed(s.(processes := s.processes - {pid}))
  {
  }

  lemma DetachKeeps(s: State, pid: Pid)
    requires Inv(s)
    ensures Inv(Detach(s, pid))
  {
    hide Indexed, Ties, ZeroFree, Release;
    if pid in s.processes && s.processes[pid].session in s.sessions {
      var held := s.sessions[s.processes[pid].session].terminal;
      if held.Some? { ReleaseKeeps(s, s.processes[pid].session, held.value); }
      QuietProcess(s, pid, s.processes[pid].(terminal := None));
    }
  }

  lemma SetForegroundKeeps(s: State, pid: Pid, t: TerminalId, g: GroupId, verdict: Status)
    requires Inv(s)
    ensures Inv(SetForegroundGroup(s, pid, t, g, verdict).1)
  {
    hide Inv, Foreground, TellLeader;
    if pid in s.processes && s.processes[pid].session in s.sessions {
      var sid := s.processes[pid].session;
      ForegroundKeeps(s, sid, g);
      TellLeaderKeeps(Foreground(s, sid, g), sid, g);
    }
  }

  lemma RevokeKeeps(s: State, t: TerminalId)
    requires Inv(s)
    ensures Inv(RevokeTerminal(s, t))
  {
    var u := RevokeTerminal(s, t);
    forall k | k in u.sessions && u.sessions[k].terminal.Some? ensures Tied(u, k, u.sessions[k].terminal.value) {
      assert Tied(s, k, s.sessions[k].terminal.value);
    }
  }

  lemma LeaseKeeps(s: State, t: TerminalId, n: nat)
    requires Inv(s) && t in s.terminals
    ensures Inv(s.(terminals := s.terminals[t := s.terminals[t].(leases := n)]))
  {
    var u := s.(terminals := s.terminals[t := s.terminals[t].(leases := n)]);
    forall k | k in u.sessions && u.sessions[k].terminal.Some? ensures Tied(u, k, u.sessions[k].terminal.value) {
      assert Tied(s, k, s.sessions[k].terminal.value);
    }
  }

  lemma NewTerminalKeeps(s: State, t: TerminalId)
    requires Inv(s) && t !in s.terminals
    ensures Inv(s.(terminals := s.terminals[t := Terminal(true, 0, 0, 0)]))
  {
    var u := s.(terminals := s.terminals[t := Terminal(true, 0, 0, 0)]);
    forall k | k in u.sessions && u.sessions[k].terminal.Some? ensures Tied(u, k, u.sessions[k].terminal.value) {
      assert Tied(s, k, s.sessions[k].terminal.value);
    }
  }

  lemma AttachKeeps(s: State, pid: Pid, t: TerminalId, force: bool)
    requires Inv(s) && (pid in s.processes ==> s.processes[pid].session != 0)
    ensures Inv(Attach(s, pid, t, force).1)
  {
    hide Ties, Indexed;
    AttachIndex(s, pid, t, force);
    if AttachError(s, pid, t, force) == OK {
      AttachTies(s, pid, t, force);
      AttachZeroFree(s, pid, t, force);
    }
  }

  // ------------------------------------------------------ what each call achieves

  /** A successful move puts the target into the group asked for, unless a group of that number belongs to
      another session; nobody else changes group and everybody keeps their session. */
  lemma SetPgidMoves(s: State, caller: Pid, pid: Pid, g: GroupId)
    requires Inv(s)
    ensures var (status, u) := SetPgid(s, caller, pid, g);
      var target := if pid == 0 then caller else pid; var goal := if g == 0 then target else g;
      && (status != OK ==> u == s)
      && (status == OK ==>
            && target in s.processes && u.processes.Keys == s.processes.Keys
            && (forall p | p in u.processes :: u.processes[p].session == s.processes[p].session)
            && (forall p | p in u.processes && p != target :: u.processes[p].group == s.processes[p].group)
            && (u.processes[target].group == goal || Clash(s, goal, s.processes[target].session)))
  {
    hide Inv, MoveGroup, TellLeader;
    var target := if pid == 0 then caller else pid;
    if target in s.processes {
      var goal := if g == 0 then target else g;
      MoveGroupProcesses(s, target, goal);
      var u := MoveGroup(s, target, goal);
      var sid := s.processes[target].session;
      if sid in u.sessions { TellLeaderProcesses(u, sid, u.sessions[sid].foreground); }
    }
  }

  lemma MoveGroupProcesses(s: State, pid: Pid, g: GroupId)
    requires pid in s.processes
    ensures var p := s.processes[pid];
      MoveGroup(s, pid, g).processes == if (p.group == g && p.inGroup) || Clash(s, g, p.session) then s.processes
                                        else s.processes[pid := p.(group := g, inGroup := true)]
  {
    hide LeaveGroup;
  }

  lemma TellLeaderProcesses(s: State, sid: SessionId, g: GroupId)
    ensures var u := TellLeader(s, sid, g);
      && u.processes.Keys == s.processes.Keys
      && forall p | p in s.processes :: u.processes[p].session == s.processes[p].session && u.processes[p].group == s.processes[p].group
  {
  }

  /** A successful call makes the caller the leader of a session and of a group of its own, unless a group of
      that number belongs to another session. */
  lemma SetSidLeads(s: State, pid: Pid)
    requires Inv(s)
    ensures var (status, u) := SetSid(s, pid);
      && (status != OK || Clash(s, pid, pid) ==> u == s)
      && (status == OK && !Clash(s, pid, pid) ==>
            && IsLeader(u, pid) && u.processes[pid].group == pid && pid in u.groups && u.groups[pid].session == pid && pid in u.groups[pid].members
            && forall g | g in u.groups && g != pid :: pid !in u.groups[g].members)
  {
    if pid in s.processes {
      SetSidKeeps(s, pid);
      var p := s.processes[pid];
    }
  }

  /** A leader's session and terminal part; anyone else only forgets the terminal. */
  lemma DetachParts(s: State, pid: Pid)
    requires Inv(s) && pid in s.processes && s.processes[pid].session in s.sessions
    ensures var u, sid := Detach(s, pid), s.processes[pid].session;
      && pid in u.processes && sid in u.sessions
      && (pid == sid ==> u.sessions[sid].terminal.None? && forall t | t in u.terminals :: (s.sessions[sid].terminal == Some(t) ==> u.terminals[t].session == 0))
      && (pid != sid ==> u.sessions == s.sessions && u.terminals == s.terminals)
      && (pid != sid && s.sessions[sid].terminal.Some? ==> u.processes[pid].terminal.None?)
  {
    hide Indexed;
    if s.sessions[s.processes[pid].session].terminal.Some? {
      assert Tied(s, s.processes[pid].session, s.sessions[s.processes[pid].session].terminal.value);
    }
  }

  /** A successful change is to a group with members, and the session and the terminal both show it. */
  lemma SetForegroundShows(s: State, pid: Pid, t: TerminalId, g: GroupId, verdict: Status)
    ensures var (status, u) := SetForegroundGroup(s, pid, t, g, verdict);
      && (status != OK ==> u == s)
      && (status == OK ==>
            && pid in s.processes && t in u.terminals && GroupExists(u, s.processes[pid].session, g)
            && var sid := s.processes[pid].session;
            && sid in u.sessions && u.sessions[sid].terminal == Some(t)
            && u.sessions[sid].foreground == g && u.terminals[t].foreground == g && u.terminals[t].live
            && sid in u.processes && u.processes[sid].foreground == g)
  {
  }

  /** When an attach is granted: a live leader of an existing session asks for an existing terminal, and either
      insists, or holds no other terminal while no other session, 0 aside, holds this one. */
  lemma AttachSucceedsExactly(s: State, pid: Pid, t: TerminalId, force: bool)
    requires Ties(s)
    ensures Attach(s, pid, t, force).0 == OK <==>
      && pid in s.processes && s.processes[pid].live && s.processes[pid].session == pid && pid in s.sessions && t in s.terminals
      && (force || ((s.sessions[pid].terminal.None? || s.sessions[pid].terminal == Some(t))
                    && forall k | k in s.sessions && k != pid && k != 0 :: s.sessions[k].terminal != Some(t)))
  {
    if t in s.terminals {
      forall k | k in s.sessions && s.sessions[k].terminal == Some(t) ensures k == s.terminals[t].session { assert Tied(s, k, t); }
    }
  }

  /** What an attach does to sessions other than the caller's: without force nothing; with it, the one that
      held the terminal, unless that is session 0, is left without. */
  lemma AttachAndOthers(s: State, pid: Pid, t: TerminalId, force: bool, k: SessionId)
    requires Ties(s) && k in s.sessions && (pid in s.processes ==> k != s.processes[pid].session)
    ensures var (status, u) := Attach(s, pid, t, force);
      && k in u.sessions && u.sessions[k].members == s.sessions[k].members
      && (!force || status != OK || k == 0 || s.sessions[k].terminal != Some(t) ==> u.sessions[k] == s.sessions[k])
      && (status == OK && k != 0 && s.sessions[k].terminal == Some(t) ==> force && u.sessions[k].terminal.None? && u.sessions[k].foreground == 0)
  {
    if s.sessions[k].terminal == Some(t) { assert Tied(s, k, t); }
    if pid in s.processes && s.processes[pid].session in s.sessions {
      var mine := s.sessions[s.processes[pid].session].terminal;
      if mine.Some? { assert Tied(s, s.processes[pid].session, mine.value); }
    }
  }

  /** When a move is granted: the target is alive, the caller or its child, in the caller's session and not its
      leader, and the group has a member in that session or is to be the target's own. */
  lemma SetPgidSucceedsExactly(s: State, caller: Pid, pid: Pid, g: GroupId)
    requires Inv(s)
    ensures var target := if pid == 0 then caller else pid; var goal := if g == 0 then target else g;
      SetPgid(s, caller, pid, g).0 == OK <==>
        && caller in s.processes && target in s.processes && s.processes[target].live
        && (target == caller || s.processes[target].parent == caller)
        && s.processes[target].session == s.processes[caller].session && s.processes[target].session != target
        && (goal == target
            || exists m :: m in s.processes && s.processes[m].inGroup && s.processes[m].group == goal
                           && goal in s.groups && s.groups[goal].session == s.processes[caller].session)
  {
    hide MoveGroup, Ties;
    var target := if pid == 0 then caller else pid;
    var goal := if g == 0 then target else g;
    if goal in s.groups && s.groups[goal].members != {} {
      var m :| m in s.groups[goal].members;
      assert m in s.processes && s.processes[m].inGroup && s.processes[m].group == goal;
    }
  }

  /** When a new session is granted: to a live process that is not the leader of its group. */
  lemma SetSidSucceedsExactly(s: State, pid: Pid)
    ensures SetSid(s, pid).0 == OK <==> pid in s.processes && s.processes[pid].live && s.processes[pid].group != pid
  {
  }

  /** When a foreground change is granted: the check before it passed, the caller is a live member of the session
      that holds the terminal, that session's leader lives, the group has members there, and the
      terminal is live and not leased. */
  lemma SetForegroundSucceedsExactly(s: State, pid: Pid, t: TerminalId, g: GroupId, verdict: Status)
    requires Inv(s)
    ensures SetForegroundGroup(s, pid, t, g, verdict).0 == OK <==>
      && verdict == OK && pid in s.processes && s.processes[pid].live && s.processes[pid].inSession && g != 0
      && var sid := s.processes[pid].session;
      && sid in s.sessions && s.sessions[sid].terminal == Some(t) && s.terminals[t].live && s.terminals[t].leases == 0
      && sid in s.processes && s.processes[sid].live && s.processes[sid].inSession && s.processes[sid].session == sid
      && g in s.groups && s.groups[g].session == sid
  {
    if pid in s.processes && s.processes[pid].session in s.sessions {
      var sid := s.processes[pid].session;
      if s.sessions[sid].terminal.Some? { assert Tied(s, sid, s.sessions[sid].terminal.value); }
    }
  }

  /** A process that left is in no session and no group. */
  lemma ExitUnlinks(s: State, pid: Pid)
    requires Inv(s) && pid in s.processes && !s.processes[pid].cleaned
    ensures var u := Exit(s, pid);
      && (forall sid | sid in u.sessions :: pid !in u.sessions[sid].members)
      && (forall g | g in u.groups :: pid !in u.groups[g].members)
  {
    ExitKeeps(s, pid);
    var p := s.processes[pid];
    hide ExitTerminal, ExitForeground, Ties;
    ExitKeepsLinks(s, pid);
    Unlinked(ExitForeground(ExitTerminal(s, pid), pid, p.session, p.group), pid);
  }

  // ----------------------------------------------------------------------------- runs

  datatype Event =
    | DoSpawn(pid: Pid, parent: Option<Pid>)
    | DoSetSid(pid: Pid)
    | DoSetPgid(caller: Pid, pid: Pid, g: GroupId)
    | DoNewTerminal(t: TerminalId)
    | DoAttach(pid: Pid, t: TerminalId, force: bool)
    | DoDetach(pid: Pid)
    | DoDetachTerminal(t: TerminalId)
    | DoRevoke(t: TerminalId)
    | DoLease(t: TerminalId, n: nat)
    | DoSetForeground(pid: Pid, t: TerminalId, g: GroupId, verdict: Status)
    | DoExit(pid: Pid)
    | DoDie(pid: Pid)
    | DoDelete(pid: Pid)

  function Step(s: State, e: Event): State {
    match e
    case DoSpawn(pid, parent) => Spawn(s, pid, parent)
    case DoSetSid(pid) => SetSid(s, pid).1
    case DoSetPgid(caller, pid, g) => SetPgid(s, caller, pid, g).1
    case DoNewTerminal(t) => if t in s.terminals then s else s.(terminals := s.terminals[t := Terminal(true, 0, 0, 0)])
    case DoAttach(pid, t, force) => Attach(s, pid, t, force).1
    case DoDetach(pid) => Detach(s, pid)
    case DoDetachTerminal(t) => DetachTerminal(s, t)
    case DoRevoke(t) => RevokeTerminal(s, t)
    case DoLease(t, n) => if t in s.terminals then s.(terminals := s.terminals[t := s.terminals[t].(leases := n)]) else s
    case DoSetForeground(pid, t, g, verdict) => SetForegroundGroup(s, pid, t, g, verdict).1
    case DoExit(pid) => Exit(s, pid)
    case DoDie(pid) => Die(s, pid)
    case DoDelete(pid) => Delete(s, pid)
  }

  /** The event does not attach a terminal to session 0. */
  predicate Fair(s: State, e: Event) {
    e.DoAttach? && e.pid in s.processes ==> s.processes[e.pid].session != 0
  }

  lemma StepKeeps(s: State, e: Event)
    requires Inv(s) && Fair(s, e)
    ensures Inv(Step(s, e))
  {
    hide Inv, Spawn, SetSid, SetPgid, Attach, Detach, Release, RevokeTerminal, SetForegroundGroup, Exit, Delete;
    match e {
      case DoSpawn(pid, parent) => SpawnKeeps(s, pid, parent);
      case DoSetSid(pid) => SetSidKeeps(s, pid);
      case DoSetPgid(caller, pid, g) => SetPgidKeeps(s, caller, pid, g);
      case DoNewTerminal(t) => if t !in s.terminals { NewTerminalKeeps(s, t); }
      case DoAttach(pid, t, force) => AttachKeeps(s, pid, t, force);
      case DoDetach(pid) => DetachKeeps(s, pid);
      case DoDetachTerminal(t) => if t in s.terminals { ReleaseKeeps(s, s.terminals[t].session, t); }
      case DoRevoke(t) => RevokeKeeps(s, t);
      case DoLease(t, n) => if t in s.terminals { LeaseKeeps(s, t, n); }
      case DoSetForeground(pid, t, g, verdict) => SetForegroundKeeps(s, pid, t, g, verdict);
      case DoExit(pid) => ExitKeeps(s, pid);
      case DoDie(pid) => DieKeeps(s, pid);
      case DoDelete(pid) => DeleteKeeps(s, pid);
    }
  }

  lemma DieKeeps(s: State, pid: Pid)
    requires Inv(s)
    ensures Inv(Die(s, pid))
  {
    if pid in s.processes { QuietProcess(s, pid, s.processes[pid].(live := false)); }
  }

  /** A run none of whose events attaches a terminal to session 0. */
  predicate FairRun(s: State, es: seq<Event>)
    decreases |es|
  {
    es == [] || (Fair(s, es[0]) && FairRun(Step(s, es[0]), es[1..]))
  }

  function Run(s: State, es: seq<Event>): State
    decreases |es|
  {
    if es == [] then s else Run(Step(s, es[0]), es[1..])
  }

  lemma {:induction false} RunKeeps(s: State, es: seq<Event>)
    requires Inv(s) && FairRun(s, es)
    ensures Inv(Run(s, es))
    decreases |es|
  {
    hide Inv, Step;
    if es != [] {
      StepKeeps(s, es[0]);
      RunKeeps(Step(s, es[0]), es[1..]);
    }
  }

  /** Over every fair run a session that holds a terminal is the one the terminal names, and while the terminal
      is live they agree on the foreground group. */
  lemma SessionAndTerminalAgree(es: seq<Event>, sid: SessionId)
    requires FairRun(EMPTY, es)
    requires var s := Run(EMPTY, es); sid in s.sessions && s.sessions[sid].terminal.Some?
    ensures var s := Run(EMPTY, es); var t := s.sessions[sid].terminal.value;
      && t in s.terminals && s.terminals[t].session == sid
      && (s.terminals[t].live ==> s.terminals[t].foreground == s.sessions[sid].foreground)
  {
    RunKeeps(EMPTY, es);
    var s := Run(EMPTY, es);
    assert Tied(s, sid, s.sessions[sid].terminal.value);
  }

  /** So no terminal ever controls two sessions. */
  lemma OneSessionPerTerminal(es: seq<Event>, a: SessionId, b: SessionId)
    requires FairRun(EMPTY, es)
    requires var s := Run(EMPTY, es);
      && a in s.sessions && b in s.sessions && s.sessions[a].terminal.Some? && s.sessions[a].terminal == s.sessions[b].terminal
    ensures a == b
  {
    SessionAndTerminalAgree(es, a);
    SessionAndTerminalAgree(es, b);
  }

  /** Once session 0 has a terminal, another session comes to hold it too. */
  lemma SessionZeroKeepsItsTerminal()
    ensures var s := Run(EMPTY, [DoSpawn(0, None), DoNewTerminal(9), DoAttach(0, 9, false), DoSpawn(5, None), DoAttach(5, 9, false)]);
      && 0 in s.sessions && 5 in s.sessions && s.sessions[0].terminal == Some(9) && s.sessions[5].terminal == Some(9)
      && s.terminals[9].session == 5
  {
  }
}
