/** The job-control tables as the kernel updates them in place, under the process list lock. */
module JobControlTable {
  import opened Options
  import opened JobControl
  import opened JobControlRuns

  class Table {
    var processes: map<Pid, Process>
    var sessions: map<SessionId, Session>
    var groups: map<GroupId, Group>
    var terminals: map<TerminalId, Terminal>

    function View(): State
      reads this
    {
      State(processes, sessions, groups, terminals)
    }

    constructor ()
      ensures View() == EMPTY
    {
      processes, sessions, groups, terminals := map[], map[], map[], map[];
    }

    /** A revoked terminal ignores the new group. */
    method SetTerminalForeground(t: TerminalId, g: GroupId)
      requires t in terminals
      modifies this`terminals
      ensures terminals == old(terminals)[t := SetForeground(old(terminals)[t], g)]
    {
      if terminals[t].live {
        terminals := terminals[t := terminals[t].(foreground := g)];
      } else {
        assert terminals == terminals[t := terminals[t]];
      }
    }

    /** Revoke once; the foreground group at that moment goes to the caller. */
    method RevokeAndTakeForeground(t: TerminalId) returns (done: bool, foreground: GroupId)
      requires t in terminals
      modifies this`terminals
      ensures View() == RevokeTerminal(old(View()), t)
      ensures done == old(terminals)[t].live && (done ==> foreground == old(terminals)[t].foreground)
    {
      if !terminals[t].live {
        assert terminals == terminals[t := terminals[t]];
        return false, 0;
      }
      foreground := terminals[t].foreground;
      terminals := terminals[t := terminals[t].(live := false, leases := 0)];
      done := true;
    }

    method RegisterProcess(pid: Pid)
      requires pid in processes && !Clash(View(), processes[pid].group, processes[pid].session)
      modifies this
      ensures View() == Register(old(View()), pid, old(processes)[pid])
    {
      var p := processes[pid];
      if p.session !in sessions { sessions := sessions[p.session := Session({}, None, 0)]; }
      if p.group !in groups { groups := groups[p.group := Group(p.session, {})]; }
      var ses := sessions[p.session];
      sessions := sessions[p.session := ses.(members := ses.members + {pid})];
      groups := groups[p.group := groups[p.group].(members := groups[p.group].members + {pid})];
      processes := processes[pid := p.(inSession := true, inGroup := true, terminal := ses.terminal, foreground := ses.foreground)];
    }

    method LeaveProcessGroup(pid: Pid, g: GroupId) returns (emptied: bool)
      requires g in groups
      modifies this`groups
      ensures groups == LeaveGroup(old(groups), g, pid)
      ensures emptied == (old(groups)[g].members - {pid} == {})
    {
      groups := groups[g := groups[g].(members := groups[g].members - {pid})];
      emptied := groups[g].members == {};
      if emptied { groups := groups - {g}; }
    }

    method UnregisterProcess(pid: Pid)
      requires pid in processes
      requires processes[pid].inGroup ==> processes[pid].group in groups
      requires processes[pid].inSession ==> processes[pid].session in sessions
      modifies this
      ensures View() == Unregister(old(View()), pid)
    {
      var p := processes[pid];
      if p.inGroup { var _ := LeaveProcessGroup(pid, p.group); }
      if p.inSession {
        var ses := sessions[p.session].(members := sessions[p.session].members - {pid});
        sessions := sessions[p.session := ses];
        if ses.members == {} && ses.terminal.None? { sessions := sessions - {p.session}; }
      }
      processes := processes[pid := p.(inSession := false, inGroup := false)];
    }

    method ClearForeground(sid: SessionId)
      requires sid in sessions && (sessions[sid].terminal.Some? ==> sessions[sid].terminal.value in terminals)
      modifies this`sessions, this`terminals
      ensures View() == Foreground(old(View()), sid, 0)
    {
      sessions := sessions[sid := sessions[sid].(foreground := 0)];
      if sessions[sid].terminal.Some? { SetTerminalForeground(sessions[sid].terminal.value, 0); }
    }

    /** Leave the old group, which goes when it is empty, and join the new one. */
    method Rehome(pid: Pid, g: GroupId) returns (emptied: bool)
      requires pid in processes && (processes[pid].inGroup ==> processes[pid].group in groups)
      modifies this`groups, this`processes
      ensures View() == Rehomed(old(View()), pid, g) && emptied == Empties(old(View()), pid)
    {
      hide LeaveGroup;
      var p := processes[pid];
      emptied := false;
      if p.inGroup { emptied := LeaveProcessGroup(pid, p.group); }
      if g !in groups { groups := groups[g := Group(p.session, {})]; }
      groups := groups[g := groups[g].(members := groups[g].members + {pid})];
      processes := processes[pid := p.(group := g, inGroup := true)];
    }

    method MoveProcessGroup(pid: Pid, g: GroupId)
      requires pid in processes && Inv(View())
      modifies this
      ensures View() == MoveGroup(old(View()), pid, g)
    {
      LinksKnown(View(), pid);
      hide Inv, Rehomed, Empties, Foreground;
      var p := processes[pid];
      if (p.group == g && p.inGroup) || Clash(View(), g, p.session) { return; }
      RehomedKeeps(View(), pid, g);
      var emptied := Rehome(pid, g);
      if p.inSession && p.session in sessions && sessions[p.session].foreground == p.group && emptied {
        ClearForeground(p.session);
      }
    }

    method TellSessionLeader(sid: SessionId, g: GroupId)
      modifies this`processes
      ensures View() == TellLeader(old(View()), sid, g)
    {
      if IsLeader(View(), sid) { processes := processes[sid := processes[sid].(foreground := g)]; }
    }

    method SetProcessGroup(caller: Pid, pid: Pid, g: GroupId) returns (status: Status)
      requires Inv(View())
      modifies this
      ensures (status, View()) == SetPgid(old(View()), caller, pid, g)
      ensures Inv(View()) && (status != OK ==> View() == old(View()))
      ensures status == OK ==>
        var target := if pid == 0 then caller else pid; var goal := if g == 0 then target else g;
        && target in old(processes) && processes.Keys == old(processes).Keys
        && (processes[target].group == goal || Clash(old(View()), goal, old(processes)[target].session))
        && (forall p | p in processes && p != target :: processes[p].group == old(processes)[p].group)
    {
      SetPgidKeeps(View(), caller, pid, g);
      SetPgidMoves(View(), caller, pid, g);
      if caller !in processes { return EPARAM; }
      var target := if pid == 0 then caller else pid;
      if target !in processes || !processes[target].live { return ENOEXIST; }
      var p := processes[target];
      if target != caller && p.parent != caller { return EPERMISSION; }
      if p.session != processes[caller].session { return EPERMISSION; }
      if target == p.session { return EPERMISSION; }
      var goal := if g == 0 then target else g;
      if !GroupExists(View(), p.session, goal) && goal != target { return ENOEXIST; }
      MoveProcessGroup(target, goal);
      if p.session in sessions { TellSessionLeader(p.session, sessions[p.session].foreground); }
      status := OK;
    }

    method SetSession(pid: Pid) returns (status: Status)
      requires Inv(View())
      modifies this
      ensures (status, View()) == SetSid(old(View()), pid)
      ensures Inv(View()) && (status != OK ==> View() == old(View()))
      ensures status == OK && !Clash(old(View()), pid, pid) ==> IsLeader(View(), pid) && processes[pid].group == pid
    {
      SetSidKeeps(View(), pid);
      SetSidLeads(View(), pid);
      hide Inv, Register, Unregister;
      if pid !in processes { return EPARAM; }
      var p := processes[pid];
      if !p.live { return ENOEXIST; }
      if p.group == pid { return EPERMISSION; }
      if Clash(View(), pid, pid) { return OK; }
      LinksKnown(View(), pid);
      UnregisterClash(View(), pid);
      UnregisterProcess(pid);
      ghost var u := View();
      processes := processes[pid := processes[pid].(session := pid, group := pid)];
      SameRegister(u, View(), pid);
      RegisterProcess(pid);
      status := OK;
    }

    /** Part a session from a terminal it holds; every member forgets the terminal. */
    method DetachSessionTerminal(sid: SessionId, t: TerminalId)
      requires t in terminals
      modifies this
      ensures View() == Release(old(View()), sid, t)
    {
      if sid !in sessions || sessions[sid].terminal != Some(t) { return; }
      sessions := sessions[sid := sessions[sid].(terminal := None, foreground := 0)];
      SetTerminalForeground(t, 0);
      terminals := terminals[t := terminals[t].(session := 0)];
      var left := sessions[sid].members;
      ghost var members, before := left, processes;
      while left != {}
        invariant left <= members && processes.Keys == before.Keys
        invariant sessions == old(sessions)[sid := old(sessions)[sid].(terminal := None, foreground := 0)]
        invariant terminals == old(terminals)[t := SetForeground(old(terminals)[t], 0).(session := 0)] && groups == old(groups)
        invariant processes == Forgotten(before, members - left)
        decreases |left|
      {
        var p: Pid :| p in left;
        if p in processes { processes := processes[p := processes[p].(terminal := None, foreground := 0)]; }
        left := left - {p};
      }
      assert members - left == members;
    }

    method AttachControllingTerminal(pid: Pid, t: TerminalId, force: bool) returns (status: Status)
      requires Inv(View())
      modifies this
      ensures (status, View()) == Attach(old(View()), pid, t, force)
      ensures (pid in old(processes) ==> old(processes)[pid].session != 0) ==> Inv(View())
      ensures status != OK ==> View() == old(View())
      ensures status == OK <==>
        && pid in old(processes) && old(processes)[pid].live && old(processes)[pid].session == pid
        && pid in old(sessions) && t in old(terminals)
        && (force || ((old(sessions)[pid].terminal.None? || old(sessions)[pid].terminal == Some(t))
                      && forall k | k in old(sessions) && k != pid && k != 0 :: old(sessions)[k].terminal != Some(t)))
      ensures !force ==> forall k | k in old(sessions) && k != pid :: k in sessions && sessions[k] == old(sessions)[k]
      ensures status == OK ==>
        && pid in old(processes) && t in old(terminals)
        && var p := old(processes)[pid];
        && p.session in sessions && sessions[p.session].terminal == Some(t) && sessions[p.session].foreground == p.group
        && t in terminals && terminals[t].session == p.session && (terminals[t].live ==> terminals[t].foreground == p.group)
    {
      AttachLaw(View(), pid, t, force);
      if pid !in processes || t !in terminals { return EPARAM; }
      var p := processes[pid];
      if !p.live { return ENOEXIST; }
      if pid != p.session { return EPERMISSION; }
      if p.session !in sessions { return ENOEXIST; }
      var mine := sessions[p.session].terminal;
      if mine.Some? && mine != Some(t) && !force { return ERESOURCE_NOT_NULL; }
      ghost var before := View();
      var rival := terminals[t].session;
      if rival !in sessions || sessions[rival].terminal != Some(t) || rival == p.session { rival := 0; }
      if rival != 0 && !force { return EPERMISSION; }
      if mine.Some? { assert Tied(before, p.session, mine.value); }
      if rival != 0 { DetachSessionTerminal(rival, t); }
      if mine.Some? && mine != Some(t) { DetachSessionTerminal(p.session, mine.value); }
      InstallTerminal(p.session, t, p.group);
      status := OK;
    }

    /** Give a session the terminal and tell every member. */
    method InstallTerminal(sid: SessionId, t: TerminalId, g: GroupId)
      requires sid in sessions && t in terminals
      modifies this
      ensures View() == Give(old(View()), sid, t, g)
    {
      sessions := sessions[sid := sessions[sid].(terminal := Some(t), foreground := g)];
      var left := sessions[sid].members;
      ghost var members, before := left, processes;
      while left != {}
        invariant left <= members && processes.Keys == before.Keys
        invariant sessions == old(sessions)[sid := old(sessions)[sid].(terminal := Some(t), foreground := g)]
        invariant terminals == old(terminals) && groups == old(groups)
        invariant processes == Told(before, members - left, t, g)
        decreases |left|
      {
        var p: Pid :| p in left;
        if p in processes { processes := processes[p := processes[p].(terminal := Some(t), foreground := g)]; }
        left := left - {p};
      }
      assert members - left == members;
      terminals := terminals[t := terminals[t].(session := sid)];
      SetTerminalForeground(t, g);
    }

    method DetachControllingTerminal(pid: Pid)
      requires Inv(View())
      modifies this
      ensures View() == Detach(old(View()), pid) && Inv(View())
      ensures pid in old(processes) && old(processes)[pid].session in old(sessions) ==>
        var sid := old(processes)[pid].session;
        && sid in sessions
        && (pid == sid ==> sessions[sid].terminal.None?)
        && (pid != sid ==> sessions == old(sessions) && terminals == old(terminals))
    {
      DetachKeeps(View(), pid);
      if pid in processes && processes[pid].session in sessions { DetachParts(View(), pid); }
      if pid !in processes || processes[pid].session !in sessions { return; }
      var sid := processes[pid].session;
      if sessions[sid].terminal.None? { return; }
      var t := sessions[sid].terminal.value;
      assert Tied(View(), sid, t);
      if pid == sid {
        DetachSessionTerminal(sid, t);
      } else {
        processes := processes[pid := processes[pid].(terminal := None)];
      }
    }

    method SetForegroundProcessGroup(pid: Pid, t: TerminalId, g: GroupId, verdict: Status) returns (status: Status)
      requires Inv(View())
      modifies this
      ensures (status, View()) == SetForegroundGroup(old(View()), pid, t, g, verdict)
      ensures Inv(View()) && (status != OK ==> View() == old(View()))
      ensures status == OK ==>
        && pid in old(processes) && t in terminals
        && var sid := old(processes)[pid].session;
        && GroupExists(View(), sid, g) && sid in sessions && sessions[sid].terminal == Some(t)
        && sessions[sid].foreground == g && terminals[t].foreground == g && terminals[t].live
    {
      SetForegroundKeeps(View(), pid, t, g, verdict);
      SetForegroundShows(View(), pid, t, g, verdict);
      if pid !in processes || t !in terminals || g == 0 { return EPARAM; }
      if verdict != OK { return verdict; }
      var p := processes[pid];
      if !p.live || !p.inSession || p.session !in sessions || sessions[p.session].terminal != Some(t) { return EPERMISSION; }
      if !IsLeader(View(), p.session) || !GroupExists(View(), p.session, g) { return ENOEXIST; }
      if !terminals[t].live || terminals[t].leases != 0 { return EAGAIN; }
      SetTerminalForeground(t, g);
      sessions := sessions[p.session := sessions[p.session].(foreground := g)];
      TellSessionLeader(p.session, g);
      status := OK;
    }

    /** A process leaves: its session gives up the terminal when the leader goes, an emptied foreground
        group stops being one, and the process is unlinked. */
    method CleanupProcess(pid: Pid)
      requires Inv(View())
      modifies this
      ensures View() == Exit(old(View()), pid) && Inv(View())
      ensures pid in old(processes) && !old(processes)[pid].cleaned ==>
        && (forall sid | sid in sessions :: pid !in sessions[sid].members)
        && (forall g | g in groups :: pid !in groups[g].members)
      ensures pid in old(processes) && !old(processes)[pid].cleaned && old(processes)[pid].session == pid && pid in old(sessions) ==>
        forall t | old(sessions)[pid].terminal == Some(t) :: t in terminals && terminals[t].session == 0
    {
      ExitLaw(View(), pid);
      hide Inv, ExitTerminal, ExitForeground, Unregister;
      if pid !in processes || processes[pid].cleaned { return; }
      var p := processes[pid];
      LinksKnown(View(), pid);
      ExitKeepsLinks(View(), pid);
      CleanupTerminal(pid);
      CleanupForeground(pid, p.session, p.group);
      UnregisterProcess(pid);
    }

    method CleanupTerminal(pid: Pid)
      requires pid in processes && Inv(View())
      modifies this
      ensures View() == ExitTerminal(old(View()), pid)
      ensures forall sid | sid in sessions :: sessions[sid].terminal.Some? ==> sessions[sid].terminal.value in terminals
    {
      TerminalsKnown(View());
      LinksKnown(View(), pid);
      hide Inv, Ties, Indexed, Forgotten;
      var p := processes[pid];
      processes := processes[pid := p.(cleaned := true)];
      if p.session in sessions && sessions[p.session].terminal.Some? {
        var t := sessions[p.session].terminal.value;
        if pid == p.session {
          DetachSessionTerminal(p.session, t);
        } else {
          processes := processes[pid := processes[pid].(terminal := None)];
        }
      }
    }

    method CleanupForeground(pid: Pid, sid: SessionId, g: GroupId)
      requires forall k | k in sessions :: sessions[k].terminal.Some? ==> sessions[k].terminal.value in terminals
      modifies this
      ensures View() == ExitForeground(old(View()), pid, sid, g)
    {
      hide Foreground, TellLeader;
      if sid in sessions && sessions[sid].foreground == g && !GroupExistsWithout(View(), sid, g, pid) {
        ClearForeground(sid);
        TellSessionLeader(sid, 0);
      }
    }
  }

  lemma AttachLaw(s: State, pid: Pid, t: TerminalId, force: bool)
    requires Inv(s)
    ensures (pid in s.processes ==> s.processes[pid].session != 0) ==> Inv(Attach(s, pid, t, force).1)
    ensures Attach(s, pid, t, force).0 == OK <==>
      && pid in s.processes && s.processes[pid].live && s.processes[pid].session == pid && pid in s.sessions && t in s.terminals
      && (force || ((s.sessions[pid].terminal.None? || s.sessions[pid].terminal == Some(t))
                    && forall k | k in s.sessions && k != pid && k != 0 :: s.sessions[k].terminal != Some(t)))
    ensures !force ==> var u := Attach(s, pid, t, force).1; forall k | k in s.sessions && k != pid :: k in u.sessions && u.sessions[k] == s.sessions[k]
    ensures Attach(s, pid, t, force).0 != OK ==> Attach(s, pid, t, force).1 == s
    ensures Attach(s, pid, t, force).0 == OK ==>
      var u := Attach(s, pid, t, force).1; var p := s.processes[pid];
      && p.session in u.sessions && u.sessions[p.session].terminal == Some(t) && u.sessions[p.session].foreground == p.group
      && t in u.terminals && u.terminals[t].session == p.session && (u.terminals[t].live ==> u.terminals[t].foreground == p.group)
  {
    AttachStatus(s, pid, t, force);
    hide Attach, Indexed;
    AttachSucceedsExactly(s, pid, t, force);
    if pid in s.processes ==> s.processes[pid].session != 0 { AttachKeeps(s, pid, t, force); }
    if AttachError(s, pid, t, force) == OK { AttachGives(s, pid, t, force); }
    if !force && Attach(s, pid, t, force).0 == OK {
      forall k | k in s.sessions && k != pid ensures k in Attach(s, pid, t, force).1.sessions && Attach(s, pid, t, force).1.sessions[k] == s.sessions[k] {
        AttachAndOthers(s, pid, t, force, k);
      }
    }
  }

  lemma AttachStatus(s: State, pid: Pid, t: TerminalId, force: bool)
    ensures Attach(s, pid, t, force).0 == AttachError(s, pid, t, force)
    ensures Attach(s, pid, t, force).0 != OK ==> Attach(s, pid, t, force).1 == s
  {
  }

  lemma ExitLaw(s: State, pid: Pid)
    requires Inv(s)
    ensures Inv(Exit(s, pid))
    ensures pid in s.processes && !s.processes[pid].cleaned ==>
      var u := Exit(s, pid);
      && (forall sid | sid in u.sessions :: pid !in u.sessions[sid].members)
      && (forall g | g in u.groups :: pid !in u.groups[g].members)
      && (s.processes[pid].session == pid && pid in s.sessions ==>
            forall t | s.sessions[pid].terminal == Some(t) :: t in u.terminals && u.terminals[t].session == 0)
  {
    hide Inv, Exit;
    ExitKeeps(s, pid);
    if pid in s.processes && !s.processes[pid].cleaned {
      ExitUnlinks(s, pid);
      if s.processes[pid].session == pid && pid in s.sessions && s.sessions[pid].terminal.Some? {
        LeaderExitFreesTerminal(s, pid, s.sessions[pid].terminal.value);
      }
    }
  }

  lemma RehomedKeeps(s: State, pid: Pid, g: GroupId)
    requires pid in s.processes
    ensures Rehomed(s, pid, g).sessions == s.sessions && Rehomed(s, pid, g).terminals == s.terminals
  {
  }

  /** Leaving does not change what another group belongs to. */
  lemma UnregisterClash(s: State, pid: Pid)
    requires pid in s.processes && !Clash(s, pid, pid)
    ensures pid in Unregister(s, pid).processes && !Clash(Unregister(s, pid), pid, pid)
  {
  }

  lemma SameRegister(u: State, v: State, pid: Pid)
    requires pid in v.processes && v == u.(processes := u.processes[pid := v.processes[pid]])
    ensures Register(v, pid, v.processes[pid]) == Register(u, pid, v.processes[pid])
  {
  }

  lemma TerminalsKnown(s: State)
    requires Inv(s)
    ensures forall sid | sid in s.sessions :: s.sessions[sid].terminal.Some? ==> s.sessions[sid].terminal.value in s.terminals
  {
    forall sid | sid in s.sessions ensures s.sessions[sid].terminal.Some? ==> s.sessions[sid].terminal.value in s.terminals {
      assert s.sessions[sid].terminal.Some? ==> Tied(s, sid, s.sessions[sid].terminal.value);
    }
  }
}
