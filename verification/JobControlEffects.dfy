/** What each job-control operation leaves of every session, group, terminal and process. */
module JobControlEffects {
  import opened Options
  import opened JobControl
  import opened JobControlRuns

  // ----------------------------------------------------------------- coming and going

  /** A new process joins its parent's session and group, or makes its own, and learns the session's terminal. */
  lemma SpawnJoins(s: State, pid: Pid, parent: Option<Pid>)
    requires pid !in s.processes && (parent.Some? ==> parent.value in s.processes)
    ensures var sid := if parent.Some? then s.processes[parent.value].session else pid;
      var g := if parent.Some? then s.processes[parent.value].group else pid;
      var u := Spawn(s, pid, parent);
      && (Clash(s, g, sid) ==> u == s)
      && (!Clash(s, g, sid) ==>
            && pid in u.processes && u.processes - {pid} == s.processes && u.terminals == s.terminals
            && sid in u.sessions && g in u.groups && u.sessions - {sid} == s.sessions - {sid} && u.groups - {g} == s.groups - {g}
            && var p, ses := u.processes[pid], u.sessions[sid];
            && p.session == sid && p.group == g && p.live && p.inSession && p.inGroup && !p.cleaned
            && (parent.Some? ==> p.parent == parent.value)
            && ses.members == (if sid in s.sessions then s.sessions[sid].members else {}) + {pid}
            && u.groups[g] == Group(sid, (if g in s.groups then s.groups[g].members else {}) + {pid})
            && p.terminal == ses.terminal == (if sid in s.sessions then s.sessions[sid].terminal else None)
            && p.foreground == ses.foreground == (if sid in s.sessions then s.sessions[sid].foreground else 0))
  {
    var u := Spawn(s, pid, parent);
    if u != s { assert u.processes - {pid} == s.processes; }
  }

  /** Which sessions and groups are left when one process leaves: those with another member, and sessions with a terminal. */
  ghost predicate Left(s: State, u: State, pid: Pid)
    requires pid in s.processes
  {
    var p := s.processes[pid];
    && (p.inSession && p.session in s.sessions ==>
          (p.session in u.sessions <==> s.sessions[p.session].members - {pid} != {} || s.sessions[p.session].terminal.Some?))
    && (p.inSession && p.session in s.sessions && p.session in u.sessions ==>
          u.sessions[p.session] == s.sessions[p.session].(members := s.sessions[p.session].members - {pid}))
    && (p.inGroup && p.group in s.groups ==> (p.group in u.groups <==> s.groups[p.group].members - {pid} != {}))
    && (p.inGroup && p.group in s.groups && p.group in u.groups ==>
          u.groups[p.group] == s.groups[p.group].(members := s.groups[p.group].members - {pid}))
    && (forall k | k in s.sessions && !(p.inSession && k == p.session) :: k in u.sessions && u.sessions[k] == s.sessions[k])
    && (forall k | k in s.groups && !(p.inGroup && k == p.group) :: k in u.groups && u.groups[k] == s.groups[k])
    && u.sessions.Keys <= s.sessions.Keys && u.groups.Keys <= s.groups.Keys && u.terminals == s.terminals
  }

  lemma UnregisterLeaves(s: State, pid: Pid)
    requires pid in s.processes
    ensures Left(s, Unregister(s, pid), pid)
    ensures Unregister(s, pid).processes == s.processes[pid := s.processes[pid].(inSession := false, inGroup := false)]
  {
  }

  /** Reaping forgets the process and takes it out of its session and group. */
  lemma DeleteForgets(s: State, pid: Pid)
    requires pid in s.processes
    ensures var u := Delete(s, pid); u.processes == s.processes - {pid} && Left(s, u, pid)
  {
    UnregisterLeaves(s, pid);
  }

  /** A process without threads is refused every call that needs a live one; it stays where it is until it is cleaned up. */
  lemma DeadIsRefused(s: State, pid: Pid, t: TerminalId, force: bool, g: GroupId)
    requires pid in s.processes
    ensures var u := Die(s, pid);
      && pid in u.processes && SamePlace(s.processes[pid], u.processes[pid]) && u.processes - {pid} == s.processes - {pid}
      && u.sessions == s.sessions && u.groups == s.groups && u.terminals == s.terminals
      && SetSid(u, pid).0 == ENOEXIST && SetPgid(u, pid, pid, g).0 == ENOEXIST && Attach(u, pid, t, force).0 != OK
      && SetForegroundGroup(u, pid, t, g, OK).0 != OK && !IsLeader(u, pid)
  {
    hide MoveGroup, Register, Unregister, Release, Foreground;
    var u := Die(s, pid);
    assert u.processes - {pid} == s.processes - {pid};
  }

  // ------------------------------------------------------------------------ terminals

  /** The session and the terminal have parted and every member has forgotten both it and its foreground group. */
  ghost predicate Parted(s: State, u: State, sid: SessionId, t: TerminalId)
    requires sid in s.sessions && t in s.terminals
  {
    && u.sessions == s.sessions[sid := s.sessions[sid].(terminal := None, foreground := 0)]
    && u.terminals == s.terminals[t := s.terminals[t].(session := 0, foreground := if s.terminals[t].live then 0 else s.terminals[t].foreground)]
    && u.groups == s.groups && u.processes.Keys == s.processes.Keys
    && (forall p | p in s.processes && p in s.sessions[sid].members :: u.processes[p] == s.processes[p].(terminal := None, foreground := 0))
    && (forall p | p in s.processes && p !in s.sessions[sid].members :: u.processes[p] == s.processes[p])
  }

  lemma ReleaseParts(s: State, sid: SessionId, t: TerminalId)
    ensures !(sid in s.sessions && s.sessions[sid].terminal == Some(t)) ==> Release(s, sid, t) == s
    ensures sid in s.sessions && t in s.terminals && s.sessions[sid].terminal == Some(t) ==> Parted(s, Release(s, sid, t), sid, t)
  {
  }

  /** When the driver of a terminal goes, the session it names, unless that is 0, loses it; nothing else changes. */
  lemma DetachTerminalParts(s: State, t: TerminalId)
    requires Ties(s) && t in s.terminals
    ensures var u := DetachTerminal(s, t);
      && (forall k | k in u.sessions && k != 0 :: u.sessions[k].terminal != Some(t))
      && ((forall k | k in s.sessions && k != 0 :: s.sessions[k].terminal != Some(t)) ==> u == s)
      && (forall k | k in s.sessions && k != 0 && s.sessions[k].terminal == Some(t) :: Parted(s, u, k, t))
  {
    ReleaseParts(s, s.terminals[t].session, t);
    forall k | k in s.sessions && s.sessions[k].terminal == Some(t) ensures k == s.terminals[t].session { assert Tied(s, k, t); }
  }

  /** A revoked terminal is dead, has no lease and keeps the foreground group it had. */
  lemma RevokeEnds(s: State, t: TerminalId)
    requires t in s.terminals
    ensures var u := RevokeTerminal(s, t);
      && u == s.(terminals := u.terminals) && u.terminals.Keys == s.terminals.Keys
      && (forall k | k in s.terminals && k != t :: u.terminals[k] == s.terminals[k])
      && !u.terminals[t].live && u.terminals[t].foreground == s.terminals[t].foreground && u.terminals[t].session == s.terminals[t].session
      && (s.terminals[t].live ==> u.terminals[t].leases == 0)
  {
  }

  predicate Frozen(s: State, u: State, t: TerminalId) {
    t in s.terminals && !s.terminals[t].live ==> t in u.terminals && !u.terminals[t].live && u.terminals[t].foreground == s.terminals[t].foreground
  }

  lemma ReleaseFrozen(s: State, sid: SessionId, t: TerminalId, k: TerminalId)
    ensures Frozen(s, Release(s, sid, t), k)
  {
  }

  lemma AttachFrozen(s: State, pid: Pid, t: TerminalId, force: bool, k: TerminalId)
    ensures Frozen(s, Attach(s, pid, t, force).1, k)
  {
    hide Release;
    if AttachError(s, pid, t, force) == OK {
      var p := s.processes[pid];
      var rival := Rival(s, p.session, t);
      var u := if rival != 0 then Release(s, rival, t) else s;
      ReleaseFrozen(s, rival, t, k);
      var mine := s.sessions[p.session].terminal;
      if mine.Some? { ReleaseFrozen(u, p.session, mine.value, k); }
      ReleaseDomains(s, rival, t);
      if mine.Some? { ReleaseDomains(u, p.session, mine.value); }
    }
  }

  lemma ReleaseDomains(s: State, sid: SessionId, t: TerminalId)
    ensures Release(s, sid, t).sessions.Keys == s.sessions.Keys && Release(s, sid, t).terminals.Keys == s.terminals.Keys
  {
  }

  lemma ForegroundFrozen(s: State, sid: SessionId, g: GroupId, k: TerminalId)
    requires sid in s.sessions
    ensures Frozen(s, Foreground(s, sid, g), k)
  {
  }

  lemma MoveGroupFrozen(s: State, pid: Pid, g: GroupId, k: TerminalId)
    requires pid in s.processes
    ensures Frozen(s, MoveGroup(s, pid, g), k)
  {
    hide LeaveGroup, Foreground;
    var v := Rehomed(s, pid, g);
    if s.processes[pid].session in v.sessions { ForegroundFrozen(v, s.processes[pid].session, 0, k); }
  }

  lemma ExitFrozen(s: State, pid: Pid, k: TerminalId)
    ensures Frozen(s, Exit(s, pid), k)
  {
    if pid in s.processes && !s.processes[pid].cleaned {
      var p := s.processes[pid];
      var b := ExitTerminal(s, pid);
      assert Frozen(s, b, k);
      hide ExitTerminal;
      var c := ExitForeground(b, pid, p.session, p.group);
      assert Frozen(b, c, k);
      hide ExitForeground;
      ExitKeepsLinks(s, pid);
      UnregisterLeaves(c, pid);
    }
  }

  /** A revoked terminal stays dead and keeps the foreground group of the moment it was revoked. */
  lemma StepFrozen(s: State, e: Event, k: TerminalId)
    ensures Frozen(s, Step(s, e), k)
  {
    hide Attach, Release, Exit, MoveGroup, Unregister, Foreground, Register, TellLeader;
    match e {
      case DoSpawn(pid, parent) => SpawnTerminals(s, pid, parent);
      case DoSetSid(pid) => SetSidTerminals(s, pid);
      case DoSetPgid(caller, pid, g) =>
        var target := if pid == 0 then caller else pid;
        if target in s.processes {
          var goal := if g == 0 then target else g;
          MoveGroupFrozen(s, target, goal, k);
          var u := MoveGroup(s, target, goal);
          if s.processes[target].session in u.sessions { TellLeaderTerminals(u, s.processes[target].session, u.sessions[s.processes[target].session].foreground); }
        }
      case DoAttach(pid, t, force) => AttachFrozen(s, pid, t, force, k);
      case DoDetach(pid) =>
        if pid in s.processes && s.processes[pid].session in s.sessions && s.sessions[s.processes[pid].session].terminal.Some? {
          ReleaseFrozen(s, s.processes[pid].session, s.sessions[s.processes[pid].session].terminal.value, k);
        }
      case DoDetachTerminal(t) => if t in s.terminals { ReleaseFrozen(s, s.terminals[t].session, t, k); }
      case DoSetForeground(pid, t, g, verdict) =>
        if pid in s.processes && s.processes[pid].session in s.sessions {
          var sid := s.processes[pid].session;
          ForegroundFrozen(s, sid, g, k);
          TellLeaderTerminals(Foreground(s, sid, g), sid, g);
        }
      case DoExit(pid) => ExitFrozen(s, pid, k);
      case DoDelete(pid) => if pid in s.processes { UnregisterLeaves(s, pid); }
      case _ =>
    }
  }

  lemma SpawnTerminals(s: State, pid: Pid, parent: Option<Pid>)
    ensures Spawn(s, pid, parent).terminals == s.terminals
  {
  }

  lemma SetSidTerminals(s: State, pid: Pid)
    ensures SetSid(s, pid).1.terminals == s.terminals
  {
  }

  lemma TellLeaderTerminals(s: State, sid: SessionId, g: GroupId)
    ensures TellLeader(s, sid, g).terminals == s.terminals
  {
  }

  lemma {:induction false} RevokedIsForGood(s: State, es: seq<Event>, k: TerminalId)
    requires k in s.terminals && !s.terminals[k].live
    ensures var u := Run(s, es); k in u.terminals && !u.terminals[k].live && u.terminals[k].foreground == s.terminals[k].foreground
    decreases |es|
  {
    hide Step;
    if es != [] {
      StepFrozen(s, es[0], k);
      RevokedIsForGood(Step(s, es[0]), es[1..], k);
    }
  }

  // -------------------------------------------------------------- foreground groups

  /** What a move does to the session's foreground group: it is cleared exactly if the target was the last member of
      it, on the live terminal too, and the leader sees what the session shows. */
  lemma SetPgidForeground(s: State, caller: Pid, pid: Pid, g: GroupId, u: State, target: Pid, goal: GroupId)
    requires Inv(s) && SetPgid(s, caller, pid, g) == (OK, u)
    requires target == (if pid == 0 then caller else pid) && goal == if g == 0 then target else g
    ensures target in s.processes && u.sessions.Keys == s.sessions.Keys
    ensures forall k | k in s.sessions && k != s.processes[target].session :: u.sessions[k] == s.sessions[k]
    ensures var p := s.processes[target];
      p.session in s.sessions ==>
        var last := && p.inSession && p.inGroup && p.group != goal && !Clash(s, goal, p.session)
                    && p.group in s.groups && s.groups[p.group].members == {target} && s.sessions[p.session].foreground == p.group;
        && u.sessions[p.session] == s.sessions[p.session].(foreground := if last then 0 else s.sessions[p.session].foreground)
        && (IsLeader(s, p.session) ==> p.session in u.processes && u.processes[p.session].foreground == u.sessions[p.session].foreground)
  {
    hide Inv, MoveGroup, SetPgid, TellLeader, Clash;
    SetPgidIs(s, caller, pid, g, u, target, goal);
    InGroupListed(s, target);
    MoveGroupSessions(s, target, goal);
    MoveGroupProcesses(s, target, goal);
    var v, sid := MoveGroup(s, target, goal), s.processes[target].session;
    if sid in v.sessions { TellLeaderShows(v, sid, v.sessions[sid].foreground); }
  }

  lemma SetPgidIs(s: State, caller: Pid, pid: Pid, g: GroupId, u: State, target: Pid, goal: GroupId)
    requires SetPgid(s, caller, pid, g) == (OK, u)
    requires target == (if pid == 0 then caller else pid) && goal == if g == 0 then target else g
    ensures target in s.processes
    ensures var v, sid := MoveGroup(s, target, goal), s.processes[target].session;
      u == if sid in v.sessions then TellLeader(v, sid, v.sessions[sid].foreground) else v
  {
    hide MoveGroup, TellLeader;
  }

  lemma TellLeaderShows(s: State, sid: SessionId, g: GroupId)
    ensures TellLeader(s, sid, g).sessions == s.sessions
    ensures IsLeader(s, sid) ==> sid in TellLeader(s, sid, g).processes && TellLeader(s, sid, g).processes[sid].foreground == g
  {
  }

  lemma MoveGroupSessions(s: State, pid: Pid, g: GroupId)
    requires pid in s.processes
    ensures var p := s.processes[pid];
      MoveGroup(s, pid, g).sessions ==
        if !(p.group == g && p.inGroup) && !Clash(s, g, p.session) && p.inSession && p.session in s.sessions
           && s.sessions[p.session].foreground == p.group && Empties(s, pid)
        then s.sessions[p.session := s.sessions[p.session].(foreground := 0)] else s.sessions
  {
    hide LeaveGroup;
  }

  // --------------------------------------------------------------------------- leaving

  /** The process is the last one of its session's foreground group. */
  predicate LastInForeground(s: State, pid: Pid)
    requires pid in s.processes && s.processes[pid].session in s.sessions
  {
    var p := s.processes[pid];
    s.sessions[p.session].foreground == p.group && !GroupExistsWithout(s, p.session, p.group, pid)
  }

  /** What a leaving process leaves of its session: no terminal and no foreground group when it led the session and
      that held one; no foreground group when it was the last in it; otherwise both as they were. */
  function SessionAfter(s: State, pid: Pid): Session
    requires pid in s.processes && s.processes[pid].session in s.sessions
  {
    var sid, ses := s.processes[pid].session, s.sessions[s.processes[pid].session];
    var freed := pid == sid && ses.terminal.Some?;
    Session(if s.processes[pid].inSession then ses.members - {pid} else ses.members,
            if freed then None else ses.terminal, if freed || LastInForeground(s, pid) then 0 else ses.foreground)
  }

  function TerminalAfter(s: State, pid: Pid, t: TerminalId): Terminal
    requires pid in s.processes && s.processes[pid].session in s.sessions && t in s.terminals
  {
    var sid, was := s.processes[pid].session, s.terminals[t];
    if s.sessions[sid].terminal != Some(t) then was
    else
      was.(session := if pid == sid then 0 else was.session,
           foreground := if was.live && (pid == sid || LastInForeground(s, pid)) then 0 else was.foreground)
  }

  lemma ExitTerminalIs(s: State, pid: Pid)
    requires Inv(s) && pid in s.processes && s.processes[pid].session in s.sessions
    ensures var b, sid := ExitTerminal(s, pid), s.processes[pid].session; var freed := pid == sid && s.sessions[sid].terminal.Some?;
      && b.sessions == s.sessions[sid := if freed then s.sessions[sid].(terminal := None, foreground := 0) else s.sessions[sid]]
      && b.groups == s.groups && b.terminals.Keys == s.terminals.Keys
      && (forall t | t in s.terminals ::
            b.terminals[t] == if freed && s.sessions[sid].terminal == Some(t) then SetForeground(s.terminals[t], 0).(session := 0) else s.terminals[t])
  {
    LinksKnown(s, pid);
    hide Inv, Forgotten;
  }

  lemma ExitForegroundIs(b: State, pid: Pid, sid: SessionId, g: GroupId)
    requires sid in b.sessions && (b.sessions[sid].terminal.Some? ==> b.sessions[sid].terminal.value in b.terminals)
    ensures var c := ExitForeground(b, pid, sid, g);
      var last := b.sessions[sid].foreground == g && !GroupExistsWithout(b, sid, g, pid);
      && c.groups == b.groups && c.sessions == b.sessions[sid := b.sessions[sid].(foreground := if last then 0 else b.sessions[sid].foreground)]
      && c.terminals.Keys == b.terminals.Keys
      && (forall t | t in b.terminals ::
            c.terminals[t] == if last && b.sessions[sid].terminal == Some(t) then SetForeground(b.terminals[t], 0) else b.terminals[t])
  {
  }

  lemma ExitStages(s: State, pid: Pid) returns (c: State)
    requires Inv(s) && pid in s.processes && !s.processes[pid].cleaned && s.processes[pid].session in s.sessions
    ensures c.sessions == s.sessions[s.processes[pid].session := SessionAfter(s, pid).(members := s.sessions[s.processes[pid].session].members)]
    ensures c.groups == s.groups && c.terminals.Keys == s.terminals.Keys && forall t | t in s.terminals :: c.terminals[t] == TerminalAfter(s, pid, t)
    ensures SameLinks(s, c, pid) && Exit(s, pid) == Unregister(c, pid)
  {
    var p := s.processes[pid];
    var b := ExitTerminal(s, pid);
    LinksKnown(s, pid);
    hide Inv, ExitTerminal, ExitForeground, Unregister;
    ExitTerminalIs(s, pid);
    ExitForegroundIs(b, pid, p.session, p.group);
    c := ExitForeground(b, pid, p.session, p.group);
    ExitKeepsLinks(s, pid);
  }

  /** What is left of every session and terminal when a process leaves. */
  lemma ExitLeaves(s: State, pid: Pid)
    requires Inv(s) && pid in s.processes && !s.processes[pid].cleaned && s.processes[pid].session in s.sessions
    ensures var u, sid := Exit(s, pid), s.processes[pid].session; var after := SessionAfter(s, pid);
      && (sid in u.sessions <==> !s.processes[pid].inSession || after.members != {} || after.terminal.Some?)
      && (sid in u.sessions ==> u.sessions[sid] == after)
      && (forall k | k in s.sessions && k != sid :: k in u.sessions && u.sessions[k] == s.sessions[k])
      && u.terminals.Keys == s.terminals.Keys && (forall t | t in s.terminals :: u.terminals[t] == TerminalAfter(s, pid, t))
  {
    hide Inv, Exit, Unregister, TerminalAfter, LastInForeground;
    var c := ExitStages(s, pid);
    UnregisterLeaves(c, pid);
  }

  /** And of the groups: its own goes exactly if it was the last member. */
  lemma ExitGroups(s: State, pid: Pid)
    requires Inv(s) && pid in s.processes && !s.processes[pid].cleaned && s.processes[pid].session in s.sessions
    ensures var u, p := Exit(s, pid), s.processes[pid];
      && (forall g | g in s.groups && !(p.inGroup && g == p.group) :: g in u.groups && u.groups[g] == s.groups[g])
      && (p.inGroup ==> p.group in s.groups && (p.group in u.groups <==> s.groups[p.group].members != {pid}))
  {
    InGroupListed(s, pid);
    hide Inv, Exit, Unregister, TerminalAfter, SessionAfter;
    var c := ExitStages(s, pid);
    UnregisterLeaves(c, pid);
  }

  lemma InGroupListed(s: State, pid: Pid)
    requires Inv(s) && pid in s.processes
    ensures s.processes[pid].inGroup ==> s.processes[pid].group in s.groups && pid in s.groups[s.processes[pid].group].members
  {
  }

  /** When a leader leaves a session with a terminal, every member forgets it. */
  lemma ExitForgets(s: State, pid: Pid, q: Pid)
    requires Inv(s) && pid in s.processes && !s.processes[pid].cleaned && s.processes[pid].session == pid
    requires pid in s.sessions && s.sessions[pid].terminal.Some? && q in s.sessions[pid].members
    ensures q in Exit(s, pid).processes && Exit(s, pid).processes[q].terminal.None? && Exit(s, pid).processes[q].foreground == 0
  {
    var p := s.processes[pid];
    var b := ExitTerminal(s, pid);
    assert q in b.processes && b.processes[q].terminal.None? && b.processes[q].foreground == 0;
    var c := ExitForeground(b, pid, pid, p.group);
    hide ExitTerminal;
    assert q in c.processes && c.processes[q].terminal.None? && c.processes[q].foreground == 0;
    hide ExitForeground;
    ExitKeepsLinks(s, pid);
    UnregisterLeaves(c, pid);
  }

  /** A session taken over by force, and the caller's own previous terminal, are let go of completely; every member of the
      caller's session learns the terminal and its foreground group. */
  lemma AttachTells(s: State, pid: Pid, t: TerminalId, force: bool, q: Pid)
    requires Inv(s) && Attach(s, pid, t, force).0 == OK && q in s.processes
    ensures var p, u := s.processes[pid], Attach(s, pid, t, force).1; var rival := Rival(s, p.session, t);
      && q in u.processes
      && (q in s.sessions[p.session].members ==> u.processes[q] == s.processes[q].(terminal := Some(t), foreground := p.group))
      && (rival != 0 && rival in s.sessions && q in s.sessions[rival].members ==>
            u.processes[q] == s.processes[q].(terminal := None, foreground := 0))
      && (q !in s.sessions[p.session].members && !(rival != 0 && rival in s.sessions && q in s.sessions[rival].members) ==>
            u.processes[q] == s.processes[q])
  {
    var p := s.processes[pid];
    var rival := Rival(s, p.session, t);
    var u := if rival != 0 then Release(s, rival, t) else s;
    var mine := s.sessions[p.session].terminal;
    if mine.Some? { assert Tied(s, p.session, mine.value); }
    if q in s.sessions[p.session].members { MemberSays(s, p.session, q); }
    if rival in s.sessions && q in s.sessions[rival].members { MemberSays(s, rival, q); }
    ReleaseParts(s, rival, t);
    if mine.Some? { ReleaseParts(u, p.session, mine.value); }
    hide Inv, Release, Ties, Indexed;
  }

  /** And what of the terminals: the one attached names the caller's session and shows its group if it is live, the
      one the session held before is free, all others are as they were. */
  lemma AttachTerminals(s: State, pid: Pid, t: TerminalId, force: bool, k: TerminalId)
    requires Inv(s) && Attach(s, pid, t, force).0 == OK && k in s.terminals
    ensures var p, u := s.processes[pid], Attach(s, pid, t, force).1; var was := s.terminals[k];
      && k in u.terminals
      && u.terminals[k] ==
           if k == t then was.(session := p.session, foreground := if was.live then p.group else was.foreground)
           else if s.sessions[p.session].terminal == Some(k) then was.(session := 0, foreground := if was.live then 0 else was.foreground)
           else was
  {
    var p := s.processes[pid];
    var rival := Rival(s, p.session, t);
    var u := if rival != 0 then Release(s, rival, t) else s;
    var mine := s.sessions[p.session].terminal;
    if mine.Some? { assert Tied(s, p.session, mine.value); }
    ReleaseParts(s, rival, t);
    if mine.Some? { ReleaseParts(u, p.session, mine.value); }
    hide Inv, Release, Ties, Indexed;
  }

  /** A process leaves once. */
  lemma ExitOnce(s: State, pid: Pid)
    ensures pid in s.processes ==> pid in Exit(s, pid).processes && Exit(s, pid).processes[pid].cleaned
    ensures Exit(Exit(s, pid), pid) == Exit(s, pid)
  {
    if pid in s.processes && !s.processes[pid].cleaned {
      var p := s.processes[pid];
      var b := ExitTerminal(s, pid);
      assert pid in b.processes && b.processes[pid].cleaned;
      hide ExitTerminal;
      var c := ExitForeground(b, pid, p.session, p.group);
      assert pid in c.processes && c.processes[pid].cleaned;
      hide ExitForeground;
      ExitKeepsLinks(s, pid);
      UnregisterLeaves(c, pid);
    }
  }

  lemma MemberSays(s: State, sid: SessionId, q: Pid)
    requires Inv(s) && sid in s.sessions && q in s.sessions[sid].members
    ensures q in s.processes && s.processes[q].session == sid
  {
  }

  // -------------------------------------------------------------------------- refusals

  /** Why an attach is refused. */
  lemma AttachRefusals(s: State, pid: Pid, t: TerminalId, force: bool)
    requires Ties(s) && Attach(s, pid, t, force).0 != OK
    ensures Attach(s, pid, t, force) ==
      (if pid !in s.processes || t !in s.terminals then EPARAM
       else if !s.processes[pid].live then ENOEXIST
       else if s.processes[pid].session != pid then EPERMISSION
       else if pid !in s.sessions then ENOEXIST
       else if s.sessions[pid].terminal.Some? && s.sessions[pid].terminal != Some(t) then ERESOURCE_NOT_NULL
       else EPERMISSION, s)
  {
  }

  /** Why a move is refused: no caller; no live target; not its parent, not its session, or the session's leader; no such group. */
  lemma SetPgidRefusals(s: State, caller: Pid, pid: Pid, g: GroupId)
    requires SetPgid(s, caller, pid, g).0 != OK
    ensures var target := if pid == 0 then caller else pid;
      SetPgid(s, caller, pid, g) ==
        (if caller !in s.processes then EPARAM
         else if target !in s.processes || !s.processes[target].live then ENOEXIST
         else if (target != caller && s.processes[target].parent != caller) || s.processes[target].session != s.processes[caller].session
                 || s.processes[target].session == target then EPERMISSION
         else ENOEXIST, s)
  {
  }

  lemma SetSidRefusals(s: State, pid: Pid)
    requires SetSid(s, pid).0 != OK
    ensures SetSid(s, pid) == (if pid !in s.processes then EPARAM else if s.processes[pid].live then EPERMISSION else ENOEXIST, s)
  {
  }

  /** Why a foreground change is refused: bad arguments, the check before it, not the caller's terminal, no leader or group, or
      a terminal that is dead or leased. */
  lemma SetForegroundRefusals(s: State, pid: Pid, t: TerminalId, g: GroupId, verdict: Status)
    requires SetForegroundGroup(s, pid, t, g, verdict).0 != OK
    ensures SetForegroundGroup(s, pid, t, g, verdict) ==
      (if pid !in s.processes || t !in s.terminals || g == 0 then EPARAM
       else if verdict != OK then verdict
       else if !s.processes[pid].live || !s.processes[pid].inSession || s.processes[pid].session !in s.sessions
               || s.sessions[s.processes[pid].session].terminal != Some(t) then EPERMISSION
       else if s.terminals[t].live && s.terminals[t].leases == 0 then ENOEXIST
       else if IsLeader(s, s.processes[pid].session) && GroupExists(s, s.processes[pid].session, g) then EAGAIN
       else ENOEXIST, s)
  {
  }
}
