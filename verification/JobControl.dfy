/** Sessions, process groups and controlling terminals. */
module JobControl {
  import opened Options

  type Pid = nat
  type SessionId = nat
  type GroupId = nat
  type TerminalId = nat

  datatype Status = OK | EPARAM | ENOEXIST | EPERMISSION | EAGAIN | ERESOURCE_NOT_NULL

  /** The kernel's record of one terminal; after revocation its foreground group no longer changes. */
  datatype Terminal = Terminal(live: bool, session: SessionId, foreground: GroupId, leases: nat)

  datatype Session = Session(members: set<Pid>, terminal: Option<TerminalId>, foreground: GroupId)

  datatype Group = Group(session: SessionId, members: set<Pid>)

  /** `inSession` and `inGroup` say that the process is linked into its session and its group. */
  datatype Process = Process(session: SessionId, group: GroupId, parent: Pid, live: bool, inSession: bool, inGroup: bool,
                             cleaned: bool, terminal: Option<TerminalId>, foreground: GroupId)

  datatype State = State(processes: map<Pid, Process>, sessions: map<SessionId, Session>, groups: map<GroupId, Group>,
                         terminals: map<TerminalId, Terminal>)

  const EMPTY := State(map[], map[], map[], map[])

  // ---------------------------------------------------------------------- terminals

  function SetForeground(t: Terminal, g: GroupId): Terminal {
    if t.live then t.(foreground := g) else t
  }

  function Revoked(t: Terminal): Terminal {
    if t.live then t.(live := false, leases := 0) else t
  }

  // -------------------------------------------------------------------- registration

  function SessionOf(s: State, sid: SessionId): Session {
    if sid in s.sessions then s.sessions[sid] else Session({}, None, 0)
  }

  function GroupOf(s: State, sid: SessionId, g: GroupId): Group {
    if g in s.groups then s.groups[g] else Group(sid, {})
  }

  /** The group exists in another session; joining it from this one stops the kernel. */
  predicate Clash(s: State, g: GroupId, sid: SessionId) {
    g in s.groups && s.groups[g].session != sid
  }

  function Register(s: State, pid: Pid, p: Process): State {
    var ses := SessionOf(s, p.session);
    var g := GroupOf(s, p.session, p.group);
    s.(sessions := s.sessions[p.session := ses.(members := ses.members + {pid})],
       groups := s.groups[p.group := g.(members := g.members + {pid})],
       processes := s.processes[pid := p.(inSession := true, inGroup := true, terminal := ses.terminal, foreground := ses.foreground)])
  }

  function LeaveGroup(groups: map<GroupId, Group>, g: GroupId, pid: Pid): map<GroupId, Group> {
    if g !in groups then groups
    else if groups[g].members - {pid} == {} then groups - {g}
    else groups[g := groups[g].(members := groups[g].members - {pid})]
  }

  function LeaveSession(sessions: map<SessionId, Session>, sid: SessionId, pid: Pid): map<SessionId, Session> {
    if sid !in sessions then sessions
    else if sessions[sid].members - {pid} == {} && sessions[sid].terminal.None? then sessions - {sid}
    else sessions[sid := sessions[sid].(members := sessions[sid].members - {pid})]
  }

  function Unregister(s: State, pid: Pid): State
    requires pid in s.processes
  {
    var p := s.processes[pid];
    s.(groups := if p.inGroup then LeaveGroup(s.groups, p.group, pid) else s.groups,
       sessions := if p.inSession then LeaveSession(s.sessions, p.session, pid) else s.sessions,
       processes := s.processes[pid := p.(inSession := false, inGroup := false)])
  }

  /** A new process, in its parent's session and group or in its own. */
  function Spawn(s: State, pid: Pid, parent: Option<Pid>): State {
    if pid in s.processes || (parent.Some? && parent.value !in s.processes) then s
    else
      var p := if parent.Some?
               then Process(s.processes[parent.value].session, s.processes[parent.value].group, parent.value, true, false, false, false, None, 0)
               else Process(pid, pid, 0, true, false, false, false, None, 0);
      if Clash(s, p.group, p.session) then s else Register(s, pid, p)
  }

  // ------------------------------------------------------------- groups and sessions

  predicate GroupExists(s: State, sid: SessionId, g: GroupId) {
    g in s.groups && s.groups[g].session == sid && s.groups[g].members != {}
  }

  /** The group has a member other than pid. */
  predicate GroupExistsWithout(s: State, sid: SessionId, g: GroupId, pid: Pid) {
    g in s.groups && s.groups[g].session == sid && s.groups[g].members - {pid} != {}
  }

  predicate IsLeader(s: State, sid: SessionId) {
    && sid in s.sessions && sid in s.sessions[sid].members && sid in s.processes
    && s.processes[sid].live && s.processes[sid].session == sid
  }

  /** Show the leader the session's foreground group. */
  function TellLeader(s: State, sid: SessionId, g: GroupId): State {
    if IsLeader(s, sid) then s.(processes := s.processes[sid := s.processes[sid].(foreground := g)]) else s
  }

  /** Set a session's foreground group and, through it, its terminal's. */
  function Foreground(s: State, sid: SessionId, g: GroupId): State
    requires sid in s.sessions
  {
    var ses := s.sessions[sid];
    s.(sessions := s.sessions[sid := ses.(foreground := g)],
       terminals := if ses.terminal.Some? && ses.terminal.value in s.terminals
                    then s.terminals[ses.terminal.value := SetForeground(s.terminals[ses.terminal.value], g)] else s.terminals)
  }

  predicate Empties(s: State, pid: Pid)
    requires pid in s.processes
  {
    var p := s.processes[pid];
    p.inGroup && p.group in s.groups && s.groups[p.group].members - {pid} == {}
  }

  /** The process in its new group. */
  function Rehomed(s: State, pid: Pid, g: GroupId): State
    requires pid in s.processes
  {
    var p := s.processes[pid];
    var u := s.(groups := if p.inGroup then LeaveGroup(s.groups, p.group, pid) else s.groups);
    var target := GroupOf(u, p.session, g);
    u.(groups := u.groups[g := target.(members := target.members + {pid})],
       processes := s.processes[pid := p.(group := g, inGroup := true)])
  }

  /** Move a process to another group of its session; a foreground group left empty stops being one. */
  function MoveGroup(s: State, pid: Pid, g: GroupId): State
    requires pid in s.processes
  {
    var p := s.processes[pid];
    if (p.group == g && p.inGroup) || Clash(s, g, p.session) then s
    else
      var v := Rehomed(s, pid, g);
      if p.inSession && p.session in v.sessions && v.sessions[p.session].foreground == p.group && Empties(s, pid)
      then Foreground(v, p.session, 0) else v
  }

  function SetPgid(s: State, caller: Pid, pid: Pid, g: GroupId): (r: (Status, State)) {
    if caller !in s.processes then (EPARAM, s)
    else
      var target := if pid == 0 then caller else pid;
      if target !in s.processes || !s.processes[target].live then (ENOEXIST, s)
      else
        var p, c := s.processes[target], s.processes[caller];
        if target != caller && p.parent != caller then (EPERMISSION, s)
        else if p.session != c.session then (EPERMISSION, s)
        else if target == p.session then (EPERMISSION, s)
        else
          var goal := if g == 0 then target else g;
          if !GroupExists(s, p.session, goal) && goal != target then (ENOEXIST, s)
          else
            var u := MoveGroup(s, target, goal);
            (OK, if p.session in u.sessions then TellLeader(u, p.session, u.sessions[p.session].foreground) else u)
  }

  function SetSid(s: State, pid: Pid): (r: (Status, State)) {
    if pid !in s.processes then (EPARAM, s)
    else
      var p := s.processes[pid];
      if !p.live then (ENOEXIST, s)
      else if p.group == pid then (EPERMISSION, s)
      else if Clash(s, pid, pid) then (OK, s)
      else
        var u := Unregister(s, pid);
        (OK, Register(u, pid, u.processes[pid].(session := pid, group := pid)))
  }

  // ------------------------------------------------------------ controlling terminals

  /** Every listed process forgets its terminal. */
  function Forgotten(ps: map<Pid, Process>, who: set<Pid>): map<Pid, Process> {
    map p | p in ps :: if p in who then ps[p].(terminal := None, foreground := 0) else ps[p]
  }

  function Told(ps: map<Pid, Process>, who: set<Pid>, t: TerminalId, g: GroupId): map<Pid, Process> {
    map p | p in ps :: if p in who then ps[p].(terminal := Some(t), foreground := g) else ps[p]
  }

  /** Part a session from a terminal, if it holds that one. */
  function Release(s: State, sid: SessionId, t: TerminalId): State {
    if sid !in s.sessions || s.sessions[sid].terminal != Some(t) then s
    else
      s.(sessions := s.sessions[sid := s.sessions[sid].(terminal := None, foreground := 0)],
         terminals := if t in s.terminals then s.terminals[t := SetForeground(s.terminals[t], 0).(session := 0)] else s.terminals,
         processes := Forgotten(s.processes, s.sessions[sid].members))
  }

  function Give(s: State, sid: SessionId, t: TerminalId, g: GroupId): State
    requires sid in s.sessions && t in s.terminals
  {
    s.(sessions := s.sessions[sid := s.sessions[sid].(terminal := Some(t), foreground := g)],
       processes := Told(s.processes, s.sessions[sid].members, t, g),
       terminals := s.terminals[t := SetForeground(s.terminals[t].(session := sid), g)])
  }

  /** The session that must give the terminal up first; 0 stands for none. */
  function Rival(s: State, sid: SessionId, t: TerminalId): SessionId
    requires t in s.terminals
  {
    var f := s.terminals[t].session;
    if f in s.sessions && s.sessions[f].terminal == Some(t) && f != sid then f else 0
  }

  function AttachError(s: State, pid: Pid, t: TerminalId, force: bool): Status {
    if pid !in s.processes || t !in s.terminals then EPARAM
    else
      var p := s.processes[pid];
      if !p.live then ENOEXIST
      else if pid != p.session then EPERMISSION
      else if p.session !in s.sessions then ENOEXIST
      else if s.sessions[p.session].terminal.Some? && s.sessions[p.session].terminal != Some(t) && !force then ERESOURCE_NOT_NULL
      else if Rival(s, p.session, t) != 0 && !force then EPERMISSION
      else OK
  }

  function Attach(s: State, pid: Pid, t: TerminalId, force: bool): (r: (Status, State)) {
    var status := AttachError(s, pid, t, force);
    if status != OK then (status, s)
    else
      var p := s.processes[pid];
      var rival := Rival(s, p.session, t);
      var u := if rival != 0 then Release(s, rival, t) else s;
      var mine := s.sessions[p.session].terminal;
      var v := if mine.Some? && mine != Some(t) then Release(u, p.session, mine.value) else u;
      (OK, Give(v, p.session, t, p.group))
  }

  function ClearTerminal(s: State, pid: Pid): State
    requires pid in s.processes
  {
    s.(processes := s.processes[pid := s.processes[pid].(terminal := None)])
  }

  function Detach(s: State, pid: Pid): State {
    if pid !in s.processes || s.processes[pid].session !in s.sessions then s
    else
      var p := s.processes[pid];
      match s.sessions[p.session].terminal
      case None => s
      case Some(t) => if pid == p.session then Release(s, p.session, t) else ClearTerminal(s, pid)
  }

  /** The driver of a terminal is gone: part it from its session. */
  function DetachTerminal(s: State, t: TerminalId): State {
    if t !in s.terminals || s.terminals[t].session == 0 then s else Release(s, s.terminals[t].session, t)
  }

  function RevokeTerminal(s: State, t: TerminalId): State {
    if t !in s.terminals then s else s.(terminals := s.terminals[t := Revoked(s.terminals[t])])
  }

  /** `verdict` is that of the job-control check that comes first. */
  function SetForegroundGroup(s: State, pid: Pid, t: TerminalId, g: GroupId, verdict: Status): (r: (Status, State)) {
    if pid !in s.processes || t !in s.terminals || g == 0 then (EPARAM, s)
    else
      var p := s.processes[pid];
      if verdict != OK then (verdict, s)
      else if !p.live || !p.inSession || p.session !in s.sessions || s.sessions[p.session].terminal != Some(t) then (EPERMISSION, s)
      else if !IsLeader(s, p.session) || !GroupExists(s, p.session, g) then (ENOEXIST, s)
      else if !s.terminals[t].live || s.terminals[t].leases != 0 then (EAGAIN, s)
      else (OK, TellLeader(Foreground(s, p.session, g), p.session, g))
  }

  /** A leaving leader gives up its session's terminal; anyone else only forgets it. */
  function ExitTerminal(s: State, pid: Pid): State
    requires pid in s.processes
  {
    var p := s.processes[pid];
    var held := if p.session in s.sessions then s.sessions[p.session].terminal else None;
    var a := s.(processes := s.processes[pid := p.(cleaned := true)]);
    if held.None? then a else if pid == p.session then Release(a, p.session, held.value) else ClearTerminal(a, pid)
  }

  /** A foreground group that the process leaves empty stops being one. */
  function ExitForeground(s: State, pid: Pid, sid: SessionId, g: GroupId): State {
    if sid in s.sessions && s.sessions[sid].foreground == g && !GroupExistsWithout(s, sid, g, pid)
    then TellLeader(Foreground(s, sid, 0), sid, 0) else s
  }

  /** u still has the process where s had it. */
  predicate SameLinks(s: State, u: State, pid: Pid) {
    && pid in s.processes && pid in u.processes && u.groups == s.groups && u.sessions.Keys == s.sessions.Keys
    && var p, q := s.processes[pid], u.processes[pid];
       q.inSession == p.inSession && q.inGroup == p.inGroup && q.session == p.session && q.group == p.group
  }

  lemma ExitTerminalLinks(s: State, pid: Pid)
    requires pid in s.processes
    ensures SameLinks(s, ExitTerminal(s, pid), pid)
  {
  }

  lemma ExitForegroundLinks(s: State, pid: Pid, sid: SessionId, g: GroupId)
    requires pid in s.processes
    ensures SameLinks(s, ExitForeground(s, pid, sid, g), pid)
  {
  }

  lemma ExitKeepsLinks(s: State, pid: Pid)
    requires pid in s.processes
    ensures var p := s.processes[pid]; SameLinks(s, ExitForeground(ExitTerminal(s, pid), pid, p.session, p.group), pid)
  {
    hide ExitTerminal, ExitForeground;
    var p := s.processes[pid];
    ExitTerminalLinks(s, pid);
    ExitForegroundLinks(ExitTerminal(s, pid), pid, p.session, p.group);
  }

  function Exit(s: State, pid: Pid): State {
    if pid !in s.processes || s.processes[pid].cleaned then s
    else
      var p := s.processes[pid];
      var u := ExitForeground(ExitTerminal(s, pid), pid, p.session, p.group);
      ExitKeepsLinks(s, pid);
      Unregister(u, pid)
  }

  /** The last thread of a process is gone. */
  function Die(s: State, pid: Pid): State {
    if pid !in s.processes then s else s.(processes := s.processes[pid := s.processes[pid].(live := false)])
  }

  /** A process is reaped. */
  function Delete(s: State, pid: Pid): State {
    if pid !in s.processes then s else var u := Unregister(s, pid); u.(processes := u.processes - {pid})
  }

  // ----------------------------------------------------------------------- invariants

  /** A session that holds a terminal is the one the terminal names, and while the terminal is live
      both name the same foreground group. */
  predicate Tied(s: State, sid: SessionId, t: TerminalId)
    requires sid in s.sessions
  {
    && t in s.terminals && s.terminals[t].session == sid
    && (s.terminals[t].live ==> s.terminals[t].foreground == s.sessions[sid].foreground)
  }

  predicate Ties(s: State) {
    forall sid | sid in s.sessions && s.sessions[sid].terminal.Some? :: Tied(s, sid, s.sessions[sid].terminal.value)
  }

  predicate ZeroFree(s: State) {
    0 in s.sessions ==> s.sessions[0].terminal.None?
  }

  /** Sessions and groups list exactly the processes that say they are in them. */
  predicate SessionsIndexed(ps: map<Pid, Process>, ss: map<SessionId, Session>) {
    && (forall pid | pid in ps && ps[pid].inSession :: ps[pid].session in ss && pid in ss[ps[pid].session].members)
    && (forall sid, pid | sid in ss && pid in ss[sid].members :: pid in ps && ps[pid].inSession && ps[pid].session == sid)
  }

  predicate GroupsIndexed(ps: map<Pid, Process>, gs: map<GroupId, Group>) {
    && (forall pid | pid in ps && ps[pid].inGroup :: ps[pid].group in gs && pid in gs[ps[pid].group].members)
    && (forall g, pid | g in gs && pid in gs[g].members :: pid in ps && ps[pid].inGroup && ps[pid].group == g)
    && (forall g | g in gs :: gs[g].members != {})
  }

  predicate Indexed(s: State) {
    SessionsIndexed(s.processes, s.sessions) && GroupsIndexed(s.processes, s.groups)
  }

  predicate Inv(s: State) {
    Ties(s) && ZeroFree(s) && Indexed(s)
  }

  lemma LinksKnown(s: State, pid: Pid)
    requires Inv(s) && pid in s.processes
    ensures var p := s.processes[pid];
      && (p.inGroup ==> p.group in s.groups) && (p.inSession ==> p.session in s.sessions)
      && (p.session in s.sessions && s.sessions[p.session].terminal.Some? ==> s.sessions[p.session].terminal.value in s.terminals)
  {
    var p := s.processes[pid];
    if p.session in s.sessions && s.sessions[p.session].terminal.Some? { assert Tied(s, p.session, s.sessions[p.session].terminal.value); }
  }
}
