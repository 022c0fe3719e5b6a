// The chat server without its table: a roster of members by name, told by what
// people did.  The table, its pipe ends and everything written refine it.

module ChatRoster {
  import opened Options
  import opened CStrings
  import opened ChatCommands
  import opened ChatRoom
  import opened ChatDelivery

  /** A member's child process and the server's ends of the pipes to and from it. */
  datatype Member = Member(pid: int, toUser: int, toServer: int)

  type Roster = map<string, Member>

  /** What happened, by name.  `shown` is the list of users at that moment. */
  datatype Deed =
    | Joins(id: string, pid: int, pipes: Pipes)
    | Orders(line: string)
    | Says(who: string, line: string, shown: string)

  predicate HasCommand(d: Deed) {
    d.Joins? || HasWord(d.line)
  }

  /** A client joins if the name is free and there is room.  A kick removes the
      member of that name, a member's exit that member, the admin's exit all. */
  function AfterDeed(m: Roster, d: Deed): Roster
    requires HasCommand(d)
  {
    match d
    case Joins(id, pid, c) =>
      if id !in m && |m| < MAX_USER then m[id := Member(pid, c.toChild.writeEnd, c.toServer.readEnd)] else m
    case Orders(line) =>
      (match LineType(line)
       case KICK => if NameIn(line).Some? then m - {NameIn(line).value} else m
       case EXIT => map[]
       case _ => m)
    case Says(who, line, _) => if LineType(line) == EXIT then m - {who} else m
  }

  /** `fd` is the pipe end of a member, not of the one called `sender`. */
  ghost predicate IsMembers(m: Roster, sender: Option<string>, fd: int) {
    exists id :: id in m && Some(id) != sender && m[id].toUser == fd
  }

  /** A private message: to whom, and what. */
  function Private(m: Roster, who: string, line: string): (string, string) {
    match NameIn(line)
    case None => (who, "User name not given")
    case Some(name) =>
      if name !in m then (who, "User not found, use \\list" + [NUL])
      else if name == who then (who, "Cannot send \\p2p to yourself")
      else match TextIn(line)
        case None => (who, "Message not given")
        case Some(text) => (name, who + ":" + text)
  }

  /** What the descriptor `fd` receives. */
  ghost function Heard(m: Roster, d: Deed, fd: int): seq<string>
    requires HasCommand(d) && (d.Says? ==> d.who in m)
  {
    match d
    case Joins(_, _, _) => []
    case Orders(line) =>
      (match LineType(line)
       case LIST | KICK | EXIT => []
       case _ => if IsMembers(m, None, fd) then ["admin-notice: " + line] else [])
    case Says(who, line, shown) =>
      (match LineType(line)
       case LIST => if fd == m[who].toUser then [shown] else []
       case P2P =>
         var (to, text) := Private(m, who, line);
         if to in m && fd == m[to].toUser then [text] else []
       case EXIT => []
       case _ => if IsMembers(m, Some(who), fd) then [who + ": " + line] else [])
  }

  // ---------------------------------------------------------------- the table lists the roster

  ghost predicate IsSeated(slots: seq<User>, id: string) {
    exists i :: 0 <= i < |slots| && slots[i].full && slots[i].id == id
  }

  ghost predicate Lists(slots: seq<User>, m: Roster) {
    && (forall i | 0 <= i < |slots| && slots[i].full ::
          slots[i].id in m && m[slots[i].id] == Member(slots[i].pid, slots[i].toUser, slots[i].toServer))
    && (forall id | id in m :: IsSeated(slots, id))
  }

  /** Without the last slot the roster lacks its member. */
  lemma FrontLists(slots: seq<User>, last: User, m: Roster)
    requires NamesDiffer(slots + [last]) && Lists(slots + [last], m)
    ensures NamesDiffer(slots)
    ensures Lists(slots, if last.full then m - {last.id} else m)
    ensures last.full ==> last.id in m
  {
    var all := slots + [last];
    assert all[|slots|] == last;
    assert forall i | 0 <= i < |slots| :: all[i] == slots[i];
    forall id | id in m && !(last.full && id == last.id)
      ensures IsSeated(slots, id)
    {
      assert IsSeated(all, id);
      var i :| 0 <= i < |all| && all[i].full && all[i].id == id;
      assert slots[i] == all[i];
    }
  }

  ghost predicate AllFull(slots: seq<User>) {
    forall i | 0 <= i < |slots| :: slots[i].full
  }

  /** The table is full exactly if the roster has as many members as slots. */
  lemma {:induction false} SeatsAreMembers(slots: seq<User>, m: Roster)
    requires NamesDiffer(slots) && Lists(slots, m)
    ensures |m| <= |slots|
    ensures |m| == |slots| <==> AllFull(slots)
    decreases |slots|
  {
    if slots == [] {
      NobodySeated(slots, m);
    } else {
      var front, last := slots[..|slots| - 1], slots[|slots| - 1];
      assert slots == front + [last];
      FrontLists(front, last, m);
      if last.full {
        SeatsAreMembers(front, m - {last.id});
        assert m.Keys == (m - {last.id}).Keys + {last.id};
      } else {
        SeatsAreMembers(front, m);
      }
      assert AllFull(slots) <==> last.full && AllFull(front);
    }
  }

  lemma NobodySeated(slots: seq<User>, m: Roster)
    requires slots == [] && Lists(slots, m)
    ensures |m| == 0
  {
    assert forall id | id in m :: IsSeated(slots, id);
    assert m == map[];
  }

  /** Whom an event comes from, by name. */
  function DeedOf(r: Room, e: Event): Deed
    requires e.UserLine? ==> e.i < |r.slots|
  {
    match e
    case Connect(id, pid, c) => Joins(id, pid, c)
    case AdminLine(line) => Orders(line)
    case UserLine(i, line) => Says(r.slots[i].id, line, Shown(r.slots))
  }

  lemma NamedIsMember(slots: seq<User>, m: Roster, id: string)
    requires Lists(slots, m)
    ensures Named(slots, id) != -1 <==> id in m
  {
    assert id in m ==> IsSeated(slots, id);
  }

  lemma AdmitsIfRoom(r: Room, m: Roster, id: string)
    requires RoomOk(r) && Lists(r.slots, m)
    ensures Admits(r.slots, id) <==> id !in m && |m| < MAX_USER
  {
    SeatsAreMembers(r.slots, m);
    NamedIsMember(r.slots, m, id);
  }

  /** A new member in a vacant slot. */
  lemma SeatingLists(slots: seq<User>, m: Roster, n: nat, u: User)
    requires Lists(slots, m) && n < |slots| && !slots[n].full && u.full && u.id !in m
    ensures Lists(slots[n := u], m[u.id := Member(u.pid, u.toUser, u.toServer)])
  {
    var after := slots[n := u];
    assert after[n] == u && IsSeated(after, u.id);
    forall other | other in m
      ensures IsSeated(after, other)
    {
      assert IsSeated(slots, other);
      var i :| 0 <= i < |slots| && slots[i].full && slots[i].id == other;
      assert after[i] == slots[i];
    }
  }

  /** The lowest vacant slot, and only it, gets the member: its name, its process,
      the write end of the pipe to its child and the read end of the pipe from it. */
  ghost predicate IsSeatedIn(before: seq<User>, after: seq<User>, n: nat, id: string, pid: int, c: Pipes) {
    && IsFirstVacant(before, n) && |after| == |before|
    && after[n].full && after[n].id == id && after[n].pid == pid
    && after[n].toUser == c.toChild.writeEnd && after[n].toServer == c.toServer.readEnd
    && forall k | 0 <= k < |after| && k != n :: after[k] == before[k]
  }

  /** A connection is admitted exactly if the name is free and there is room. */
  lemma ConnectSeats(r: Room, m: Roster, id: string, pid: int, c: Pipes)
    requires RoomOk(r) && Lists(r.slots, m)
    ensures var slots := AfterConnect(r, id, pid, c).slots;
            if id !in m && |m| < MAX_USER then exists n :: IsSeatedIn(r.slots, slots, n, id, pid, c)
            else slots == r.slots
    ensures Lists(AfterConnect(r, id, pid, c).slots, AfterDeed(m, Joins(id, pid, c)))
  {
    AdmitsIfRoom(r, m, id);
    if Admits(r.slots, id) {
      var n := FirstVacant(r.slots);
      var u := User(pid, id, c.toChild.writeEnd, c.toServer.readEnd, true);
      SeatingLists(r.slots, m, n, u);
      assert IsSeatedIn(r.slots, AfterConnect(r, id, pid, c).slots, n, id, pid, c);
    }
  }

  /** Vacating a slot removes its member. */
  lemma KickUnseats(r: Room, m: Roster, n: nat)
    requires RoomOk(r) && Lists(r.slots, m) && n < |r.slots| && r.slots[n].full
    ensures Lists(AfterKick(r, n).slots, m - {r.slots[n].id})
  {
    var after := AfterKick(r, n).slots;
    forall other | other in m && other != r.slots[n].id
      ensures IsSeated(after, other)
    {
      assert IsSeated(r.slots, other);
      var i :| 0 <= i < |r.slots| && r.slots[i].full && r.slots[i].id == other;
      assert after[i] == r.slots[i];
    }
    forall i | 0 <= i < |after| && after[i].full
      ensures after[i].id in m - {r.slots[n].id}
    {
      assert after[i] == r.slots[i];
    }
  }

  /** `\kick name` removes the member of that name, if there is one. */
  lemma KickLineUnseats(r: Room, m: Roster, line: string)
    requires RoomOk(r) && Lists(r.slots, m) && HasWord(line) && LineType(line) == KICK
    ensures Lists(AfterAdminLine(r, line).slots, AfterDeed(m, Orders(line)))
  {
    if NameIn(line).Some? {
      var name := NameIn(line).value;
      NamedIsMember(r.slots, m, name);
      if name in m {
        KickUnseats(r, m, Named(r.slots, name));
      } else {
        assert m - {name} == m;
      }
    }
  }

  /** In the table: the slot of that name is vacated and no other is touched. */
  lemma KickLineVacates(r: Room, line: string, k: nat)
    requires RoomOk(r) && k < |r.slots| && HasWord(line) && LineType(line) == KICK
    ensures |AfterAdminLine(r, line).slots| == |r.slots|
    ensures AfterAdminLine(r, line).slots[k]
         == if r.slots[k].full && Some(r.slots[k].id) == NameIn(line) then VACANT else r.slots[k]
  {}

  lemma ExitUnseatsAll(r: Room, m: Roster)
    requires RoomOk(r) && Lists(r.slots, m)
    ensures Lists(KickAll(r, |r.slots|).slots, map[])
  {
    KickAllKeepsOk(r, |r.slots|);
  }

  lemma AdminLineRefinesRoster(r: Room, m: Roster, line: string)
    requires RoomOk(r) && HasWord(line) && Lists(r.slots, m)
    ensures Lists(AfterAdminLine(r, line).slots, AfterDeed(m, Orders(line)))
  {
    match LineType(line)
    case KICK => KickLineUnseats(r, m, line);
    case EXIT => ExitUnseatsAll(r, m);
    case _ =>
  }

  lemma UserLineRefinesRoster(r: Room, m: Roster, i: nat, line: string)
    requires RoomOk(r) && i < |r.slots| && r.slots[i].full && HasWord(line) && Lists(r.slots, m)
    ensures Lists(AfterUserLine(r, i, line).slots, AfterDeed(m, DeedOf(r, UserLine(i, line))))
  {
    if LineType(line) == EXIT {
      KickUnseats(r, m, i);
    }
  }

  /** Every event changes the table as the deed changes the roster. */
  lemma EventRefinesRoster(r: Room, m: Roster, e: Event)
    requires RoomOk(r) && CanHappen(r, e) && Lists(r.slots, m)
    ensures HasCommand(DeedOf(r, e)) && Lists(After(r, e).slots, AfterDeed(m, DeedOf(r, e)))
  {
    match e
    case Connect(id, pid, c) => ConnectSeats(r, m, id, pid, c);
    case AdminLine(line) => AdminLineRefinesRoster(r, m, line);
    case UserLine(i, line) => UserLineRefinesRoster(r, m, i, line);
  }

  // ---------------------------------------------------------------- what is heard

  lemma ListenersAreMembers(r: Room, m: Roster, sender: int, fd: int)
    requires RoomOk(r) && Lists(r.slots, m) && -1 <= sender < |r.slots| && (sender != -1 ==> r.slots[sender].full)
    ensures IsListener(r.slots, sender, fd)
       <==> IsMembers(m, if sender == -1 then None else Some(r.slots[sender].id), fd)
  {
    var name := if sender == -1 then None else Some(r.slots[sender].id);
    if k :| 0 <= k < |r.slots| && k != sender && r.slots[k].full && r.slots[k].toUser == fd {
      assert r.slots[k].id in m && Some(r.slots[k].id) != name;
    }
    if id :| id in m && Some(id) != name && m[id].toUser == fd {
      assert IsSeated(r.slots, id);
      var k :| 0 <= k < |r.slots| && r.slots[k].full && r.slots[k].id == id;
      assert k != sender;
    }
  }

  /** The slot's view of a private message and the roster's. */
  lemma PrivateIsHeard(r: Room, m: Roster, i: nat, line: string)
    requires RoomOk(r) && Lists(r.slots, m) && i < |r.slots| && r.slots[i].full
    ensures var (to, text) := Private(m, r.slots[i].id, line);
            to in m && P2PWrite(r.slots, i, line) == Write(m[to].toUser, text)
  {
    if NameIn(line).Some? {
      NamedIsMember(r.slots, m, NameIn(line).value);
    }
  }

  lemma UserLineIsHeard(r: Room, m: Roster, i: nat, line: string, fd: int)
    requires RoomOk(r) && CanHappen(r, UserLine(i, line)) && Lists(r.slots, m)
    ensures Hears(r.sent, After(r, UserLine(i, line)).sent, fd, Heard(m, DeedOf(r, UserLine(i, line)), fd))
  {
    var who := r.slots[i].id;
    match LineType(line)
    case LIST => ReceivedAppend(r.sent, Write(r.slots[i].toUser, Shown(r.slots)), fd);
    case P2P =>
      PrivateIsHeard(r, m, i, line);
      ReceivedAppend(r.sent, P2PWrite(r.slots, i, line), fd);
    case EXIT =>
    case _ =>
      BroadcastIsExact(r, who + ": " + line, i, fd);
      ListenersAreMembers(r, m, i, fd);
  }

  /** Every event is heard by exactly those who should hear it. */
  lemma EventIsHeard(r: Room, m: Roster, e: Event, fd: int)
    requires RoomOk(r) && CanHappen(r, e) && Lists(r.slots, m)
    ensures HasCommand(DeedOf(r, e)) && Hears(r.sent, After(r, e).sent, fd, Heard(m, DeedOf(r, e), fd))
  {
    match e
    case Connect(id, pid, c) =>
    case AdminLine(line) =>
      match LineType(line) {
        case LIST | KICK =>
        case EXIT => KickAllKeepsOk(r, |r.slots|);
        case _ =>
          BroadcastIsExact(r, "admin-notice: " + line, -1, fd);
          ListenersAreMembers(r, m, -1, fd);
      }
    case UserLine(i, line) => UserLineIsHeard(r, m, i, line, fd);
  }

  // ---------------------------------------------------------------- whole runs

  predicate HaveCommands(ds: seq<Deed>) {
    forall k | 0 <= k < |ds| :: HasCommand(ds[k])
  }

  /** The members after these deeds, oldest first. */
  function RosterAfter(ds: seq<Deed>): Roster
    requires HaveCommands(ds)
  {
    if ds == [] then map[] else AfterDeed(RosterAfter(ds[..|ds| - 1]), ds[|ds| - 1])
  }

  /** Only members speak. */
  ghost predicate MembersSpeak(ds: seq<Deed>)
    requires HaveCommands(ds)
  {
    forall k | 0 <= k < |ds| && ds[k].Says? :: ds[k].who in RosterAfter(ds[..k])
  }

  /** Everything `fd` receives by these deeds. */
  ghost function HeardBy(ds: seq<Deed>, fd: int): seq<string>
    requires HaveCommands(ds) && MembersSpeak(ds)
  {
    if ds == [] then []
    else
      var front := ds[..|ds| - 1];
      assert forall k | 0 <= k < |front| :: ds[..k] == front[..k];
      HeardBy(front, fd) + Heard(RosterAfter(front), ds[|ds| - 1], fd)
  }

  /** The deeds of a run. */
  ghost function Deeds(r: Room, es: seq<Event>): seq<Deed>
    decreases |es|
  {
    if es == [] || !CanHappen(r, es[0]) then [] else [DeedOf(r, es[0])] + Deeds(After(r, es[0]), es[1..])
  }

  ghost predicate Refines(r: Room, ds: seq<Deed>) {
    && HaveCommands(ds) && MembersSpeak(ds)
    && Lists(r.slots, RosterAfter(ds))
    && forall fd :: Received(r.sent, fd) == HeardBy(ds, fd)
  }

  /** One more deed, by a member. */
  lemma DeedIsHeard(ds: seq<Deed>, d: Deed, fd: int)
    requires HaveCommands(ds) && MembersSpeak(ds) && HasCommand(d) && (d.Says? ==> d.who in RosterAfter(ds))
    ensures HaveCommands(ds + [d]) && MembersSpeak(ds + [d])
    ensures RosterAfter(ds + [d]) == AfterDeed(RosterAfter(ds), d)
    ensures HeardBy(ds + [d], fd) == HeardBy(ds, fd) + Heard(RosterAfter(ds), d, fd)
  {
    var more := ds + [d];
    assert more[..|ds|] == ds;
    forall k | 0 <= k < |more| && more[k].Says?
      ensures more[k].who in RosterAfter(more[..k])
    {
      if k < |ds| {
        assert more[..k] == ds[..k];
      }
    }
  }

  lemma EventRefines(r: Room, ds: seq<Deed>, e: Event)
    requires RoomOk(r) && Refines(r, ds) && CanHappen(r, e)
    ensures Refines(After(r, e), ds + [DeedOf(r, e)])
  {
    var d, m := DeedOf(r, e), RosterAfter(ds);
    EventRefinesRoster(r, m, e);
    DeedIsHeard(ds, d, 0);
    forall fd
      ensures Received(After(r, e).sent, fd) == HeardBy(ds + [d], fd)
    {
      DeedIsHeard(ds, d, fd);
      EventIsHeard(r, m, e, fd);
    }
  }

  lemma DeedsUnfold(r: Room, ds: seq<Deed>, es: seq<Event>)
    requires es != [] && CanHappen(r, es[0])
    ensures ds + Deeds(r, es) == ds + [DeedOf(r, es[0])] + Deeds(After(r, es[0]), es[1..])
  {}

  lemma {:induction false} RunRefines(r: Room, ds: seq<Deed>, es: seq<Event>, t: Room, all: seq<Deed>)
    requires RoomOk(r) && Refines(r, ds) && Reaches(r, es, t) && all == ds + Deeds(r, es)
    ensures Refines(t, all)
    decreases |es|
  {
    if es == [] {
      assert all == ds;
    } else {
      DeedsUnfold(r, ds, es);
      EventKeepsOk(r, es[0]);
      EventRefines(r, ds, es[0]);
      RunRefines(After(r, es[0]), ds + [DeedOf(r, es[0])], es[1..], t, all);
    }
  }

  /** The whole chat, told by names.  In every run the occupied slots are exactly
      the members the deeds leave, with their processes and pipe ends; and every
      descriptor has received exactly what the deeds say, in order. */
  lemma ChatFollowsRoster(es: seq<Event>, t: Room)
    requires Reaches(EMPTY_ROOM, es, t)
    ensures var ds := Deeds(EMPTY_ROOM, es);
            && HaveCommands(ds) && MembersSpeak(ds)
            && Lists(t.slots, RosterAfter(ds))
            && forall fd :: Received(t.sent, fd) == HeardBy(ds, fd)
  {
    EmptyRoomOk();
    RunRefines(EMPTY_ROOM, [], es, t, Deeds(EMPTY_ROOM, es));
  }

  // ---------------------------------------------------------------- where users and writes come from

  /** One of these events is the connect of this very client, with these pipes. */
  ghost predicate IsClientOf(es: seq<Event>, u: User) {
    exists k :: 0 <= k < |es| && es[k].Connect? && Seats(es[k], u)
  }

  predicate Seats(e: Event, u: User)
    requires e.Connect?
  {
    e.id == u.id && e.pid == u.pid && e.pipes.toChild.writeEnd == u.toUser && e.pipes.toServer.readEnd == u.toServer
  }

  /** One of these events is a connect whose child reads what is written to `fd`. */
  ghost predicate IsClientEnd(es: seq<Event>, fd: int) {
    exists k :: 0 <= k < |es| && es[k].Connect? && es[k].pipes.toChild.writeEnd == fd
  }

  ghost predicate Accounted(r: Room, es: seq<Event>) {
    && (forall i | 0 <= i < |r.slots| && r.slots[i].full :: IsClientOf(es, r.slots[i]))
    && (forall k | 0 <= k < |r.sent| :: IsClientEnd(es, r.sent[k].fd))
  }

  ghost predicate IsSlotEnd(slots: seq<User>, fd: int) {
    exists i :: 0 <= i < |slots| && slots[i].full && slots[i].toUser == fd
  }

  lemma {:induction false} BroadcastsToSlots(slots: seq<User>, n: nat, text: string, sender: int)
    requires n <= |slots|
    ensures forall k | 0 <= k < |Broadcasts(slots, n, text, sender)| ::
              IsSlotEnd(slots, Broadcasts(slots, n, text, sender)[k].fd)
  {
    if n > 0 {
      BroadcastsToSlots(slots, n - 1, text, sender);
      assert slots[n - 1].full ==> IsSlotEnd(slots, slots[n - 1].toUser);
    }
  }

  /** Whatever is written goes to the pipe end of an occupied slot. */
  lemma WritesGoToSlots(r: Room, e: Event)
    requires RoomOk(r) && CanHappen(r, e)
    ensures r.sent <= After(r, e).sent
    ensures forall k | |r.sent| <= k < |After(r, e).sent| :: IsSlotEnd(r.slots, After(r, e).sent[k].fd)
  {
    match e
    case Connect(_, _, _) =>
    case AdminLine(line) =>
      KickAllKeepsOk(r, |r.slots|);
      BroadcastsToSlots(r.slots, |r.slots|, "admin-notice: " + line, -1);
    case UserLine(i, line) =>
      assert IsSlotEnd(r.slots, r.slots[i].toUser);
      BroadcastsToSlots(r.slots, |r.slots|, r.slots[i].id + ": " + line, i);
  }

  /** Whoever sits in a slot sat there before, or has just connected. */
  lemma SlotsComeFrom(r: Room, e: Event, i: nat)
    requires RoomOk(r) && CanHappen(r, e) && i < |After(r, e).slots| && After(r, e).slots[i].full
    ensures (i < |r.slots| && After(r, e).slots[i] == r.slots[i]) || (e.Connect? && Seats(e, After(r, e).slots[i]))
  {
    if e.AdminLine? {
      KickAllKeepsOk(r, |r.slots|);
    }
  }

  lemma EventIsAccounted(r: Room, seen: seq<Event>, e: Event)
    requires RoomOk(r) && CanHappen(r, e) && Accounted(r, seen)
    ensures Accounted(After(r, e), seen + [e])
  {
    var es := seen + [e];
    assert es[|seen|] == e;
    forall i | 0 <= i < |After(r, e).slots| && After(r, e).slots[i].full
      ensures IsClientOf(es, After(r, e).slots[i])
    {
      SlotsComeFrom(r, e, i);
      if i < |r.slots| && After(r, e).slots[i] == r.slots[i] {
        var k :| 0 <= k < |seen| && seen[k].Connect? && Seats(seen[k], r.slots[i]);
        assert es[k] == seen[k];
      }
    }
    WritesGoToSlots(r, e);
    forall k | 0 <= k < |After(r, e).sent|
      ensures IsClientEnd(es, After(r, e).sent[k].fd)
    {
      if k < |r.sent| {
        assert After(r, e).sent[k] == r.sent[k];
        var j :| 0 <= j < |seen| && seen[j].Connect? && seen[j].pipes.toChild.writeEnd == r.sent[k].fd;
        assert es[j] == seen[j];
      } else {
        var i :| 0 <= i < |r.slots| && r.slots[i].full && r.slots[i].toUser == After(r, e).sent[k].fd;
        var j :| 0 <= j < |seen| && seen[j].Connect? && Seats(seen[j], r.slots[i]);
        assert es[j] == seen[j];
      }
    }
  }

  lemma FirstMoves(seen: seq<Event>, es: seq<Event>)
    requires es != []
    ensures seen + es == seen + [es[0]] + es[1..]
  {}

  lemma {:induction false} RunIsAccounted(r: Room, seen: seq<Event>, es: seq<Event>, t: Room, all: seq<Event>)
    requires RoomOk(r) && Accounted(r, seen) && Reaches(r, es, t) && all == seen + es
    ensures Accounted(t, all)
    decreases |es|
  {
    if es == [] {
      assert all == seen;
    } else {
      EventKeepsOk(r, es[0]);
      EventIsAccounted(r, seen, es[0]);
      FirstMoves(seen, es);
      RunIsAccounted(After(r, es[0]), seen + [es[0]], es[1..], t, all);
    }
  }

  /** In every run, each occupied slot is some client's that connected: its name,
      its process, the write end of the pipe made to its child and the read end of
      the pipe made from it.  Everything ever sent went to a write end that was
      made for a client's child. */
  lemma UsersAreClients(es: seq<Event>, t: Room)
    requires Reaches(EMPTY_ROOM, es, t)
    ensures forall i | 0 <= i < |t.slots| && t.slots[i].full :: IsClientOf(es, t.slots[i])
    ensures forall k | 0 <= k < |t.sent| :: IsClientEnd(es, t.sent[k].fd)
  {
    EmptyRoomOk();
    RunIsAccounted(EMPTY_ROOM, [], es, t, es);
  }

  // ---------------------------------------------------------------- the list of users

  /** The names in the occupied slots, in slot order. */
  function Names(slots: seq<User>): seq<string> {
    if slots == [] then [] else (if slots[0].full then [slots[0].id] else []) + Names(slots[1..])
  }

  ghost predicate NamesAreLines(slots: seq<User>) {
    forall i | 0 <= i < |slots| && slots[i].full :: slots[i].id != "" && '\n' !in slots[i].id
  }

  lemma ListingStarts(slots: seq<User>)
    ensures Listing(slots) == "" || Listing(slots)[0] == '\n'
  {}

  /** A word and the listing after it. */
  lemma WordThenListing(w: string, slots: seq<User>)
    requires w != "" && '\n' !in w
    ensures Tokens(w + Listing(slots), '\n') == [w] + Tokens(Listing(slots), '\n')
  {
    ListingStarts(slots);
    if Listing(slots) == "" {
      assert w + Listing(slots) == w;
      LastToken(w, '\n');
    } else {
      var l := Listing(slots)[1..];
      assert Listing(slots) == ['\n'] + l && w + Listing(slots) == w + ['\n'] + l;
      TokensOfWord(w, l, '\n');
      TokensSkipDelimiter(l, '\n');
    }
  }

  lemma {:induction false} ListingTokens(slots: seq<User>)
    requires NamesAreLines(slots)
    ensures Tokens(Listing(slots), '\n') == Names(slots)
  {
    if slots != [] {
      ListingTokens(slots[1..]);
      if slots[0].full {
        assert Listing(slots) == ['\n'] + (slots[0].id + Listing(slots[1..]));
        TokensSkipDelimiter(slots[0].id + Listing(slots[1..]), '\n');
        WordThenListing(slots[0].id, slots[1..]);
      } else {
        assert Listing(slots) == Listing(slots[1..]) && Names(slots) == Names(slots[1..]);
      }
    }
  }

  /** The list a user is sent reads back, line by line, as a heading and the names
      of all occupied slots in order; it ends with the terminating NUL. */
  lemma ListIsReadable(slots: seq<User>)
    requires NamesAreLines(slots)
    ensures Shown(slots)[|Shown(slots)| - 1] == NUL
    ensures Tokens(Shown(slots)[..|Shown(slots)| - 1], '\n') == ["---connected user list---"] + Names(slots)
  {
    var heading := "---connected user list---";
    assert Shown(slots)[..|Shown(slots)| - 1] == heading + Listing(slots);
    WordThenListing(heading, slots);
    ListingTokens(slots);
  }

  lemma {:induction false} NamesAreSeated(slots: seq<User>, id: string)
    ensures id in Names(slots) <==> IsSeated(slots, id)
  {
    if slots != [] {
      NamesAreSeated(slots[1..], id);
      if i :| 0 <= i < |slots| && slots[i].full && slots[i].id == id {
        assert i > 0 ==> slots[1..][i - 1] == slots[i];
      }
      if i :| 0 <= i < |slots[1..]| && slots[1..][i].full && slots[1..][i].id == id {
        assert slots[i + 1] == slots[1..][i];
      }
    }
  }

  lemma {:induction false} NamesAreOnce(slots: seq<User>)
    requires NamesDiffer(slots)
    ensures forall i, j | 0 <= i < j < |Names(slots)| :: Names(slots)[i] != Names(slots)[j]
  {
    if slots != [] {
      assert forall i | 0 <= i < |slots[1..]| :: slots[1..][i] == slots[i + 1];
      NamesAreOnce(slots[1..]);
      NamesAreSeated(slots[1..], slots[0].id);
    }
  }

  /** The names listed are the roster's members, each once. */
  lemma NamesAreMembers(slots: seq<User>, m: Roster)
    requires NamesDiffer(slots) && Lists(slots, m)
    ensures forall id :: id in Names(slots) <==> id in m
    ensures forall i, j | 0 <= i < j < |Names(slots)| :: Names(slots)[i] != Names(slots)[j]
  {
    forall id
      ensures id in Names(slots) <==> id in m
    {
      NamesAreSeated(slots, id);
    }
    NamesAreOnce(slots);
  }
}
