// The chat server's slot table and the routing of messages.

module ChatRoom {
  import opened Options
  import opened CStrings
  import opened ChatCommands

  const MAX_USER := 10

  /** A slot of the user list; the two descriptors are the server's pipe ends. */
  datatype User = User(pid: int, id: string, toUser: int, toServer: int, full: bool)

  const VACANT := User(-1, "", -1, -1, false)

  datatype Write = Write(fd: int, text: string)

  /** What pipe() returns. */
  datatype Pipe = Pipe(readEnd: int, writeEnd: int)

  /** The table, the pipe ends the server has open, and everything it has
      written.  `lost` is history: the open ends of clients that were refused. */
  datatype Room = Room(slots: seq<User>, open: set<int>, lost: set<int>, sent: seq<Write>, running: bool)

  // ---------------------------------------------------------------- searching

  ghost predicate IsFirstVacant(slots: seq<User>, i: int) {
    && -1 <= i < |slots|
    && (i == -1 ==> forall j | 0 <= j < |slots| :: slots[j].full)
    && (i != -1 ==> !slots[i].full && forall j | 0 <= j < i :: slots[j].full)
  }

  ghost predicate IsFirstNamed(slots: seq<User>, id: string, i: int) {
    && -1 <= i < |slots|
    && (i == -1 ==> forall j | 0 <= j < |slots| && slots[j].full :: slots[j].id != id)
    && (i != -1 ==> slots[i].full && slots[i].id == id && forall j | 0 <= j < i && slots[j].full :: slots[j].id != id)
  }

  function VacantFrom(slots: seq<User>, n: nat): (i: int)
    requires n <= |slots|
    ensures i == -1 ==> forall j | n <= j < |slots| :: slots[j].full
    ensures i != -1 ==> n <= i < |slots| && !slots[i].full && forall j | n <= j < i :: slots[j].full
    decreases |slots| - n
  {
    if n == |slots| then -1 else if !slots[n].full then n else VacantFrom(slots, n + 1)
  }

  function FirstVacant(slots: seq<User>): (i: int)
    ensures IsFirstVacant(slots, i)
  {
    VacantFrom(slots, 0)
  }

  function NamedFrom(slots: seq<User>, id: string, n: nat): (i: int)
    requires n <= |slots|
    ensures i == -1 ==> forall j | n <= j < |slots| && slots[j].full :: slots[j].id != id
    ensures i != -1 ==> n <= i < |slots| && slots[i].full && slots[i].id == id
                        && forall j | n <= j < i && slots[j].full :: slots[j].id != id
    decreases |slots| - n
  {
    if n == |slots| then -1
    else if slots[n].full && slots[n].id == id then n
    else NamedFrom(slots, id, n + 1)
  }

  function Named(slots: seq<User>, id: string): (i: int)
    ensures IsFirstNamed(slots, id, i)
  {
    NamedFrom(slots, id, 0)
  }

  // ---------------------------------------------------------------- events

  /** A connection is refused when the table is full or the name is taken. */
  predicate Admits(slots: seq<User>, id: string) {
    FirstVacant(slots) != -1 && Named(slots, id) == -1
  }

  /** The client's pipes, and those between the server and the child that serves
      the client. */
  datatype Pipes = Pipes(fromUser: Pipe, toUser: Pipe, toServer: Pipe, toChild: Pipe)

  /** The two ends of the client's pipes that the server keeps at first. */
  function ClientEnds(c: Pipes): set<int> {
    {c.fromUser.readEnd, c.toUser.writeEnd}
  }

  /** An admitted client's own ends go to its child; a refused one's stay open
      in the server, where nothing remembers them. */
  function AfterConnect(r: Room, id: string, pid: int, c: Pipes): Room {
    if Admits(r.slots, id) then
      var u := User(pid, id, c.toChild.writeEnd, c.toServer.readEnd, true);
      r.(slots := r.slots[FirstVacant(r.slots) := u], open := r.open + {u.toUser, u.toServer})
    else
      r.(open := r.open + ClientEnds(c), lost := r.lost + ClientEnds(c))
  }

  /** Kills the user's process, closes both pipe ends and vacates the slot. */
  function AfterKick(r: Room, i: nat): Room
    requires i < |r.slots|
  {
    r.(slots := r.slots[i := VACANT], open := r.open - {r.slots[i].toUser, r.slots[i].toServer})
  }

  function KickAll(r: Room, n: nat): Room
    requires n <= |r.slots|
    ensures |KickAll(r, n).slots| == |r.slots|
  {
    if n == 0 then r
    else
      var before := KickAll(r, n - 1);
      if before.slots[n - 1].full then AfterKick(before, n - 1) else before
  }

  /** The writes of a broadcast to the first `n` slots; `sender` is a slot, or -1 for the admin. */
  function Broadcasts(slots: seq<User>, n: nat, text: string, sender: int): seq<Write>
    requires n <= |slots|
  {
    if n == 0 then []
    else Broadcasts(slots, n - 1, text, sender)
         + if slots[n - 1].full && n - 1 != sender then [Write(slots[n - 1].toUser, text)] else []
  }

  function AfterBroadcast(r: Room, text: string, sender: int): Room {
    r.(sent := r.sent + Broadcasts(r.slots, |r.slots|, text, sender))
  }

  /** The one write a private message line causes: to the receiver if every check
      passes, otherwise an error back to the sender. */
  function P2PWrite(slots: seq<User>, i: nat, line: string): Write
    requires i < |slots|
  {
    match NameIn(line)
    case None => Write(slots[i].toUser, "User name not given")
    case Some(name) =>
      var j := Named(slots, name);
      if j == -1 then Write(slots[i].toUser, "User not found, use \\list" + [NUL])
      else if j == i then Write(slots[i].toUser, "Cannot send \\p2p to yourself")
      else match TextIn(line)
        case None => Write(slots[i].toUser, "Message not given")
        case Some(text) => Write(slots[j].toUser, slots[i].id + ":" + text)
  }

  /** The names of the occupied slots, one a line. */
  function Listing(slots: seq<User>): string {
    if slots == [] then ""
    else (if slots[0].full then "\n" + slots[0].id else "") + Listing(slots[1..])
  }

  /** What a user is sent who asks for the list. */
  function Shown(slots: seq<User>): string {
    "---connected user list---" + Listing(slots) + [NUL]
  }

  function AfterAdminLine(r: Room, line: string): Room
    requires HasWord(line)
  {
    match LineType(line)
    case LIST => r
    case KICK =>
      if NameIn(line) == None || Named(r.slots, NameIn(line).value) == -1 then r
      else AfterKick(r, Named(r.slots, NameIn(line).value))
    case EXIT => KickAll(r, |r.slots|).(running := false)
    case _ => AfterBroadcast(r, "admin-notice: " + line, -1)
  }

  function AfterUserLine(r: Room, i: nat, line: string): Room
    requires i < |r.slots| && HasWord(line)
  {
    match LineType(line)
    case LIST => r.(sent := r.sent + [Write(r.slots[i].toUser, Shown(r.slots))])
    case P2P => r.(sent := r.sent + [P2PWrite(r.slots, i, line)])
    case EXIT => AfterKick(r, i)
    case _ => AfterBroadcast(r, r.slots[i].id + ": " + line, i)
  }

  datatype Event =
    | Connect(id: string, pid: int, pipes: Pipes)
    | AdminLine(line: string)
    | UserLine(i: nat, line: string)

  /** Two calls of pipe() return four different descriptors that are not open. */
  predicate AreNew(a: Pipe, b: Pipe, open: set<int>) {
    && |{a.readEnd, a.writeEnd, b.readEnd, b.writeEnd}| == 4
    && {a.readEnd, a.writeEnd, b.readEnd, b.writeEnd} !! open
  }

  /** The client's pipes come first.  Only an admitted client gets the others,
      which may reuse the ends closed in between. */
  predicate PipesAreNew(r: Room, id: string, c: Pipes) {
    && AreNew(c.fromUser, c.toUser, r.open)
    && (Admits(r.slots, id) ==> AreNew(c.toServer, c.toChild, r.open + ClientEnds(c)))
  }

  /** A line has a command word. */
  ghost predicate CanHappen(r: Room, e: Event) {
    r.running &&
    match e
    case Connect(id, _, pipes) => PipesAreNew(r, id, pipes)
    case AdminLine(line) => HasWord(line)
    case UserLine(i, line) => i < |r.slots| && r.slots[i].full && HasWord(line)
  }

  function After(r: Room, e: Event): Room
    requires e.AdminLine? || e.UserLine? ==> HasWord(e.line)
    requires e.UserLine? ==> e.i < |r.slots|
  {
    match e
    case Connect(id, pid, pipes) => AfterConnect(r, id, pid, pipes)
    case AdminLine(line) => AfterAdminLine(r, line)
    case UserLine(i, line) => AfterUserLine(r, i, line)
  }

  const EMPTY_ROOM := Room(seq(MAX_USER, _ => VACANT), {}, {}, [], true)

  ghost predicate Reaches(r: Room, es: seq<Event>, t: Room)
    decreases |es|
  {
    if es == [] then t == r
    else CanHappen(r, es[0]) && Reaches(After(r, es[0]), es[1..], t)
  }

  // ---------------------------------------------------------------- the invariant

  predicate Owns(u: User, fd: int) {
    u.full && (fd == u.toUser || fd == u.toServer)
  }

  ghost predicate IsOwned(slots: seq<User>, fd: int) {
    exists i :: 0 <= i < |slots| && Owns(slots[i], fd)
  }

  ghost predicate NamesDiffer(slots: seq<User>) {
    forall i, j | 0 <= i < |slots| && 0 <= j < |slots| && slots[i].full && slots[j].full ::
      slots[i].id == slots[j].id ==> i == j
  }

  /** No descriptor belongs to two slots, or to the two ends of one. */
  ghost predicate DescriptorsDiffer(slots: seq<User>) {
    && (forall i, j, fd | 0 <= i < |slots| && 0 <= j < |slots| && Owns(slots[i], fd) && Owns(slots[j], fd) :: i == j)
    && (forall i | 0 <= i < |slots| && slots[i].full :: slots[i].toUser != slots[i].toServer)
  }

  ghost predicate VacantBlank(slots: seq<User>) {
    forall i | 0 <= i < |slots| && !slots[i].full :: slots[i] == VACANT
  }

  /** Every open descriptor belongs to a slot or to a refused client, not to both. */
  ghost predicate OpenExactly(slots: seq<User>, open: set<int>, lost: set<int>) {
    && (forall fd :: fd in open <==> IsOwned(slots, fd) || fd in lost)
    && (forall fd | fd in lost :: !IsOwned(slots, fd))
  }

  /** Occupied slots have pairwise different names and descriptors of their own;
      vacant slots are blank; apart from the slots' descriptors only the ends of
      refused clients are open. */
  ghost predicate RoomOk(r: Room) {
    && |r.slots| == MAX_USER
    && NamesDiffer(r.slots) && DescriptorsDiffer(r.slots) && VacantBlank(r.slots)
    && OpenExactly(r.slots, r.open, r.lost)
  }

  lemma FourDiffer(a: int, b: int, c: int, d: int)
    requires |{a, b, c, d}| == 4
    ensures a != b && a != c && a != d && b != c && b != d && c != d
  {
    assert a == b ==> {a, b, c, d} == {b, c, d};
    assert a == c ==> {a, b, c, d} == {b, c, d};
    assert a == d ==> {a, b, c, d} == {b, c, d};
    assert b == c ==> {a, b, c, d} == {a, c, d};
    assert b == d ==> {a, b, c, d} == {a, c, d};
    assert c == d ==> {a, b, c, d} == {a, b, d};
  }

  lemma ConnectKeepsOk(r: Room, id: string, pid: int, c: Pipes)
    requires RoomOk(r) && PipesAreNew(r, id, c)
    ensures RoomOk(AfterConnect(r, id, pid, c))
  {
    if Admits(r.slots, id) {
      var n := FirstVacant(r.slots);
      var u := User(pid, id, c.toChild.writeEnd, c.toServer.readEnd, true);
      FourDiffer(c.toServer.readEnd, c.toServer.writeEnd, c.toChild.readEnd, c.toChild.writeEnd);
      assert NamesDiffer(r.slots[n := u]);
      assert u.toUser !in r.open && u.toServer !in r.open;
      SlotFilled(r.slots, n, u, r.open, r.lost);
    } else {
      assert forall fd | fd in ClientEnds(c) :: fd !in r.open;
    }
  }

  lemma SlotFilled(slots: seq<User>, n: nat, u: User, open: set<int>, lost: set<int>)
    requires n < |slots| && !slots[n].full && u.full && u.toUser != u.toServer
    requires DescriptorsDiffer(slots) && OpenExactly(slots, open, lost)
    requires u.toUser !in open && u.toServer !in open
    ensures DescriptorsDiffer(slots[n := u]) && OpenExactly(slots[n := u], open + {u.toUser, u.toServer}, lost)
  {
    var after := slots[n := u];
    forall fd
      ensures IsOwned(after, fd) <==> IsOwned(slots, fd) || fd == u.toUser || fd == u.toServer
    {
      if IsOwned(slots, fd) {
        var i :| 0 <= i < |slots| && Owns(slots[i], fd);
        assert Owns(after[i], fd);
      }
      if IsOwned(after, fd) {
        var i :| 0 <= i < |slots| && Owns(after[i], fd);
        assert i != n ==> Owns(slots[i], fd);
      }
      assert Owns(after[n], fd) <==> fd == u.toUser || fd == u.toServer;
    }
    forall i, j, fd | 0 <= i < |slots| && 0 <= j < |slots| && Owns(after[i], fd) && Owns(after[j], fd)
      ensures i == j
    {
      assert i != n ==> Owns(slots[i], fd) && IsOwned(slots, fd);
      assert j != n ==> Owns(slots[j], fd) && IsOwned(slots, fd);
    }
  }

  lemma KickKeepsOk(r: Room, n: nat)
    requires RoomOk(r) && n < |r.slots| && r.slots[n].full
    ensures RoomOk(AfterKick(r, n))
  {
    var u := r.slots[n];
    var after := r.slots[n := VACANT];
    forall fd
      ensures IsOwned(after, fd) <==> IsOwned(r.slots, fd) && fd != u.toUser && fd != u.toServer
    {
      if IsOwned(r.slots, fd) {
        var i :| 0 <= i < |r.slots| && Owns(r.slots[i], fd);
        assert i != n ==> Owns(after[i], fd);
      }
      if IsOwned(after, fd) {
        var i :| 0 <= i < |r.slots| && Owns(after[i], fd);
        assert Owns(r.slots[i], fd);
      }
      assert Owns(r.slots[n], fd) <==> fd == u.toUser || fd == u.toServer;
    }
    forall i, j, fd | 0 <= i < |after| && 0 <= j < |after| && Owns(after[i], fd) && Owns(after[j], fd)
      ensures i == j
    {
      assert Owns(r.slots[i], fd) && Owns(r.slots[j], fd);
    }
  }

  lemma {:induction false} KickAllKeepsOk(r: Room, n: nat)
    requires RoomOk(r) && n <= |r.slots|
    ensures RoomOk(KickAll(r, n)) && KickAll(r, n).sent == r.sent && KickAll(r, n).lost == r.lost
    ensures forall i | 0 <= i < n :: !KickAll(r, n).slots[i].full
    ensures forall i | n <= i < |r.slots| :: KickAll(r, n).slots[i] == r.slots[i]
  {
    if n > 0 {
      KickAllKeepsOk(r, n - 1);
      var before := KickAll(r, n - 1);
      if before.slots[n - 1].full {
        KickKeepsOk(before, n - 1);
      }
    }
  }

  lemma EventKeepsOk(r: Room, e: Event)
    requires RoomOk(r) && CanHappen(r, e)
    ensures RoomOk(After(r, e))
  {
    match e
    case Connect(id, pid, pipes) => ConnectKeepsOk(r, id, pid, pipes);
    case AdminLine(line) =>
      match LineType(line) {
        case KICK =>
          if After(r, e) != r {
            KickKeepsOk(r, Named(r.slots, NameIn(line).value));
          }
        case EXIT => KickAllKeepsOk(r, |r.slots|);
        case _ =>
      }
    case UserLine(i, line) =>
      if LineType(line) == EXIT {
        KickKeepsOk(r, i);
      }
  }

  /** Nobody left, and open only what refused clients left behind. */
  ghost predicate IsClosed(r: Room) {
    r.open == r.lost && forall i | 0 <= i < |r.slots| :: !r.slots[i].full
  }

  /** In every run of connects, kicks, exits and messages, occupied slots have
      pairwise different names and own their descriptors; after the admin's exit
      every slot is vacant and every slot's descriptors are closed. */
  lemma {:induction false} RunKeepsOk(r: Room, es: seq<Event>, t: Room)
    requires RoomOk(r) && Reaches(r, es, t) && (r.running || IsClosed(r))
    ensures RoomOk(t) && (t.running || IsClosed(t))
    decreases |es|
  {
    if es != [] {
      EventKeepsOk(r, es[0]);
      if !After(r, es[0]).running {
        KickAllKeepsOk(r, |r.slots|);
        AllVacant(KickAll(r, |r.slots|));
      }
      RunKeepsOk(After(r, es[0]), es[1..], t);
    }
  }

  lemma AllVacant(r: Room)
    requires RoomOk(r) && forall i | 0 <= i < |r.slots| :: !r.slots[i].full
    ensures r.open == r.lost
  {
    forall fd
      ensures fd in r.open <==> fd in r.lost
    {
      assert fd in r.open <==> IsOwned(r.slots, fd) || fd in r.lost;
    }
  }

  // ---------------------------------------------------------------- refused clients

  predicate IsRefused(r: Room, e: Event) {
    e.Connect? && !Admits(r.slots, e.id)
  }

  /** The connects that were refused in a run. */
  ghost function Refusals(r: Room, es: seq<Event>): nat
    decreases |es|
  {
    if es == [] || !CanHappen(r, es[0]) then 0
    else (if IsRefused(r, es[0]) then 1 else 0) + Refusals(After(r, es[0]), es[1..])
  }

  lemma EventLoses(r: Room, e: Event)
    requires RoomOk(r) && CanHappen(r, e)
    ensures |After(r, e).lost| == |r.lost| + if IsRefused(r, e) then 2 else 0
  {
    if IsRefused(r, e) {
      var c := e.pipes;
      FourDiffer(c.fromUser.readEnd, c.fromUser.writeEnd, c.toUser.readEnd, c.toUser.writeEnd);
      assert |ClientEnds(c)| == 2;
      assert ClientEnds(c) !! r.lost;
    } else if e.AdminLine? && LineType(e.line) == EXIT {
      KickAllKeepsOk(r, |r.slots|);
    }
  }

  /** Every refused client costs the server two descriptors for good. */
  lemma {:induction false} RefusalsLeak(r: Room, es: seq<Event>, t: Room)
    requires RoomOk(r) && Reaches(r, es, t)
    ensures |t.lost| == |r.lost| + 2 * Refusals(r, es)
    decreases |es|
  {
    if es != [] {
      EventKeepsOk(r, es[0]);
      EventLoses(r, es[0]);
      RefusalsLeak(After(r, es[0]), es[1..], t);
    }
  }

  /** Descriptors over a whole run: open are those of the occupied slots and two
      for every refused connect.  So when the admin has left, nothing is open if
      and only if every client that came found a vacant slot and a free name. */
  lemma OpenAfterRun(es: seq<Event>, t: Room)
    requires Reaches(EMPTY_ROOM, es, t)
    ensures forall fd :: fd in t.open <==> IsOwned(t.slots, fd) || fd in t.lost
    ensures forall fd | fd in t.lost :: !IsOwned(t.slots, fd)
    ensures |t.lost| == 2 * Refusals(EMPTY_ROOM, es)
    ensures !t.running ==> (t.open == {} <==> Refusals(EMPTY_ROOM, es) == 0)
  {
    EmptyRoomOk();
    RunKeepsOk(EMPTY_ROOM, es, t);
    RefusalsLeak(EMPTY_ROOM, es, t);
  }

  lemma ExitClosesSlots(r: Room)
    requires RoomOk(r) && r.running
    ensures var t := KickAll(r, |r.slots|).(running := false);
            Reaches(r, [AdminLine("\\exit")], t) && t.open == r.lost
  {
    var e := AdminLine("\\exit");
    ExitWord();
    KickAllKeepsOk(r, |r.slots|);
    AllVacant(KickAll(r, |r.slots|));
    assert Reaches(After(r, e), [e][1..], After(r, e));
  }

  lemma ReachesOn(r: Room, e: Event, es: seq<Event>, t: Room)
    requires CanHappen(r, e) && Reaches(After(r, e), es, t)
    ensures Reaches(r, [e] + es, t)
  {
    assert ([e] + es)[1..] == es;
  }

  /** The client `ann`, twice, with the descriptors POSIX hands out when 0 to 3 are
      the standard streams and the listening socket: the lowest free one goes to
      the accepted connection, which is closed before the server's own pipes are
      made, and the next ones to the client's pipes. */
  const ANN_ONCE := Connect("ann", 100, Pipes(Pipe(5, 6), Pipe(7, 8), Pipe(4, 6), Pipe(7, 9)))
  const ANN_TWICE := Connect("ann", 0, Pipes(Pipe(6, 7), Pipe(8, 10), Pipe(-1, -1), Pipe(-1, -1)))

  lemma AnnComes()
    ensures var r := After(EMPTY_ROOM, ANN_ONCE);
            && CanHappen(EMPTY_ROOM, ANN_ONCE) && RoomOk(r) && r.running
            && !Admits(r.slots, "ann") && r.open == {4, 9} && r.lost == {}
  {
    EmptyRoomOk();
    EventKeepsOk(EMPTY_ROOM, ANN_ONCE);
    var r := After(EMPTY_ROOM, ANN_ONCE);
    assert r.slots[0].full && r.slots[0].id == "ann";
  }

  /** A user comes, a second one of the same name is refused, the admin exits:
      the second one's two descriptors are still open. */
  lemma SecondNameLeaks()
    ensures exists t ::
              && Reaches(EMPTY_ROOM, [ANN_ONCE] + ([ANN_TWICE] + [AdminLine("\\exit")]), t)
              && !t.running && t.open == {6, 10}
  {
    AnnComes();
    var one := After(EMPTY_ROOM, ANN_ONCE);
    EventKeepsOk(one, ANN_TWICE);
    var two := After(one, ANN_TWICE);
    var t := KickAll(two, |two.slots|).(running := false);
    ExitClosesSlots(two);
    ReachesOn(one, ANN_TWICE, [AdminLine("\\exit")], t);
    ReachesOn(EMPTY_ROOM, ANN_ONCE, [ANN_TWICE] + [AdminLine("\\exit")], t);
  }

  lemma ExitWord()
    ensures HasWord("\\exit") && LineType("\\exit") == EXIT
  {
    LastToken("\\exit", ' ');
    assert Tokens("", ' ') == [];
    TypeIsUnique("\\exit", EXIT, TypeOfWord("\\exit"));
  }

  lemma EmptyRoomOk()
    ensures RoomOk(EMPTY_ROOM)
  {}
}
