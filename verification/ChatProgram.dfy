// The chat server's own routines, over its array of users.

module ChatProgram {
  import opened Options
  import opened CStrings
  import opened ChatCommands
  import opened ChatRoom
  import opened ChatDelivery

  /** Of two new pipes, the read end of one and the write end of the other stay. */
  lemma OneEndEachStays(open: set<int>, a: Pipe, b: Pipe)
    requires AreNew(a, b, open)
    ensures open + {a.readEnd, a.writeEnd, b.readEnd, b.writeEnd} - {a.writeEnd} - {b.readEnd}
         == open + {a.readEnd, b.writeEnd}
    ensures a.readEnd != b.writeEnd && a.readEnd !in open && b.writeEnd !in open
  {
    FourDiffer(a.readEnd, a.writeEnd, b.readEnd, b.writeEnd);
  }

  /** An admitted client's own ends are closed in the server, and only they. */
  lemma EndsHandedOver(open: set<int>, c: Pipes)
    requires AreNew(c.fromUser, c.toUser, open) && AreNew(c.toServer, c.toChild, open + ClientEnds(c))
    ensures open + ClientEnds(c) + {c.toServer.readEnd, c.toChild.writeEnd}
            - {c.fromUser.readEnd} - {c.toUser.writeEnd}
         == open + {c.toChild.writeEnd, c.toServer.readEnd}
  {
    OneEndEachStays(open, c.fromUser, c.toUser);
    OneEndEachStays(open + ClientEnds(c), c.toServer, c.toChild);
  }

  /** A broadcast, slot by slot. */
  lemma BroadcastHeard(r: Room, text: string, sender: int)
    requires RoomOk(r)
    ensures forall k | 0 <= k < |r.slots| && r.slots[k].full ::
              Hears(r.sent, AfterBroadcast(r, text, sender).sent, r.slots[k].toUser, if k == sender then [] else [text])
    ensures forall fd | !IsListener(r.slots, sender, fd) :: Hears(r.sent, AfterBroadcast(r, text, sender).sent, fd, [])
  {
    forall k | 0 <= k < |r.slots| && r.slots[k].full
      ensures Hears(r.sent, AfterBroadcast(r, text, sender).sent, r.slots[k].toUser, if k == sender then [] else [text])
    {
      ListenerIsSlot(r, sender, k);
      BroadcastIsExact(r, text, sender, r.slots[k].toUser);
    }
    forall fd | !IsListener(r.slots, sender, fd)
      ensures Hears(r.sent, AfterBroadcast(r, text, sender).sent, fd, [])
    {
      BroadcastIsExact(r, text, sender, fd);
    }
  }

  /** What a slot adds to the listing. */
  function Shows(u: User): string {
    if u.full then "\n" + u.id else ""
  }

  lemma ListingFirst(u: User, slots: seq<User>)
    ensures Listing([u] + slots) == Shows(u) + Listing(slots)
  {
    assert ([u] + slots)[1..] == slots;
  }

  lemma {:induction false} ListingGrows(slots: seq<User>, u: User)
    ensures Listing(slots + [u]) == Listing(slots) + Shows(u)
  {
    if slots == [] {
      ListingFirst(u, []);
      assert slots + [u] == [u] + [] && Shows(u) + "" == "" + Shows(u);
    } else {
      var first, rest := slots[0], slots[1..];
      ListingGrows(rest, u);
      ListingFirst(first, rest);
      ListingFirst(first, rest + [u]);
      assert slots == [first] + rest && slots + [u] == [first] + (rest + [u]);
    }
  }

  /** The buffer of list_users after these slots. */
  function Sheet(slots: seq<User>): string {
    "---connected user list---" + Listing(slots) + "\n"
  }

  lemma SheetGrows(slots: seq<User>, u: User)
    ensures Sheet(slots + [u]) == if u.full then Sheet(slots) + (u.id + "\n") else Sheet(slots)
  {
    ListingGrows(slots, u);
    if u.full {
      LineMoves("---connected user list---", Listing(slots), u.id);
    }
  }

  lemma LineMoves(heading: string, l: string, id: string)
    ensures heading + (l + ("\n" + id)) + "\n" == (heading + l + "\n") + (id + "\n")
  {}

  lemma SheetIsShown(slots: seq<User>)
    ensures Sheet(slots) != "" && Sheet(slots)[..|Sheet(slots)| - 1] + [NUL] == Shown(slots)
  {
    var shown := "---connected user list---" + Listing(slots);
    assert Sheet(slots)[..|Sheet(slots)| - 1] == shown;
  }

  class ChatServer {
    var users: array<User>
    var open: set<int>
    ghost var lost: set<int>
    var sent: seq<Write>
    var running: bool

    ghost function State(): Room
      reads this, users
    {
      Room(users[..], open, lost, sent, running)
    }

    ghost predicate Valid()
      reads this, users
    {
      RoomOk(State())
    }

    /** init_user_list. */
    constructor ()
      ensures Valid() && State() == EMPTY_ROOM && fresh(users)
    {
      users := new User[MAX_USER](_ => VACANT);
      open := {};
      lost := {};
      sent := [];
      running := true;
      new;
      assert users[..] == seq(MAX_USER, _ => VACANT);
    }

    method FindEmptySlot() returns (i: int)
      ensures IsFirstVacant(users[..], i) && i == FirstVacant(users[..])
    {
      i := 0;
      while i < users.Length
        invariant 0 <= i <= users.Length
        invariant VacantFrom(users[..], 0) == VacantFrom(users[..], i)
        invariant forall j | 0 <= j < i :: users[j].full
      {
        if !users[i].full {
          return;
        }
        i := i + 1;
      }
      i := -1;
    }

    method FindUserIndex(userId: string) returns (i: int)
      ensures IsFirstNamed(users[..], userId, i) && i == Named(users[..], userId)
    {
      i := 0;
      while i < users.Length
        invariant 0 <= i <= users.Length
        invariant NamedFrom(users[..], userId, 0) == NamedFrom(users[..], userId, i)
        invariant forall j | 0 <= j < i && users[j].full :: users[j].id != userId
      {
        if users[i].full && users[i].id == userId {
          return;
        }
        i := i + 1;
      }
      i := -1;
    }

    /** get_connection makes the client's pipes; main then closes an end of each. */
    method OpenClientPipes(c: Pipes)
      requires AreNew(c.fromUser, c.toUser, open)
      modifies `open
      ensures open == old(open) + ClientEnds(c)
    {
      ghost var before := open;
      open := open + {c.fromUser.readEnd, c.fromUser.writeEnd, c.toUser.readEnd, c.toUser.writeEnd};
      open := open - {c.fromUser.writeEnd};
      open := open - {c.toUser.readEnd};
      OneEndEachStays(before, c.fromUser, c.toUser);
    }

    /** The pipes to the child, of which the server keeps an end each. */
    method OpenChildPipes(c: Pipes)
      requires AreNew(c.toServer, c.toChild, open)
      modifies `open
      ensures open == old(open) + {c.toServer.readEnd, c.toChild.writeEnd}
    {
      ghost var before := open;
      open := open + {c.toServer.readEnd, c.toServer.writeEnd, c.toChild.readEnd, c.toChild.writeEnd};
      open := open - {c.toServer.writeEnd};
      open := open - {c.toChild.readEnd};
      OneEndEachStays(before, c.toServer, c.toChild);
    }

    /** A new connection.  The client's pipes exist before it is admitted or
        refused, and a refused one's two ends are never closed. */
    method Accept(userId: string, pid: int, c: Pipes)
      requires Valid() && PipesAreNew(State(), userId, c)
      modifies this, users
      ensures Valid() && users == old(users)
      ensures State() == AfterConnect(old(State()), userId, pid, c)
      ensures sent == old(sent) && running == old(running)
      ensures var n := FirstVacant(old(users[..]));
              if n == -1 || Named(old(users[..]), userId) != -1 then
                users[..] == old(users[..]) && open == old(open) + ClientEnds(c)
              else
                && users[n].full && users[n].id == userId && users[n].pid == pid
                && users[n].toUser == c.toChild.writeEnd && users[n].toServer == c.toServer.readEnd
                && (forall k | 0 <= k < users.Length && k != n :: users[k] == old(users[k]))
                && open == old(open) + {c.toChild.writeEnd, c.toServer.readEnd}
    {
      ghost var before := State();
      ConnectKeepsOk(before, userId, pid, c);
      OpenClientPipes(c);
      var idx := FindEmptySlot();
      var named := FindUserIndex(userId);
      if idx == -1 || named != -1 {
        lost := lost + ClientEnds(c);
      } else {
        OpenChildPipes(c);
        open := open - {c.fromUser.readEnd};
        open := open - {c.toUser.writeEnd};
        EndsHandedOver(before.open, c);
        users[idx] := User(pid, userId, c.toChild.writeEnd, c.toServer.readEnd, true);
      }
      assert State() == AfterConnect(before, userId, pid, c);
    }

    /** kick_user: kill, then clean up field by field. */
    method KickUser(idx: nat)
      requires Valid() && idx < users.Length && users[idx].full
      modifies this, users
      ensures Valid() && users == old(users)
      ensures State() == AfterKick(old(State()), idx)
      ensures users[..] == old(users[..])[idx := VACANT]
      ensures open == old(open) - {old(users[idx].toUser), old(users[idx].toServer)}
      ensures sent == old(sent) && running == old(running)
    {
      KickKeepsOk(State(), idx);
      var u := users[idx];
      users[idx] := users[idx].(pid := -1, id := "");
      open := open - {users[idx].toUser};
      users[idx] := users[idx].(toUser := -1);
      open := open - {users[idx].toServer};
      users[idx] := users[idx].(toServer := -1, full := false);
      assert State() == AfterKick(old(State()), idx);
    }

    /** broadcast_msg: every occupied slot but the sender's gets the text once, and
        nothing else is written. */
    method BroadcastMsg(text: string, sender: int)
      requires Valid()
      modifies this`sent
      ensures State() == AfterBroadcast(old(State()), text, sender)
      ensures forall k | 0 <= k < users.Length && users[k].full ::
                Hears(old(sent), sent, users[k].toUser, if k == sender then [] else [text])
      ensures forall fd | !IsListener(users[..], sender, fd) :: Hears(old(sent), sent, fd, [])
    {
      ghost var before := sent;
      var i := 0;
      while i < users.Length
        invariant 0 <= i <= users.Length
        invariant sent == before + Broadcasts(users[..], i, text, sender)
      {
        if users[i].full && i != sender {
          sent := sent + [Write(users[i].toUser, text)];
        }
        i := i + 1;
      }
      BroadcastHeard(old(State()), text, sender);
    }

    method CleanupUsers()
      requires Valid()
      modifies this, users
      ensures Valid() && users == old(users)
      ensures State() == KickAll(old(State()), MAX_USER)
      ensures forall k | 0 <= k < users.Length :: !users[k].full
      ensures open == lost == old(lost) && sent == old(sent)
    {
      var i := 0;
      while i < users.Length
        invariant 0 <= i <= users.Length == MAX_USER && Valid() && users == old(users)
        invariant State() == KickAll(old(State()), i)
      {
        if users[i].full {
          KickUser(i);
        }
        i := i + 1;
      }
      KickAllKeepsOk(old(State()), MAX_USER);
      AllVacant(State());
    }

    /** list_users for the user in slot `idx`: a heading and the names, a line each,
        with the last newline overwritten by a NUL. */
    method ListUsers(idx: nat)
      requires Valid() && idx < users.Length && users[idx].full
      modifies this`sent
      ensures State() == old(State()).(sent := old(sent) + [Write(old(users[idx]).toUser, Shown(old(users[..])))])
    {
      var buf := "---connected user list---" + "\n";
      var i := 0;
      assert users[..0] == [];
      while i < users.Length
        invariant 0 <= i <= users.Length && sent == old(sent)
        invariant buf == Sheet(users[..i])
      {
        SheetGrows(users[..i], users[i]);
        assert users[..i + 1] == users[..i] + [users[i]];
        if users[i].full {
          buf := buf + (users[i].id + "\n");
        }
        i := i + 1;
      }
      assert users[..i] == users[..];
      SheetIsShown(users[..]);
      buf := buf[..|buf| - 1] + [NUL];
      sent := sent + [Write(users[idx].toUser, buf)];
    }

    method SendP2PMsg(idx: nat, buf: string)
      requires Valid() && idx < users.Length && NUL !in buf
      modifies this`sent
      ensures State() == old(State()).(sent := old(sent) + [P2PWrite(old(users[..]), idx, buf)])
    {
      var receiver := ExtractName(buf);
      if receiver == None {
        sent := sent + [Write(users[idx].toUser, "User name not given")];
        return;
      }
      var index := FindUserIndex(receiver.value);
      if index == -1 {
        sent := sent + [Write(users[idx].toUser, "User not found, use \\list" + [NUL])];
        return;
      }
      if index == idx {
        sent := sent + [Write(users[idx].toUser, "Cannot send \\p2p to yourself")];
        return;
      }
      var message := ExtractText(buf);
      if message == None {
        sent := sent + [Write(users[idx].toUser, "Message not given")];
        return;
      }
      sent := sent + [Write(users[index].toUser, users[idx].id + ":" + message.value)];
    }

    /** main's switch on a line the admin typed. */
    method HandleAdmin(buf: string)
      requires Valid() && NUL !in buf && HasWord(buf)
      modifies this, users
      ensures Valid() && users == old(users)
      ensures State() == AfterAdminLine(old(State()), buf)
    {
      var command := GetCommandType(buf);
      match command {
        case LIST =>
        case KICK =>
          var userId := ExtractName(buf);
          if userId.Some? {
            var idx := FindUserIndex(userId.value);
            if idx != -1 {
              KickUser(idx);
            }
          }
        case EXIT =>
          CleanupUsers();
          running := false;
        case _ => BroadcastMsg("admin-notice: " + buf, -1);
      }
    }

    /** main's switch on a line from the user in slot `i`. */
    method HandleUser(i: nat, buf: string)
      requires Valid() && i < users.Length && users[i].full && NUL !in buf && HasWord(buf)
      modifies this, users
      ensures Valid() && users == old(users)
      ensures State() == AfterUserLine(old(State()), i, buf)
    {
      var command := GetCommandType(buf);
      match command {
        case LIST => ListUsers(i);
        case P2P => SendP2PMsg(i, buf);
        case EXIT => KickUser(i);
        case _ => BroadcastMsg(users[i].id + ": " + buf, i);
      }
    }
  }
}
