// Who gets which text: what a descriptor receives from every event.

module ChatDelivery {
  import opened Options
  import opened ChatCommands
  import opened ChatRoom

  /** The texts written to one descriptor, in order. */
  function Received(sent: seq<Write>, fd: int): seq<string> {
    if sent == [] then []
    else Received(sent[..|sent| - 1], fd)
         + if sent[|sent| - 1].fd == fd then [sent[|sent| - 1].text] else []
  }

  lemma ReceivedAppend(before: seq<Write>, w: Write, fd: int)
    ensures Received(before + [w], fd) == Received(before, fd) + if w.fd == fd then [w.text] else []
  {}

  lemma {:induction false} ReceivedConcat(before: seq<Write>, more: seq<Write>, fd: int)
    ensures Received(before + more, fd) == Received(before, fd) + Received(more, fd)
    decreases |more|
  {
    if more == [] {
      assert before + more == before;
    } else {
      var front, last := more[..|more| - 1], more[|more| - 1];
      assert more == front + [last] && before + more == before + front + [last];
      ReceivedConcat(before, front, fd);
      ReceivedAppend(before + front, last, fd);
      ReceivedAppend(front, last, fd);
    }
  }

  /** From one state of what was sent to another, `fd` received these texts more. */
  ghost predicate Hears(before: seq<Write>, after: seq<Write>, fd: int, texts: seq<string>) {
    Received(after, fd) == Received(before, fd) + texts
  }

  /** A write to a slot's pipe end reaches that slot and no other. */
  lemma OneSlotPerDescriptor(slots: seq<User>, i: nat, j: nat)
    requires DescriptorsDiffer(slots) && i < |slots| && j < |slots| && slots[i].full && slots[j].full
    ensures slots[i].toUser == slots[j].toUser <==> i == j
  {
    assert Owns(slots[i], slots[i].toUser);
    assert slots[i].toUser == slots[j].toUser ==> Owns(slots[j], slots[i].toUser);
  }

  ghost predicate IsAddressed(slots: seq<User>, n: nat, sender: int, fd: int)
    requires n <= |slots|
  {
    exists k :: 0 <= k < n && k != sender && slots[k].full && slots[k].toUser == fd
  }

  lemma AddressedNext(slots: seq<User>, n: nat, sender: int, fd: int)
    requires DescriptorsDiffer(slots) && n < |slots|
    ensures IsAddressed(slots, n + 1, sender, fd) <==>
              IsAddressed(slots, n, sender, fd) || (slots[n].full && n != sender && slots[n].toUser == fd)
    ensures slots[n].full && slots[n].toUser == fd ==> !IsAddressed(slots, n, sender, fd)
  {
    if k :| 0 <= k < n && k != sender && slots[k].full && slots[k].toUser == fd {
      if slots[n].full {
        OneSlotPerDescriptor(slots, k, n);
      }
    }
  }

  lemma BroadcastNext(slots: seq<User>, n: nat, text: string, sender: int, fd: int)
    requires n < |slots|
    ensures var before := Received(Broadcasts(slots, n, text, sender), fd);
            var after := Received(Broadcasts(slots, n + 1, text, sender), fd);
            if slots[n].full && n != sender && slots[n].toUser == fd then before == [] ==> after == [text]
            else after == before
  {
    var earlier := Broadcasts(slots, n, text, sender);
    if slots[n].full && n != sender {
      assert Broadcasts(slots, n + 1, text, sender) == earlier + [Write(slots[n].toUser, text)];
      ReceivedAppend(earlier, Write(slots[n].toUser, text), fd);
    } else {
      assert Broadcasts(slots, n + 1, text, sender) == earlier;
    }
  }

  lemma {:induction false} BroadcastReaches(slots: seq<User>, n: nat, text: string, sender: int, fd: int)
    requires DescriptorsDiffer(slots) && n <= |slots|
    ensures IsAddressed(slots, n, sender, fd) ==> Received(Broadcasts(slots, n, text, sender), fd) == [text]
    ensures !IsAddressed(slots, n, sender, fd) ==> Received(Broadcasts(slots, n, text, sender), fd) == []
  {
    if n > 0 {
      BroadcastReaches(slots, n - 1, text, sender, fd);
      AddressedNext(slots, n - 1, sender, fd);
      BroadcastNext(slots, n - 1, text, sender, fd);
    }
  }

  /** `fd` is the pipe end of an occupied slot other than `sender`. */
  ghost predicate IsListener(slots: seq<User>, sender: int, fd: int) {
    exists k :: 0 <= k < |slots| && k != sender && slots[k].full && slots[k].toUser == fd
  }

  /** A broadcast is written once to every occupied slot except the sender's and
      to no other descriptor, after everything sent before. */
  lemma BroadcastIsExact(r: Room, text: string, sender: int, fd: int)
    requires RoomOk(r)
    ensures IsListener(r.slots, sender, fd) ==> Hears(r.sent, AfterBroadcast(r, text, sender).sent, fd, [text])
    ensures !IsListener(r.slots, sender, fd) ==> Hears(r.sent, AfterBroadcast(r, text, sender).sent, fd, [])
    ensures AfterBroadcast(r, text, sender) == r.(sent := AfterBroadcast(r, text, sender).sent)
  {
    var n := |r.slots|;
    ReceivedConcat(r.sent, Broadcasts(r.slots, n, text, sender), fd);
    BroadcastReaches(r.slots, n, text, sender, fd);
    assert IsAddressed(r.slots, n, sender, fd) <==> IsListener(r.slots, sender, fd);
  }

  /** The pipe end of slot `k` is a listener's exactly if `k` is not the sender. */
  lemma ListenerIsSlot(r: Room, sender: int, k: nat)
    requires RoomOk(r) && k < |r.slots| && r.slots[k].full
    ensures IsListener(r.slots, sender, r.slots[k].toUser) <==> k != sender
  {
    if i :| 0 <= i < |r.slots| && i != sender && r.slots[i].full && r.slots[i].toUser == r.slots[k].toUser {
      OneSlotPerDescriptor(r.slots, i, k);
    }
  }

  /** What a user types that is no command reaches everybody but that user, with
      the user's name in front; what the admin types reaches everybody as a notice. */
  lemma PlainLinesReachOthers(r: Room, i: nat, line: string, k: nat)
    requires RoomOk(r) && i < |r.slots| && r.slots[i].full && k < |r.slots| && r.slots[k].full && HasWord(line)
    requires LineType(line) == BROADCAST
    ensures k != i ==> Hears(r.sent, After(r, UserLine(i, line)).sent, r.slots[k].toUser, [r.slots[i].id + ": " + line])
    ensures k == i ==> Hears(r.sent, After(r, UserLine(i, line)).sent, r.slots[k].toUser, [])
    ensures Hears(r.sent, After(r, AdminLine(line)).sent, r.slots[k].toUser, ["admin-notice: " + line])
  {
    ListenerIsSlot(r, i, k);
    ListenerIsSlot(r, -1, k);
    BroadcastIsExact(r, r.slots[i].id + ": " + line, i, r.slots[k].toUser);
    BroadcastIsExact(r, "admin-notice: " + line, -1, r.slots[k].toUser);
  }

  /** The checks a private message has to pass, and whom it is for. */
  ghost predicate Passes(r: Room, i: nat, line: string, j: nat) {
    && j < |r.slots| && j != i && r.slots[j].full
    && NameIn(line) == Some(r.slots[j].id)
    && TextIn(line).Some?
  }

  /** A private message that passes the checks is written once, to the one slot
      with that name, and to no other; any other one causes one error, to the
      sender only.  The table stays as it was. */
  lemma PrivateMessageIsExact(r: Room, i: nat, line: string, k: nat)
    requires RoomOk(r) && i < |r.slots| && r.slots[i].full && HasWord(line) && LineType(line) == P2P
    requires k < |r.slots| && r.slots[k].full
    ensures AfterUserLine(r, i, line).slots == r.slots && AfterUserLine(r, i, line).open == r.open
    ensures AfterUserLine(r, i, line).sent == r.sent + [P2PWrite(r.slots, i, line)]
    ensures P2PWrite(r.slots, i, line).fd == r.slots[k].toUser <==>
              Passes(r, i, line, k) || (k == i && forall j: nat :: !Passes(r, i, line, j))
    ensures Passes(r, i, line, k) ==> P2PWrite(r.slots, i, line).text == r.slots[i].id + ":" + TextIn(line).value
  {
    OneSlotPerDescriptor(r.slots, i, k);
    if NameIn(line).Some? {
      var j := Named(r.slots, NameIn(line).value);
      if j != -1 {
        OneSlotPerDescriptor(r.slots, j, k);
        if j != i && TextIn(line).Some? {
          assert Passes(r, i, line, j);
        }
      }
    }
  }

  /** End to end: what a user types as `\p2p name text` arrives, as typed, at the
      user of that name and nowhere else. */
  lemma MessageArrives(es: seq<Event>, t: Room, i: nat, j: nat, text: string)
    requires Reaches(EMPTY_ROOM, es, t)
    requires i < |t.slots| && j < |t.slots| && i != j && t.slots[i].full && t.slots[j].full
    requires IsWord(t.slots[j].id) && HasText(text)
    ensures var line := P2PLine(0, 1, t.slots[j].id, text);
            && HasWord(line)
            && AfterUserLine(t, i, line).sent == t.sent + [Write(t.slots[j].toUser, t.slots[i].id + ":" + text)]
            && forall k | 0 <= k < |t.slots| && t.slots[k].full && k != j :: t.slots[k].toUser != t.slots[j].toUser
  {
    EmptyRoomOk();
    RunKeepsOk(EMPTY_ROOM, es, t);
    var line := P2PLine(0, 1, t.slots[j].id, text);
    CommandRoundTrip(0, 1, t.slots[j].id, text);
    assert Passes(t, i, line, j);
    PrivateMessageIsExact(t, i, line, j);
    forall k | 0 <= k < |t.slots| && t.slots[k].full && k != j
      ensures t.slots[k].toUser != t.slots[j].toUser
    {
      OneSlotPerDescriptor(t.slots, k, j);
    }
  }
}
