/** pubsub/my_pubsub.go: the sections of the bus's methods that change its lists and channels. */
module PubSub {
  import opened Common
  import opened PubSubPipe
  import opened PubSubState
  import opened PubSubSafe

  class MyPubSub {
    var writer: Option<nat>
    var readers: set<nat>
    var cancelled: bool
    var closed: bool
    var queues: map<Subject, Queue>
    ghost var shut: set<Subject>
    var subs: seq<Sub>
    ghost var calls: map<nat, Phase>

    ghost function Snapshot(): State
      reads this
    {
      State(writer, readers, cancelled, closed, queues, shut, subs, calls)
    }

    ghost predicate Valid()
      reads this
    {
      Inv(Snapshot())
    }

    /** NewPubSub */
    constructor ()
      ensures Snapshot() == Initial()
      ensures Valid()
    {
      writer, readers, cancelled, closed := None, {}, false, false;
      queues, shut, subs, calls := map[], {}, [], map[];
    }

    /** `sub.in <- msg`: on a closed channel this would panic. */
    method SendTo(i: nat, m: Msg)
      requires i < |subs| && |subs[i].inq| < CAP && !subs[i].inClosed
      modifies this`subs
      ensures subs == old(subs)[i := Send(old(subs)[i], m)]
    {
      subs := subs[i := subs[i].(inq := subs[i].inq + [m], sent := subs[i].sent + [m])];
    }

    method SendRound(c: nat, subj: Subject, k: nat)
      requires Enabled(Snapshot(), SendNext(c)) && calls[c] == Sending(subj, k)
      requires !subs[queues[subj].subs[k]].inClosed
      modifies this
      ensures Snapshot() == Next(old(Snapshot()), SendNext(c))
    {
      SendTo(queues[subj].subs[k], Msg(c));
      calls := calls[c := Sending(subj, k + 1)];
    }

    /** One round of Publish's loop. */
    method PublishNext(c: nat, subj: Subject, k: nat)
      requires Valid() && Enabled(Snapshot(), SendNext(c)) && calls[c] == Sending(subj, k)
      modifies this
      ensures Snapshot() == Next(old(Snapshot()), SendNext(c))
      ensures Valid()
    {
      PublishIsSafe(Snapshot(), c);
      SendRound(c, subj, k);
    }

    /** close(sub.in): closing twice would panic. */
    method CloseChannel(i: nat)
      requires i < |subs| && !subs[i].inClosed
      modifies this`subs
      ensures subs == old(subs)[i := old(subs)[i].(inClosed := true)]
    {
      subs := subs[i := subs[i].(inClosed := true)];
    }

    /** The loop of Unsubscribe over its queue: find the subscriber, close it, swap it with the last, shorten. */
    method FindAndRemove(list: seq<nat>, i: nat) returns (left: seq<nat>)
      requires i < |subs| && (i in list ==> !subs[i].inClosed)
      modifies this`subs
      ensures left == SwapRemove(list, i)
      ensures subs == if i in list then old(subs)[i := old(subs)[i].(inClosed := true, alive := false)] else old(subs)
    {
      left := list;
      var k := 0;
      while k < |list|
        invariant k <= |list| && i !in list[..k] && left == list && subs == old(subs)
      {
        if list[k] == i {
          CloseChannel(i);
          subs := subs[i := subs[i].(alive := false)];
          FindIsFirst(list, i, k);
          left := left[k := left[|left| - 1]];
          left := left[..|left| - 1];
          return;
        }
        assert list[..k + 1] == list[..k] + [list[k]];
        k := k + 1;
      }
      assert list[..k] == list;
    }

    method LeaveQueue(ghost c: nat, i: nat)
      requires Enabled(Snapshot(), Leave(c)) && calls[c] == Leaving(i)
      requires i in queues[subs[i].subj].subs ==> !subs[i].inClosed
      modifies this
      ensures Snapshot() == Next(old(Snapshot()), Leave(c))
    {
      var subj := subs[i].subj;
      var left := FindAndRemove(queues[subj].subs, i);
      Restored(queues, subj);
      queues := queues[subj := queues[subj].(subs := left)];
      writer := None;
      calls := calls[c := Done];
    }

    method Unsubscribe(ghost c: nat, i: nat)
      requires Valid() && Enabled(Snapshot(), Leave(c)) && calls[c] == Leaving(i)
      modifies this
      ensures Snapshot() == Next(old(Snapshot()), Leave(c))
      ensures Valid()
    {
      StepKeepsInv(Snapshot(), Leave(c));
      LeaveIsSafe(Snapshot(), c);
      LeaveQueue(c, i);
    }

    /** Close's inner loop: every subscriber of one subject. */
    method CloseSubscribers(list: seq<nat>)
      requires Distinct(list) && forall j :: 0 <= j < |list| ==> list[j] < |subs| && !subs[list[j]].inClosed
      modifies this`subs
      ensures subs == CloseAll(old(subs), list)
    {
      assert CloseAll(subs, []) == subs && list[..0] == [];
      for k := 0 to |list|
        invariant subs == CloseAll(old(subs), list[..k])
        invariant forall j :: k <= j < |list| ==> list[j] < |subs| && !subs[list[j]].inClosed
      {
        CloseChannel(list[k]);
        assert list[..k + 1] == list[..k] + [list[k]];
      }
      assert list[..|list|] == list;
    }

    method CloseOne(ghost c: nat, subj: Subject)
      requires Valid() && Enabled(Snapshot(), CloseQueue(c, subj))
      modifies this
      ensures Snapshot() == Next(old(Snapshot()), CloseQueue(c, subj))
      ensures Valid()
    {
      StepKeepsInv(Snapshot(), CloseQueue(c, subj));
      CloseIsSafe(Snapshot(), c, subj);
      CloseSubscribers(queues[subj].subs);
      shut := shut + {subj};
    }

    /** The last section of Subscribe. */
    method AddSubscriber(ghost c: nat, subj: Subject, i: nat)
      requires Valid() && Enabled(Snapshot(), Event.Add(c)) && calls[c] == Adding(subj, i)
      modifies this
      ensures Snapshot() == Next(old(Snapshot()), Event.Add(c))
      ensures Valid()
    {
      StepKeepsInv(Snapshot(), Event.Add(c));
      assert NewlyMade(subs, subj, i, c);
      writer := None;
      if closed {
        CloseChannel(i);
        calls := calls[c := Refused];
        return;
      }
      subs := subs[i := subs[i].(registered := true)];
      queues := queues[subj := queues[subj].(subs := queues[subj].subs + [i])];
      calls := calls[c := Done];
    }
  }

  lemma {:induction false} FindIsFirst(list: seq<nat>, i: nat, k: nat)
    requires k < |list| && list[k] == i && i !in list[..k]
    ensures Find(list, i) == k
  {
  }

  lemma PublishIsSafe(s: State, c: nat)
    requires Inv(s) && Enabled(s, SendNext(c))
    ensures var i := s.queues[s.calls[c].subj].subs[s.calls[c].k]; i < |s.subs| && !s.subs[i].inClosed
    ensures Inv(Next(s, SendNext(c)))
  {
    SendIsSafe(s, c);
    StepKeepsInv(s, SendNext(c));
  }

  lemma Restored(queues: map<Subject, Queue>, subj: Subject)
    requires subj in queues
    ensures queues[subj := queues[subj].(subs := queues[subj].subs)] == queues
  {
  }

  lemma LeaveIsSafe(s: State, c: nat)
    requires Inv(s) && Enabled(s, Leave(c))
    ensures var i := s.calls[c].i; i in s.queues[s.subs[i].subj].subs ==> !s.subs[i].inClosed
  {
  }

  lemma CloseIsSafe(s: State, c: nat, subj: Subject)
    requires Inv(s) && Enabled(s, CloseQueue(c, subj))
    ensures Distinct(s.queues[subj].subs)
    ensures var list := s.queues[subj].subs;
      forall j :: 0 <= j < |list| ==> list[j] < |s.subs| && !s.subs[list[j]].inClosed
  {
    var list := s.queues[subj].subs;
    forall j | 0 <= j < |list| ensures list[j] < |s.subs| && !s.subs[list[j]].inClosed {
      MembersAreRegistered(s, subj, list[j]);
    }
  }
}
