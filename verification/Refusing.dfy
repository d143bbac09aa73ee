/**
 Which conversations each side accepts, told by what it hears, and that a side which refuses has changed nothing.
 */
module Refusing {
  import opened Wrappers
  import opened Protocol
  import opened StorageSpec
  import opened Network
  import opened HandshakeSpec
  import opened Dialogue

  /** The closing message is at position k, and before it are assignments and keep-alives only. */
  predicate Closes(input: seq<Message>, done: Message, k: nat) {
    && k < |input| && input[k] == done
    && forall j :: 0 <= j < k ==> input[j] != done && (input[j].KeepAlive? || input[j].EntryAssign?)
  }

  function Assigned(ms: seq<Message>): seq<Message> {
    if ms == [] then []
    else (if ms[0].EntryAssign? then [ms[0]] else []) + Assigned(ms[1..])
  }

  /** What is collected are the assignments in their order, and what follows the closing message stays unread. */
  lemma {:induction false} CollectsUpTo(input: seq<Message>, done: Message, k: nat)
    requires Closes(input, done, k)
    ensures Gather(input, done) == Some((Assigned(input[..k]), input[k + 1..]))
    decreases |input|
  {
    if k != 0 {
      assert Closes(input[1..], done, k - 1);
      CollectsUpTo(input[1..], done, k - 1);
      assert input[..k][1..] == input[1..][..k - 1];
      assert input[1..][k..] == input[k + 1..];
      assert [] + Assigned(input[1..][..k - 1]) == Assigned(input[1..][..k - 1]);
    }
  }

  lemma {:induction false} NeverCloses(input: seq<Message>, done: Message)
    requires forall k: nat :: !Closes(input, done, k)
    ensures Gather(input, done).None?
    decreases |input|
  {
    if input != [] {
      assert !Closes(input, done, 0);
      if input[0].KeepAlive? || input[0].EntryAssign? {
        forall k: nat ensures !Closes(input[1..], done, k) {
          if Closes(input[1..], done, k) { assert Closes(input, done, k + 1); }
        }
        NeverCloses(input[1..], done);
      }
    }
  }

  /** A server is greeted by a client whose revision it speaks. */
  predicate Greeted(input: seq<Message>, defaultProto: nat) {
    input != [] && input[0].ClientHello? && input[0].protoRev <= defaultProto
  }

  /**
   A server accepts if and only if it is greeted in a revision that it speaks and, in protocol 3.0, hears assignments up
   to the closing message; if it does not, its table is as it was and nothing goes to the queues.
   */
  lemma ServerAcceptsIff(s: Table, uid: nat, defaultProto: nat, identity: Text, input: seq<Message>)
    ensures var a := ServerTalk(s, uid, defaultProto, identity, input);
            && (a.ok <==> Greeted(input, defaultProto)
                          && (input[0].protoRev < PROTO_3 || exists k: nat :: Closes(input[1..], ClientHelloDone, k)))
            && (!a.ok ==> a.table == s && a.out == [])
            && (input != [] && input[0].ClientHello? && input[0].protoRev > defaultProto ==>
                  a.sent == [ProtoUnsup(defaultProto)])
            && (input == [] || !input[0].ClientHello? ==> a.sent == [])
  {
    hide Gather, Drain, Snapshot;
    if input != [] {
      if k: nat :| Closes(input[1..], ClientHelloDone, k) {
        CollectsUpTo(input[1..], ClientHelloDone, k);
      } else {
        NeverCloses(input[1..], ClientHelloDone);
      }
    }
  }

  /** What an accepting server has said and done. */
  lemma ServerHasDone(s: Table, uid: nat, defaultProto: nat, identity: Text, input: seq<Message>, k: nat)
    requires Greeted(input, defaultProto)
    requires input[0].protoRev >= PROTO_3 ==> Closes(input[1..], ClientHelloDone, k)
    ensures var a, names := ServerTalk(s, uid, defaultProto, identity, input), Snapshot(s, s.localmap);
            if input[0].protoRev < PROTO_3 then
              a.sent == names + [ServerHelloDone] && a.rest == input[1..] && a.table == s && a.out == []
            else
              && a.sent == [ServerHello(0, identity)] + names + [ServerHelloDone] && a.rest == input[1..][k + 1..]
              && Effect(a.table, a.out) == Drain(s, Assigned(input[1..][..k]), Conn(uid, input[0].protoRev))
  {
    hide Gather, Drain, Snapshot;
    assert [] + Snapshot(s, s.localmap) == Snapshot(s, s.localmap);
    if input[0].protoRev >= PROTO_3 { CollectsUpTo(input[1..], ClientHelloDone, k); }
  }

  /** What a client hears after the greeting. */
  function AfterGreeting(input: seq<Message>, protoRev: nat): seq<Message> {
    if protoRev >= PROTO_3 && input != [] then input[1..] else input
  }

  /** A server of protocol 3.0 greets; one of protocol 2.0 begins with its assignments. */
  predicate Welcomed(input: seq<Message>, protoRev: nat) {
    input != [] && !input[0].ProtoUnsup? && (protoRev >= PROTO_3 ==> input[0].ServerHello?)
  }

  /** The same for the client, which is to try again exactly if it is told to use the revision 2.0. */
  lemma ClientAcceptsIff(c: Table, conn: Conn, identity: Text, input: seq<Message>)
    ensures var b := ClientTalk(c, conn, identity, input);
            && (b.ok <==> Welcomed(input, conn.protoRev)
                          && exists k: nat :: Closes(AfterGreeting(input, conn.protoRev), ServerHelloDone, k))
            && (!b.ok ==> b.table == c && b.out == [] && b.sent == [ClientHello(conn.protoRev, Some(identity))])
            && (b.again == Some(PROTO_2) <==> input != [] && input[0] == ProtoUnsup(PROTO_2))
            && (b.again.None? || b.again == Some(PROTO_2))
  {
    hide Gather, ApplyInitial;
    if k: nat :| Closes(AfterGreeting(input, conn.protoRev), ServerHelloDone, k) {
      CollectsUpTo(AfterGreeting(input, conn.protoRev), ServerHelloDone, k);
    } else {
      NeverCloses(AfterGreeting(input, conn.protoRev), ServerHelloDone);
    }
  }

  lemma ClientHasDone(c: Table, conn: Conn, identity: Text, input: seq<Message>, k: nat)
    requires Welcomed(input, conn.protoRev) && Closes(AfterGreeting(input, conn.protoRev), ServerHelloDone, k)
    ensures var b, heard := ClientTalk(c, conn, identity, input), AfterGreeting(input, conn.protoRev);
            var i := ApplyInitial(c, Assigned(heard[..k]), conn);
            && b.sent == [ClientHello(conn.protoRev, Some(identity))] + i.assigns
                         + (if conn.protoRev >= PROTO_3 then [ClientHelloDone] else [])
            && b.table == i.table && b.out == i.updates && b.rest == heard[k + 1..]
  {
    hide Gather, ApplyInitial;
    CollectsUpTo(AfterGreeting(input, conn.protoRev), ServerHelloDone, k);
  }
}
