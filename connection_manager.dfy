/** `ConnectionManager`: the server's registry of open WebSocket connections
    per username. The registry is a dictionary of lists; dictionaries keep
    insertion order, which decides the order of a broadcast. Sockets are
    identified by a number; sending and accepting are not modelled. */
module ConnectionManager {
  import opened Util

  type Socket = nat

  datatype DisconnectError = KeyError | ValueError

  /** `list.remove(x)`: the list without the first occurrence of `x`. */
  function RemoveFirst(s: seq<Socket>, x: Socket): (r: seq<Socket>)
    requires x in s
    ensures |r| == |s| - 1
    ensures multiset(r) == multiset(s) - multiset{x}
  {
    assert s == [s[0]] + s[1..];
    if s[0] == x then s[1..]
    else
      var rest := RemoveFirst(s[1..], x);
      assert multiset([s[0]] + rest) == multiset{s[0]} + multiset(rest);
      [s[0]] + rest
  }

  /** The position of the first occurrence of `x`. */
  function FirstIndex(s: seq<Socket>, x: Socket): (i: nat)
    requires x in s
    ensures i < |s| && s[i] == x && x !in s[..i]
  {
    if s[0] == x then 0
    else
      var j := FirstIndex(s[1..], x);
      assert s[..j + 1] == [s[0]] + s[1..][..j];
      j + 1
  }

  /** The removed copy is the first one, and the others keep their order. */
  lemma {:induction false} RemoveFirstOccurrence(s: seq<Socket>, x: Socket)
    requires x in s
    ensures RemoveFirst(s, x) == s[..FirstIndex(s, x)] + s[FirstIndex(s, x) + 1..]
  {
    if s[0] == x {
      assert s[..0] == [];
    } else {
      RemoveFirstOccurrence(s[1..], x);
      ConsSlices(s, FirstIndex(s[1..], x));
    }
  }

  lemma ConsSlices(s: seq<Socket>, j: nat)
    requires j + 1 < |s|
    ensures [s[0]] + (s[1..][..j] + s[1..][j + 1..]) == s[..j + 1] + s[j + 2..]
  {
    assert s[..j + 1] == [s[0]] + s[1..][..j];
    assert s[j + 2..] == s[1..][j + 1..];
  }

  /** Every connection of the users in `users`, user by user. */
  function Flatten(users: seq<string>, conns: map<string, seq<Socket>>): seq<Socket>
    requires forall u :: u in users ==> u in conns
    decreases |users|
  {
    if users == [] then [] else conns[users[0]] + Flatten(users[1..], conns)
  }

  /** How many connections the users in `users` have together. */
  function Sizes(users: seq<string>, conns: map<string, seq<Socket>>): nat
    requires forall u :: u in users ==> u in conns
    decreases |users|
  {
    if users == [] then 0 else |conns[users[0]]| + Sizes(users[1..], conns)
  }

  lemma {:induction false} FlattenLength(users: seq<string>, conns: map<string, seq<Socket>>)
    requires forall u :: u in users ==> u in conns
    ensures |Flatten(users, conns)| == Sizes(users, conns)
    decreases |users|
  {
    if users != [] {
      FlattenLength(users[1..], conns);
    }
  }

  /** The flattened connections are the users' lists one after another:
      the i-th user's list starts after those of the users before it. */
  lemma {:induction false} FlattenBlock(users: seq<string>, conns: map<string, seq<Socket>>, i: nat)
    requires forall u :: u in users ==> u in conns
    requires i < |users|
    ensures Sizes(users[..i], conns) + |conns[users[i]]| <= |Flatten(users, conns)|
    ensures Flatten(users, conns)[Sizes(users[..i], conns)..Sizes(users[..i], conns) + |conns[users[i]]|]
              == conns[users[i]]
    decreases i
  {
    var f := Flatten(users, conns);
    var c0 := conns[users[0]];
    FlattenLength(users[1..], conns);
    assert f == c0 + Flatten(users[1..], conns);
    if i == 0 {
      assert users[..0] == [];
    } else {
      FlattenBlock(users[1..], conns, i - 1);
      assert users[..i][0] == users[0] && users[..i][1..] == users[1..][..i - 1];
      var a := Sizes(users[1..][..i - 1], conns);
      assert Sizes(users[..i], conns) == |c0| + a;
      assert users[1..][i - 1] == users[i];
      assert f[|c0| + a..|c0| + a + |conns[users[i]]|] == Flatten(users[1..], conns)[a..a + |conns[users[i]]|];
    }
  }

  /** `rs` is the users' lists one after another, in the users' order:
      the i-th user's list starts after those of the users before it. */
  predicate InBlocks(rs: seq<Socket>, users: seq<string>, conns: map<string, seq<Socket>>)
    requires forall u :: u in users ==> u in conns
  {
    && |rs| == Sizes(users, conns)
    && forall i :: 0 <= i < |users| ==>
         Sizes(users[..i], conns) + |conns[users[i]]| <= |rs|
         && rs[Sizes(users[..i], conns)..Sizes(users[..i], conns) + |conns[users[i]]|] == conns[users[i]]
  }

  lemma FlattenBlocks(users: seq<string>, conns: map<string, seq<Socket>>)
    requires forall u :: u in users ==> u in conns
    ensures InBlocks(Flatten(users, conns), users, conns)
  {
    FlattenLength(users, conns);
    forall i | 0 <= i < |users|
      ensures Sizes(users[..i], conns) + |conns[users[i]]| <= |Flatten(users, conns)|
      ensures Flatten(users, conns)[Sizes(users[..i], conns)..Sizes(users[..i], conns) + |conns[users[i]]|]
                == conns[users[i]]
    {
      FlattenBlock(users, conns, i);
    }
  }

  /** A connection of a listed user is among the flattened connections. */
  lemma {:induction false} FlattenHas(users: seq<string>, conns: map<string, seq<Socket>>, u: string, s: Socket)
    requires forall v :: v in users ==> v in conns
    requires u in users && s in conns[u]
    ensures s in Flatten(users, conns)
    decreases |users|
  {
    if users[0] != u {
      FlattenHas(users[1..], conns, u, s);
    }
  }

  /** And nothing else is. */
  lemma {:induction false} FlattenOnly(users: seq<string>, conns: map<string, seq<Socket>>, s: Socket)
    requires forall v :: v in users ==> v in conns
    requires s in Flatten(users, conns)
    ensures exists u :: u in users && s in conns[u]
    decreases |users|
  {
    if s !in conns[users[0]] {
      FlattenOnly(users[1..], conns, s);
      var u :| u in users[1..] && s in conns[u];
      assert u in users;
    }
  }

  class Manager {
    /** The dictionary's keys in insertion order. */
    var order: seq<string>
    var activeConnections: map<string, seq<Socket>>

    ghost predicate Valid()
      reads this
    {
      && (forall i, j :: 0 <= i < j < |order| ==> order[i] != order[j])
      && (forall u :: u in order <==> u in activeConnections)
      && (forall u :: u in activeConnections ==> activeConnections[u] != [])
    }

    /** `__init__`: no connections. */
    constructor ()
      ensures Valid() && order == [] && activeConnections == map[]
    {
      order, activeConnections := [], map[];
    }

    /** `connect`: append the socket to the user's list, creating the list
        (as the newest key) when the user has none. */
    method Connect(ws: Socket, username: string)
      requires Valid()
      modifies this
      ensures Valid()
      ensures username in old(activeConnections) ==>
                activeConnections == old(activeConnections)[username := old(activeConnections)[username] + [ws]]
                && order == old(order)
      ensures username !in old(activeConnections) ==>
                activeConnections == old(activeConnections)[username := [ws]] && order == old(order) + [username]
    {
      if username !in activeConnections {
        activeConnections := activeConnections[username := []];
        order := order + [username];
      }
      activeConnections := activeConnections[username := activeConnections[username] + [ws]];
      assert [] + [ws] == [ws];
    }

    /** `disconnect`: remove the socket's first occurrence from the user's
        list and drop the user when the list is empty; a missing user is a
        KeyError and a socket not in the list a ValueError, and then nothing
        changes. */
    method Disconnect(ws: Socket, username: string) returns (r: Result<(), DisconnectError>)
      requires Valid()
      modifies this
      ensures Valid()
      ensures username !in old(activeConnections) ==>
                r == Err(KeyError) && activeConnections == old(activeConnections) && order == old(order)
      ensures username in old(activeConnections) && ws !in old(activeConnections)[username] ==>
                r == Err(ValueError) && activeConnections == old(activeConnections) && order == old(order)
      ensures username in old(activeConnections) && ws in old(activeConnections)[username] ==>
                r == Ok(()) && Removed(old(order), old(activeConnections), ws, username)
    {
      if username !in activeConnections {
        return Err(KeyError);
      }
      if ws !in activeConnections[username] {
        return Err(ValueError);
      }
      RemoveSocket(ws, username);
      r := Ok(());
    }

    /** The registry after a successful `disconnect`. */
    ghost predicate Removed(order0: seq<string>, conns0: map<string, seq<Socket>>, ws: Socket, username: string)
      reads this
      requires username in conns0 && ws in conns0[username]
    {
      var rest := RemoveFirst(conns0[username], ws);
      if rest == [] then activeConnections == conns0 - {username} && order == Without(order0, username)
      else activeConnections == conns0[username := rest] && order == order0
    }

    method RemoveSocket(ws: Socket, username: string)
      requires Valid() && username in activeConnections && ws in activeConnections[username]
      modifies this
      ensures Valid()
      ensures Removed(old(order), old(activeConnections), ws, username)
    {
      var rest := RemoveFirst(activeConnections[username], ws);
      if rest == [] {
        activeConnections := activeConnections - {username};
        WithoutDistinct(order, username);
        order := Without(order, username);
      } else {
        activeConnections := activeConnections[username := rest];
      }
    }

    /** `send_personal_message`: the user's connections in list order, or
        nobody for an unknown user. */
    function PersonalRecipients(username: string): (rs: seq<Socket>)
      reads this
      ensures username !in activeConnections ==> rs == []
      ensures username in activeConnections ==> rs == activeConnections[username]
    {
      if username in activeConnections then activeConnections[username] else []
    }

    /** `broadcast`: every connection of every user, users in key order:
        each user's list, in its own order, after the lists of the users
        whose keys were inserted before. */
    function BroadcastRecipients(): (rs: seq<Socket>)
      reads this
      requires Valid()
      ensures forall u, s :: u in activeConnections && s in activeConnections[u] ==> s in rs
      ensures forall s :: s in rs ==> exists u :: u in activeConnections && s in activeConnections[u]
      ensures InBlocks(rs, order, activeConnections)
    {
      var rs := Flatten(order, activeConnections);
      FlattenBlocks(order, activeConnections);
      assert forall u, s :: u in activeConnections && s in activeConnections[u] ==> s in rs by {
        forall u, s | u in activeConnections && s in activeConnections[u] ensures s in rs {
          FlattenHas(order, activeConnections, u, s);
        }
      }
      assert forall s :: s in rs ==> exists u :: u in activeConnections && s in activeConnections[u] by {
        forall s | s in rs ensures exists u :: u in activeConnections && s in activeConnections[u] {
          FlattenOnly(order, activeConnections, s);
        }
      }
      rs
    }
  }

  /** `s` without the element `x`. */
  function Without(s: seq<string>, x: string): (r: seq<string>)
    ensures forall y :: y in r <==> y in s && y != x
    ensures |r| <= |s|
  {
    if s == [] then [] else (if s[0] == x then [] else [s[0]]) + Without(s[1..], x)
  }

  /** Dropping an element keeps a list free of repetitions. */
  lemma {:induction false} WithoutDistinct(s: seq<string>, x: string)
    requires forall i, j :: 0 <= i < j < |s| ==> s[i] != s[j]
    ensures forall i, j :: 0 <= i < j < |Without(s, x)| ==> Without(s, x)[i] != Without(s, x)[j]
    decreases |s|
  {
    if s != [] {
      WithoutDistinct(s[1..], x);
      var rest := Without(s[1..], x);
      assert s[0] !in s[1..];
      assert s[0] !in rest;
    }
  }
}
