/** The unread-notification badge of the client's header. */
module HeaderUnread {
  import opened NotificationService

  /** The unread notifications of a list, in order. */
  function Unread(ns: seq<Notification>): (r: seq<Notification>)
    ensures forall x :: x in r ==> x in ns && !x.read
    ensures forall i :: 0 <= i < |ns| && !ns[i].read ==> ns[i] in r
    decreases |ns|
  {
    if ns == [] then []
    else Unread(ns[..|ns| - 1]) + (if ns[|ns| - 1].read then [] else [ns[|ns| - 1]])
  }

  /** At most as many unread notifications as notifications. */
  lemma {:induction false} UnreadBounded(ns: seq<Notification>)
    ensures |Unread(ns)| <= |ns|
    decreases |ns|
  {
    if ns != [] {
      UnreadBounded(ns[..|ns| - 1]);
    }
  }

  /** All read gives none; all unread gives the whole list. */
  lemma {:induction false} UnreadExtremes(ns: seq<Notification>)
    ensures (forall i :: 0 <= i < |ns| ==> ns[i].read) ==> Unread(ns) == []
    ensures (forall i :: 0 <= i < |ns| ==> !ns[i].read) ==> Unread(ns) == ns
    decreases |ns|
  {
    if ns != [] {
      UnreadExtremes(ns[..|ns| - 1]);
      assert ns[..|ns| - 1] + [ns[|ns| - 1]] == ns;
    }
  }

  /** The effect's `forEach`: a counter from zero, one more per unread
      notification. */
  method CountUnread(ns: seq<Notification>) returns (count: nat)
    ensures count == |Unread(ns)|
    ensures count <= |ns|
    ensures ns == [] ==> count == 0
  {
    count := 0;
    var i := 0;
    while i < |ns|
      invariant 0 <= i <= |ns|
      invariant count == |Unread(ns[..i])|
    {
      assert ns[..i + 1][..i] == ns[..i];
      if !ns[i].read {
        count := count + 1;
      }
      i := i + 1;
    }
    assert ns[..i] == ns;
    UnreadBounded(ns);
  }

  /** The header's state: the feed it shows and the badge count. */
  class Header {
    var recentNotifications: seq<Notification>
    var unreadCount: nat

    constructor ()
      ensures recentNotifications == [] && unreadCount == 0
    {
      recentNotifications, unreadCount := [], 0;
    }

    /** A new feed arriving: the effect recounts from zero, so the badge
        depends on the new feed only. */
    method FeedChanged(ns: seq<Notification>)
      modifies this
      ensures recentNotifications == ns && unreadCount == |Unread(ns)|
    {
      recentNotifications := ns;
      unreadCount := CountUnread(ns);
    }
  }
}
