/** The notifications slice of the web client's store: a short feed of
    recent notifications, the full list, and a loading flag. */
module NotificationsSlice {
  import opened NotificationService

  /** `[n, ...feed.slice(0, -1)]`: the new notification first, then the old
      feed without its last (oldest) element. */
  function AddToFeed(feed: seq<Notification>, n: Notification): (r: seq<Notification>)
    ensures |r| == if feed == [] then 1 else |feed|
    ensures r[0] == n
    ensures feed != [] ==> r[1..] == feed[..|feed| - 1]
  {
    [n] + (if feed == [] then [] else feed[..|feed| - 1])
  }

  /** Every notification of the feed but the oldest moves one place down. */
  lemma AddShifts(feed: seq<Notification>, n: Notification, i: nat)
    requires i + 1 < |feed|
    ensures AddToFeed(feed, n)[i + 1] == feed[i]
  {
  }

  /** A feed never grows past its length, except the first notification into
      an empty feed. */
  lemma {:induction false} AddManyKeepsLength(feed: seq<Notification>, ns: seq<Notification>)
    requires feed != []
    ensures |AddAll(feed, ns)| == |feed|
    decreases |ns|
  {
    if ns != [] {
      AddManyKeepsLength(feed, ns[..|ns| - 1]);
    }
  }

  /** Adding several notifications in order. */
  function AddAll(feed: seq<Notification>, ns: seq<Notification>): seq<Notification>
    decreases |ns|
  {
    if ns == [] then feed else AddToFeed(AddAll(feed, ns[..|ns| - 1]), ns[|ns| - 1])
  }

  class NotificationStore {
    var recentNotifications: seq<Notification>
    var allNotifications: seq<Notification>
    var loading: bool

    /** `initialState`: both lists empty, loading. */
    constructor ()
      ensures recentNotifications == [] && allNotifications == [] && loading
    {
      recentNotifications, allNotifications, loading := [], [], true;
    }

    method AddNotification(n: Notification)
      modifies this
      ensures recentNotifications == AddToFeed(old(recentNotifications), n)
      ensures allNotifications == old(allNotifications) && loading == old(loading)
    {
      recentNotifications := [n] + (if recentNotifications == [] then [] else recentNotifications[..|recentNotifications| - 1]);
    }

    /** `getRecentNotifications.pending`. */
    method RecentPending()
      modifies this
      ensures loading
      ensures recentNotifications == old(recentNotifications) && allNotifications == old(allNotifications)
    {
      loading := true;
    }

    /** `getRecentNotifications.fulfilled`: the feed is replaced. */
    method RecentFulfilled(fetched: seq<Notification>)
      modifies this
      ensures !loading && recentNotifications == fetched
      ensures allNotifications == old(allNotifications)
    {
      loading := false;
      recentNotifications := fetched;
    }

    /** `getRecentNotifications.rejected`: only loading changes. */
    method RecentRejected()
      modifies this
      ensures !loading
      ensures recentNotifications == old(recentNotifications) && allNotifications == old(allNotifications)
    {
      loading := false;
    }
  }
}
