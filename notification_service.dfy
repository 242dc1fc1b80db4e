/** The notification record of the client and the path its service asks for. */
module NotificationService {
  import opened Util

  datatype Notification = Notification(id: string, title: string, description: string, read: bool)

  const NotificationsRoot: string := "/notifications"
  const LimitQuery: string := "?limit="

  /** `/notifications${limit ? `?limit=${limit}` : ""}`: the query is added
      only for a truthy limit, so a missing limit and a limit of 0 both give
      the bare path. Only integral limits are modelled. */
  function NotificationsPath(limit: Option<int>): (path: string)
    ensures |path| >= |NotificationsRoot| && path[..|NotificationsRoot|] == NotificationsRoot
    ensures limit.None? || limit.value == 0 ==> path == NotificationsRoot
    ensures limit.Some? && limit.value != 0 ==> path == NotificationsRoot + LimitQuery + IntToString(limit.value)
  {
    if limit.Some? && limit.value != 0 then NotificationsRoot + LimitQuery + IntToString(limit.value)
    else NotificationsRoot
  }

  /** A positive limit can be read back from the path. */
  lemma LimitReadBack(n: nat)
    requires n > 0
    ensures var path := NotificationsPath(Some(n));
            var digits := path[|NotificationsRoot + LimitQuery|..];
            AllDigits(digits) && DigitsValue(digits) == n
  {
    var path := NotificationsPath(Some(n));
    assert path == NotificationsRoot + LimitQuery + NatToString(n);
    assert path[|NotificationsRoot + LimitQuery|..] == NatToString(n);
    NatToStringRoundTrip(n);
  }
}
