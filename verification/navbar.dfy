/** The top bar (components/layout/Navbar.tsx): the notification list with
    its open/closed panel, and the user's display name and initial. */
module Navbar {
  import opened Common

  datatype Notification = Notification(id: int, message: string, isNew: bool)

  /** The two notifications the mount effect installs. */
  const InitialNotifications := [
    Notification(1, "New anomaly detected in system logs", true),
    Notification(2, "System update completed successfully", false)
  ]

  /** `notifications.some(n => n.isNew)` */
  predicate HasNew(ns: seq<Notification>)
  {
    exists i :: 0 <= i < |ns| && ns[i].isNew
  }

  /** `prev.map(n => ({ ...n, isNew: false }))` */
  function MarkRead(ns: seq<Notification>): (r: seq<Notification>)
    ensures |r| == |ns|
    ensures forall i :: 0 <= i < |ns| ==> r[i] == ns[i].(isNew := false)
  {
    if ns == [] then [] else [ns[0].(isNew := false)] + MarkRead(ns[1..])
  }

  /** Marking read keeps every notification, its id, its message and its
      place, and leaves none new. */
  lemma MarkReadSpec(ns: seq<Notification>)
    ensures !HasNew(MarkRead(ns))
    ensures forall i :: 0 <= i < |ns| ==>
      MarkRead(ns)[i].id == ns[i].id && MarkRead(ns)[i].message == ns[i].message
    ensures MarkRead(MarkRead(ns)) == MarkRead(ns)
  {
  }

  /** The notification list and whether its panel is shown. */
  class NotificationCenter {
    var notifications: seq<Notification>
    var open: bool

    /** The state of the first render: no notifications, panel closed. */
    constructor ()
      ensures notifications == [] && !open
    {
      notifications, open := [], false;
    }

    function HasNewNotifications(): bool
      reads this
    {
      HasNew(notifications)
    }

    /** The mount effect: the two initial notifications, the first new. */
    method Mount()
      modifies this
      ensures notifications == InitialNotifications && open == old(open)
      ensures HasNewNotifications()
    {
      notifications := InitialNotifications;
      assert notifications[0].isNew;
    }

    /** One tick of the 30-second timer: when the coin (`Math.random() >
        0.5`) comes up, a new notification goes first and the rest of the
        list follows unchanged. */
    method Tick(coin: bool, id: int, message: string)
      modifies this
      ensures coin ==> notifications == [Notification(id, message, true)] + old(notifications)
      ensures coin ==> HasNewNotifications()
      ensures !coin ==> notifications == old(notifications)
      ensures open == old(open)
    {
      if coin {
        notifications := [Notification(id, message, true)] + notifications;
        assert notifications[0].isNew;
      }
    }

    /** `toggleNotifications`: the panel flips; opening it marks every
        notification read, closing it leaves the list as it is. */
    method Toggle()
      modifies this
      ensures open == !old(open)
      ensures !old(open) ==> notifications == MarkRead(old(notifications)) && !HasNewNotifications()
      ensures old(open) ==> notifications == old(notifications)
    {
      var wasOpen := open;
      open := !open;
      if !wasOpen {
        MarkReadSpec(notifications);
        notifications := MarkRead(notifications);
      }
    }

    /** "Clear all notifications". */
    method ClearAll()
      modifies this
      ensures notifications == [] && !HasNewNotifications()
      ensures open == old(open)
    {
      notifications := [];
    }
  }

  // ---------------------------------------------------------------------
  // The user menu

  /** `s.split(c)[0]`: the text before the first `c`, or all of `s`. */
  function BeforeFirst(s: string, c: char): (r: string)
    ensures |r| <= |s| && r == s[..|r|]
    ensures c !in r
    ensures |r| < |s| ==> s[|r|] == c
  {
    if s == [] || s[0] == c then [] else [s[0]] + BeforeFirst(s[1..], c)
  }

  /** `user?.email?.split('@')[0] || 'User'` */
  function DisplayName(email: Option<string>): (name: string)
    ensures name != ""
  {
    match email
    case None => "User"
    case Some(e) => var local := BeforeFirst(e, '@'); if local == "" then "User" else local
  }

  /** Split at the first `c`, the head is the text before it. */
  lemma {:induction false} BeforeFirstAt(s: string, c: char, k: nat)
    requires k < |s| && s[k] == c && c !in s[..k]
    ensures BeforeFirst(s, c) == s[..k]
  {
    if k > 0 {
      assert s[0] in s[..k];
      assert s[1..][k - 1] == c && s[1..][..k - 1] == s[..k][1..];
      BeforeFirstAt(s[1..], c, k - 1);
    }
  }

  /** Without any `c`, the head is the whole text. */
  lemma {:induction false} BeforeFirstNone(s: string, c: char)
    requires c !in s
    ensures BeforeFirst(s, c) == s
  {
    if s != [] {
      assert c !in s[1..] by {
        assert forall x :: x in s[1..] ==> x in s;
      }
      BeforeFirstNone(s[1..], c);
    }
  }

  /** The name is the part of the address before its first '@' when that
      part is not empty, the whole address when it has no '@', and 'User'
      when there is no address or it starts with '@'. */
  lemma DisplayNameSpec(email: Option<string>, k: nat)
    ensures email.Some? && 0 < k < |email.value| && email.value[k] == '@' && '@' !in email.value[..k] ==>
      DisplayName(email) == email.value[..k]
    ensures email.Some? && '@' !in email.value && email.value != "" ==> DisplayName(email) == email.value
    ensures email.None? || email.value == "" || email.value[0] == '@' ==> DisplayName(email) == "User"
  {
    if email.Some? {
      var e := email.value;
      if 0 < k < |e| && e[k] == '@' && '@' !in e[..k] {
        BeforeFirstAt(e, '@', k);
      }
      if '@' !in e {
        BeforeFirstNone(e, '@');
      }
    }
  }

  /** JavaScript's `toUpperCase()` on one character, over ASCII: a lower-case
      letter becomes its capital, any other character stays. */
  function UpperChar(c: char): (u: char)
    ensures 'a' <= c <= 'z' ==> 'A' <= u <= 'Z' && u as int - 'A' as int == c as int - 'a' as int
    ensures !('a' <= c <= 'z') ==> u == c
  {
    if 'a' <= c <= 'z' then (c as int - 'a' as int + 'A' as int) as char else c
  }

  /** `user?.email?.[0]?.toUpperCase() || 'U'` */
  function Initial(email: Option<string>): (s: string)
    ensures |s| == 1
    ensures email.Some? && email.value != "" ==> s == [UpperChar(email.value[0])]
    ensures email.None? || email.value == "" ==> s == "U"
  {
    if email.Some? && email.value != "" then [UpperChar(email.value[0])] else "U"
  }
}
