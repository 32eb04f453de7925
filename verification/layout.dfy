/** The decisions the page frame (components/Layout.tsx) takes: which tabs
    the menu offers, which notifications the bell lists, how many of them it
    counts as unread, and which WhatsApp message a notification opens. */
module Layout {
  import opened Seqs
  import opened Types
  import opened Text
  import App

  // ------------------------------------------------------------------ tabs

  const LeaderTabs: seq<string> := ["cadastrar", "relatorios", "compartilhamentos"]
  const AdminTabs: seq<string> := ["admin-relatorios", "admin-compartilhamentos", "admin-batismo",
                                   "admin-celulas", "admin-metricas", "admin-metas", "admin-avisos"]

  /** `tabs`: the admin's tabs exactly for the admin role. */
  function Tabs(role: Role): (t: seq<string>)
    ensures t == AdminTabs <==> role == Admin
    ensures t == LeaderTabs <==> role != Admin
  {
    assert |AdminTabs| != |LeaderTabs|;
    if role == Admin then AdminTabs else LeaderTabs
  }

  /** The tab opened at login, and the one logout returns to, is one the
      menu offers. */
  lemma LandingTabOffered(role: Role)
    ensures App.LandingTab(role) in Tabs(role)
    ensures "cadastrar" in Tabs(NoRole)
  {
    assert AdminTabs[0] == "admin-relatorios";
    assert LeaderTabs[0] == "cadastrar";
  }

  // --------------------------------------------------------- notifications

  /** A leader sees the notifications of no cell ('' counts as none) and
      those of their own cell; the admin sees all. `cellId` is the session
      cell's id, absent without one. */
  predicate Visible(role: Role, cellId: Option<string>, n: AppNotification)
  {
    role == Admin || n.cellId.None? || n.cellId == Some("") || n.cellId == cellId
  }

  function VisibleTo(role: Role, cellId: Option<string>): AppNotification -> bool
  {
    n => Visible(role, cellId, n)
  }

  /** `filteredNotifications`. */
  function FilteredNotifications(ns: seq<AppNotification>, role: Role, cellId: Option<string>): (r: seq<AppNotification>)
    ensures |r| <= |ns|
    ensures forall n :: n in r <==> n in ns && Visible(role, cellId, n)
  {
    FilterMembers(ns, VisibleTo(role, cellId));
    Filter(ns, VisibleTo(role, cellId))
  }

  /** The admin's bell lists every notification, in order. */
  lemma AdminSeesAll(ns: seq<AppNotification>, cellId: Option<string>)
    ensures FilteredNotifications(ns, Admin, cellId) == ns
  {
    FilterAll(ns, VisibleTo(Admin, cellId));
  }

  /** The listing is taken piecewise, so it keeps the order of the list, and
      each visible notification is listed as often as it occurs. */
  lemma FilteredKeepsOrder(a: seq<AppNotification>, b: seq<AppNotification>, role: Role, cellId: Option<string>)
    ensures FilteredNotifications(a + b, role, cellId)
         == FilteredNotifications(a, role, cellId) + FilteredNotifications(b, role, cellId)
    ensures forall n :: multiset(FilteredNotifications(a, role, cellId))[n]
                        == if Visible(role, cellId, n) then multiset(a)[n] else 0
  {
    FilterAppend(a, b, VisibleTo(role, cellId));
    FilterMultiset(a, VisibleTo(role, cellId));
  }

  predicate IsUnread(n: AppNotification)
  {
    !n.isRead
  }

  /** `unreadCount`: the unread notifications among those listed; zero
      exactly when every listed notification is read. */
  function UnreadCount(ns: seq<AppNotification>, role: Role, cellId: Option<string>): (k: nat)
    ensures k <= |FilteredNotifications(ns, role, cellId)|
    ensures k == 0 <==> forall n :: n in FilteredNotifications(ns, role, cellId) ==> n.isRead
  {
    var listed := FilteredNotifications(ns, role, cellId);
    NoUnreadIff(listed);
    |Filter(listed, IsUnread)|
  }

  /** The count is taken piecewise: a notification adds one exactly when it
      is shown and unread, so the count is the number of such notifications. */
  lemma UnreadCountSplit(a: seq<AppNotification>, b: seq<AppNotification>, n: AppNotification,
                         role: Role, cellId: Option<string>)
    ensures UnreadCount(a + b, role, cellId) == UnreadCount(a, role, cellId) + UnreadCount(b, role, cellId)
    ensures UnreadCount([n], role, cellId) == if Visible(role, cellId, n) && !n.isRead then 1 else 0
    ensures UnreadCount([], role, cellId) == 0
  {
    FilteredKeepsOrder(a, b, role, cellId);
    FilterAppend(FilteredNotifications(a, role, cellId), FilteredNotifications(b, role, cellId), IsUnread);
    var vis := VisibleTo(role, cellId);
    assert [n][1..] == [];
    assert FilteredNotifications([n], role, cellId) == (if vis(n) then [n] else []);
    if vis(n) {
      assert Filter([n], IsUnread) == (if IsUnread(n) then [n] else []) by {
        assert [n][1..] == [];
      }
    }
  }

  lemma NoUnreadIff(listed: seq<AppNotification>)
    ensures |Filter(listed, IsUnread)| == 0 <==> forall n :: n in listed ==> n.isRead
  {
    FilterMembers(listed, IsUnread);
    if |Filter(listed, IsUnread)| > 0 {
      assert Filter(listed, IsUnread)[0] in Filter(listed, IsUnread);
    }
  }

  /** Marking a notification read never raises the bell's count. */
  lemma {:induction false} MarkReadNeverRaisesCount(ns: seq<AppNotification>, id: string, role: Role, cellId: Option<string>)
    ensures UnreadCount(App.MarkRead(ns, id), role, cellId) <= UnreadCount(ns, role, cellId)
    decreases |ns|
  {
    if ns != [] {
      var m := App.MarkRead(ns, id);
      MarkReadNeverRaisesCount(ns[1..], id, role, cellId);
      assert m[1..] == App.MarkRead(ns[1..], id);
      var vis := VisibleTo(role, cellId);
      var hm := if vis(m[0]) then [m[0]] else [];
      var hn := if vis(ns[0]) then [ns[0]] else [];
      assert FilteredNotifications(m, role, cellId) == hm + FilteredNotifications(m[1..], role, cellId);
      assert FilteredNotifications(ns, role, cellId) == hn + FilteredNotifications(ns[1..], role, cellId);
      FilterAppend(hm, FilteredNotifications(m[1..], role, cellId), IsUnread);
      FilterAppend(hn, FilteredNotifications(ns[1..], role, cellId), IsUnread);
      assert |Filter(hm, IsUnread)| <= |Filter(hn, IsUnread)|;
    }
  }

  // -------------------------------------------------------------- WhatsApp

  const VisitorWelcome: string :=
    "Ol\U{00E1}! Recebemos a not\U{00ED}cia da sua visita na nossa C\U{00E9}lula Viver em Cristo. Que alegria ter voc\U{00EA} conosco! Seja muito bem-vindo(a)."
  const LateReminder: string :=
    "Ol\U{00E1} l\U{00ED}der! Notamos que o relat\U{00F3}rio do \U{00FA}ltimo encontro ainda n\U{00E3}o foi enviado no aplicativo Viver em Cristo. Poderia nos enviar assim que poss\U{00ED}vel? Obrigado!"

  /** The chat `handleWhatsAppFromNotif` opens: the phone with its non-digits
      removed, and the message. */
  datatype WhatsAppMessage = WhatsAppMessage(phone: string, text: string)

  /** A chat is opened only for a visitor or late-report notification that
      carries a phone; the number keeps only the phone's digits. */
  function WhatsAppFromNotification(n: AppNotification): (r: Option<WhatsAppMessage>)
    ensures r.Some? <==> n.visitorPhone.Some? && n.visitorPhone.value != []
                         && (n.kind == VisitorNotice || n.kind == LateNotice)
    ensures r.Some? ==> AllDigits(r.value.phone)
                        && (forall c :: c in n.visitorPhone.value && IsDigit(c) ==> c in r.value.phone)
    ensures r.Some? ==> (r.value.text == VisitorWelcome <==> n.kind == VisitorNotice)
    ensures r.Some? ==> r.value.phone == DigitsOnly(n.visitorPhone.value)
    ensures r.Some? && n.kind == LateNotice ==> r.value.text == LateReminder
  {
    if n.visitorPhone.None? || n.visitorPhone.value == [] then None
    else
      var phone := DigitsOnly(n.visitorPhone.value);
      DigitsOnlyMembers(n.visitorPhone.value);
      assert AllDigits(phone) by {
        forall i | 0 <= i < |phone| ensures IsDigit(phone[i]) {
          assert phone[i] in phone;
        }
      }
      assert VisitorWelcome != LateReminder by {
        assert |VisitorWelcome| != |LateReminder|;
      }
      if n.kind == VisitorNotice then Some(WhatsAppMessage(phone, VisitorWelcome))
      else if n.kind == LateNotice then Some(WhatsAppMessage(phone, LateReminder))
      else None
  }
}
