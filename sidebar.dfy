/** The navigation of frontend/src/components/Sidebar.jsx: `menuItems`, built as an
    array of role conditionals compacted by `filter(Boolean)`, the Meetings badge, and
    which roles load the meeting count and see the All Users link. `role` is `user?.role`, `None` when there is no user. */
module Sidebar {
  import opened Common

  /** One menu entry; the icon is left out. */
  datatype MenuItem = MenuItem(path: string, name: string, badge: Option<int>, highlight: bool)

  const DashboardItem: MenuItem := MenuItem("/dashboard", "Dashboard", None, false)
  const ProjectsItem: MenuItem := MenuItem("/projects", "Projects", None, false)
  const AddProjectItem: MenuItem := MenuItem("/add-project", "Add Project", None, false)
  const TasksListItem: MenuItem := MenuItem("/view-tasks", "Tasks List", None, false)
  const MyTasksItem: MenuItem := MenuItem("/my-tasks", "My Tasks", None, false)
  const ChatItem: MenuItem := MenuItem("/chat", "Chat", None, true)

  /** `meetingCount > 0 ? meetingCount : null`. */
  function Badge(meetingCount: int): (b: Option<int>)
    ensures b.Some? <==> meetingCount > 0
    ensures b.Some? ==> b.value == meetingCount
  {
    if meetingCount > 0 then Some(meetingCount) else None
  }

  function MeetingsItem(meetingCount: int): MenuItem {
    MenuItem("/meetings", "Meetings", Badge(meetingCount), false)
  }

  /** The array literal before filtering: a `false` entry is `None`. */
  function Candidates(role: Option<string>, meetingCount: int): (c: seq<Option<MenuItem>>)
    ensures |c| == 8
    ensures c[0] == Some(DashboardItem) && c[6] == Some(MeetingsItem(meetingCount)) && c[7] == Some(ChatItem)
    ensures role.None? ==> forall i :: 1 <= i < 6 ==> c[i].None?
  {
    [Some(DashboardItem),
     if role == Some(Manager) then Some(ProjectsItem) else None,
     if role == Some(Manager) then Some(AddProjectItem) else None,
     if role == Some(ProjectLeader) then Some(ProjectsItem) else None,
     if role == Some(ProjectLeader) then Some(TasksListItem) else None,
     if role == Some(TeamMember) then Some(MyTasksItem) else None,
     Some(MeetingsItem(meetingCount)),
     Some(ChatItem)]
  }

  /** `filter(Boolean)`: drop the `false` entries and keep the others in order. */
  function Compact(xs: seq<Option<MenuItem>>): (r: seq<MenuItem>)
    ensures |r| <= |xs|
    ensures forall i :: 0 <= i < |r| ==> Some(r[i]) in xs
  {
    if xs == [] then []
    else
      var rest := Compact(xs[1..]);
      assert forall i :: 0 <= i < |rest| ==> Some(rest[i]) in xs by {
        forall i | 0 <= i < |rest| ensures Some(rest[i]) in xs {
          assert Some(rest[i]) in xs[1..];
        }
      }
      (if xs[0].Some? then [xs[0].value] else []) + rest
  }

  lemma {:induction false} CompactAppend(a: seq<Option<MenuItem>>, b: seq<Option<MenuItem>>)
    ensures Compact(a + b) == Compact(a) + Compact(b)
  {
    if a == [] {
      assert a + b == b;
    } else {
      assert (a + b)[1..] == a[1..] + b;
      CompactAppend(a[1..], b);
    }
  }

  /** The entries a role adds between Dashboard and Meetings. */
  function RoleItems(role: Option<string>): seq<MenuItem> {
    if role == Some(Manager) then [ProjectsItem, AddProjectItem]
    else if role == Some(ProjectLeader) then [ProjectsItem, TasksListItem]
    else if role == Some(TeamMember) then [MyTasksItem]
    else []
  }

  /** The five role conditionals, compacted, are the role's own entries. */
  lemma RoleEntries(role: Option<string>, meetingCount: int)
    ensures Compact(Candidates(role, meetingCount)[1..6]) == RoleItems(role)
  {
    var m0 := Candidates(role, meetingCount)[1..6];
    var m1 := m0[1..];
    var m2 := m1[1..];
    var m3 := m2[1..];
    var m4 := m3[1..];
    assert m4[1..] == [];
    assert Compact(m4) == (if m4[0].Some? then [m4[0].value] else []);
    assert Compact(m3) == (if m3[0].Some? then [m3[0].value] else []) + Compact(m4);
    assert Compact(m2) == (if m2[0].Some? then [m2[0].value] else []) + Compact(m3);
    assert Compact(m1) == (if m1[0].Some? then [m1[0].value] else []) + Compact(m2);
    assert Compact(m0) == (if m0[0].Some? then [m0[0].value] else []) + Compact(m1);
  }

  /** The compacted array is Dashboard, then the role's own entries, then Meetings
      and Chat. */
  lemma MenuShape(role: Option<string>, meetingCount: int)
    ensures Compact(Candidates(role, meetingCount)) ==
            [DashboardItem] + RoleItems(role) + [MeetingsItem(meetingCount), ChatItem]
  {
    var c := Candidates(role, meetingCount);
    var middle := c[1..6];
    var tail := [c[6], c[7]];
    assert c == [c[0]] + middle + tail;
    CompactAppend([c[0]] + middle, tail);
    CompactAppend([c[0]], middle);
    assert Compact(tail) == [MeetingsItem(meetingCount), ChatItem] by {
      assert tail[1..] == [c[7]];
      assert [c[7]][1..] == [];
    }
    assert Compact([c[0]]) == [DashboardItem] by {
      assert [c[0]][1..] == [];
    }
    RoleEntries(role, meetingCount);
  }

  /** `menuItems`: Dashboard, then the role's own entries, then Meetings and Chat. */
  function MenuItems(role: Option<string>, meetingCount: int): (m: seq<MenuItem>)
    ensures m == [DashboardItem] + RoleItems(role) + [MeetingsItem(meetingCount), ChatItem]
  {
    MenuShape(role, meetingCount);
    Compact(Candidates(role, meetingCount))
  }

  /** Dashboard comes first and Meetings then Chat come last, whatever the role. */
  lemma DashboardFirstChatLast(role: Option<string>, meetingCount: int)
    ensures var m := MenuItems(role, meetingCount);
            && |m| >= 3
            && m[0] == DashboardItem
            && m[|m| - 2] == MeetingsItem(meetingCount)
            && m[|m| - 1] == ChatItem
  {
  }

  /** Without a role the menu is exactly Dashboard, Meetings and Chat; so it is for
      any role outside the three known ones. */
  lemma NoRoleMenu(role: Option<string>, meetingCount: int)
    requires role != Some(Manager) && role != Some(ProjectLeader) && role != Some(TeamMember)
    ensures MenuItems(role, meetingCount) == [DashboardItem, MeetingsItem(meetingCount), ChatItem]
  {
  }

  /** Chat is the only highlighted entry, and only Meetings carries a badge, exactly
      when the count is positive. */
  lemma HighlightAndBadge(role: Option<string>, meetingCount: int)
    ensures var m := MenuItems(role, meetingCount);
            && (forall i :: 0 <= i < |m| ==> (m[i].highlight <==> m[i] == ChatItem))
            && (forall i :: 0 <= i < |m| && m[i].badge.Some? ==> m[i].name == "Meetings" && meetingCount > 0)
  {
  }

  /** The meeting count is fetched for a Manager or a Project Leader. */
  predicate LoadsMeetingCount(role: Option<string>) {
    role == Some(Manager) || role == Some(ProjectLeader)
  }

  /** The All Users link is shown to a Manager only, and it is not a `menuItems`
      entry. */
  predicate ShowsAllUsersLink(role: Option<string>) {
    role == Some(Manager)
  }

  /** The All Users link is never in the menu list; whoever sees it also has the
      Projects and Add Project entries. */
  lemma AllUsersLinkOutsideMenu(role: Option<string>, meetingCount: int)
    ensures forall i :: 0 <= i < |MenuItems(role, meetingCount)| ==> MenuItems(role, meetingCount)[i].path != "/all-users"
    ensures ShowsAllUsersLink(role) ==>
              ProjectsItem in MenuItems(role, meetingCount) && AddProjectItem in MenuItems(role, meetingCount)
  {
  }

  /** The `meetingCount` state: 0 until `fetchMeetings` stores the list's length,
      which happens only for the roles that fetch it; `fetched` is that length, `None`
      when the request failed. */
  function MeetingCount(role: Option<string>, fetched: Option<nat>): (count: nat)
    ensures count > 0 ==> LoadsMeetingCount(role) && fetched == Some(count)
    ensures LoadsMeetingCount(role) && fetched.Some? ==> count == fetched.value
  {
    if LoadsMeetingCount(role) && fetched.Some? then fetched.value else 0
  }

  /** A Team Member, or a visitor without a role, never sees a badge: the count
      stays 0 for them. A badge, when there is one, is the fetched number. */
  lemma {:induction false} BadgeOnlyForFetchingRoles(role: Option<string>, fetched: Option<nat>)
    ensures var m := MenuItems(role, MeetingCount(role, fetched));
            forall i :: 0 <= i < |m| && m[i].badge.Some? ==>
              LoadsMeetingCount(role) && fetched.Some? && m[i].badge.value == fetched.value
  {
    HighlightAndBadge(role, MeetingCount(role, fetched));
  }
}
