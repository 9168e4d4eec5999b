/** The user list of frontend/src/pages/AllUsers.jsx: `allUser` split by role into
    managers, project leaders and team members. `allUser` is `None` before the list
    has loaded. */
module AllUsers {
  import opened Common
  import Seqs

  /** `allUser?.filter(user => user.role === role) || []`. */
  function WithRole(allUser: Option<seq<Account>>, role: string): (r: seq<Account>)
    ensures allUser.None? ==> r == []
    ensures allUser.Some? ==> forall i :: 0 <= i < |r| ==> r[i] in allUser.value && r[i].role == role
    ensures allUser.Some? ==> forall i :: 0 <= i < |allUser.value| && allUser.value[i].role == role ==>
              allUser.value[i] in r
  {
    match allUser
    case None => []
    case Some(users) => Seqs.Filter(users, (u: Account) => u.role == role)
  }

  /** The three lists the page shows. */
  datatype Groups = Groups(managers: seq<Account>, projectLeaders: seq<Account>, teamMembers: seq<Account>)

  /** The page's three filters: each list holds only users of its own role. */
  function Categorize(allUser: Option<seq<Account>>): (g: Groups)
    ensures forall i :: 0 <= i < |g.managers| ==> g.managers[i].role == Manager
    ensures forall i :: 0 <= i < |g.projectLeaders| ==> g.projectLeaders[i].role == ProjectLeader
    ensures forall i :: 0 <= i < |g.teamMembers| ==> g.teamMembers[i].role == TeamMember
  {
    Groups(WithRole(allUser, Manager), WithRole(allUser, ProjectLeader), WithRole(allUser, TeamMember))
  }

  /** Each list holds exactly the users of its role; a user with another role is in
      none of them, so no user is in two lists. */
  lemma CategorizeExactly(users: seq<Account>, u: Account)
    requires u in users
    ensures var g := Categorize(Some(users));
            && (u in g.managers <==> u.role == Manager)
            && (u in g.projectLeaders <==> u.role == ProjectLeader)
            && (u in g.teamMembers <==> u.role == TeamMember)
  {
    var g := Categorize(Some(users));
    var k :| 0 <= k < |users| && users[k] == u;
    if u in g.managers {
      var i :| 0 <= i < |g.managers| && g.managers[i] == u;
    }
    if u in g.projectLeaders {
      var i :| 0 <= i < |g.projectLeaders| && g.projectLeaders[i] == u;
    }
    if u in g.teamMembers {
      var i :| 0 <= i < |g.teamMembers| && g.teamMembers[i] == u;
    }
  }

  /** The lists are pairwise disjoint, and a user with any other role is in none. */
  lemma GroupsDisjoint(allUser: Option<seq<Account>>, u: Account)
    ensures var g := Categorize(allUser);
            && !(u in g.managers && u in g.projectLeaders)
            && !(u in g.managers && u in g.teamMembers)
            && !(u in g.projectLeaders && u in g.teamMembers)
            && (u.role != Manager && u.role != ProjectLeader && u.role != TeamMember ==>
                  u !in g.managers && u !in g.projectLeaders && u !in g.teamMembers)
  {
    var g := Categorize(allUser);
    if u in g.managers {
      var i :| 0 <= i < |g.managers| && g.managers[i] == u;
    }
    if u in g.projectLeaders {
      var i :| 0 <= i < |g.projectLeaders| && g.projectLeaders[i] == u;
    }
    if u in g.teamMembers {
      var i :| 0 <= i < |g.teamMembers| && g.teamMembers[i] == u;
    }
  }

  /** Each list keeps the users in their original order: splitting the user list
      splits every group the same way. */
  lemma GroupsKeepOrder(a: seq<Account>, b: seq<Account>, role: string)
    ensures WithRole(Some(a + b), role) == WithRole(Some(a), role) + WithRole(Some(b), role)
  {
    Seqs.FilterAppend(a, b, (u: Account) => u.role == role);
  }

  /** Before the list has loaded all three groups are empty. */
  lemma NotLoadedIsEmpty()
    ensures Categorize(None) == Groups([], [], [])
  {
  }
}
